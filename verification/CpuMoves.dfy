/** How the cells and the zone of one slot may change under an AP: one lemma per kind of change.
    `Quiet` says that neither the controller nor the shutdown thread holds the Runtime owner. */
module CpuMoves {
  import opened CpuState
  import opened CpuInvariant

  predicate Quiet(ctl: Ctl, stop: Stopper) {
    !CtlRuntime(ctl) && !stop.Stopping?
  }

  lemma EntryRests(b: Book, ctl: Ctl, stop: Stopper)
    requires BookInv(b, InEntry, ctl, stop)
    ensures BookInv(b, AtRest, ctl, stop)
  {
  }

  lemma EntryInstalls(b: Book, ctl: Ctl, stop: Stopper)
    requires BookInv(b, InEntry, ctl, stop)
    ensures BookInv(b.(installed := b.epoch), InEntry, ctl, stop)
  {
  }

  lemma EntryPhase(b: Book, p: nat, ctl: Ctl, stop: Stopper)
    requires BookInv(b, InEntry, ctl, stop) && p != 0
    ensures BookInv(b.(phase := p), InEntry, ctl, stop)
  {
  }

  lemma EntryEnters(b: Book, ctl: Ctl, stop: Stopper)
    requires BookInv(b, InEntry, ctl, stop) && b.state == Starting && Quiet(ctl, stop)
    ensures BookInv(b.(state := Entered), InEntry, ctl, stop)
  {
  }

  lemma EntryFails(b: Book, ctl: Ctl, stop: Stopper)
    requires BookInv(b, InEntry, ctl, stop) && Quiet(ctl, stop)
    ensures BookInv(b.(state := Failed), InEntry, ctl, stop)
  {
  }

  lemma EntryUnmasked(b: Book, ctl: Ctl, stop: Stopper)
    requires BookInv(b, InEntry, ctl, stop)
    ensures b.(sched := false) == b && b.(member := false) == b
  {
  }

  lemma Grants(b: Book, ctl: Ctl, stop: Stopper)
    requires BookInv(b, InEntry, ctl, stop) && b.state == Qualified && Quiet(ctl, stop)
    ensures BookInv(b.(state := Online), InGrant, ctl, stop)
  {
  }

  lemma GrantMasks(b: Book, ctl: Ctl, stop: Stopper)
    requires BookInv(b, InGrant, ctl, stop) && Quiet(ctl, stop)
    ensures BookInv(b.(member := true), InJoin, ctl, stop)
  {
  }

  lemma Schedules(b: Book, z: Zone, ctl: Ctl, stop: Stopper)
    requires BookInv(b, z, ctl, stop) && (z == InJoin || z == InReturn) && Quiet(ctl, stop)
    ensures BookInv(b.(sched := true), z, ctl, stop)
  {
  }

  lemma StartsWork(b: Book, z: Zone, ctl: Ctl, stop: Stopper)
    requires BookInv(b, z, ctl, stop) && (z == InJoin || z == Zone.Returned) && Quiet(ctl, stop)
    ensures BookInv(b, AtWork, ctl, stop)
  {
  }

  lemma Dies(b: Book, ctl: Ctl, stop: Stopper)
    requires BookInv(b, AtWork, ctl, stop) && b.state == TerminalPending && Quiet(ctl, stop)
    ensures BookInv(b.(state := Terminal), InDeath, ctl, stop)
  {
  }

  lemma DeathMasks(b: Book, ctl: Ctl, stop: Stopper)
    requires BookInv(b, InDeath, ctl, stop)
    ensures BookInv(b.(member := false), InDeath, ctl, stop)
  {
  }

  lemma DeathRests(b: Book, ctl: Ctl, stop: Stopper)
    requires BookInv(b, InDeath, ctl, stop)
    ensures b.(sched := false) == b
    ensures BookInv(b, AtRest, ctl, stop)
  {
  }

  lemma Parks(b: Book, ctl: Ctl, stop: Stopper)
    requires BookInv(b, AtWork, ctl, stop) && b.state == Draining && Quiet(ctl, stop)
    ensures BookInv(b.(state := Parked), InPark, ctl, stop)
  {
  }

  lemma ParkUnmasked(b: Book, z: Zone, ctl: Ctl, stop: Stopper)
    requires BookInv(b, z, ctl, stop) && (z == InPark || z == InPoll)
    ensures b.(sched := false) == b
  {
  }

  lemma ParkRecords(b: Book, ctl: Ctl, stop: Stopper)
    requires BookInv(b, InPark, ctl, stop)
    ensures BookInv(b, InPoll, ctl, stop)
    ensures BookInv(b.(parked := b.epoch), InPoll, ctl, stop)
  {
  }

  lemma Leaves(b: Book, ctl: Ctl, stop: Stopper)
    requires BookInv(b, InPoll, ctl, stop)
    ensures BookInv(b.(member := false), InLeave, ctl, stop)
  {
  }

  lemma LeavesForGood(b: Book, ctl: Ctl, stop: Stopper)
    requires BookInv(b, InLeave, ctl, stop)
    ensures BookInv(b.(state := Terminal), AtRest, ctl, stop)
  {
  }

  lemma LeavesLate(b: Book, ctl: Ctl, stop: Stopper)
    requires BookInv(b, InLeave, ctl, stop) && b.state != Parked
    ensures BookInv(b, InPoll, ctl, stop)
  {
  }

  lemma Stops(b: Book, ctl: Ctl, stop: Stopper)
    requires BookInv(b, InPoll, ctl, stop) && b.state == StopPending
    ensures BookInv(b.(state := Offline), InStop, ctl, stop)
  {
  }

  lemma StopRecords(b: Book, ctl: Ctl, stop: Stopper)
    requires BookInv(b, InStop, ctl, stop)
    ensures BookInv(b.(stopped := b.epoch), AtRest, ctl, stop)
  {
  }

  lemma SeesCancel(b: Book, ctl: Ctl, stop: Stopper)
    requires BookInv(b, InPoll, ctl, stop) && b.cancel == b.epoch
    ensures BookInv(b, InCancel, ctl, stop)
  {
  }

  lemma GivesUpCancel(b: Book, ctl: Ctl, stop: Stopper)
    requires BookInv(b, InCancel, ctl, stop)
    ensures BookInv(b, InPoll, ctl, stop)
  {
  }

  lemma Resumes(b: Book, ctl: Ctl, stop: Stopper)
    requires BookInv(b, InCancel, ctl, stop) && Quiet(ctl, stop)
    ensures BookInv(b.(state := Online), InReturn, ctl, stop)
  {
  }

  lemma ResumeMasks(b: Book, ctl: Ctl, stop: Stopper)
    requires BookInv(b, InReturn, ctl, stop)
    ensures b.(member := true) == b
  {
  }

  lemma ResumeClears(b: Book, ctl: Ctl, stop: Stopper)
    requires BookInv(b, InReturn, ctl, stop) && Quiet(ctl, stop)
    ensures BookInv(b.(cancel := 0), Zone.Returned, ctl, stop)
  {
  }

  lemma ResumeUndrains(b: Book, ctl: Ctl, stop: Stopper)
    requires BookInv(b, Zone.Returned, ctl, stop) && Quiet(ctl, stop)
    ensures BookInv(b.(drain := 0), Zone.Returned, ctl, stop)
  {
  }
}
