/** The inductive invariant of the hot-unplug protocol for one CPU slot.

    `SlotInv` speaks about one slot and about what the controller and the shutdown thread do to
    that slot (its `View`); two slots only meet through the two mutexes, so a step on one slot
    leaves the views, and hence the invariants, of all others alone. */
module CpuInvariant {
  import opened CpuState

  /** What slot i sees of the other threads. */
  datatype View = View(ctl: Ctl, stop: Stopper, runtime: bool, tables: bool)

  function ViewOf(g: Shared, i: nat): View {
    View(if g.ctl != Idle && g.ctl.i == i then g.ctl else Idle,
         if g.stop != Resting && g.stop.i == i then g.stop else Resting,
         g.runtime == ByAp(i), g.tables == ByAp(i))
  }

  // ----- who holds which mutex

  predicate ApRuntime(ap: Ap) {
    match ap
    case Entering(_, at) =>
      at.GiveUpState? || at.GiveUp? || at.Enter? || at.JoinTables? || at.JoinBack? || at.JoinRefuseRuntime? ||
          EntryTables(at)
    case Granted(_, _) => true
    case Working(_, at) =>
      at.StopIpi? || at.IdleState? || at.IdleIrqAgain? || at.IdleReceipt? || at.IdleExchange? || at.IdleUnlock?
    case Dying(_, _) => true
    case Parking(_, at) => at.ParkMask? || at.ParkUnlock?
    case Cancelling(_, _, at) => !at.CancelWithdrawn? && !at.ResumeTry?
    case Returning(_, _) => true
    case _ => false
  }

  predicate EntryTables(at: EntryPc) {
    at.JoinState? || at.JoinEpoch? || at.JoinFlush? || at.JoinExchange? || at.JoinRefuse?
  }

  predicate ApTables(ap: Ap) {
    match ap
    case Entering(_, at) => EntryTables(at)
    case Granted(_, at) => !at.GrantRuntime?
    case _ => false
  }

  predicate CtlRuntime(ctl: Ctl) {
    ctl.Busy? && RuntimePc(ctl.at)
  }

  predicate RuntimePc(at: CtlPc) {
    match at
    case Off(x) => x.OffState? || x.OffInstalled? || x.OffReset? || x.OffDrain? || x.OffBegin? || x.OffUnlock? ||
      x.OffRefused?
    case Take(x) => false
    case Can(x) => x.CanWithdrawn? || x.CanState? || x.CanResume? || x.CanDrain? || x.CanParked? || x.CanStore? ||
      x.CanUnlock?
    case On(x) => x.OnSlot?
    case Go(x) => x.Run? || x.Qual? || x.FailState? || x.Fail?
  }

  predicate CtlTables(ctl: Ctl) {
    ctl.Busy? && TablesPc(ctl.at)
  }

  predicate TablesPc(at: CtlPc) {
    match at
    case Off(x) => false
    case Take(x) => x.OffLoad? || x.OffGiveUp? || x.OffGen? || x.OffWithdrawn? || x.OffTablesDone?
    case Can(x) => false
    case On(x) => x.OnRearm? || x.OnAck? || x.OnTablesDone?
    case Go(x) => false
  }

  predicate LockInv(g: Shared, n: nat) {
    && (g.runtime == ByController <==> CtlRuntime(g.ctl))
    && (g.runtime == ByStopper <==> g.stop.Stopping?)
    && g.runtime != ByRequester
    && (g.tables == ByController <==> CtlTables(g.ctl))
    && g.tables != ByStopper
    && (g.ctl != Idle ==> 0 < g.ctl.i < n)
    && (g.stop != Resting ==> 0 < g.stop.i < n)
    && (g.stop.StopLock? ==> g.stop.from == Online || g.stop.from == Draining)
  }

  // ----- where the AP is

  /** The part of its program an AP is in, as far as the other threads are concerned. */
  datatype Zone =
    | AtRest            // halted, before INIT or after a stop
    | InEntry           // from the entry to the grant of membership
    | InGrant           // owns the Online state, mask bit not yet set
    | InJoin            // member, publishing itself
    | AtWork            // the scheduler loop and an idle checkpoint that has not parked
    | InPark            // parked, not yet flushed and recorded
    | InPoll            // the parked poll loop
    | InLeave           // terminal stop: out of the mask, state not yet exchanged
    | InCancel          // saw its cancel request
    | InReturn          // Online again, cancel request not yet cleared
    | Returned          // Online again, still holding the Runtime owner
    | InDeath           // terminal stop of a running CPU
    | InStop            // Offline, stop not yet recorded

  function ZoneOf(ap: Ap): Zone {
    match ap
    case Bsp => AtRest
    case Halted => AtRest
    case Entering(_, _) => InEntry
    case Granted(_, at) => if at.GrantMask? && at.m.stage == JoinMask then InGrant else InJoin
    case Working(_, _) => AtWork
    case Dying(_, _) => InDeath
    case Parking(_, _) => InPark
    case Polling(_, _, _) => InPoll
    case Leaving(_, _, _) => InLeave
    case Stopped(_) => InStop
    case Cancelling(_, _, _) => InCancel
    case Returning(_, at) => if at.ResumeMask? || at.ResumeClearCancel? then InReturn else Zone.Returned
  }

  /** Which zones go with which state. */
  predicate PlaceInv(state: Life, z: Zone) {
    match state
    case Detected => z == AtRest
    case Starting => z == AtRest || z == InEntry
    case Entered => z == AtRest || z == InEntry
    case Qualified => z == AtRest || z == InEntry
    case Failed => z == AtRest || z == InEntry
    case Online => z == InGrant || z == InJoin || z == AtWork || z == InReturn || z == Zone.Returned
    case Draining => z == AtWork
    case TerminalPending => z == AtWork
    case Terminal => z == AtRest || z == InDeath
    case Parked => z == InPark || z == InPoll || z == InLeave || z == InCancel
    case StopPending => z == InPoll || z == InLeave
    case Offline => z == InStop || z == AtRest
  }

  predicate BookEpochs(b: Book) {
    && b.epoch > 1
    && b.installed <= b.epoch && b.drain <= b.epoch && b.parked <= b.epoch && b.withdrawn <= b.epoch
    && b.stopReq <= b.epoch && b.stopped <= b.epoch && b.retired <= b.epoch && b.irq <= b.epoch
  }

  /** The two mask bits of this CPU: a schedulable CPU is a TLB participant. */
  predicate MaskInv(b: Book, z: Zone) {
    && (b.sched ==> b.member && (b.state == Online || b.state == Draining || b.state == TerminalPending))
    && match b.state
       case Online => b.member || z == InGrant
       case Draining => b.member
       case TerminalPending => true
       case Terminal => true
       case Parked => true
       case _ => !b.member
  }

  /** What the records of this CPU promise. */
  predicate RecordInv(b: Book, z: Zone) {
    && (b.withdrawn == b.epoch ==>
          && (b.state == Parked || b.state == StopPending || b.state == Offline || b.state == Terminal)
          && !b.member && b.parked == b.epoch && b.cancel == 0)
    && (b.stopReq == b.epoch ==> b.withdrawn == b.epoch)
    && (b.stopped == b.epoch ==> b.stopReq == b.epoch && b.state == Offline && z == AtRest)
    && (b.cancel != 0 ==>
          && b.cancel == b.epoch
          && (b.state == Parked || b.state == Terminal || (b.state == Online && z == InReturn)))
    && (z == InCancel ==> b.cancel == b.epoch)
    && (z == InPark ==> b.parked != b.epoch)
    && (z == InLeave ==> !b.member)
    && (z == InStop ==> b.stopReq == b.epoch)
    && (b.state == StopPending ==> b.stopReq == b.epoch)
  }

  /** The part of the invariant that does not mention the other two threads. */
  predicate BookBase(b: Book, z: Zone) {
    PlaceInv(b.state, z) && BookEpochs(b) && MaskInv(b, z) && RecordInv(b, z)
  }

  /** A live AP works for the current epoch, which it has installed. */
  predicate ApEpoch(c: Cpu) {
    && c.ap != Bsp
    && (c.ap != Halted ==> c.ap.e == c.b.epoch)
    && (c.ap == Halted || (c.ap.Entering? && (c.ap.entry.Begin? || c.ap.entry.Install? || c.ap.entry.Reject?)) ||
         c.b.installed == c.b.epoch)
  }

  /** Only a parked CPU changes its state under a terminal stop. */
  predicate Seen(seen: Life, state: Life) {
    seen == Parked || (seen == state && (seen == StopPending || seen == TerminalPending))
  }

  /** Local facts the AP established by its own loads. */
  predicate ApFacts(state: Life, ap: Ap) {
    match ap
    case Entering(_, at) =>
      (match at
       case GiveUp(m) => m.to == Failed
                         && (if m.stage == Exchange then m.from == state && Allowed(m.from, Failed)
                             else (state == Failed
                                   && (m.stage == LeaveMask || m.stage == UnscheduleMask || m.stage.Settled?)))
       case Enter(m) => m.to == Entered && m.from == Starting &&
         (m.stage == Exchange || m.stage == UnscheduleMask || m.stage.Settled?)
       case JoinEpoch => state == Qualified
       case JoinFlush => state == Qualified
       case JoinExchange => state == Qualified
       case _ => true)
    case Granted(_, at) => at.GrantMask? ==> Masking(at.m.stage)
    case Working(_, at) => at.IdleIrqAgain? || at.IdleReceipt? || at.IdleExchange? ==> state == Draining
    case Dying(_, m) => m.to == Terminal && (m.stage == LeaveMask || Unmasking(m.stage))
    case Parking(_, at) => at.ParkMask? ==> Unmasking(at.m.stage) && at.m.to == Parked
    case Polling(_, _, at) =>
      (match at
       case TermSched(seen) => Seen(seen, state)
       case TermLeave(seen) => Seen(seen, state)
       case StopLoad(k) => k > 0 ==> state == StopPending
       case StopFlush => state == StopPending
       case StopConfirm(_) => state == StopPending
       case _ => true)
    case Leaving(_, _, seen) => Seen(seen, state)
    case Cancelling(_, _, at) => at.ResumeExchange? ==> at.from == state
    case Returning(_, at) => at.ResumeMask? ==> Masking(at.m.stage)
    case _ => true
  }

  /** A recorded stop, and the way to it, follow a full flush after the withdrawal. */
  predicate FlushInv(c: Cpu) {
    c.b.stopped == c.b.epoch || c.ap.Stopped? || (c.ap.Polling? && c.ap.poll.StopConfirm?) ==> c.flushed
  }

  // ----- where the controller is

  /** What the controller has established about the slot, whatever its exact program point. */
  datatype Duty =
    | Nothing
    | Known(e: nat)            // e is the current epoch
    | Receipting(e: nat, k: nat)
    | Reset(e: nat, k: nat)
    | Drain(e: nat)            // the drain can still be cancelled
    | Idled(e: nat)            // the AP recorded its park
    | Withdrawing(e: nat)      // out of the mask, not yet recorded
    | Withdrawn(e: nat, armed: bool)
    | Undrained(e: nat)
    | Rearm(e: nat, k: nat)    // holds a reusable receipt
    | NewEpoch(e: nat)
    | Reborn(e: nat)
    | Boot(e: nat)
    | Launching(e: nat)
    | Launched

  function DutyOf(ctl: Ctl): Duty {
    if ctl == Idle then Nothing else DutyAt(ctl.e, ctl.at)
  }

  function DutyAt(e: nat, at: CtlPc): Duty {
    match at
    case Off(x) => OffDuty(e, x)
    case Take(x) => TakeDuty(e, x)
    case Can(x) => CanDuty(e, x)
    case On(x) => OnDuty(e, x)
    case Go(x) => GoDuty(e, x)
  }

  function OffDuty(e: nat, at: OffPc): Duty {
    match at
    case OffEpoch => Nothing
    case OffTerminal => Known(e)
    case OffReceipt(k) => Receipting(e, k)
    case OffLock => Known(e)
    case OffState => Known(e)
    case OffInstalled => Reset(e, 0)
    case OffReset(k) => Reset(e, k + 1)
    case OffDrain => Reset(e, 8)
    case OffBegin(m) => if m.stage == Exchange then Reset(e, 9) else Drain(e)
    case OffUnlock => Drain(e)
    case OffRefused => Known(e)
    case OffMigrate => Drain(e)
    case OffIrq => Drain(e)
    case OffRequest => Drain(e)
    case OffWait => Drain(e)
  }

  function TakeDuty(e: nat, at: TakePc): Duty {
    match at
    case OffMove => Idled(e)
    case OffTables => Idled(e)
    case OffLoad(_, _, _) => Idled(e)
    case OffGiveUp => Idled(e)
    case OffGen(_) => Withdrawing(e)
    case OffWithdrawn => Withdrawing(e)
    case OffTablesDone => Withdrawn(e, false)
    case OffStopReq => Withdrawn(e, false)
    case OffArm(_) => Withdrawn(e, true)
    case OffAwait => Known(e)
    case OffConfirm(k) => Receipting(e, k)
    case OffRetire => Receipting(e, RECEIPT)
  }

  function CanDuty(e: nat, at: CanPc): Duty {
    match at
    case CanLock => Drain(e)
    case CanWithdrawn => Drain(e)
    case CanState => Drain(e)
    case CanResume(m) => if m.stage == Exchange then Drain(e) else Undrained(e)
    case CanDrain => Undrained(e)
    case CanParked => Drain(e)
    case CanStore => Drain(e)
    case CanUnlock => Known(e)
    case CanWait => Known(e)
  }

  function OnDuty(e: nat, at: OnPc): Duty {
    match at
    case OnEpoch => Nothing
    case OnTerminal => Known(e)
    case OnReceipt(k) => Receipting(e, k)
    case OnCurrent(_) => Rearm(e, 0)
    case OnTables => Rearm(e, 0)
    case OnRearm(_) => Rearm(e, 0)
    case OnAck => Rearm(e, 0)
    case OnTablesDone(_) => Rearm(e, 0)
    case OnAdmit(k) => Rearm(e, k)
    case OnTopology(_) => Rearm(e, 0)
    case OnRelease => NewEpoch(e)
    case OnSlotEpoch => NewEpoch(e)
    case OnSlotLock => NewEpoch(e)
    case OnSlot(m) => if m.stage == Exchange then NewEpoch(e) else Reborn(e)
  }

  function GoDuty(e: nat, at: GoPc): Duty {
    match at
    case BootAdmit(k) => if k == 0 then Known(e) else Boot(e)
    case RunLock => Reborn(e)
    case Run(m) => if m.stage == Exchange then Reborn(e) else Launching(e)
    case RunSipi => Launching(e)
    case LetState => Known(e)
    case SeeState => Known(e)
    case _ => Launched
  }

  /** From the drain request to the last moment a cancel is possible. */
  predicate DrainFacts(b: Book, e: nat) {
    && e == b.epoch == b.installed && b.drain == e && b.cancel == 0
    && b.withdrawn != e && b.stopReq != e && b.stopped != e
    && (b.state == Draining || b.state == Parked || b.state == TerminalPending || b.state == Terminal)
    && (b.state == Draining || b.state == TerminalPending ==> b.parked != e)
  }

  predicate DutyFacts(b: Book, z: Zone, d: Duty) {
    match d
    case Nothing => true
    case Known(e) => e == b.epoch
    case Receipting(e, k) => e == b.epoch && k <= RECEIPT && ReceiptPrefix(b, e, k)
    case Reset(e, k) =>
      && e == b.epoch && b.state == Online && z == AtWork
      && (k > 0 ==> b.installed == e)
      && (k > 2 ==> b.parked == 0) && (k > 3 ==> b.withdrawn == 0) && (k > 4 ==> b.stopReq == 0)
      && (k > 5 ==> b.stopped == 0) && (k > 8 ==> b.drain == e)
    case Drain(e) => DrainFacts(b, e)
    case Idled(e) => DrainFacts(b, e) && b.parked == e
    case Withdrawing(e) => DrainFacts(b, e) && b.parked == e && !b.member
    case Withdrawn(e, armed) => e == b.epoch && b.withdrawn == e && (armed ==> b.stopReq == e)
    case Undrained(e) => e == b.epoch && b.state == Online && z == AtWork
    case Rearm(e, k) => ReceiptPrefix(b, e, RECEIPT + 1) && (k > 3 <==> b.phase == 0)
    case NewEpoch(e) => e == b.epoch && b.state == Offline && z == AtRest && b.phase != 0 && b.withdrawn != e
    case Reborn(e) => e == b.epoch && b.state == Detected && b.phase != 0
    case Boot(e) => e == b.epoch && b.state == Detected && b.phase == 0
    case Launching(e) => e == b.epoch && b.state == Starting && z == AtRest && b.phase != 0
    case Launched => b.phase != 0
  }

  predicate Unmasking(stage: Stage) {
    stage == UnscheduleMask || stage == Settled(true)
  }

  predicate Masking(stage: Stage) {
    stage == JoinMask || stage == ScheduleMask || stage == Settled(true)
  }

  /** Transitions the controller has in flight, and what it read right before them. */
  predicate CtlMove(state: Life, ctl: Ctl) {
    ctl.Busy? ==> MovePc(state, ctl.at)
  }

  predicate MovePc(state: Life, at: CtlPc) {
    match at
    case Off(x) =>
      (match x
       case OffBegin(m) => m.from == Online && m.to == Draining &&
         (m.stage == Exchange || (Unmasking(m.stage) && state == Draining))
       case _ => true)
    case Take(x) =>
      (match x
       case OffConfirm(k) => k < RECEIPT
       case _ => true)
    case Can(x) =>
      (match x
       case CanResume(m) => m.from == Draining && m.to == Online &&
         (if m.stage == Exchange then state == Draining else Masking(m.stage))
       case CanParked => state != Draining
       case CanStore => state == Parked || state == Terminal
       case _ => true)
    case On(x) =>
      (match x
       case OnSlot(m) => m.from == Offline && m.to == Detected && (m.stage == Exchange || Unmasking(m.stage))
       case _ => true)
    case Go(x) =>
      (match x
       case Run(m) => m.from == Detected && m.to == Starting && (m.stage == Exchange || Unmasking(m.stage))
       case Qual(m) => m.from == Entered && m.to == Qualified &&
         (m.stage == Exchange || m.stage == Settled(false) || (Unmasking(m.stage) && state == Qualified))
       case Fail(m) => m.to == Failed
                             && (if m.stage == Exchange then state == m.from && Allowed(m.from, Failed)
                                 else state == Failed && (m.stage == LeaveMask || Unmasking(m.stage)))
       case _ => true)
  }

  /** What only the controller explains: a parked non-member, an unadmitted slot, a drain. */
  predicate DutyLink(b: Book, z: Zone, d: Duty) {
    && (b.state == Parked ==> b.member || b.withdrawn == b.epoch || d.Withdrawing? || z == InLeave)
    && (b.phase == 0 ==> b.state == Detected || (d.Rearm? && d.k > 3))
    && (b.state == Draining ==> d.Drain?)
    && DutyFacts(b, z, d)
  }

  predicate Unscheduling(ctl: Ctl) {
    ctl.Busy? && ctl.at.Off? && ctl.at.off.OffBegin? && ctl.at.off.m.stage == UnscheduleMask
  }

  /** A schedulable CPU that is not Online is just being unscheduled. */
  predicate StopLink(state: Life, sched: bool, ctl: Ctl, stop: Stopper) {
    && (sched && state == Draining ==> Unscheduling(ctl))
    && (sched && state == TerminalPending ==> stop.Stopping? && stop.m.stage == UnscheduleMask)
    && (stop.Stopping? ==>
          && stop.m.to == TerminalPending && (stop.m.from == Online || stop.m.from == Draining)
          && (stop.m.stage == Exchange || stop.m.stage == UnscheduleMask || stop.m.stage.Settled?)
          && (stop.m.stage == UnscheduleMask ==> state == TerminalPending))
  }

  /** The part of the invariant that only reads the book, the zone and the other two threads. */
  predicate BookInv(b: Book, z: Zone, ctl: Ctl, stop: Stopper) {
    BookBase(b, z) && DutyLink(b, z, DutyOf(ctl)) && CtlMove(b.state, ctl) && StopLink(b.state, b.sched, ctl, stop)
  }

  predicate SlotInv(c: Cpu, v: View) {
    && (ApRuntime(c.ap) <==> v.runtime)
    && (ApTables(c.ap) <==> v.tables)
    && ApEpoch(c) && ApFacts(c.b.state, c.ap) && FlushInv(c) && BookInv(c.b, ZoneOf(c.ap), v.ctl, v.stop)
  }
}
