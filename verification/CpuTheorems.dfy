/** What the hot-unplug and shootdown protocols promise, for every schedule. */
module CpuTheorems {
  import opened CpuState
  import opened CpuSteps
  import opened CpuInvariant
  import opened CpuWire
  import opened CpuWireProof
  import opened CpuSystem
  import opened CpuHistory

  /** No TLB participant caches a translation older than the page tables, apart from pages
      whose invalidation has not succeeded yet. */
  lemma ParticipantsCoherent(s: State, i: nat, p: Page)
    requires Reachable(s) && i < |s.cpus| && s.cpus[i].b.member && p !in s.w.dirty
    ensures Fresh(s.cpus[i].tlb, s.w.pt, p)
  {
    ReachableInv(s);
    assert CpuInv(s.cpus[i], i, s.w);
    hide SlotInv;
  }

  /** When `invalidate` returns ok, no CPU that is then a participant caches a translation of the
      range from before the page-table change. */
  lemma InvalidateCoherent(s: State, cpu: nat, base: nat, pages: nat, i: nat)
    requires Reachable(s) && s.w.requester == By(cpu, RequestPc.Returned(base, pages, true))
    requires i < |s.cpus| && s.cpus[i].b.member
    ensures FreshRange(s.cpus[i].tlb, s.w.pt, base, pages)
  {
    ReachableInv(s);
    hide Cpus, Handlers, SlotInv;
    forall p: Page | base <= p < base + pages ensures Fresh(s.cpus[i].tlb, s.w.pt, p) {
      ParticipantsCoherent(s, i, p);
    }
  }

  /** Every schedulable CPU is a TLB participant. */
  lemma SchedulableParticipates(s: State, i: nat)
    requires Reachable(s) && i < |s.cpus| && s.cpus[i].b.sched
    ensures s.cpus[i].b.member
  {
    ReachableInv(s);
    if i > 0 { assert SlotInv(s.cpus[i], ViewOf(s.g, i)); }
    hide Cpus, Handlers, Published;
  }

  /** Once an epoch is marked withdrawn, whatever the threads do, the AP is not scheduled and does
      not come back to Online, Draining or the masks in that epoch. */
  lemma WithdrawnForGood(s: State, steps: seq<Step>, i: nat)
    requires Reachable(s) && 0 < i < |s.cpus| && s.cpus[i].b.withdrawn == s.cpus[i].b.epoch
    ensures |Execute(s, steps).cpus| == |s.cpus|
    ensures var d := Execute(s, steps).cpus[i].b;
      d.epoch == s.cpus[i].b.epoch ==>
        && d.withdrawn == d.epoch && !d.sched && !d.member
        && (d.state == Parked || d.state == StopPending || d.state == Offline || d.state == Terminal)
  {
    ReachableInv(s);
    RunGrows(s, steps, i);
    RunKeeps(s, steps);
    var t := Execute(s, steps);
    assert SlotInv(t.cpus[i], ViewOf(t.g, i));
    hide Cpus, Handlers, Published;
  }

  /** A receipt for (cpu, epoch) exists only if that AP parked, left the masks, flushed after the
      withdrawal, recorded its stop and halted. */
  lemma ReceiptSound(s: State, i: nat, e: nat)
    requires Reachable(s) && 0 < i < |s.cpus| && Receipt(s.cpus[i].b, e)
    ensures var c := s.cpus[i];
      && c.b.epoch == e && c.b.parked == e && c.b.withdrawn == e && c.b.stopped == e
      && !c.b.member && !c.b.sched && c.flushed && c.ap == Halted
  {
    ReachableInv(s);
    assert SlotInv(s.cpus[i], ViewOf(s.g, i));
    ReceiptHolds(s.cpus[i], ViewOf(s.g, i));
  }

  /** From a receipt on, every run either still has it, with the AP halted, or is in a later
      epoch. */
  lemma ReceiptLasts(s: State, steps: seq<Step>, i: nat, e: nat)
    requires Reachable(s) && 0 < i < |s.cpus| && Receipt(s.cpus[i].b, e)
    ensures |Execute(s, steps).cpus| == |s.cpus|
    ensures var d := Execute(s, steps).cpus[i];
      d.b.epoch > e || (Receipt(d.b, e) && d.ap == Halted && d.flushed)
  {
    ReachableInv(s);
    RunGrows(s, steps, i);
    RunKeeps(s, steps);
    var t := Execute(s, steps);
    assert SlotInv(t.cpus[i], ViewOf(t.g, i));
    if Receipt(t.cpus[i].b, e) { ReceiptHolds(t.cpus[i], ViewOf(t.g, i)); }
    hide SlotInv, Cpus, Handlers, Published;
  }

  /** The AP of a receipt executes nothing: neither its own code nor a handler. */
  lemma ReceiptStopsAp(s: State, i: nat, e: nat, pick: bool, h: nat)
    requires Reachable(s) && 0 < i < |s.cpus| && Receipt(s.cpus[i].b, e)
    ensures Apply(s, ApStep(i, pick)) == s
    ensures h < |s.w.handlers| && s.w.handlers[h].At? && s.w.handlers[h].cpu == i ==> Apply(s, HandlerStep(h)) == s
  {
    ReceiptSound(s, i, e);
    assert s.cpus[i := s.cpus[i]] == s.cpus;
  }

  /** A restart spends the receipt: in a later epoch it never passes again. */
  lemma ReceiptSpent(s: State, steps: seq<Step>, i: nat, e: nat)
    requires Reachable(s) && 0 < i < |s.cpus| && s.cpus[i].b.epoch > e
    ensures |Execute(s, steps).cpus| == |s.cpus|
    ensures Execute(s, steps).cpus[i].b.epoch > e && !Receipt(Execute(s, steps).cpus[i].b, e)
  {
    ReachableInv(s);
    RunGrows(s, steps, i);
  }

  /** The epoch only moves to the next one, and only on a reusable receipt for the current one. */
  lemma EpochNeedsReceipt(s: State, step: Step, i: nat)
    requires Reachable(s) && 0 < i < |s.cpus|
    ensures |Apply(s, step).cpus| == |s.cpus|
    ensures var b, d := s.cpus[i].b, Apply(s, step).cpus[i].b;
      d.epoch != b.epoch ==> d.epoch == b.epoch + 1 && Receipt(b, b.epoch) && b.retired == b.epoch
  {
    ReachableInv(s);
    StepGrows(s, step, i);
  }

  /** A CPU is recorded as retired only while its stop receipt holds. */
  lemma RetiredHasReceipt(s: State, i: nat)
    requires Reachable(s) && 0 < i < |s.cpus| && s.cpus[i].b.retired == s.cpus[i].b.epoch
    ensures Receipt(s.cpus[i].b, s.cpus[i].b.epoch)
  {
    hide Inv;
    var s0, steps: seq<Step> :| Init(s0) && s == Execute(s0, steps);
    InitHolds(s0);
    SameCount(s0, steps);
    RunGrows(s0, steps, i);
  }

  lemma {:induction false} SameCount(s: State, steps: seq<Step>)
    ensures |Execute(s, steps).cpus| == |s.cpus|
    decreases |steps|
  {
    if steps != [] {
      StepCount(s, steps[0]);
      hide Apply;
      SameCount(Apply(s, steps[0]), steps[1..]);
    }
  }

  lemma StepCount(s: State, step: Step)
    ensures |Apply(s, step).cpus| == |s.cpus|
  {
    hide ApNext, CtlNext, ShutdownNext;
  }

  /** The SIPI only ever wakes a halted AP. */
  lemma SipiFindsHalted(s: State)
    requires Reachable(s) && s.g.ctl.Busy? && s.g.ctl.at == Go(RunSipi)
    ensures s.g.ctl.i < |s.cpus| && s.cpus[s.g.ctl.i].ap == Halted
  {
    ReachableInv(s);
    assert SlotInv(s.cpus[s.g.ctl.i], ViewOf(s.g, s.g.ctl.i));
    hide BookInv, Cpus, Handlers, Published;
    CtlQuieter(s.g, s.cpus[s.g.ctl.i], s.w, true);
  }
}
