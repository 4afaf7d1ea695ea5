/** When the lifecycle refuses: every check that fails sends its thread back, and leaves the records as
    they were. */
module CpuRefusals {
  import opened CpuState
  import opened CpuSteps
  import opened CpuSolo

  // ----- the AP

  /** An entry that was not admitted for this epoch halts. */
  lemma EntryRefused(g: Shared, i: nat, c: Cpu, e: nat)
    requires c.ap == Entering(e, Begin) && !(c.b.phase == 1 && c.b.admitted == e)
    ensures ApSolo(Local(g, c), i, 3) == Local(g, c.(ap := Halted))
  {
  }

  /** One whose qualification fails is recorded as rejected. */
  lemma EntryRejected(g: Shared, i: nat, c: Cpu, e: nat)
    requires c.ap == Entering(e, Reject(0)) && c.b.phase == 1 && c.b.admitted == e
    ensures ApSolo(Local(g, c), i, 3) == Local(g, c.(b := c.b.(phase := 3), ap := Halted))
  {
  }

  lemma GivesUpBegun(g: Shared, i: nat, c: Cpu, e: nat)
    requires c.ap == Entering(e, GiveUpLock) && g.runtime == Free
    ensures ApSolo(Local(g, c), i, 2) ==
      if Allowed(c.b.state, Failed)
      then Local(g.(runtime := ByAp(i)), c.(ap := Entering(e, GiveUp(Move(c.b.state, Failed, Exchange)))))
      else Local(g, c.(ap := Halted))
  {
  }

  lemma GivesUpMoved(g: Shared, i: nat, c: Cpu, e: nat)
    requires c.ap == Entering(e, GiveUp(Move(c.b.state, Failed, Exchange)))
    ensures ApSolo(Local(g, c), i, 4) ==
      Local(g.(runtime := Free), c.(b := c.b.(state := Failed, sched := false, member := false), ap := Halted))
  {
  }

  /** One that fails later takes its slot to Failed before it halts, when the table of transitions
      allows it. */
  lemma EntryFails(g: Shared, i: nat, c: Cpu, e: nat)
    requires c.ap == Entering(e, GiveUpLock) && g.runtime == Free
    ensures Allowed(c.b.state, Failed) ==>
      ApSolo(Local(g, c), i, 6) ==
        Local(g, c.(b := c.b.(state := Failed, sched := false, member := false), ap := Halted))
    ensures !Allowed(c.b.state, Failed) ==> ApSolo(Local(g, c), i, 2) == Local(g, c.(ap := Halted))
  {
    hide ApSolo, Allowed;
    GivesUpBegun(g, i, c, e);
    if Allowed(c.b.state, Failed) {
      var l := ApSolo(Local(g, c), i, 2);
      GivesUpMoved(l.g, i, l.c, e);
      ApJoin(Local(g, c), i, 2, 4);
    }
  }

  /** A released AP that is not qualified in this epoch halts. */
  lemma ReleaseRefused(g: Shared, i: nat, c: Cpu, e: nat)
    requires c.ap == Entering(e, AwaitRelease) && c.release == e
    requires !(c.b.state == Qualified && c.b.phase == 2 && c.b.admitted == e)
    ensures ApSolo(Local(g, c), i, 3) == Local(g, c.(ap := Halted))
  {
  }

  lemma JoinGivesBack(g: Shared, i: nat, c: Cpu, e: nat)
    requires c.ap == Entering(e, JoinState) && !(c.b.state == Qualified && c.b.epoch == e)
    ensures ApSolo(Local(g, c), i, 4) == Local(g.(runtime := Free, tables := Free), c.(ap := Halted))
  {
  }

  /** publish_online gives both mutexes back and halts an AP that is no longer qualified. */
  lemma JoinRefused(g: Shared, i: nat, c: Cpu, e: nat)
    requires c.ap == Entering(e, JoinRuntime) && g.runtime == Free && g.tables == Free
    requires !(c.b.state == Qualified && c.b.epoch == e)
    ensures ApSolo(Local(g, c), i, 6) == Local(g, c.(ap := Halted))
  {
    hide ApSolo;
    JoinsLocked(g, i, c, e);
    var l := ApSolo(Local(g, c), i, 2);
    JoinGivesBack(l.g, i, l.c, e);
    ApJoin(Local(g, c), i, 2, 4);
  }

  /** A draining CPU goes on working until the request of this epoch and its interrupts are recorded. */
  lemma ParkRefused(g: Shared, i: nat, c: Cpu, e: nat) returns (n: nat)
    requires c.ap == Working(e, Running) && !g.terminal && c.b.state == Draining && c.b.installed == e != 0
    requires !(c.b.drain == e && c.b.irq == e && c.b.epoch == e)
    ensures 0 < n && ApSolo(Local(g, c), i, n) == Local(g, c)
  {
    n := if c.b.drain != e then 3 else if c.b.irq != e then 4 else 5;
    if c.b.drain != e {
      assert ApSolo(Local(g, c), i, 3) == Local(g, c);
    } else if c.b.irq != e {
      assert ApSolo(Local(g, c), i, 4) == Local(g, c);
    } else {
      assert ApSolo(Local(g, c), i, 5) == Local(g, c);
    }
  }

  /** The stop is authentic: every record names this epoch, and the CPU has left the mask. */
  predicate StopAuthentic(b: Book, e: nat, k: nat) {
    && (k <= 0 ==> b.state == StopPending) && (k <= 1 ==> b.stopReq == e) && (k <= 2 ==> b.withdrawn == e)
    && (k <= 3 ==> b.parked == e) && (k <= 4 ==> b.installed == e) && (k <= 5 ==> b.epoch == e)
    && (k <= 6 ==> !b.member)
  }

  lemma {:induction false} StopLoads(g: Shared, i: nat, c: Cpu, e: nat, armed: bool, k: nat) returns (n: nat)
    requires c.ap == Polling(e, armed, StopLoad(k)) && k <= 6 && !StopAuthentic(c.b, e, k)
    ensures ApSolo(Local(g, c), i, n) == Local(g, c.(ap := Polling(e, armed, CancelLoad)))
    decreases 6 - k
  {
    var l := ApNext(g, i, c, true);
    if l.c.ap.poll == CancelLoad {
      n := 1;
      assert ApSolo(l, i, 0) == l;
    } else {
      n := StopLoads(g, i, l.c, e, armed, k + 1);
      n := n + 1;
    }
  }

  /** A parked CPU does not stop on anything else, and keeps polling while nobody cancels. */
  lemma StopRefused(g: Shared, i: nat, c: Cpu, e: nat, armed: bool) returns (n: nat)
    requires c.ap == Polling(e, armed, Poll) && !g.terminal && c.b.cancel != e && !StopAuthentic(c.b, e, 0)
    ensures 0 < n && ApSolo(Local(g, c), i, n) == Local(g, c)
  {
    var d := c.(ap := Polling(e, armed, StopLoad(0)));
    var m := StopLoads(g, i, d, e, armed, 0);
    var f := c.(ap := Polling(e, armed, CancelLoad));
    assert ApSolo(Local(g, c), i, 1) == Local(g, d);
    assert ApSolo(Local(g, f), i, 1) == Local(g, c);
    hide ApSolo;
    ApJoin(Local(g, c), i, 1, m);
    ApJoin(Local(g, c), i, 1 + m, 1);
    n := m + 2;
  }

  /** A cancel that comes after the withdrawal is ignored. */
  lemma ResumeRefused(g: Shared, i: nat, c: Cpu, e: nat)
    requires c.ap == Polling(e, true, Poll) && !g.terminal && c.b.cancel == e && c.b.withdrawn == e
    requires c.b.state != StopPending
    ensures ApSolo(Local(g, c), i, 4) == Local(g, c)
  {
  }

  // ----- the controller

  /** Offline is refused for a wrong epoch, a system that stops, and a CPU that is not Online in the
      epoch it installed. */
  lemma DrainRefused(g: Shared, c: Cpu, w: Wire, i: nat, e: nat)
    requires CtlAt(g, i, e, Off(OffEpoch)) && g.runtime == Free && c.b.state != Offline
    requires !(e != 0 && c.b.epoch == e && !g.terminal && c.b.state == Online && c.b.installed == e)
    ensures CtlSolo(Local(g, c), w, 7) == Local(g.(ctl := Idle), c)
  {
  }

  /** The loads a withdrawal makes under the page-table owner, from load k on. */
  predicate WithdrawChecks(b: Book, ack: nat, w: Wire, i: nat, e: nat, k: nat, gen: nat, hit: bool) {
    && (k <= 0 ==> !w.diag) && (k <= 1 ==> b.epoch == e)
    && (k <= 3 ==> (i in w.reqTarget ==> ack == if k <= 2 then w.reqGen else gen))
    && (k == 4 ==> (hit ==> ack == gen))
    && (k <= 5 ==> b.state == Parked) && (k <= 6 ==> !b.sched) && b.member
  }

  /** A withdrawal is given up at the first check that fails, whatever it is, with nothing changed. */
  lemma {:induction false} WithdrawLoads(
    g: Shared, c: Cpu, w: Wire, i: nat, e: nat, k: nat, gen: nat, hit: bool) returns (n: nat)
    requires CtlAt(g, i, e, Take(OffLoad(k, gen, hit))) && k <= 7 && !WithdrawChecks(c.b, c.ack, w, i, e, k, gen, hit)
    ensures var l := CtlSolo(Local(g, c), w, n);
      l.g == g.(ctl := Busy(i, e, Take(OffGiveUp))) && (l.c == c || (!c.b.member && l.c == c.(flushed := false)))
    decreases 7 - k
  {
    var l := CtlNext(g, c, w, true);
    if l.g.ctl.at == Take(OffGiveUp) {
      n := 1;
      assert CtlSolo(l, w, 0) == l;
    } else {
      var at := l.g.ctl.at.take;
      n := WithdrawLoads(l.g, l.c, w, i, e, k + 1, at.gen, at.hit);
      n := n + 1;
    }
  }

  /** A receipt that does not hold stops a restart. */
  lemma {:induction false} ReceiptRefused(g: Shared, c: Cpu, w: Wire, i: nat, e: nat, k: nat) returns (n: nat)
    requires CtlAt(g, i, e, On(OnReceipt(k))) && k <= RECEIPT && ReceiptPrefix(c.b, e, k)
    requires !ReceiptPrefix(c.b, e, RECEIPT + 1)
    ensures CtlSolo(Local(g, c), w, n) == Local(g.(ctl := Idle), c)
    decreases RECEIPT - k
  {
    var l := CtlNext(g, c, w, true);
    if l.g.ctl == Idle {
      n := 1;
      assert CtlSolo(l, w, 0) == l;
    } else {
      n := ReceiptRefused(l.g, l.c, w, i, e, k + 1);
      n := n + 1;
    }
  }

  /** So do a wrong epoch and a system that stops. */
  lemma RestartRefused(g: Shared, c: Cpu, w: Wire, i: nat, e: nat) returns (n: nat)
    requires CtlAt(g, i, e, On(OnEpoch))
    requires !(e != 0 && !g.terminal && c.b.epoch == e && ReceiptPrefix(c.b, e, RECEIPT + 1))
    ensures CtlSolo(Local(g, c), w, n) == Local(g.(ctl := Idle), c)
  {
    if e == 0 || c.b.epoch != e || g.terminal {
      n := 2;
      assert CtlSolo(Local(g, c), w, 2) == Local(g.(ctl := Idle), c);
    } else {
      hide CtlSolo;
      RearmsBegun(g, c, w, i, e);
      var l := CtlSolo(Local(g, c), w, 2);
      n := ReceiptRefused(l.g, l.c, w, i, e, 0);
      CtlJoin(Local(g, c), w, 2, n);
      n := n + 2;
    }
  }

  /** An entered AP without a qualified admission record is failed. */
  lemma QualifyRefused(g: Shared, c: Cpu, w: Wire, i: nat, e: nat) returns (n: nat)
    requires CtlAt(g, i, e, Go(RunAwait)) && g.runtime == Free && c.b.state == Entered
    requires !(c.b.phase == 2 && c.b.admitted == e)
    ensures CtlSolo(Local(g, c), w, n) == Local(g.(ctl := Idle), c.(
      b := c.b.(state := Failed, sched := false, member := false)))
  {
    n := if c.b.phase != 2 then 2 else 3;
    var h := g.(ctl := Busy(i, e, Go(FailLock)));
    if c.b.phase != 2 {
      assert CtlSolo(Local(g, c), w, 2) == Local(h, c);
    } else {
      assert CtlSolo(Local(g, c), w, 3) == Local(h, c);
    }
    hide CtlSolo;
    Fails(h, c, w, i, e);
    CtlJoin(Local(g, c), w, n, 6);
    n := n + 6;
  }

  /** Activation releases no AP that is not qualified. */
  lemma LetRefused(g: Shared, c: Cpu, w: Wire, i: nat, e: nat)
    requires CtlAt(g, i, e, Go(LetState)) && !(c.b.state == Qualified && c.b.phase == 2 && c.b.admitted == e)
    ensures CtlSolo(Local(g, c), w, 3) == Local(g.(ctl := Idle), c)
  {
  }
}
