/** Threads that run alone: what the AP or the controller achieves by its own next steps when every
    choice the model leaves open goes its way. */
module CpuSolo {
  import opened CpuState
  import opened CpuSteps

  /** n steps of the AP on slot i. */
  function ApSolo(l: Local, i: nat, n: nat): Local
    decreases n
  {
    if n == 0 then l else ApSolo(ApNext(l.g, i, l.c, true), i, n - 1)
  }

  /** n steps of the controller. */
  function CtlSolo(l: Local, w: Wire, n: nat): Local
    decreases n
  {
    if n == 0 then l else CtlSolo(CtlNext(l.g, l.c, w, true), w, n - 1)
  }

  lemma {:induction false} ApJoin(l: Local, i: nat, m: nat, n: nat)
    ensures ApSolo(l, i, m + n) == ApSolo(ApSolo(l, i, m), i, n)
    decreases m
  {
    hide ApNext;
    if m > 0 { ApJoin(ApNext(l.g, i, l.c, true), i, m - 1, n); }
  }

  lemma {:induction false} CtlJoin(l: Local, w: Wire, m: nat, n: nat)
    ensures CtlSolo(l, w, m + n) == CtlSolo(CtlSolo(l, w, m), w, n)
    decreases m
  {
    hide CtlNext;
    if m > 0 { CtlJoin(CtlNext(l.g, l.c, w, true), w, m - 1, n); }
  }

  lemma {:induction false} ExecuteJoin(s: State, a: seq<Step>, b: seq<Step>)
    ensures Execute(s, a + b) == Execute(Execute(s, a), b)
    decreases |a|
  {
    hide Apply;
    if a == [] {
      assert a + b == b;
    } else {
      assert (a + b)[1..] == a[1..] + b;
      ExecuteJoin(Apply(s, a[0]), a[1..], b);
    }
  }

  /** Whose steps a run consists of: the controller and one AP, the shootdown, or the shutdown with
      the AP it stops. */
  datatype Crew = Lifecycle(i: nat) | Shootdown | Shutdown(i: nat)

  predicate Belongs(step: Step, crew: Crew) {
    match step
    case ApStep(j, _) => (crew.Lifecycle? || crew.Shutdown?) && j == crew.i
    case Command(cmd) => crew.Lifecycle? && cmd.i == crew.i
    case CtlStep(_) => crew.Lifecycle?
    case RaiseTerminal => crew.Shutdown?
    case StartStop(j) => crew.Shutdown? && j == crew.i
    case StopStep => crew.Shutdown?
    case RequestStep(_) => crew.Shootdown?
    case StartHandler(_, _, _) => crew.Shootdown?
    case HandlerStep(_) => crew.Shootdown?
    case _ => false
  }

  /** Steps of the crew alone lead from s to t. */
  ghost predicate Leads(s: State, crew: Crew, t: State) {
    exists steps: seq<Step> :: (forall k :: 0 <= k < |steps| ==> Belongs(steps[k], crew)) && Execute(s, steps) == t
  }

  lemma LeadsJoin(s: State, crew: Crew, t: State, u: State)
    requires Leads(s, crew, t) && Leads(t, crew, u)
    ensures Leads(s, crew, u)
  {
    hide Apply, Execute;
    var a: seq<Step> :| (forall k :: 0 <= k < |a| ==> Belongs(a[k], crew)) && Execute(s, a) == t;
    var b: seq<Step> :| (forall k :: 0 <= k < |b| ==> Belongs(b[k], crew)) && Execute(t, b) == u;
    ExecuteJoin(s, a, b);
    assert forall k :: 0 <= k < |a + b| ==> Belongs((a + b)[k], crew);
  }

  lemma LeadsNowhere(s: State, crew: Crew)
    ensures Leads(s, crew, s)
  {
    assert Execute(s, []) == s;
  }

  lemma LeadsStep(s: State, crew: Crew, step: Step)
    requires Belongs(step, crew)
    ensures Leads(s, crew, Apply(s, step))
  {
    hide Apply;
    assert [step][1..] == [];
    assert Execute(Apply(s, step), []) == Apply(s, step);
    assert Execute(s, [step]) == Apply(s, step);
  }

  // ----- the AP

  /** r4os_ap_entry up to the wait for its release. */
  lemma Enters(g: Shared, i: nat, c: Cpu, e: nat)
    requires c.ap == Entering(e, Begin) && g.runtime == Free
    requires c.b.phase == 1 && c.b.admitted == e && c.b.state == Starting
    ensures ApSolo(Local(g, c), i, 9) == Local(g, c.(
      b := c.b.(installed := e, phase := 2, state := Entered, sched := false),
      tlb := map[], flushed := true, ap := Entering(e, AwaitRelease)))
  {
  }

  /** The released AP finds itself qualified. */
  lemma Released(g: Shared, i: nat, c: Cpu, e: nat)
    requires c.ap == Entering(e, AwaitRelease) && !g.terminal && c.release == e
    requires c.b.state == Qualified && c.b.phase == 2 && c.b.admitted == e && c.b.epoch == e
    ensures ApSolo(Local(g, c), i, 6) == Local(g, c.(ap := Entering(e, JoinRuntime)))
  {
  }

  lemma JoinsLocked(g: Shared, i: nat, c: Cpu, e: nat)
    requires c.ap == Entering(e, JoinRuntime) && g.runtime == Free && g.tables == Free
    ensures ApSolo(Local(g, c), i, 2) ==
      Local(g.(runtime := ByAp(i), tables := ByAp(i)), c.(ap := Entering(e, JoinState)))
  {
  }

  lemma JoinsFlushed(g: Shared, i: nat, c: Cpu, e: nat)
    requires c.ap == Entering(e, JoinState) && c.b.state == Qualified && c.b.epoch == e
    ensures ApSolo(Local(g, c), i, 4) == Local(g, c.(
      b := c.b.(state := Online), tlb := map[], flushed := true,
      ap := Granted(e, GrantMask(Move(Qualified, Online, JoinMask)))))
  {
  }

  /** publish_online up to the grant, under both mutexes and after a full flush. */
  lemma JoinsGranted(g: Shared, i: nat, c: Cpu, e: nat)
    requires c.ap == Entering(e, JoinRuntime) && g.runtime == Free && g.tables == Free
    requires c.b.state == Qualified && c.b.epoch == e
    ensures ApSolo(Local(g, c), i, 6) == Local(g.(runtime := ByAp(i), tables := ByAp(i)), c.(
      b := c.b.(state := Online), tlb := map[], flushed := true,
      ap := Granted(e, GrantMask(Move(Qualified, Online, JoinMask)))))
  {
    hide ApSolo;
    JoinsLocked(g, i, c, e);
    var l := ApSolo(Local(g, c), i, 2);
    JoinsFlushed(l.g, i, l.c, e);
    ApJoin(Local(g, c), i, 2, 4);
  }

  /** The grant: both masks, then both mutexes are dropped. */
  lemma GrantsJoined(g: Shared, i: nat, c: Cpu, e: nat)
    requires c.ap == Granted(e, GrantMask(Move(Qualified, Online, JoinMask)))
    ensures ApSolo(Local(g, c), i, 5) == Local(g.(runtime := Free, tables := Free), c.(
      b := c.b.(member := true, sched := true), ap := Working(e, Running)))
  {
  }

  lemma Joins(g: Shared, i: nat, c: Cpu, e: nat)
    requires c.ap == Entering(e, JoinRuntime) && g.runtime == Free && g.tables == Free
    requires c.b.state == Qualified && c.b.epoch == e
    ensures ApSolo(Local(g, c), i, 11) == Local(g, c.(
      b := c.b.(state := Online, member := true, sched := true),
      tlb := map[], flushed := true, ap := Working(e, Running)))
  {
    hide ApSolo;
    JoinsGranted(g, i, c, e);
    var l := ApSolo(Local(g, c), i, 6);
    GrantsJoined(l.g, i, l.c, e);
    ApJoin(Local(g, c), i, 6, 5);
  }

  /** The loads of an idle checkpoint of a draining CPU. */
  lemma Checks(g: Shared, i: nat, c: Cpu, e: nat)
    requires c.ap == Working(e, Running) && !g.terminal && g.runtime == Free && e != 0
    requires c.b.state == Draining && c.b.installed == c.b.drain == c.b.irq == c.b.epoch == e
    ensures ApSolo(Local(g, c), i, 6) == Local(g.(runtime := ByAp(i)), c.(ap := Working(e, IdleState)))
  {
  }

  lemma ChecksAgain(g: Shared, i: nat, c: Cpu, e: nat)
    requires c.ap == Working(e, IdleState) && c.b.state == Draining && c.b.irq == e
    ensures ApSolo(Local(g, c), i, 4) == Local(g, c.(
      b := c.b.(state := Parked), ap := Parking(e, ParkMask(Move(Draining, Parked, UnscheduleMask)))))
  {
  }

  lemma RecordsPark(g: Shared, i: nat, c: Cpu, e: nat)
    requires c.ap == Parking(e, ParkMask(Move(Draining, Parked, UnscheduleMask)))
    ensures ApSolo(Local(g, c), i, 5) == Local(g.(runtime := Free), c.(
      b := c.b.(sched := false, parked := e), tlb := map[], flushed := true, ap := Polling(e, true, Poll)))
  {
  }

  /** An idle checkpoint of a draining CPU parks it and records the park. */
  lemma Parks(g: Shared, i: nat, c: Cpu, e: nat)
    requires c.ap == Working(e, Running) && !g.terminal && g.runtime == Free && e != 0
    requires c.b.state == Draining && c.b.installed == c.b.drain == c.b.irq == c.b.epoch == e
    ensures ApSolo(Local(g, c), i, 15) == Local(g, c.(
      b := c.b.(state := Parked, sched := false, parked := e),
      tlb := map[], flushed := true, ap := Polling(e, true, Poll)))
  {
    hide ApSolo;
    Checks(g, i, c, e);
    var l := ApSolo(Local(g, c), i, 6);
    ChecksAgain(l.g, i, l.c, e);
    ApJoin(Local(g, c), i, 6, 4);
    var k := ApSolo(l, i, 4);
    RecordsPark(k.g, i, k.c, e);
    ApJoin(Local(g, c), i, 10, 5);
  }

  /** The parked CPU sees its authenticated stop, flushes and halts. */
  lemma Stops(g: Shared, i: nat, c: Cpu, e: nat, armed: bool)
    requires c.ap == Polling(e, armed, Poll) && !g.terminal && !c.b.member && !c.b.sched
    requires c.b.state == StopPending
    requires c.b.stopReq == c.b.withdrawn == c.b.parked == c.b.installed == c.b.epoch == e
    ensures ApSolo(Local(g, c), i, 13) == Local(g, c.(
      b := c.b.(state := Offline, stopped := e), tlb := map[], flushed := true, ap := Halted))
  {
  }

  lemma SeesCancel(g: Shared, i: nat, c: Cpu, e: nat)
    requires c.ap == Polling(e, true, Poll) && !g.terminal && g.runtime == Free
    requires c.b.state == Parked && c.b.cancel == e && c.b.withdrawn != e
    ensures ApSolo(Local(g, c), i, 5) == Local(g.(runtime := ByAp(i)), c.(ap := Cancelling(e, true, ResumeFlush)))
  {
  }

  lemma TakesBack(g: Shared, i: nat, c: Cpu, e: nat)
    requires c.ap == Cancelling(e, true, ResumeFlush) && c.b.state == Parked && c.b.member
    ensures ApSolo(Local(g, c), i, 5) == Local(g, c.(
      b := c.b.(state := Online), tlb := map[], flushed := true,
      ap := Returning(e, ResumeMask(Move(Parked, Online, JoinMask)))))
  {
  }

  lemma Returns(g: Shared, i: nat, c: Cpu, e: nat)
    requires c.ap == Returning(e, ResumeMask(Move(Parked, Online, JoinMask)))
    ensures ApSolo(Local(g, c), i, 6) == Local(g.(runtime := Free), c.(
      b := c.b.(member := true, sched := true, cancel := 0, drain := 0), ap := Working(e, Running)))
  {
  }

  /** The parked CPU sees its cancel request and is Online again. */
  lemma Resumes(g: Shared, i: nat, c: Cpu, e: nat)
    requires c.ap == Polling(e, true, Poll) && !g.terminal && g.runtime == Free
    requires c.b.state == Parked && c.b.member && c.b.cancel == e && c.b.withdrawn != e
    ensures ApSolo(Local(g, c), i, 16) == Local(g, c.(
      b := c.b.(state := Online, sched := true, cancel := 0, drain := 0),
      tlb := map[], flushed := true, ap := Working(e, Running)))
  {
    hide ApSolo;
    SeesCancel(g, i, c, e);
    var l := ApSolo(Local(g, c), i, 5);
    TakesBack(l.g, i, l.c, e);
    ApJoin(Local(g, c), i, 5, 5);
    var k := ApSolo(l, i, 5);
    Returns(k.g, i, k.c, e);
    ApJoin(Local(g, c), i, 10, 6);
  }

  /** A terminal stop ends a parked CPU. */
  lemma ParkedEnds(g: Shared, i: nat, c: Cpu, e: nat, armed: bool)
    requires c.ap == Polling(e, armed, Poll) && g.terminal && (c.b.state == Parked || c.b.state == StopPending)
    ensures ApSolo(Local(g, c), i, 6) == Local(g, c.(
      b := c.b.(state := Terminal, sched := false, member := false), tlb := map[], flushed := true, ap := Halted))
  {
  }

  /** A terminal stop ends a running CPU. */
  lemma RunningEnds(g: Shared, i: nat, c: Cpu, e: nat)
    requires c.ap == Working(e, Running) && g.terminal && g.runtime == Free && c.b.state == TerminalPending
    ensures ApSolo(Local(g, c), i, 6) == Local(g, c.(
      b := c.b.(state := Terminal, sched := false, member := false), ap := Halted))
  {
  }

  // ----- the controller

  predicate CtlAt(g: Shared, i: nat, e: nat, at: CtlPc) {
    g.ctl == Busy(i, e, at)
  }

  /** First admission and launch up to the startup IPI. */
  lemma Admits(g: Shared, c: Cpu, w: Wire, i: nat, e: nat)
    requires CtlAt(g, i, e, Go(BootAdmit(0))) && g.runtime == Free && c.b.phase == 0 && c.b.state == Detected
    ensures CtlSolo(Local(g, c), w, 7) == Local(g.(ctl := Busy(i, e, Go(RunSipi))), c.(
      b := c.b.(admitted := e, phase := 1, state := Starting, sched := false)))
  {
  }

  /** The entered AP is qualified. */
  lemma Qualifies(g: Shared, c: Cpu, w: Wire, i: nat, e: nat)
    requires CtlAt(g, i, e, Go(RunAwait)) && g.runtime == Free
    requires c.b.state == Entered && c.b.phase == 2 && c.b.admitted == e
    ensures CtlSolo(Local(g, c), w, 7) == Local(
      g.(runtime := ByController, ctl := Busy(i, e, Go(Qual(Move(Entered, Qualified, Settled(true)))))),
      c.(b := c.b.(state := Qualified, sched := false)))
  {
  }

  /** A restart releases the AP it has qualified. */
  lemma Releases(g: Shared, c: Cpu, w: Wire, i: nat, e: nat)
    requires CtlAt(g, i, e, Go(Qual(Move(Entered, Qualified, Settled(true)))))
    ensures CtlSolo(Local(g, c), w, 2) ==
      Local(g.(runtime := Free, ctl := Busy(i, e, Go(RunOnline))), c.(release := e))
  {
  }

  /** The first pass of activate releases a qualified AP. */
  lemma LetsGo(g: Shared, c: Cpu, w: Wire, i: nat, e: nat)
    requires CtlAt(g, i, e, Go(LetState)) && c.b.state == Qualified && c.b.phase == 2 && c.b.admitted == e
    ensures CtlSolo(Local(g, c), w, 4) == Local(g.(ctl := Idle), c.(release := e))
  {
  }

  /** The second pass of activate waits for a qualified AP. */
  lemma SeesIt(g: Shared, c: Cpu, w: Wire, i: nat, e: nat)
    requires CtlAt(g, i, e, Go(SeeState)) && c.b.state == Qualified && c.b.phase == 2 && c.b.admitted == e
    ensures CtlSolo(Local(g, c), w, 3) == Local(g.(ctl := Busy(i, e, Go(RunOnline))), c)
  {
  }

  lemma SeesOnline(g: Shared, c: Cpu, w: Wire, i: nat, e: nat)
    requires CtlAt(g, i, e, Go(RunOnline)) && c.b.state == Online
    ensures CtlSolo(Local(g, c), w, 1) == Local(g.(ctl := Idle), c)
  {
  }

  /** fail_ap. */
  lemma Fails(g: Shared, c: Cpu, w: Wire, i: nat, e: nat)
    requires CtlAt(g, i, e, Go(FailLock)) && g.runtime == Free && Allowed(c.b.state, Failed)
    ensures CtlSolo(Local(g, c), w, 6) == Local(g.(ctl := Idle), c.(
      b := c.b.(state := Failed, sched := false, member := false)))
  {
  }

  lemma DrainsChecked(g: Shared, c: Cpu, w: Wire, i: nat, e: nat)
    requires CtlAt(g, i, e, Off(OffEpoch)) && e != 0 && !g.terminal && g.runtime == Free
    requires c.b.state == Online && c.b.epoch == c.b.installed == e
    ensures CtlSolo(Local(g, c), w, 6) == Local(g.(runtime := ByController, ctl := Busy(i, e, Off(OffReset(0)))), c)
  {
  }

  lemma DrainsReset(g: Shared, c: Cpu, w: Wire, i: nat, e: nat)
    requires CtlAt(g, i, e, Off(OffReset(0)))
    ensures CtlSolo(Local(g, c), w, 7) == Local(g.(ctl := Busy(i, e, Off(OffDrain))), c.(
      b := c.b.(cancel := 0, parked := 0, withdrawn := 0, stopReq := 0, stopped := 0, retired := 0, irq := 0)))
  {
  }

  lemma DrainsMoved(g: Shared, c: Cpu, w: Wire, i: nat, e: nat)
    requires CtlAt(g, i, e, Off(OffDrain)) && c.b.state == Online
    ensures CtlSolo(Local(g, c), w, 4) == Local(g.(ctl := Busy(i, e, Off(OffUnlock))), c.(
      b := c.b.(drain := e, state := Draining, sched := false)))
  {
  }

  lemma DrainsAsked(g: Shared, c: Cpu, w: Wire, i: nat, e: nat)
    requires CtlAt(g, i, e, Off(OffUnlock))
    ensures CtlSolo(Local(g, c), w, 4) == Local(g.(runtime := Free, ctl := Busy(i, e, Off(OffWait))), c.(
      b := c.b.(irq := e)))
  {
  }

  /** Offline up to the wait for the park: fresh records, Draining, out of the schedule. */
  lemma Drains(g: Shared, c: Cpu, w: Wire, i: nat, e: nat)
    requires CtlAt(g, i, e, Off(OffEpoch)) && e != 0 && !g.terminal && g.runtime == Free
    requires c.b.state == Online && c.b.epoch == c.b.installed == e
    ensures CtlSolo(Local(g, c), w, 21) == Local(g.(ctl := Busy(i, e, Off(OffWait))), c.(
      b := c.b.(cancel := 0, parked := 0, withdrawn := 0, stopReq := 0, stopped := 0, retired := 0,
                irq := e, drain := e, state := Draining, sched := false)))
  {
    hide CtlSolo;
    DrainsChecked(g, c, w, i, e);
    var l := CtlSolo(Local(g, c), w, 6);
    DrainsReset(l.g, l.c, w, i, e);
    CtlJoin(Local(g, c), w, 6, 7);
    var k := CtlSolo(l, w, 7);
    DrainsMoved(k.g, k.c, w, i, e);
    CtlJoin(Local(g, c), w, 13, 4);
    var m := CtlSolo(k, w, 4);
    DrainsAsked(m.g, m.c, w, i, e);
    CtlJoin(Local(g, c), w, 17, 4);
  }

  lemma WithdrawChecked(g: Shared, c: Cpu, w: Wire, i: nat, e: nat)
    requires CtlAt(g, i, e, Off(OffWait)) && g.tables == Free && !w.diag && c.b.parked == c.b.epoch == e
    ensures CtlSolo(Local(g, c), w, 7) == Local(
      g.(tables := ByController, ctl := Busy(i, e, Take(OffLoad(4, w.reqGen, i in w.reqTarget)))), c)
  {
  }

  lemma WithdrawLeft(g: Shared, c: Cpu, w: Wire, i: nat, e: nat, gen: nat, hit: bool)
    requires CtlAt(g, i, e, Take(OffLoad(4, gen, hit))) && (hit ==> c.ack == gen)
    requires c.b.state == Parked && !c.b.sched && c.b.member
    ensures CtlSolo(Local(g, c), w, 4) == Local(g.(ctl := Busy(i, e, Take(OffGen(gen)))), c.(
      b := c.b.(member := false), flushed := false))
  {
  }

  lemma WithdrawArmed(g: Shared, c: Cpu, w: Wire, i: nat, e: nat, gen: nat)
    requires CtlAt(g, i, e, Take(OffGen(gen))) && c.b.state == Parked && !c.b.sched && !c.b.member
    ensures CtlSolo(Local(g, c), w, 7) == Local(g.(tables := Free, ctl := Busy(i, e, Take(OffAwait))), c.(
      b := c.b.(withdrawn := e, stopReq := e, state := StopPending), tlbGen := gen))
  {
  }

  /** Offline from the recorded park to the armed stop. */
  lemma Withdraws(g: Shared, c: Cpu, w: Wire, i: nat, e: nat)
    requires CtlAt(g, i, e, Off(OffWait)) && g.tables == Free && !w.diag && (i in w.reqTarget ==> c.ack == w.reqGen)
    requires c.b.parked == c.b.epoch == e && c.b.state == Parked && !c.b.sched && c.b.member
    ensures CtlSolo(Local(g, c), w, 18) == Local(g.(ctl := Busy(i, e, Take(OffAwait))), c.(
      b := c.b.(member := false, withdrawn := e, stopReq := e, state := StopPending),
      flushed := false, tlbGen := w.reqGen))
  {
    hide CtlSolo;
    WithdrawChecked(g, c, w, i, e);
    var l := CtlSolo(Local(g, c), w, 7);
    WithdrawLeft(l.g, l.c, w, i, e, w.reqGen, i in w.reqTarget);
    CtlJoin(Local(g, c), w, 7, 4);
    var k := CtlSolo(l, w, 4);
    WithdrawArmed(k.g, k.c, w, i, e, w.reqGen);
    CtlJoin(Local(g, c), w, 11, 7);
  }

  /** The loads of a receipt, from load k to load m. */
  lemma {:induction false} ConfirmLoads(g: Shared, c: Cpu, w: Wire, i: nat, e: nat, k: nat)
    requires CtlAt(g, i, e, Take(OffConfirm(k))) && k < RECEIPT && Receipt(c.b, e)
    ensures CtlSolo(Local(g, c), w, RECEIPT - k) == Local(g.(ctl := Busy(i, e, Take(OffRetire))), c)
    decreases RECEIPT - k
  {
    var l := CtlNext(g, c, w, true);
    if k + 1 < RECEIPT {
      ConfirmLoads(l.g, l.c, w, i, e, k + 1);
    }
  }

  lemma ConfirmEnds(g: Shared, c: Cpu, w: Wire, i: nat, e: nat)
    ensures CtlAt(g, i, e, Take(OffAwait)) ==>
      CtlSolo(Local(g, c), w, 1) == Local(g.(ctl := Busy(i, e, Take(OffConfirm(0)))), c)
    ensures CtlAt(g, i, e, Take(OffRetire)) ==>
      CtlSolo(Local(g, c), w, 1) == Local(g.(ctl := Idle), c.(b := c.b.(retired := e)))
  {
  }

  /** The stop is confirmed and recorded. */
  lemma Confirms(g: Shared, c: Cpu, w: Wire, i: nat, e: nat)
    requires CtlAt(g, i, e, Take(OffAwait)) && Receipt(c.b, e)
    ensures CtlSolo(Local(g, c), w, 12) == Local(g.(ctl := Idle), c.(b := c.b.(retired := e)))
  {
    hide CtlSolo, ReceiptPrefix;
    ConfirmEnds(g, c, w, i, e);
    var l := CtlSolo(Local(g, c), w, 1);
    ConfirmLoads(l.g, l.c, w, i, e, 0);
    CtlJoin(Local(g, c), w, 1, 10);
    var k := CtlSolo(l, w, 10);
    ConfirmEnds(k.g, k.c, w, i, e);
    CtlJoin(Local(g, c), w, 11, 1);
  }

  lemma {:induction false} ReceiptLoads(g: Shared, c: Cpu, w: Wire, i: nat, e: nat, k: nat)
    requires CtlAt(g, i, e, On(OnReceipt(k))) && k <= RECEIPT && ReceiptPrefix(c.b, e, RECEIPT + 1)
    ensures CtlSolo(Local(g, c), w, RECEIPT + 1 - k) == Local(g.(ctl := Busy(i, e, On(OnCurrent(0)))), c)
    decreases RECEIPT - k
  {
    var l := CtlNext(g, c, w, true);
    if k < RECEIPT {
      ReceiptLoads(l.g, l.c, w, i, e, k + 1);
    }
  }

  lemma RearmsAck(g: Shared, c: Cpu, w: Wire, i: nat, e: nat)
    requires CtlAt(g, i, e, On(OnCurrent(0))) && g.tables == Free
    requires c.b.state == Offline && c.b.epoch == e && !c.b.member
    ensures CtlSolo(Local(g, c), w, 9) == Local(g.(ctl := Busy(i, e, On(OnAdmit(0)))), c.(ack := 0))
  {
  }

  lemma RearmsAdmission(g: Shared, c: Cpu, w: Wire, i: nat, e: nat)
    requires CtlAt(g, i, e, On(OnAdmit(0))) && c.b.state == Offline && c.b.epoch == e
    requires c.b.phase == 2 && c.b.admitted == e
    ensures CtlSolo(Local(g, c), w, 7) == Local(g.(ctl := Busy(i, e, On(OnTopology(0)))), c.(
      b := c.b.(admitted := e + 1, phase := 1)))
  {
  }

  lemma RearmsBegun(g: Shared, c: Cpu, w: Wire, i: nat, e: nat)
    requires CtlAt(g, i, e, On(OnEpoch)) && e != 0 && !g.terminal && c.b.epoch == e
    ensures CtlSolo(Local(g, c), w, 2) == Local(g.(ctl := Busy(i, e, On(OnReceipt(0)))), c)
  {
  }

  /** Restart: the receipt is checked, then acknowledgement and admission are re-armed. */
  lemma Rearms(g: Shared, c: Cpu, w: Wire, i: nat, e: nat)
    requires CtlAt(g, i, e, On(OnEpoch)) && e != 0 && !g.terminal && g.tables == Free
    requires ReceiptPrefix(c.b, e, RECEIPT + 1) && c.b.phase == 2 && c.b.admitted == e
    ensures CtlSolo(Local(g, c), w, 29) == Local(g.(ctl := Busy(i, e, On(OnTopology(0)))), c.(
      b := c.b.(admitted := e + 1, phase := 1), ack := 0))
  {
    hide CtlSolo;
    RearmsBegun(g, c, w, i, e);
    var l := CtlSolo(Local(g, c), w, 2);
    ReceiptLoads(l.g, l.c, w, i, e, 0);
    CtlJoin(Local(g, c), w, 2, 11);
    var k := CtlSolo(l, w, 11);
    RearmsAck(k.g, k.c, w, i, e);
    CtlJoin(Local(g, c), w, 13, 9);
    var m := CtlSolo(k, w, 9);
    RearmsAdmission(m.g, m.c, w, i, e);
    CtlJoin(Local(g, c), w, 22, 7);
  }

  lemma NextEpoch(g: Shared, c: Cpu, w: Wire, i: nat, e: nat)
    requires CtlAt(g, i, e, On(OnTopology(0))) && g.runtime == Free && c.b.state == Offline && c.b.epoch == e
    ensures CtlSolo(Local(g, c), w, 6) == Local(
      g.(runtime := ByController, ctl := Busy(i, e + 1, On(OnSlot(Move(Offline, Detected, Exchange))))),
      c.(b := c.b.(epoch := e + 1), release := 0))
  {
  }

  lemma Redetects(g: Shared, c: Cpu, w: Wire, i: nat, e: nat)
    requires CtlAt(g, i, e, On(OnSlot(Move(Offline, Detected, Exchange)))) && c.b.state == Offline
    ensures CtlSolo(Local(g, c), w, 7) == Local(g.(runtime := Free, ctl := Busy(i, e, Go(RunSipi))), c.(
      b := c.b.(state := Starting, sched := false)))
  {
  }

  /** Restart: the next epoch begins, and the slot is launched again. */
  lemma Relaunches(g: Shared, c: Cpu, w: Wire, i: nat, e: nat)
    requires CtlAt(g, i, e, On(OnTopology(0))) && g.runtime == Free && c.b.state == Offline && c.b.epoch == e
    ensures CtlSolo(Local(g, c), w, 13) == Local(g.(ctl := Busy(i, e + 1, Go(RunSipi))), c.(
      b := c.b.(epoch := e + 1, state := Starting, sched := false), release := 0))
  {
    hide CtlSolo;
    NextEpoch(g, c, w, i, e);
    var l := CtlSolo(Local(g, c), w, 6);
    Redetects(l.g, l.c, w, i, e + 1);
    CtlJoin(Local(g, c), w, 6, 7);
  }

  /** Cancel takes a CPU that still drains back. */
  lemma CancelsDrain(g: Shared, c: Cpu, w: Wire, i: nat, e: nat)
    requires CtlAt(g, i, e, Can(CanLock)) && g.runtime == Free && c.b.withdrawn != e && c.b.state == Draining
    ensures CtlSolo(Local(g, c), w, 10) == Local(g.(ctl := Idle), c.(
      b := c.b.(state := Online, member := true, sched := true, drain := 0)))
  {
  }

  /** Cancel asks a parked CPU to come back. */
  lemma CancelsPark(g: Shared, c: Cpu, w: Wire, i: nat, e: nat)
    requires CtlAt(g, i, e, Can(CanLock)) && g.runtime == Free && c.b.withdrawn != e && c.b.state == Parked
    ensures CtlSolo(Local(g, c), w, 7) == Local(g.(ctl := Idle), c.(b := c.b.(cancel := e)))
  {
  }
}
