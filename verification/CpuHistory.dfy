/** What a slot's records promise about the rest of the run. */
module CpuHistory {
  import opened CpuState
  import opened CpuSteps
  import opened CpuInvariant
  import opened CpuCtlBooks
  import opened CpuWire
  import opened CpuWireProof
  import opened CpuSystem

  /** How the book of a slot may look later: epochs grow, and within one epoch the withdrawal and
      a stop receipt are never taken back. */
  predicate Later(b: Book, d: Book) {
    && b.epoch <= d.epoch
    && (d.epoch == b.epoch && b.withdrawn == b.epoch ==> d.withdrawn == b.epoch)
    && (d.epoch == b.epoch && Receipt(b, b.epoch) ==> Receipt(d, b.epoch))
  }

  /** A CPU is retired only on a stop receipt. */
  predicate Retired(b: Book) {
    b.retired == b.epoch ==> Receipt(b, b.epoch)
  }

  /** One step: a new epoch is the next one, and is opened on a reusable receipt. */
  predicate Grows(b: Book, d: Book) {
    && Later(b, d) && (Retired(b) ==> Retired(d))
    && (d.epoch != b.epoch ==> d.epoch == b.epoch + 1 && Receipt(b, b.epoch) && b.retired == b.epoch)
  }

  lemma DrainGrows(g: Shared, c: Cpu, i: nat, e: nat, at: OffPc, pick: bool, stop: Stopper)
    requires Turn(g, c, i, e, Off(at), stop)
    ensures Grows(c.b, DrainNext(g, c, i, e, at, pick).c.b)
  {
  }

  lemma WithdrawGrows(g: Shared, c: Cpu, w: Wire, i: nat, e: nat, at: TakePc, pick: bool, stop: Stopper)
    requires Turn(g, c, i, e, Take(at), stop)
    ensures Grows(c.b, WithdrawNext(g, c, w, i, e, at, pick).c.b)
  {
  }

  lemma UndoGrows(g: Shared, c: Cpu, i: nat, e: nat, at: CanPc, pick: bool, stop: Stopper)
    requires Turn(g, c, i, e, Can(at), stop)
    ensures Grows(c.b, UndoNext(g, c, i, e, at, pick).c.b)
  {
  }

  lemma RestartEpochGrows(g: Shared, c: Cpu, i: nat, e: nat, at: OnPc, pick: bool, stop: Stopper)
    requires Turn(g, c, i, e, On(at), stop)
    requires at.OnTopology?
    ensures Grows(c.b, RestartNext(g, c, i, e, at, pick).c.b)
  {
  }

  lemma RestartAdmitGrows(g: Shared, c: Cpu, i: nat, e: nat, at: OnPc, pick: bool, stop: Stopper)
    requires Turn(g, c, i, e, On(at), stop)
    requires at.OnAdmit?
    ensures Grows(c.b, RestartNext(g, c, i, e, at, pick).c.b)
  {
  }

  lemma RestartOtherGrows(g: Shared, c: Cpu, i: nat, e: nat, at: OnPc, pick: bool, stop: Stopper)
    requires Turn(g, c, i, e, On(at), stop)
    requires !at.OnTopology? && !at.OnAdmit?
    ensures Grows(c.b, RestartNext(g, c, i, e, at, pick).c.b)
  {
  }

  lemma RestartGrows(g: Shared, c: Cpu, i: nat, e: nat, at: OnPc, pick: bool, stop: Stopper)
    requires Turn(g, c, i, e, On(at), stop)
    ensures Grows(c.b, RestartNext(g, c, i, e, at, pick).c.b)
  {
    hide *;
    if at.OnTopology? {
      RestartEpochGrows(g, c, i, e, at, pick, stop);
    } else if at.OnAdmit? {
      RestartAdmitGrows(g, c, i, e, at, pick, stop);
    } else {
      RestartOtherGrows(g, c, i, e, at, pick, stop);
    }
  }

  lemma LaunchMoveGrows(g: Shared, c: Cpu, i: nat, e: nat, at: GoPc, pick: bool, stop: Stopper)
    requires Turn(g, c, i, e, Go(at), stop)
    requires at.Run? || at.Qual? || at.Fail?
    ensures Grows(c.b, LaunchNext(g, c, i, e, at, pick).c.b)
  {
  }

  lemma LaunchOtherGrows(g: Shared, c: Cpu, i: nat, e: nat, at: GoPc, pick: bool, stop: Stopper)
    requires Turn(g, c, i, e, Go(at), stop)
    requires !at.Run? && !at.Qual? && !at.Fail?
    ensures Grows(c.b, LaunchNext(g, c, i, e, at, pick).c.b)
  {
  }

  lemma LaunchGrows(g: Shared, c: Cpu, i: nat, e: nat, at: GoPc, pick: bool, stop: Stopper)
    requires Turn(g, c, i, e, Go(at), stop)
    ensures Grows(c.b, LaunchNext(g, c, i, e, at, pick).c.b)
  {
    hide *;
    if at.Run? || at.Qual? || at.Fail? {
      LaunchMoveGrows(g, c, i, e, at, pick, stop);
    } else {
      LaunchOtherGrows(g, c, i, e, at, pick, stop);
    }
  }

  lemma CtlGrows(g: Shared, c: Cpu, w: Wire, pick: bool)
    requires g.ctl.Busy? && Exclusive(g) && SlotInv(c, ViewOf(g, g.ctl.i))
    ensures Grows(c.b, CtlNext(g, c, w, pick).c.b)
  {
    var i, e, stop := g.ctl.i, g.ctl.e, ViewOf(g, g.ctl.i).stop;
    hide BookInv, Grows, DrainNext, WithdrawNext, UndoNext, RestartNext, LaunchNext;
    match g.ctl.at
    case Off(at) => DrainGrows(g, c, i, e, at, pick, stop);
    case Take(at) => WithdrawGrows(g, c, w, i, e, at, pick, stop);
    case Can(at) => UndoGrows(g, c, i, e, at, pick, stop);
    case On(at) => RestartGrows(g, c, i, e, at, pick, stop);
    case Go(at) => LaunchGrows(g, c, i, e, at, pick, stop);
  }

  /** A receipt finds its AP halted, out of both masks and flushed after the withdrawal. */
  lemma ReceiptHolds(c: Cpu, v: View)
    requires SlotInv(c, v) && Receipt(c.b, c.b.epoch)
    ensures c.ap == Halted && c.flushed && !c.b.sched && !c.b.member
  {
  }

  /** The stop thread and the AP leave a receipt alone. */
  lemma UntouchedGrows(c: Cpu, v: View, d: Cpu)
    requires SlotInv(c, v) && Untouched(c.b, d.b)
    requires c.ap == Halted && c.b.state == Offline ==> d.b == c.b
    ensures Grows(c.b, d.b)
  {
    if Receipt(c.b, c.b.epoch) { ReceiptHolds(c, v); }
    hide SlotInv;
  }

  lemma StopLeavesOffline(g: Shared, c: Cpu)
    requires g.stop != Resting && (g.stop.StopLock? ==> g.stop.from == Online || g.stop.from == Draining)
    requires SlotInv(c, ViewOf(g, g.stop.i)) && c.b.state == Offline
    ensures ShutdownNext(g, c).c.b == c.b
  {
  }

  /** A halted AP executes nothing. */
  lemma HaltedRests(g: Shared, i: nat, c: Cpu, pick: bool)
    ensures c.ap == Halted ==> ApNext(g, i, c, pick) == Local(g, c)
  {
  }

  lemma SameGrows(b: Book)
    ensures Grows(b, b)
  {
  }

  lemma ApStepGrows(s: State, pick: bool, i: nat)
    requires Inv(s) && 0 < i < |s.cpus|
    ensures Grows(s.cpus[i].b, ApNext(s.g, i, s.cpus[i], pick).c.b)
  {
    hide Cpus, Handlers, Published, SlotInv, ApNext, Quieter, Grows, LockInv, Owners;
    var c := s.cpus[i];
    assert SlotInv(c, ViewOf(s.g, i));
    ApQuieter(s.g, i, c, pick);
    HaltedRests(s.g, i, c, pick);
    UntouchedGrows(c, ViewOf(s.g, i), ApNext(s.g, i, c, pick).c);
  }

  lemma CtlStepGrows(s: State, pick: bool)
    requires Inv(s) && s.g.ctl.Busy? && 0 < s.g.ctl.i < |s.cpus|
    ensures Grows(s.cpus[s.g.ctl.i].b, CtlNext(s.g, s.cpus[s.g.ctl.i], s.w, pick).c.b)
  {
    hide Cpus, Handlers, Published, SlotInv, CtlNext, Grows, Owners;
    var i := s.g.ctl.i;
    assert SlotInv(s.cpus[i], ViewOf(s.g, i));
    CtlGrows(s.g, s.cpus[i], s.w, pick);
  }

  lemma StopStepGrows(s: State)
    requires Inv(s) && s.g.stop != Resting && 0 < s.g.stop.i < |s.cpus|
    requires s.g.stop.StopLock? ==> s.g.stop.from == Online || s.g.stop.from == Draining
    ensures Grows(s.cpus[s.g.stop.i].b, ShutdownNext(s.g, s.cpus[s.g.stop.i]).c.b)
  {
    hide Cpus, Handlers, Published, SlotInv, ShutdownNext, Quieter, Grows, Owners;
    var i := s.g.stop.i;
    var c := s.cpus[i];
    assert SlotInv(c, ViewOf(s.g, i));
    StopQuieter(s.g, c);
    if c.b.state == Offline { StopLeavesOffline(s.g, c); }
    UntouchedGrows(c, ViewOf(s.g, i), ShutdownNext(s.g, c).c);
  }

  /** One step of the machine as slot i sees it. */
  lemma StepGrows(s: State, step: Step, i: nat)
    requires Inv(s) && 0 < i < |s.cpus|
    ensures |Apply(s, step).cpus| == |s.cpus| && Grows(s.cpus[i].b, Apply(s, step).cpus[i].b)
  {
    hide Cpus, Handlers, Published, SlotInv, CtlNext, ShutdownNext, ApNext, Grows, RequestNext, HandlerNext;
    SameGrows(s.cpus[i].b);
    match step
    case ApStep(j, pick) => if j == i { ApStepGrows(s, pick, i); }
    case CtlStep(pick) => if s.g.ctl != Idle && s.g.ctl.i == i { CtlStepGrows(s, pick); }
    case StopStep =>
      if s.g.stop.StopLock? && s.g.stop.i == i && (s.g.stop.from == Online || s.g.stop.from == Draining) {
        StopStepGrows(s);
      } else if s.g.stop.Stopping? && s.g.stop.i == i {
        StopStepGrows(s);
      }
    case RequestStep(ask) => RequestFrame(s, ask);
    case HandlerStep(h) => if h < |s.w.handlers| { HandlerFrame(s, h); }
    case _ =>
  }

  /** A whole run as slot i sees it. */
  lemma {:induction false} RunGrows(s: State, steps: seq<Step>, i: nat)
    requires Inv(s) && 0 < i < |s.cpus|
    ensures |Execute(s, steps).cpus| == |s.cpus| && Later(s.cpus[i].b, Execute(s, steps).cpus[i].b)
    ensures Retired(s.cpus[i].b) ==> Retired(Execute(s, steps).cpus[i].b)
    decreases |steps|
  {
    hide Inv, Apply;
    if steps != [] {
      StepKeeps(s, steps[0]);
      StepGrows(s, steps[0], i);
      RunGrows(Apply(s, steps[0]), steps[1..], i);
    }
  }
}
