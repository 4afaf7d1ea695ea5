/** The invariant of the whole machine: it holds after boot and every step of any thread keeps it. */
module CpuSystem {
  import opened CpuState
  import opened CpuSteps
  import opened CpuInvariant
  import opened CpuApProof
  import opened CpuCtlProof
  import opened CpuWire
  import opened CpuWireProof

  /** The boot CPU never leaves the masks. */
  predicate BootRuns(cpus: seq<Cpu>) {
    && |cpus| > 0 && cpus[0].ap == Bsp
    && cpus[0].b.state == Online && cpus[0].b.sched && cpus[0].b.member
  }

  ghost predicate Slots(g: Shared, cpus: seq<Cpu>) {
    forall i :: 0 < i < |cpus| ==> SlotInv(cpus[i], ViewOf(g, i))
  }

  /** Every mutex has a holder that exists. */
  predicate Owners(s: State) {
    && (s.g.runtime.ByAp? ==> 0 < s.g.runtime.index < |s.cpus|)
    && (s.g.tables.ByAp? ==> 0 < s.g.tables.index < |s.cpus|)
    && (s.w.requester.By? <==> s.g.tables == ByRequester)
    && (s.w.requester.By? ==> s.w.requester.cpu < |s.cpus| && Live(s.cpus[s.w.requester.cpu].ap))
  }

  ghost predicate Inv(s: State) {
    && BootRuns(s.cpus) && LockInv(s.g, |s.cpus|) && Owners(s)
    && Slots(s.g, s.cpus)
    && Cpus(s.cpus, s.w) && Handlers(s.cpus, s.w) && Published(s.w)
  }

  /** A joining AP holds the page-table owner, so nobody requests meanwhile. */
  lemma JoinExcludes(s: State, i: nat)
    requires BootRuns(s.cpus) && Owners(s) && Slots(s.g, s.cpus) && i < |s.cpus| && JoinReady(s.cpus[i].ap)
    ensures s.w.requester.NoRequest?
  {
    if i > 0 {
      assert SlotInv(s.cpus[i], ViewOf(s.g, i));
      hide BookInv;
    }
  }

  lemma RequesterSees(s: State)
    requires Inv(s)
    ensures WireInv(s)
  {
    hide Cpus, Handlers;
    forall i | 0 <= i < |s.cpus| ensures s.w.requester.By? ==> !JoinReady(s.cpus[i].ap) {
      if JoinReady(s.cpus[i].ap) { JoinExcludes(s, i); }
    }
  }

  /** A step on slot i that other slots do not see. */
  lemma OtherSlots(g: Shared, h: Shared, cpus: seq<Cpu>, i: nat, d: Cpu)
    requires 0 < i < |cpus| && Slots(g, cpus) && SlotInv(d, ViewOf(h, i))
    requires forall j: nat :: j != i ==> ViewOf(h, j) == ViewOf(g, j)
    ensures Slots(h, cpus[i := d])
  {
    hide SlotInv;
  }

  /** The slots and the mutexes after a step of the AP on slot i. */
  lemma ApSlots(s: State, i: nat, pick: bool)
    requires Inv(s) && 0 < i < |s.cpus| && !Requesting(s.w, i)
    ensures var t := Apply(s, ApStep(i, pick)); LockInv(t.g, |t.cpus|) && Owners(t) && Slots(t.g, t.cpus)
  {
    hide SlotInv, ApNext, Cpus, Handlers, Published;
    var c := s.cpus[i];
    assert SlotInv(c, ViewOf(s.g, i));
    var l := ApNext(s.g, i, c, pick);
    ApKeeps(s.g, i, c, pick);
    OtherSlots(s.g, l.g, s.cpus, i, l.c);
  }

  lemma ApStepKeeps(s: State, i: nat, pick: bool)
    requires Inv(s)
    ensures Inv(Apply(s, ApStep(i, pick)))
  {
    hide LockInv, SlotInv, ApNext, Cpus, Handlers, Published, Quieter;
    if 0 < i < |s.cpus| && !Requesting(s.w, i) {
      ApSlots(s, i, pick);
      var c := s.cpus[i];
      assert SlotInv(c, ViewOf(s.g, i));
      ApQuieter(s.g, i, c, pick);
      if JoinReady(c.ap) { JoinExcludes(s, i); }
      QuietStep(s.cpus, i, ApNext(s.g, i, c, pick).c, s.w);
    }
  }

  lemma DropKeeps(cpus: seq<Cpu>, w: Wire, cpu: nat)
    requires Cpus(cpus, w) && Handlers(cpus, w)
    ensures var v := w.(handlers := DropFrames(w.handlers, cpu)); Cpus(cpus, v) && Handlers(cpus, v)
  {
    var v := w.(handlers := DropFrames(w.handlers, cpu));
    SameCpus(cpus, w, v.handlers, w.drop, w.diag);
    forall h | 0 <= h < |v.handlers| ensures HandlerInv(v.handlers[h], cpus, v) {
      assert HandlerInv(w.handlers[h], cpus, w);
    }
  }

  /** The slots and the mutexes after a step of the controller. */
  lemma CtlSlots(s: State, pick: bool)
    requires Inv(s) && s.g.ctl != Idle && s.g.ctl.i < |s.cpus|
    ensures var t := Apply(s, CtlStep(pick)); LockInv(t.g, |t.cpus|) && Owners(t) && Slots(t.g, t.cpus)
  {
    hide SlotInv, CtlNext, Cpus, Handlers, Published, Quieter;
    var i := s.g.ctl.i;
    var c := s.cpus[i];
    assert SlotInv(c, ViewOf(s.g, i));
    var l := CtlNext(s.g, c, s.w, pick);
    CtlKeeps(s.g, c, s.w, pick);
    CtlQuieter(s.g, c, s.w, pick);
    OtherSlots(s.g, l.g, s.cpus, i, l.c);
  }

  lemma CtlStepKeeps(s: State, pick: bool)
    requires Inv(s)
    ensures Inv(Apply(s, CtlStep(pick)))
  {
    hide SlotInv, CtlNext, Cpus, Handlers, Quieter;
    if s.g.ctl != Idle && s.g.ctl.i < |s.cpus| {
      CtlSlots(s, pick);
      var i := s.g.ctl.i;
      var c := s.cpus[i];
      assert SlotInv(c, ViewOf(s.g, i));
      var l := CtlNext(s.g, c, s.w, pick);
      CtlQuieter(s.g, c, s.w, pick);
      if JoinReady(c.ap) { JoinExcludes(s, i); }
      QuietStep(s.cpus, i, l.c, s.w);
      DropKeeps(s.cpus[i := l.c], s.w, i);
    }
  }

  lemma StopAp(g: Shared, c: Cpu)
    requires g.stop != Resting && (g.stop.StopLock? ==> g.stop.from == Online || g.stop.from == Draining)
    ensures var l := ShutdownNext(g, c);
      l.c.ap == c.ap && l.g.tables == g.tables && (l.g.stop == Resting || l.g.stop.i == g.stop.i)
      && (l.g.runtime == g.runtime || (g.runtime == Free && l.g.runtime == ByStopper) ||
           (g.stop.Stopping? && l.g.runtime == Free))
      && (l.g.stop.StopLock? ==> l.g == g)
  {
  }

  /** The slots and the mutexes after a step of the shutdown thread. */
  lemma StopSlots(s: State)
    requires Inv(s) && s.g.stop != Resting
    ensures var t := Apply(s, StopStep); LockInv(t.g, |t.cpus|) && Owners(t) && Slots(t.g, t.cpus)
  {
    hide SlotInv, ShutdownNext, Cpus, Handlers, Published, Quieter;
    var i := s.g.stop.i;
    var c := s.cpus[i];
    assert SlotInv(c, ViewOf(s.g, i));
    ShutdownKeeps(s.g, c);
    StopAp(s.g, c);
    OtherSlots(s.g, ShutdownNext(s.g, c).g, s.cpus, i, ShutdownNext(s.g, c).c);
  }

  lemma StopStepKeeps(s: State)
    requires Inv(s)
    ensures Inv(Apply(s, StopStep))
  {
    hide SlotInv, ShutdownNext, Cpus, Handlers, Published, Quieter;
    if s.g.stop != Resting {
      StopSlots(s);
      var i := s.g.stop.i;
      var c := s.cpus[i];
      assert SlotInv(c, ViewOf(s.g, i));
      StopAp(s.g, c);
      StopQuieter(s.g, c);
      if JoinReady(c.ap) { JoinExcludes(s, i); }
      QuietStep(s.cpus, i, ShutdownNext(s.g, c).c, s.w);
    }
  }

  /** The program points a command starts from, given the epoch of its slot. */
  predicate FirstPoint(ctl: Ctl, epoch: nat)
    requires ctl.Busy?
  {
    match ctl.at
    case Off(x) => x == OffEpoch
    case On(x) => x == OnEpoch
    case Go(x) => (x == BootAdmit(0) || x == LetState || x == SeeState) && ctl.e == epoch
    case _ => false
  }

  lemma Commanded(b: Book, z: Zone, stop: Stopper, ctl: Ctl)
    requires BookInv(b, z, Idle, stop)
    requires ctl.Busy? && FirstPoint(ctl, b.epoch)
    ensures BookInv(b, z, ctl, stop)
  {
  }

  lemma CommandedSlot(c: Cpu, v: View, ctl: Ctl)
    requires SlotInv(c, v) && v.ctl == Idle && ctl.Busy? && FirstPoint(ctl, c.b.epoch)
    ensures SlotInv(c, v.(ctl := ctl))
  {
    hide BookInv, ApRuntime, ApTables, ApFacts, ApEpoch, FlushInv;
    Commanded(c.b, ZoneOf(c.ap), v.stop, ctl);
  }

  /** A command gives the idle controller its first program point, and touches nothing else. */
  lemma CommandFrame(s: State, cmd: Command)
    requires s.g.ctl == Idle && 0 < cmd.i < |s.cpus|
    ensures var t := Apply(s, Step.Command(cmd));
      && t == s.(g := s.g.(ctl := t.g.ctl)) && t.g.ctl.Busy? && t.g.ctl.i == cmd.i
      && FirstPoint(t.g.ctl, s.cpus[cmd.i].b.epoch)
      && !CtlRuntime(t.g.ctl) && !CtlTables(t.g.ctl)
  {
    hide ApNext, CtlNext, ShutdownNext, RequestNext, HandlerNext;
  }

  lemma CommandLocks(s: State, ctl: Ctl)
    requires LockInv(s.g, |s.cpus|) && Owners(s) && s.g.ctl == Idle
    requires ctl.Busy? && 0 < ctl.i < |s.cpus| && !CtlRuntime(ctl) && !CtlTables(ctl)
    ensures LockInv(s.g.(ctl := ctl), |s.cpus|) && Owners(s.(g := s.g.(ctl := ctl)))
  {
    hide Live;
  }

  lemma CommandKeeps(s: State, cmd: Command)
    requires Inv(s)
    ensures Inv(Apply(s, Step.Command(cmd)))
  {
    if s.g.ctl == Idle && 0 < cmd.i < |s.cpus| {
      CommandTaken(s, cmd);
    }
  }

  lemma CommandTaken(s: State, cmd: Command)
    requires Inv(s) && s.g.ctl == Idle && 0 < cmd.i < |s.cpus|
    ensures Inv(Apply(s, Step.Command(cmd)))
  {
    hide SlotInv, Cpus, Handlers, Published, Apply, LockInv, Owners, CtlRuntime, CtlTables;
    CommandFrame(s, cmd);
    var t, c := Apply(s, Step.Command(cmd)), s.cpus[cmd.i];
    assert SlotInv(c, ViewOf(s.g, cmd.i));
    CommandLocks(s, t.g.ctl);
    CommandedSlot(c, ViewOf(s.g, cmd.i), t.g.ctl);
    OtherSlots(s.g, t.g, s.cpus, cmd.i, c);
    assert s.cpus[cmd.i := c] == s.cpus;
  }

  lemma StartStopKeeps(s: State, i: nat)
    requires Inv(s)
    ensures Inv(Apply(s, StartStop(i)))
  {
    hide BookInv, Cpus, Handlers;
    var t := Apply(s, StartStop(i));
    if t != s {
      var c := s.cpus[i];
      assert SlotInv(c, ViewOf(s.g, i));
      StopsIdly(c.b, ZoneOf(c.ap), ViewOf(s.g, i).ctl, Resting, t.g.stop);
      OtherSlots(s.g, t.g, s.cpus, i, c);
    }
  }

  /** The slots depend on the mutexes only through their own holds, and not on caches and acks. */
  lemma SameSlots(g: Shared, h: Shared, cpus: seq<Cpu>, next: seq<Cpu>)
    requires Slots(g, cpus) && |next| == |cpus|
    requires forall i: nat :: ViewOf(h, i) == ViewOf(g, i)
    requires forall i :: 0 <= i < |cpus| ==>
      next[i].b == cpus[i].b && next[i].ap == cpus[i].ap && next[i].flushed == cpus[i].flushed
    ensures Slots(h, next)
  {
    hide BookInv;
    forall i | 0 < i < |next| ensures SlotInv(next[i], ViewOf(h, i)) {
      assert SlotInv(cpus[i], ViewOf(g, i));
    }
  }

  /** The holder of the page-table owner touches the mutex, its own cache and the request cells. */
  lemma RequestFrame(s: State, ask: Ask)
    requires Owners(s)
    ensures var t := RequestNext(s, ask);
      && t.g.(tables := Free) == s.g.(tables := Free) && |t.cpus| == |s.cpus| && t.w.handlers == s.w.handlers
      && (t.g.tables == s.g.tables || (s.g.tables == Free && t.g.tables == ByRequester) ||
           (s.g.tables == ByRequester && t.g.tables == Free))
      && Owners(t)
      && forall i :: 0 <= i < |s.cpus| ==>
           t.cpus[i].b == s.cpus[i].b && t.cpus[i].ap == s.cpus[i].ap && t.cpus[i].flushed == s.cpus[i].flushed
  {
    hide InvalidateNext, Live;
    if s.w.requester.By? && s.w.requester.cpu < |s.cpus| {
      InvalidateFrame(s, s.w.requester.cpu, s.w.requester.pc, ask);
    }
  }

  lemma InvalidateFrame(s: State, cpu: nat, pc: RequestPc, ask: Ask)
    requires cpu < |s.cpus| && s.w.requester == By(cpu, pc)
    ensures var t := InvalidateNext(s, cpu, pc, ask);
      && |t.cpus| == |s.cpus| && t.w.handlers == s.w.handlers
      && (if t.w.requester.By? then t.w.requester.cpu == cpu && t.g == s.g else t.g == s.g.(tables := Free))
      && forall i :: 0 <= i < |s.cpus| ==>
           t.cpus[i].b == s.cpus[i].b && t.cpus[i].ap == s.cpus[i].ap && t.cpus[i].flushed == s.cpus[i].flushed
  {
    hide FlushStep, FlushCount, Members, Clean;
  }

  lemma RequestStepKeeps(s: State, ask: Ask)
    requires Inv(s)
    ensures Inv(Apply(s, RequestStep(ask)))
  {
    hide RequestNext, Cpus, Handlers, SlotInv, WireInv, Published;
    RequesterSees(s);
    RequestFrame(s, ask);
    RequestKeeps(s, ask);
    SameSlots(s.g, RequestNext(s, ask).g, s.cpus, RequestNext(s, ask).cpus);
  }

  lemma HandlerFrame(s: State, h: nat)
    requires h < |s.w.handlers|
    ensures var t := HandlerNext(s, h);
      && t.g == s.g && |t.cpus| == |s.cpus| && t.w.requester == s.w.requester
      && forall i :: 0 <= i < |s.cpus| ==>
           t.cpus[i].b == s.cpus[i].b && t.cpus[i].ap == s.cpus[i].ap && t.cpus[i].flushed == s.cpus[i].flushed
  {
  }

  lemma HandlerStepKeeps(s: State, h: nat)
    requires Inv(s)
    ensures Inv(Apply(s, HandlerStep(h)))
  {
    hide HandlerNext, Cpus, Handlers, SlotInv, Published, WireInv;
    if h < |s.w.handlers| {
      RequesterSees(s);
      HandlerFrame(s, h);
      HandlerKeeps(s, h);
      SameSlots(s.g, s.g, s.cpus, HandlerNext(s, h).cpus);
    }
  }

  lemma StartHandlerKeeps(s: State, h: nat, cpu: nat, poll: bool)
    requires Inv(s)
    ensures Inv(Apply(s, StartHandler(h, cpu, poll)))
  {
    hide SlotInv;
    var t := Apply(s, StartHandler(h, cpu, poll));
    if t != s {
      OneHandler(s.cpus, s.w, h, t.w.handlers[h]);
      SameCpus(s.cpus, s.w, t.w.handlers, s.w.drop, s.w.diag);
    }
  }

  /** The hardware fills its cache from the current page tables. */
  lemma CacheKeeps(s: State, i: nat, page: Page)
    requires Inv(s)
    ensures Inv(Apply(s, Cache(i, page)))
  {
    hide SlotInv;
    var t := Apply(s, Cache(i, page));
    if i < |s.cpus| && Live(s.cpus[i].ap) {
      assert CpuInv(s.cpus[i], i, s.w);
      FresherKeeps(s.cpus[i], t.cpus[i].tlb, i, s.w);
      OneCpu(s.cpus, i, t.cpus[i], s.w);
      OneTlb(s.cpus, i, t.cpus[i], s.w);
      SameSlots(s.g, s.g, s.cpus, t.cpus);
    }
  }

  lemma OtherStepKeeps(s: State, step: Step)
    requires Inv(s) && (step.RaiseTerminal? || step.Diagnose? || step.EndDiagnose?)
    ensures Inv(Apply(s, step))
  {
    hide SlotInv, Cpus, Handlers;
    var t := Apply(s, step);
    SameSlots(s.g, t.g, s.cpus, t.cpus);
    SameCpus(s.cpus, s.w, s.w.handlers, t.w.drop, t.w.diag);
    SameDrop(s.cpus, s.w, t.w.drop, t.w.diag);
  }

  /** Every step of every thread keeps the invariant. */
  lemma StepKeeps(s: State, step: Step)
    requires Inv(s)
    ensures Inv(Apply(s, step))
  {
    hide Inv, Apply;
    match step
    case ApStep(i, pick) => ApStepKeeps(s, i, pick);
    case Command(cmd) => CommandKeeps(s, cmd);
    case CtlStep(pick) => CtlStepKeeps(s, pick);
    case StartStop(i) => StartStopKeeps(s, i);
    case StopStep => StopStepKeeps(s);
    case RequestStep(ask) => RequestStepKeeps(s, ask);
    case StartHandler(h, cpu, poll) => StartHandlerKeeps(s, h, cpu, poll);
    case HandlerStep(h) => HandlerStepKeeps(s, h);
    case Cache(i, page) => CacheKeeps(s, i, page);
    case _ => OtherStepKeeps(s, step);
  }

  lemma InitHolds(s: State)
    requires Init(s)
    ensures Inv(s)
  {
    forall i | 0 < i < |s.cpus| ensures SlotInv(s.cpus[i], ViewOf(s.g, i)) {
      assert s.cpus[i] == BootCpu(s.cpus[i].b.epoch);
    }
    forall i | 0 <= i < |s.cpus| ensures CpuInv(s.cpus[i], i, s.w) {
      assert s.cpus[i].tlb == map[];
    }
    forall h | 0 <= h < |s.w.handlers| ensures HandlerInv(s.w.handlers[h], s.cpus, s.w) {
      assert s.w.handlers[h] == NoHandler;
    }
  }

  lemma {:induction false} RunKeeps(s: State, steps: seq<Step>)
    requires Inv(s)
    ensures Inv(Execute(s, steps))
    decreases |steps|
  {
    hide Inv, Apply;
    if steps != [] {
      StepKeeps(s, steps[0]);
      RunKeeps(Apply(s, steps[0]), steps[1..]);
    }
  }

  lemma ReachableInv(s: State)
    requires Reachable(s)
    ensures Inv(s)
  {
    hide Inv;
    var s0, steps: seq<Step> :| Init(s0) && s == Execute(s0, steps);
    InitHolds(s0);
    RunKeeps(s0, steps);
  }
}
