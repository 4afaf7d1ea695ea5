/** The MWAIT idle gate: CPUs enter a monitored wait on a ticket, managers close the gate, change
    declarations or the policy, and open it again.

    One step is one access to a shared cell.  The Runtime owner is a mutex; admission and all
    changes happen under it, the entry into the wait does not. */
module IdleGate {
  import opened Common

  /** A published idle state of one CPU; `usable` ones have no reason against them and enter by
      MONITOR/MWAIT. */
  datatype Declaration = Declaration(owner: nat, ownerEpoch: nat, usable: bool, revision: nat)
  datatype Policy = Policy(owner: nat, ownerEpoch: nat, enabled: bool, generation: nat)

  /** What a CPU was admitted for. */
  datatype Ticket = Ticket(declaration: Declaration, policy: Policy)

  datatype CpuPc =
    | Awake
    | Admit                  // holds Runtime: prepare_locked up to its look at the gate
    | Counting(t: Ticket)
    | Releasing(t: Ticket)
    | Arm(t: Ticket)         // enter_with, before MONITOR
    | Check(t: Ticket)       // armed, before the last look at the gate
    | Wait(t: Ticket)        // in MWAIT
    | Leave(t: Ticket)

  /** One CPU: its gate, its count of outstanding tickets, its monitored word, and whether that word
      was written since the monitor was armed. */
  datatype Cpu = Cpu(gate: nat, active: nat, word: nat, armed: bool, triggered: bool, declaration: Option<Declaration>,
      pc: CpuPc)

  datatype Op =
    | Publish(cpu: nat, owner: nat, ownerEpoch: nat, usable: bool)
    | SetPolicy(policy: Policy)
    | Withdraw(owner: nat)

  datatype ManagerPc =
    | Idle
    | CloseGate(op: Op, k: nat, busy: bool)
    | CloseWord(op: Op, k: nat, busy: bool)
    | CloseLoad(op: Op, k: nat, busy: bool)
    | CheckAll(op: Op, k: nat, busy: bool)
    | Decide(op: Op, busy: bool)
    | Reopen(op: Op, k: nat)
    | Finish

  datatype Owner = Free | ByCpu(i: nat) | ByManager

  datatype State = State(runtime: Owner, cpus: seq<Cpu>, policy: Option<Policy>, nextRevision: nat, manager: ManagerPc)

  datatype Step =
    | CpuStep(i: nat, pick: bool)      // `pick`: other admission conditions, or an interrupt in the wait
    | Begin(op: Op)
    | ManagerStep

  predicate OwnsPolicy(s: State, owner: nat) {
    s.policy.Some? && s.policy.value.owner == owner
  }

  /** The CPUs an operation closes. */
  predicate Affects(s: State, op: Op, k: nat)
    requires k < |s.cpus|
  {
    match op
    case Publish(cpu, _, _, _) => k == cpu
    case SetPolicy(_) => true
    case Withdraw(owner) =>
      OwnsPolicy(s, owner) || (s.cpus[k].declaration.Some? && s.cpus[k].declaration.value.owner == owner)
  }

  /** Only the owner of a declaration or of the policy may replace it. */
  predicate Permitted(s: State, op: Op) {
    match op
    case Publish(cpu, owner, epoch, _) =>
      cpu < |s.cpus| && (s.cpus[cpu].declaration.Some? ==>
        s.cpus[cpu].declaration.value.owner == owner && s.cpus[cpu].declaration.value.ownerEpoch == epoch)
    case SetPolicy(p) => s.policy.Some? ==> s.policy.value.owner == p.owner && s.policy.value.ownerEpoch == p.ownerEpoch
    case Withdraw(_) => true
  }

  function SetCpu(s: State, i: nat, c: Cpu): State
    requires i < |s.cpus|
  {
    s.(cpus := s.cpus[i := c])
  }

  function CpuNext(s: State, i: nat, pick: bool): State
    requires i < |s.cpus|
  {
    var c := s.cpus[i];
    match c.pc
    case Awake => if s.runtime == Free then SetCpu(s, i, c.(pc := Admit)).(runtime := ByCpu(i)) else s
    case Admit =>
      if pick && c.declaration.Some? && c.declaration.value.usable && s.policy.Some? && s.policy.value.enabled
         && c.gate == c.declaration.value.revision
      then SetCpu(s, i, c.(pc := Counting(Ticket(c.declaration.value, s.policy.value))))
      else SetCpu(s, i, c.(pc := Awake)).(runtime := Free)
    case Counting(t) => SetCpu(s, i, c.(active := c.active + 1, pc := Releasing(t)))
    case Releasing(t) => SetCpu(s, i, c.(pc := Arm(t))).(runtime := Free)
    case Arm(t) => SetCpu(s, i, c.(armed := true, triggered := false, pc := Check(t)))
    case Check(t) => SetCpu(s, i, c.(pc := if c.gate == t.declaration.revision && pick then Wait(t) else Leave(t)))
    case Wait(t) => if c.triggered || pick then SetCpu(s, i, c.(pc := Leave(t))) else s
    case Leave(t) => SetCpu(s, i, c.(active := if c.active > 0 then c.active - 1 else 0, armed := false, pc := Awake))
  }

  /** The next CPU the closing loop comes to. */
  function NextClose(s: State, op: Op, k: nat, busy: bool): ManagerPc {
    if k < |s.cpus| then CloseGate(op, k, busy)
    else if op.SetPolicy? then CheckAll(op, 0, busy) else Decide(op, busy)
  }

  /** The change itself, made only when no affected CPU has a ticket. */
  function Change(s: State, op: Op): State {
    match op
    case Publish(cpu, owner, epoch, usable) =>
      if cpu < |s.cpus| then
        var declaration := Declaration(owner, epoch, usable, s.nextRevision);
        SetCpu(s, cpu, s.cpus[cpu].(declaration := Some(declaration))).(nextRevision := s.nextRevision + 1)
      else s
    case SetPolicy(p) => s.(policy := Some(p))
    case Withdraw(owner) =>
      s.(policy := if OwnsPolicy(s, owner) then None else s.policy, cpus := Forget(s.cpus, owner))
  }

  function Forget(cpus: seq<Cpu>, owner: nat): (r: seq<Cpu>)
    ensures |r| == |cpus|
    ensures forall i :: 0 <= i < |r| ==>
      r[i] == if cpus[i].declaration.Some? && cpus[i].declaration.value.owner == owner
          then cpus[i].(declaration := None) else cpus[i]
  {
    seq(|cpus|, i requires 0 <= i < |cpus| =>
      if cpus[i].declaration.Some? && cpus[i].declaration.value.owner == owner then cpus[i].(declaration := None)
      else cpus[i])
  }

  /** The gates an operation opens again when the policy and the declaration allow it. */
  predicate Reopens(op: Op, k: nat) {
    op.SetPolicy? || (op.Publish? && k == op.cpu)
  }

  function ManagerNext(s: State): State {
    match s.manager
    case Idle => s
    case CloseGate(op, k, busy) =>
      if k < |s.cpus| && Affects(s, op, k) then SetCpu(s, k, s.cpus[k].(gate := 0)).(manager := CloseWord(op, k, busy))
      else s.(manager := NextClose(s, op, k + 1, busy))
    case CloseWord(op, k, busy) =>
      if k < |s.cpus| then
        var c := s.cpus[k];
        SetCpu(s, k, c.(word := c.word + 1, triggered := c.triggered || c.armed)).(manager := CloseLoad(op, k, busy))
      else s.(manager := CloseLoad(op, k, busy))
    case CloseLoad(op, k, busy) =>
      s.(manager := NextClose(s, op, k + 1, busy || (!op.SetPolicy? && k < |s.cpus| && s.cpus[k].active != 0)))
    case CheckAll(op, k, busy) =>
      s.(manager := if k < |s.cpus| then CheckAll(op, k + 1, busy || s.cpus[k].active != 0) else Decide(op, busy))
    case Decide(op, busy) =>
      if busy then s.(manager := Finish)
      else Change(s, op).(manager := if op.Withdraw? then Finish else Reopen(op, 0))
    case Reopen(op, k) =>
      if k >= |s.cpus| then s.(manager := Finish)
      else
        var c := s.cpus[k];
        if Reopens(op, k) && s.policy.Some? && s.policy.value.enabled && c.declaration.Some? &&
          c.declaration.value.usable
        then SetCpu(s, k, c.(gate := c.declaration.value.revision)).(manager := Reopen(op, k + 1))
        else s.(manager := Reopen(op, k + 1))
    case Finish => s.(manager := Idle, runtime := Free)
  }

  function Next(s: State, step: Step): State {
    match step
    case CpuStep(i, pick) => if i < |s.cpus| then CpuNext(s, i, pick) else s
    case Begin(op) =>
      if s.manager == Idle && s.runtime == Free && Permitted(s, op)
      then s.(runtime := ByManager, manager := CloseGate(op, 0, false)) else s
    case ManagerStep => ManagerNext(s)
  }

  function Run(s: State, steps: seq<Step>): State
    decreases |steps|
  {
    if steps == [] then s else Run(Next(s, steps[0]), steps[1..])
  }

  predicate Boot(s: State) {
    && s.runtime == Free && s.policy == None && s.nextRevision == 1 && s.manager == Idle
    && forall i :: 0 <= i < |s.cpus| ==> s.cpus[i] == Cpu(0, 0, 0, false, false, None, Awake)
  }

  // ----- the invariant

  predicate HoldsRuntime(pc: CpuPc) {
    pc.Admit? || pc.Counting? || pc.Releasing?
  }

  /** The ticket is counted in `active`. */
  predicate Counted(pc: CpuPc) {
    pc.Releasing? || pc.Arm? || pc.Check? || pc.Wait? || pc.Leave?
  }

  predicate HasTicket(pc: CpuPc) {
    pc.Counting? || Counted(pc)
  }

  /** The manager has closed the gate of CPU i and not yet written its word. */
  predicate MidClose(m: ManagerPc, i: nat) {
    m.CloseWord? && m.k == i
  }

  predicate CpuInv(s: State, i: nat)
    requires i < |s.cpus|
  {
    var c := s.cpus[i];
    && (HoldsRuntime(c.pc) <==> s.runtime == ByCpu(i))
    && c.active == (if Counted(c.pc) then 1 else 0)
    && (HasTicket(c.pc) ==> c.declaration == Some(c.pc.t.declaration) && s.policy == Some(c.pc.t.policy))
    && (c.declaration.Some? ==> c.declaration.value.revision > 0)
    && (c.pc.Check? || c.pc.Wait? ==> c.armed)
    && (c.pc.Wait? ==> c.gate == c.pc.t.declaration.revision || c.triggered || MidClose(s.manager, i))
  }

  /** Before the change, every CPU that was asked for its tickets had none, or the manager is busy. */
  predicate ManagerInv(s: State) {
    && (s.manager.Idle? <==> s.runtime != ByManager)
    && match s.manager
       case CloseGate(op, k, busy) => Permitted(s, op) && Asked(s, op, k, busy)
       case CloseWord(op, k, busy) => Permitted(s, op) && Asked(s, op, k, busy)
       case CloseLoad(op, k, busy) => Permitted(s, op) && Asked(s, op, k, busy)
       case CheckAll(op, k, busy) => Permitted(s, op) && op.SetPolicy? &&
         (busy || forall j :: 0 <= j < k && j < |s.cpus| ==> s.cpus[j].active == 0)
       case Decide(op, busy) => Permitted(s, op) &&
         (busy || forall j :: 0 <= j < |s.cpus| && Affects(s, op, j) ==> s.cpus[j].active == 0)
       case Reopen(op, k) =>
         && !op.Withdraw?
         && (forall j :: 0 <= j < |s.cpus| && Reopens(op, j) ==> s.cpus[j].active == 0)
       case _ => true
  }

  predicate Asked(s: State, op: Op, k: nat, busy: bool) {
    busy || op.SetPolicy? || forall j :: 0 <= j < k && j < |s.cpus| && Affects(s, op, j) ==> s.cpus[j].active == 0
  }

  predicate Inv(s: State) {
    && (s.runtime.ByCpu? ==> s.runtime.i < |s.cpus|) && s.nextRevision > 0
    && ManagerInv(s) && forall i :: 0 <= i < |s.cpus| ==> CpuInv(s, i)
  }

  lemma BootInv(s: State)
    requires Boot(s)
    ensures Inv(s)
  {
  }

  /** What a step of one CPU leaves alone, and that its count only grows under the Runtime owner. */
  lemma CpuFrame(s: State, i: nat, pick: bool)
    requires i < |s.cpus| && CpuInv(s, i)
    ensures var t := CpuNext(s, i, pick);
      && |t.cpus| == |s.cpus| && t.policy == s.policy && t.manager == s.manager && t.nextRevision == s.nextRevision
      && (forall j :: 0 <= j < |s.cpus| && j != i ==> t.cpus[j] == s.cpus[j])
      && t.cpus[i].declaration == s.cpus[i].declaration
      && (t.cpus[i].active <= s.cpus[i].active || s.runtime == ByCpu(i))
      && (t.runtime == s.runtime || (s.runtime == Free && t.runtime == ByCpu(i)) ||
           (s.runtime == ByCpu(i) && t.runtime == Free))
  {
  }

  lemma CpuKeepsOwn(s: State, i: nat, pick: bool)
    requires i < |s.cpus| && CpuInv(s, i)
    ensures |CpuNext(s, i, pick).cpus| == |s.cpus| && CpuInv(CpuNext(s, i, pick), i)
  {
  }

  lemma CpuKeeps(s: State, i: nat, pick: bool)
    requires Inv(s) && i < |s.cpus|
    ensures Inv(CpuNext(s, i, pick))
  {
    hide CpuNext;
    var t := CpuNext(s, i, pick);
    CpuFrame(s, i, pick);
    CpuKeepsOwn(s, i, pick);
    forall j | 0 <= j < |t.cpus| ensures CpuInv(t, j) {
      assert CpuInv(s, j);
    }
  }

  lemma CloseGateKeeps(s: State)
    requires Inv(s) && s.manager.CloseGate?
    ensures Inv(ManagerNext(s))
  {
    var t := ManagerNext(s);
    forall j | 0 <= j < |t.cpus| ensures CpuInv(t, j) {
      assert CpuInv(s, j);
    }
  }

  lemma CloseWordKeeps(s: State)
    requires Inv(s) && s.manager.CloseWord?
    ensures Inv(ManagerNext(s))
  {
    var t := ManagerNext(s);
    forall j | 0 <= j < |t.cpus| ensures CpuInv(t, j) {
      assert CpuInv(s, j);
    }
  }

  lemma CloseLoadKeeps(s: State)
    requires Inv(s) && s.manager.CloseLoad?
    ensures Inv(ManagerNext(s))
  {
    var t := ManagerNext(s);
    forall j | 0 <= j < |t.cpus| ensures CpuInv(t, j) {
      assert CpuInv(s, j);
    }
  }

  lemma ChangeKeeps(s: State)
    requires Inv(s) && (s.manager.CheckAll? || s.manager.Decide?)
    ensures Inv(ManagerNext(s))
  {
    var t := ManagerNext(s);
    forall j | 0 <= j < |t.cpus| ensures CpuInv(t, j) {
      assert CpuInv(s, j);
    }
  }

  lemma ReopenKeeps(s: State)
    requires Inv(s) && (s.manager.Reopen? || s.manager.Finish? || s.manager.Idle?)
    ensures Inv(ManagerNext(s))
  {
    var t := ManagerNext(s);
    forall j | 0 <= j < |t.cpus| ensures CpuInv(t, j) {
      assert CpuInv(s, j);
    }
  }

  lemma StepKeeps(s: State, step: Step)
    requires Inv(s)
    ensures Inv(Next(s, step))
  {
    hide CpuNext, ManagerNext;
    match step
    case CpuStep(i, pick) => if i < |s.cpus| { CpuKeeps(s, i, pick); }
    case Begin(op) =>
      var t := Next(s, step);
      forall j | 0 <= j < |t.cpus| ensures CpuInv(t, j) {
        assert CpuInv(s, j);
      }
    case ManagerStep =>
      if s.manager.CloseGate? {
        CloseGateKeeps(s);
      } else if s.manager.CloseWord? {
        CloseWordKeeps(s);
      } else if s.manager.CloseLoad? {
        CloseLoadKeeps(s);
      } else if s.manager.CheckAll? || s.manager.Decide? {
        ChangeKeeps(s);
      } else {
        ReopenKeeps(s);
      }
  }

  lemma {:induction false} RunKeeps(s: State, steps: seq<Step>)
    requires Inv(s)
    ensures Inv(Run(s, steps))
    decreases |steps|
  {
    hide Inv, Next;
    if steps != [] {
      StepKeeps(s, steps[0]);
      RunKeeps(Next(s, steps[0]), steps[1..]);
    }
  }

  // ----- what the gate promises, in every interleaving

  /** No lost wake-up: a CPU that waits behind a closed gate has its monitored word written, or is
      about to by the manager that closed the gate.  A gate that was stored as 0 is closed. */
  lemma NoLostWake(s: State, steps: seq<Step>, i: nat)
    requires Boot(s) && i < |Run(s, steps).cpus| && Run(s, steps).cpus[i].pc.Wait?
    ensures var t := Run(s, steps);
      var c := t.cpus[i];
      && (c.gate != c.pc.t.declaration.revision ==> c.triggered || MidClose(t.manager, i))
      && (c.gate == 0 ==> c.gate != c.pc.t.declaration.revision)
  {
    hide Run;
    BootInv(s);
    RunKeeps(s, steps);
    assert CpuInv(Run(s, steps), i);
  }

  /** So once the gate of a CPU is closed, its next step leaves the wait, without any interrupt. */
  lemma ClosedGateWakes(s: State, steps: seq<Step>, i: nat)
    requires Boot(s) && i < |Run(s, steps).cpus| && Run(s, steps).cpus[i].pc.Wait?
    requires var t := Run(s, steps); t.cpus[i].gate != t.cpus[i].pc.t.declaration.revision && !MidClose(t.manager, i)
    ensures var t := Next(Run(s, steps), CpuStep(i, false)); |t.cpus| > i && t.cpus[i].pc.Leave?
  {
    hide Run;
    NoLostWake(s, steps, i);
  }

  /** The declaration and the policy a ticket was issued for are still the current ones as long as
      the ticket is outstanding. */
  lemma TicketStable(s: State, steps: seq<Step>, i: nat)
    requires Boot(s) && i < |Run(s, steps).cpus| && HasTicket(Run(s, steps).cpus[i].pc)
    ensures var t := Run(s, steps);
      t.cpus[i].declaration == Some(t.cpus[i].pc.t.declaration) && t.policy == Some(t.cpus[i].pc.t.policy)
  {
    hide Run;
    BootInv(s);
    RunKeeps(s, steps);
    assert CpuInv(Run(s, steps), i);
  }

  /** A change succeeds only when no affected CPU has a ticket. */
  lemma ChangeFindsNoTickets(s: State, steps: seq<Step>, i: nat)
    requires Boot(s) && i < |Run(s, steps).cpus| && Run(s, steps).manager.Decide? && !Run(s, steps).manager.busy
    requires Affects(Run(s, steps), Run(s, steps).manager.op, i)
    ensures !HasTicket(Run(s, steps).cpus[i].pc)
  {
    hide Run;
    BootInv(s);
    RunKeeps(s, steps);
    assert CpuInv(Run(s, steps), i);
  }
}
