/** What a CPU and the manager of the idle gate achieve by their own steps. */
module IdleProgress {
  import opened Common
  import opened IdleGate

  // ----- the CPU

  function CpuSolo(s: State, i: nat, pick: bool, n: nat): State
    decreases n
  {
    if n == 0 || i >= |s.cpus| then s else CpuSolo(CpuNext(s, i, pick), i, pick, n - 1)
  }

  /** The CPU may wait: its declaration is usable, the policy is on, and the gate is open for it. */
  predicate MayWait(s: State, i: nat) {
    && i < |s.cpus| && s.cpus[i].declaration.Some? && s.cpus[i].declaration.value.usable
    && s.policy.Some? && s.policy.value.enabled && s.cpus[i].gate == s.cpus[i].declaration.value.revision
  }

  lemma {:induction false} CpuJoin(s: State, i: nat, pick: bool, m: nat, n: nat)
    ensures CpuSolo(s, i, pick, m + n) == CpuSolo(CpuSolo(s, i, pick, m), i, pick, n)
    decreases m
  {
    hide CpuNext;
    if m > 0 && i < |s.cpus| { CpuJoin(CpuNext(s, i, pick), i, pick, m - 1, n); }
  }

  lemma TakesTicket(s: State, i: nat)
    requires MayWait(s, i) && s.cpus[i].pc == Awake && s.runtime == Free
    ensures CpuSolo(s, i, true, 3) == SetCpu(s, i, s.cpus[i].(
      active := s.cpus[i].active + 1, pc := Releasing(Ticket(s.cpus[i].declaration.value, s.policy.value)))).(
      runtime := ByCpu(i))
  {
  }

  lemma UsesTicket(s: State, i: nat, t: Ticket)
    requires i < |s.cpus| && s.cpus[i].pc == Releasing(t) && s.cpus[i].gate == t.declaration.revision
    ensures CpuSolo(s, i, true, 3) ==
      SetCpu(s, i, s.cpus[i].(armed := true, triggered := false, pc := Wait(t))).(runtime := Free)
  {
  }

  /** An admitted CPU waits on a ticket for exactly its declaration and the policy. */
  lemma Enters(s: State, i: nat)
    requires MayWait(s, i) && s.cpus[i].pc == Awake && s.runtime == Free
    ensures CpuSolo(s, i, true, 6) == SetCpu(s, i, s.cpus[i].(
      active := s.cpus[i].active + 1, armed := true, triggered := false,
      pc := Wait(Ticket(s.cpus[i].declaration.value, s.policy.value))))
  {
    hide CpuSolo;
    TakesTicket(s, i);
    var a := CpuSolo(s, i, true, 3);
    UsesTicket(a, i, Ticket(s.cpus[i].declaration.value, s.policy.value));
    CpuJoin(s, i, true, 3, 3);
    var b := CpuSolo(a, i, true, 3);
    assert b.cpus == s.cpus[i := b.cpus[i]];
  }

  /** Admission is granted exactly to a CPU that may wait. */
  lemma AdmitIff(s: State, i: nat)
    requires i < |s.cpus| && s.cpus[i].pc == Admit
    ensures CpuNext(s, i, true).cpus[i].pc.Counting? <==> MayWait(s, i)
    ensures !MayWait(s, i) ==> CpuNext(s, i, true) == SetCpu(s, i, s.cpus[i].(pc := Awake)).(runtime := Free)
  {
  }

  /** The last look decides: a CPU whose gate was closed meanwhile does not enter the wait. */
  lemma LastLook(s: State, i: nat, t: Ticket)
    requires i < |s.cpus| && s.cpus[i].pc == Check(t)
    ensures CpuNext(s, i, true) ==
      SetCpu(s, i, s.cpus[i].(pc := if s.cpus[i].gate == t.declaration.revision then Wait(t) else Leave(t)))
  {
  }

  /** A CPU stays in the wait until its word is written or an interrupt comes, then gives its ticket
      back. */
  lemma Wakes(s: State, i: nat, t: Ticket, interrupt: bool)
    requires i < |s.cpus| && s.cpus[i].pc == Wait(t) && s.cpus[i].active > 0
    ensures !s.cpus[i].triggered && !interrupt ==> CpuSolo(s, i, interrupt, 1) == s
    ensures s.cpus[i].triggered || interrupt ==>
      CpuSolo(s, i, interrupt, 2) ==
        SetCpu(s, i, s.cpus[i].(active := s.cpus[i].active - 1, armed := false, pc := Awake))
  {
  }

  // ----- the manager

  function ManagerSolo(s: State, n: nat): State
    decreases n
  {
    if n == 0 then s else ManagerSolo(ManagerNext(s), n - 1)
  }

  /** The manager's own steps lead from s to t. */
  ghost predicate Leads(s: State, t: State) {
    exists n: nat :: ManagerSolo(s, n) == t
  }

  lemma {:induction false} SoloJoin(s: State, m: nat, n: nat)
    ensures ManagerSolo(s, m + n) == ManagerSolo(ManagerSolo(s, m), n)
    decreases m
  {
    hide ManagerNext;
    if m > 0 { SoloJoin(ManagerNext(s), m - 1, n); }
  }

  lemma LeadsJoin(s: State, t: State, u: State)
    requires Leads(s, t) && Leads(t, u)
    ensures Leads(s, u)
  {
    hide ManagerSolo;
    var m: nat :| ManagerSolo(s, m) == t;
    var n: nat :| ManagerSolo(t, n) == u;
    SoloJoin(s, m, n);
  }

  lemma LeadsStep(s: State)
    ensures Leads(s, ManagerNext(s)) && Leads(s, s)
  {
    hide ManagerNext;
    assert ManagerSolo(s, 0) == s && ManagerSolo(ManagerNext(s), 0) == ManagerNext(s);
    assert ManagerSolo(s, 1) == ManagerNext(s);
  }

  /** A closed CPU: its gate is shut, and its word is written. */
  function Closed(c: Cpu): Cpu {
    c.(gate := 0, word := c.word + 1, triggered := c.triggered || c.armed)
  }

  /** The affected CPUs from `from` on are closed. */
  function ClosedFrom(s: State, op: Op, from: nat): (r: seq<Cpu>)
    ensures |r| == |s.cpus|
    ensures forall j :: 0 <= j < |r| ==> r[j] == if from <= j && Affects(s, op, j) then Closed(s.cpus[j]) else s.cpus[j]
  {
    seq(|s.cpus|, j requires 0 <= j < |s.cpus| =>
      if from <= j && Affects(s, op, j) then Closed(s.cpus[j]) else s.cpus[j])
  }

  /** Some affected CPU from `from` on has a ticket. */
  predicate BusyFrom(s: State, op: Op, from: nat) {
    exists j :: from <= j < |s.cpus| && Affects(s, op, j) && s.cpus[j].active != 0
  }

  /** Where the closing loop ends. */
  function LoopEnd(op: Op, busy: bool): ManagerPc {
    if op.SetPolicy? then CheckAll(op, 0, busy) else Decide(op, busy)
  }

  lemma CloseSteps(s: State, op: Op, k: nat, busy: bool)
    requires k < |s.cpus|
    ensures s.manager == CloseGate(op, k, busy) && Affects(s, op, k) ==>
      ManagerNext(s) == SetCpu(s, k, s.cpus[k].(gate := 0)).(manager := CloseWord(op, k, busy))
    ensures s.manager == CloseWord(op, k, busy) ==>
      var c := s.cpus[k];
      ManagerNext(s) ==
        SetCpu(s, k, c.(word := c.word + 1, triggered := c.triggered || c.armed)).(manager := CloseLoad(op, k, busy))
    ensures s.manager == CloseLoad(op, k, busy) ==>
      ManagerNext(s) ==
        s.(manager := NextClose(s, op, k + 1, busy || (!op.SetPolicy? && s.cpus[k].active != 0)))
  {
  }

  lemma CloseOne(s: State, op: Op, k: nat, busy: bool) returns (t: State)
    requires k < |s.cpus| && s.manager == CloseGate(op, k, busy) && Affects(s, op, k)
    ensures Leads(s, t)
    ensures t == SetCpu(s, k, Closed(s.cpus[k])).(
      manager := NextClose(s, op, k + 1, busy || (!op.SetPolicy? && s.cpus[k].active != 0)))
  {
    hide Leads, ManagerNext, Affects;
    CloseSteps(s, op, k, busy);
    var a := ManagerNext(s);
    CloseSteps(a, op, k, busy);
    var b := ManagerNext(a);
    CloseSteps(b, op, k, busy);
    t := ManagerNext(b);
    LeadsStep(s);
    LeadsStep(a);
    LeadsStep(b);
    LeadsJoin(s, a, b);
    LeadsJoin(s, b, t);
    assert t.cpus == s.cpus[k := Closed(s.cpus[k])];
  }

  lemma SkipOne(s: State, op: Op, k: nat, busy: bool)
    requires s.manager == CloseGate(op, k, busy) && !(k < |s.cpus| && Affects(s, op, k))
    ensures ManagerNext(s) == s.(manager := NextClose(s, op, k + 1, busy))
  {
  }

  /** Closing one CPU changes neither who is affected nor who has a ticket. */
  lemma CloseFrame(s: State, t: State, op: Op, k: nat)
    requires k < |s.cpus| && t.cpus == s.cpus[k := Closed(s.cpus[k])] && t.policy == s.policy
    ensures forall j :: 0 <= j < |s.cpus| ==>
      (Affects(t, op, j) <==> Affects(s, op, j)) && t.cpus[j].active == s.cpus[j].active
  {
  }

  /** The closing loop closes every affected CPU and finds out whether one of them has a ticket. */
  lemma {:induction false} ClosesAll(s: State, op: Op, k: nat, busy: bool) returns (t: State)
    requires s.manager == CloseGate(op, k, busy)
    ensures Leads(s, t)
    ensures t == s.(
      cpus := ClosedFrom(s, op, k), manager := LoopEnd(op, busy || (!op.SetPolicy? && BusyFrom(s, op, k))))
    decreases if k < |s.cpus| then |s.cpus| - k else 0
  {
    hide Leads, ManagerSolo, ManagerNext, Affects;
    if k < |s.cpus| && Affects(s, op, k) {
      var more := busy || (!op.SetPolicy? && s.cpus[k].active != 0);
      var a := CloseOne(s, op, k, busy);
      CloseFrame(s, a, op, k);
      if k + 1 < |s.cpus| {
        t := ClosesAll(a, op, k + 1, more);
        LeadsJoin(s, a, t);
      } else {
        t := a;
      }
      BusyNext(s, a, op, k);
      assert t.cpus == ClosedFrom(s, op, k);
    } else {
      SkipOne(s, op, k, busy);
      var a := ManagerNext(s);
      LeadsStep(s);
      if k + 1 < |s.cpus| {
        t := ClosesAll(a, op, k + 1, busy);
        LeadsJoin(s, a, t);
      } else {
        t := a;
      }
      BusySkip(s, a, op, k);
      assert t.cpus == ClosedFrom(s, op, k);
    }
  }

  lemma BusyNext(s: State, a: State, op: Op, k: nat)
    requires k < |s.cpus| == |a.cpus| && Affects(s, op, k)
    requires forall j :: 0 <= j < |s.cpus| ==>
      (Affects(a, op, j) <==> Affects(s, op, j)) && a.cpus[j].active == s.cpus[j].active
    ensures BusyFrom(s, op, k) <==> s.cpus[k].active != 0 || BusyFrom(a, op, k + 1)
  {
    hide Affects;
  }

  lemma BusySkip(s: State, a: State, op: Op, k: nat)
    requires a.cpus == s.cpus && a.policy == s.policy && !(k < |s.cpus| && Affects(s, op, k))
    ensures BusyFrom(s, op, k) <==> BusyFrom(a, op, k + 1)
    ensures ClosedFrom(s, op, k) == ClosedFrom(a, op, k + 1)
    ensures k + 1 >= |s.cpus| ==> !BusyFrom(s, op, k)
  {
  }

  // ----- the decision and the gates that open again

  lemma {:induction false} AsksAll(s: State, op: Op, k: nat, busy: bool) returns (t: State)
    requires s.manager == CheckAll(op, k, busy)
    ensures Leads(s, t)
    ensures t == s.(manager := Decide(op, busy || exists j :: k <= j < |s.cpus| && s.cpus[j].active != 0))
    decreases if k < |s.cpus| then |s.cpus| - k else 0
  {
    LeadsStep(s);
    hide Leads;
    var a := ManagerNext(s);
    if k < |s.cpus| {
      t := AsksAll(a, op, k + 1, busy || s.cpus[k].active != 0);
      LeadsJoin(s, a, t);
    } else {
      t := a;
    }
  }

  /** The gate of CPU j opens again after this operation. */
  predicate OpensAgain(s: State, op: Op, j: nat)
    requires j < |s.cpus|
  {
    && Reopens(op, j) && s.policy.Some? && s.policy.value.enabled
    && s.cpus[j].declaration.Some? && s.cpus[j].declaration.value.usable
  }

  function OpenedFrom(s: State, op: Op, from: nat): (r: seq<Cpu>)
    ensures |r| == |s.cpus|
    ensures forall j :: 0 <= j < |r| ==>
      r[j] == if from <= j && OpensAgain(s, op, j) then s.cpus[j].(gate := s.cpus[j].declaration.value.revision)
          else s.cpus[j]
  {
    seq(|s.cpus|, j requires 0 <= j < |s.cpus| =>
      if from <= j && OpensAgain(s, op, j) then s.cpus[j].(gate := s.cpus[j].declaration.value.revision) else s.cpus[j])
  }

  lemma OpenOne(s: State, op: Op, k: nat)
    requires k < |s.cpus| && s.manager == Reopen(op, k)
    ensures var c := s.cpus[k];
      ManagerNext(s) == SetCpu(s, k, if OpensAgain(s, op, k) then c.(gate := c.declaration.value.revision) else c).(
        manager := Reopen(op, k + 1))
  {
    assert s.cpus[k := s.cpus[k]] == s.cpus;
  }

  lemma {:induction false} OpensAll(s: State, op: Op, k: nat) returns (t: State)
    requires s.manager == Reopen(op, k)
    ensures Leads(s, t) && t == s.(cpus := OpenedFrom(s, op, k), manager := Idle, runtime := Free)
    decreases if k < |s.cpus| then |s.cpus| - k else 0
  {
    LeadsStep(s);
    if k < |s.cpus| {
      OpenOne(s, op, k);
      hide Leads, ManagerNext;
      var a := ManagerNext(s);
      t := OpensAll(a, op, k + 1);
      LeadsJoin(s, a, t);
      assert t.cpus == OpenedFrom(s, op, k);
    } else {
      var a := ManagerNext(s);
      LeadsStep(a);
      t := ManagerNext(a);
      hide Leads, ManagerNext;
      LeadsJoin(s, a, t);
      assert OpenedFrom(s, op, k) == s.cpus;
    }
  }

  /** The state after an operation of the manager: every affected gate was closed and its CPU woken;
      without tickets the change is made, and the gates it allows open again. */
  function Managed(s: State, op: Op): State {
    var closed := s.(cpus := ClosedFrom(s, op, 0), manager := Idle, runtime := Free);
    if BusyFrom(s, op, 0) then closed
    else if op.Withdraw? then Change(closed, op)
    else var changed := Change(closed, op); changed.(cpus := OpenedFrom(changed, op, 0))
  }

  lemma BusyKept(s: State, op: Op)
    ensures op.SetPolicy? ==>
      (BusyFrom(s, op, 0) <==> exists j :: 0 <= j < |s.cpus| && ClosedFrom(s, op, 0)[j].active != 0)
  {
    if op.SetPolicy? && BusyFrom(s, op, 0) {
      var j :| 0 <= j < |s.cpus| && Affects(s, op, j) && s.cpus[j].active != 0;
      assert ClosedFrom(s, op, 0)[j].active != 0;
    }
  }

  /** The closing loop and the question for tickets. */
  lemma Decides(s: State, op: Op) returns (t: State)
    requires s.manager == CloseGate(op, 0, false)
    ensures Leads(s, t) && t == s.(cpus := ClosedFrom(s, op, 0), manager := Decide(op, BusyFrom(s, op, 0)))
  {
    hide Leads, Affects, ClosedFrom, BusyFrom;
    t := ClosesAll(s, op, 0, false);
    if op.SetPolicy? {
      var a := t;
      t := AsksAll(a, op, 0, false);
      LeadsJoin(s, a, t);
      BusyKept(s, op);
    }
  }

  /** What becomes of the decision. */
  lemma Carries(s: State, op: Op, busy: bool) returns (t: State)
    requires s.manager == Decide(op, busy)
    ensures Leads(s, t)
    ensures var done := s.(manager := Idle, runtime := Free);
      t == if busy then done
        else if op.Withdraw? then Change(done, op)
        else var changed := Change(done, op); changed.(cpus := OpenedFrom(changed, op, 0))
  {
    LeadsStep(s);
    var a := ManagerNext(s);
    LeadsStep(a);
    hide Leads;
    if busy || op.Withdraw? {
      t := ManagerNext(a);
      LeadsJoin(s, a, t);
    } else {
      assert a.manager == Reopen(op, 0);
      hide ManagerNext;
      t := OpensAll(a, op, 0);
      LeadsJoin(s, a, t);
      SameOpened(a, Change(s.(manager := Idle, runtime := Free), op), op);
    }
  }

  lemma SameOpened(a: State, b: State, op: Op)
    requires a.cpus == b.cpus && a.policy == b.policy
    ensures OpenedFrom(a, op, 0) == OpenedFrom(b, op, 0)
  {
  }

  /** An operation that is permitted and begun is carried out by the manager's own steps. */
  lemma Completes(s: State, op: Op) returns (t: State)
    requires s.manager == Idle && s.runtime == Free && Permitted(s, op)
    ensures Leads(Next(s, Begin(op)), t) && t == Managed(s, op)
  {
    var b := Next(s, Begin(op));
    assert b == s.(runtime := ByManager, manager := CloseGate(op, 0, false));
    hide Leads, Next, Change;
    var c := Decides(b, op);
    SameClosed(b, s, op);
    t := Carries(c, op, BusyFrom(s, op, 0));
    LeadsJoin(b, c, t);
  }

  lemma SameClosed(b: State, s: State, op: Op)
    requires b.cpus == s.cpus && b.policy == s.policy
    ensures ClosedFrom(b, op, 0) == ClosedFrom(s, op, 0) && (BusyFrom(b, op, 0) <==> BusyFrom(s, op, 0))
  {
    assert forall j :: 0 <= j < |s.cpus| ==> (Affects(b, op, j) <==> Affects(s, op, j));
  }

  // ----- what the operations are for

  /** With a ticket outstanding nothing changes but the closed gates, and every armed CPU behind one is
      triggered. */
  lemma BusyResult(s: State, op: Op, j: nat)
    requires BusyFrom(s, op, 0) && j < |s.cpus|
    ensures var t := Managed(s, op);
      && t.policy == s.policy && t.nextRevision == s.nextRevision && |t.cpus| == |s.cpus|
      && t.cpus[j].declaration == s.cpus[j].declaration
      && (Affects(s, op, j) ==> t.cpus[j].gate == 0 && (s.cpus[j].armed ==> t.cpus[j].triggered))
      && (!Affects(s, op, j) ==> t.cpus[j] == s.cpus[j])
  {
  }

  /** A published declaration gets a new revision, and opens the gate exactly when it is usable under an
      enabled policy. */
  lemma PublishResult(s: State, cpu: nat, owner: nat, epoch: nat, usable: bool, j: nat)
    requires cpu < |s.cpus| && j < |s.cpus| && s.nextRevision > 0
    requires !BusyFrom(s, Publish(cpu, owner, epoch, usable), 0)
    ensures var t := Managed(s, Publish(cpu, owner, epoch, usable));
      && t.nextRevision == s.nextRevision + 1 && t.policy == s.policy && |t.cpus| == |s.cpus|
      && t.cpus[cpu].declaration == Some(Declaration(owner, epoch, usable, s.nextRevision))
      && (MayWait(t, cpu) <==> usable && s.policy.Some? && s.policy.value.enabled)
      && (j != cpu ==> t.cpus[j] == s.cpus[j])
  {
  }

  /** A new policy holds for all CPUs: an enabled one opens exactly the gates of usable declarations. */
  lemma PolicyResult(s: State, p: Policy, j: nat)
    requires j < |s.cpus| && !BusyFrom(s, SetPolicy(p), 0)
    requires s.cpus[j].declaration.Some? ==> s.cpus[j].declaration.value.revision > 0
    ensures var t := Managed(s, SetPolicy(p));
      && t.policy == Some(p) && |t.cpus| == |s.cpus| && t.cpus[j].declaration == s.cpus[j].declaration
      && (MayWait(t, j) <==> p.enabled && s.cpus[j].declaration.Some? && s.cpus[j].declaration.value.usable)
  {
  }

  /** A withdrawn owner leaves no declaration and no policy behind; those of others stay. */
  lemma WithdrawResult(s: State, owner: nat, j: nat)
    requires j < |s.cpus| && !BusyFrom(s, Withdraw(owner), 0)
    ensures var t := Managed(s, Withdraw(owner));
      && !OwnsPolicy(t, owner) && (!OwnsPolicy(s, owner) ==> t.policy == s.policy) && |t.cpus| == |s.cpus|
      && (t.cpus[j].declaration.Some? <==>
           s.cpus[j].declaration.Some? && s.cpus[j].declaration.value.owner != owner)
      && (t.cpus[j].declaration.Some? ==> t.cpus[j].declaration == s.cpus[j].declaration)
      && (Affects(s, Withdraw(owner), j) ==> t.cpus[j].gate == 0)
      && (!Affects(s, Withdraw(owner), j) ==> t.cpus[j] == s.cpus[j])
  {
  }

  /** Only the owner of a declaration or of the policy may begin to replace it. */
  lemma OwnersOnly(s: State, op: Op)
    ensures op.Publish? && op.cpu < |s.cpus| && s.cpus[op.cpu].declaration.Some? ==>
      var d := s.cpus[op.cpu].declaration.value;
      d.owner != op.owner || d.ownerEpoch != op.ownerEpoch ==> Next(s, Begin(op)) == s
    ensures op.SetPolicy? && s.policy.Some? ==>
      var p := s.policy.value;
      p.owner != op.policy.owner || p.ownerEpoch != op.policy.ownerEpoch ==> Next(s, Begin(op)) == s
    ensures op.Withdraw? && s.manager == Idle && s.runtime == Free ==> Next(s, Begin(op)).manager != Idle
  {
  }
}
