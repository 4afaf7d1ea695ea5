/** What the users of the COM1 claim achieve by their own steps, and when they are turned away. */
module SerialProgress {
  import opened SerialAdmission

  function WriterSolo(s: State, i: nat, more: bool, n: nat): State
    decreases n
  {
    if n == 0 || i >= |s.threads| then s else WriterSolo(WriterNext(s, i, more), i, more, n - 1)
  }

  function CloserSolo(s: State, i: nat, pick: bool, n: nat): State
    decreases n
  {
    if n == 0 || i >= |s.closers| then s else CloserSolo(CloserNext(s, i, pick), i, pick, n - 1)
  }

  function EmergencySolo(s: State, i: nat, n: nat): State
    decreases n
  {
    if n == 0 || i >= |s.emergencies| then s else EmergencySolo(EmergencyNext(s, i), i, n - 1)
  }

  function InitSolo(s: State, i: nat, n: nat): State
    decreases n
  {
    if n == 0 || i >= |s.inits| then s else InitSolo(InitNext(s, i), i, n - 1)
  }

  // ----- the solo runs are runs

  lemma {:induction false} RunJoin(s: State, a: seq<Step>, b: seq<Step>)
    ensures Run(s, a + b) == Run(Run(s, a), b)
    decreases |a|
  {
    hide Next;
    if a == [] {
      assert a + b == b;
    } else {
      assert (a + b)[1..] == a[1..] + b;
      RunJoin(Next(s, a[0]), a[1..], b);
    }
  }

  ghost predicate Leads(s: State, t: State) {
    exists steps: seq<Step> :: Run(s, steps) == t
  }

  lemma LeadsJoin(s: State, t: State, u: State)
    requires Leads(s, t) && Leads(t, u)
    ensures Leads(s, u)
  {
    hide Run;
    var a: seq<Step> :| Run(s, a) == t;
    var b: seq<Step> :| Run(t, b) == u;
    RunJoin(s, a, b);
  }

  lemma LeadsStep(s: State, step: Step)
    ensures Leads(s, Next(s, step)) && Leads(s, s)
  {
    hide Next;
    assert [step][1..] == [];
    assert Run(s, []) == s && Run(Next(s, step), []) == Next(s, step);
    assert Run(s, [step]) == Next(s, step);
  }

  lemma {:induction false} WriterLeads(s: State, i: nat, more: bool, n: nat)
    ensures Leads(s, WriterSolo(s, i, more, n))
    decreases n
  {
    LeadsStep(s, WriterStep(i, more));
    hide Leads, WriterNext;
    if n > 0 && i < |s.threads| {
      WriterLeads(WriterNext(s, i, more), i, more, n - 1);
      LeadsJoin(s, WriterNext(s, i, more), WriterSolo(s, i, more, n));
    }
  }

  lemma {:induction false} CloserLeads(s: State, i: nat, pick: bool, n: nat)
    ensures Leads(s, CloserSolo(s, i, pick, n))
    decreases n
  {
    LeadsStep(s, CloserStep(i, pick));
    hide Leads, CloserNext;
    if n > 0 && i < |s.closers| {
      CloserLeads(CloserNext(s, i, pick), i, pick, n - 1);
      LeadsJoin(s, CloserNext(s, i, pick), CloserSolo(s, i, pick, n));
    }
  }

  lemma {:induction false} InitLeads(s: State, i: nat, n: nat)
    ensures Leads(s, InitSolo(s, i, n))
    decreases n
  {
    LeadsStep(s, InitStep(i));
    hide Leads, InitNext;
    if n > 0 && i < |s.inits| {
      InitLeads(InitNext(s, i), i, n - 1);
      LeadsJoin(s, InitNext(s, i), InitSolo(s, i, n));
    }
  }

  // ----- what each user achieves

  /** The initializer makes a cold port active. */
  lemma Activates(s: State, i: nat)
    requires s.phase == Cold && s.owner == Nobody && i < |s.inits| && s.inits[i] == Unborn
    ensures InitSolo(s, i, 5) == s.(phase := Active, inits := s.inits[i := Ready])
  {
  }

  /** A writer that finds the port active and the owner free is admitted, and counted. */
  lemma Admitted(s: State, i: nat, more: bool)
    requires s.phase == Active && s.owner == Nobody && i < |s.threads| && s.threads[i] == Outside
    ensures WriterSolo(s, i, more, 5) ==
      s.(owner := ByWriter(i), writers := s.writers + 1, threads := s.threads[i := Using(NoNested)])
  {
  }

  /** It leaves nothing behind. */
  lemma Leaves(s: State, i: nat)
    requires i < |s.threads| && s.threads[i] == Using(NoNested) && s.writers > 0
    ensures WriterSolo(s, i, false, 2) ==
      s.(owner := Nobody, writers := s.writers - 1, threads := s.threads[i := Outside])
  {
  }

  /** The nested flush of a sync call is admitted once more. */
  lemma NestedAdmitted(s: State, i: nat)
    requires s.phase == Active && i < |s.threads| && s.threads[i] == Using(NoNested)
    ensures WriterSolo(s, i, true, 5) == s.(writers := s.writers + 1, threads := s.threads[i := Using(NestedUse)])
    ensures WriterSolo(s, i, true, 6) == s.(threads := s.threads[i := Using(NoNested)])
  {
  }

  /** A writer that was counted when the port closed takes its count back and uses nothing. */
  lemma TurnedAway(s: State, i: nat, more: bool)
    requires s.phase != Active && i < |s.threads|
    ensures s.threads[i] == Outside ==> WriterSolo(s, i, more, 1) == s
    ensures s.threads[i] == Load ==>
      WriterSolo(s, i, more, 2) == s.(owner := Nobody, threads := s.threads[i := Outside])
    ensures s.threads[i] == Recheck && s.writers > 0 ==>
      WriterSolo(s, i, more, 3) == s.(owner := Nobody, writers := s.writers - 1, threads := s.threads[i := Outside])
  {
  }

  /** Emergency output is granted exactly when the port is active and no writer is counted; the port
      is lost to everybody else either way. */
  lemma EmergencyIff(s: State, i: nat)
    requires i < |s.emergencies| && s.emergencies[i] == Calm
    ensures var t := EmergencySolo(s, i, 2);
      && (t.emergencies == s.emergencies[i := Lease] <==> s.phase == Active && s.writers == 0)
      && t == s.(phase := if s.phase == Active then Failed else s.phase, emergencies := t.emergencies)
  {
    var t := EmergencySolo(s, i, 2);
    assert s.emergencies[i := Lease][i] == Lease;
    assert |t.emergencies| == |s.emergencies|;
    assert t.emergencies == s.emergencies[i := t.emergencies[i]];
  }

  /** A closer of an active port without writers gets as far as the drain. */
  lemma Closes(s: State, i: nat)
    requires s.phase == Active && s.writers == 0 && s.owner == Nobody && i < |s.closers| && s.closers[i] == Away
    ensures CloserSolo(s, i, true, 5) ==
      s.(phase := Closing, owner := ByCloser(i), closers := s.closers[i := DrainHeld])
  {
  }

  /** A closer waits while a writer is counted, and gives up without touching the port when told to. */
  lemma Waits(s: State, i: nat)
    requires i < |s.closers| && s.closers[i] == Waiting && s.writers > 0
    ensures CloserSolo(s, i, true, 1) == s
    ensures CloserSolo(s, i, false, 4) == s.(phase := Failed, closers := s.closers[i := Finished])
  {
  }

  lemma {:induction false} CloserJoin(s: State, i: nat, pick: bool, m: nat, n: nat)
    ensures CloserSolo(s, i, pick, m + n) == CloserSolo(CloserSolo(s, i, pick, m), i, pick, n)
    decreases m
  {
    hide CloserNext;
    if m > 0 && i < |s.closers| { CloserJoin(CloserNext(s, i, pick), i, pick, m - 1, n); }
  }

  /** The result is reported under the owner. */
  lemma Reports(s: State, i: nat, released: bool)
    requires i < |s.closers| && s.closers[i] == Result(released) && s.owner == Nobody && s.writers == 0
    ensures CloserSolo(s, i, true, 2) == s.(closers := s.closers[i := FinishPhase(released)])
  {
  }

  lemma Ends(s: State, i: nat)
    requires i < |s.closers|
    ensures s.closers[i] == FinishPhase(true) ==>
      CloserSolo(s, i, true, 3) == s.(phase := Released, closers := s.closers[i := Finished])
    ensures s.closers[i] == FinishPhase(false) ==>
      CloserSolo(s, i, true, 2) == s.(phase := Failed, closers := s.closers[i := Finished])
  {
  }

  /** After its last poll a closer releases the port, and keeps the claim when the poll failed. */
  lemma Finishes(s: State, i: nat, released: bool)
    requires i < |s.closers| && s.closers[i] == Result(released) && s.owner == Nobody && s.writers == 0
    ensures released ==> CloserSolo(s, i, true, 5) == s.(phase := Released, closers := s.closers[i := Finished])
    ensures !released ==> CloserSolo(s, i, true, 4) == s.(phase := Failed, closers := s.closers[i := Finished])
  {
    hide CloserSolo;
    Reports(s, i, released);
    var t := CloserSolo(s, i, true, 2);
    Ends(t, i);
    CloserJoin(s, i, true, 2, if released then 3 else 2);
    assert t.closers[i := Finished] == s.closers[i := Finished];
  }

  /** The drain ends, and the last poll decides. */
  lemma LastPollDecides(s: State, i: nat, pick: bool)
    requires i < |s.closers| && s.closers[i] == DrainHeld
    ensures CloserSolo(s, i, false, 1) == s.(owner := Nobody, closers := s.closers[i := LastPoll])
    ensures CloserSolo(s.(owner := Nobody, closers := s.closers[i := LastPoll]), i, pick, 1) ==
      s.(owner := Nobody, closers := s.closers[i := Result(pick)])
  {
  }

  /** A close of an active, unused port can end in its release. */
  lemma CanRelease(s: State, i: nat) returns (t: State)
    requires s.phase == Active && s.writers == 0 && s.owner == Nobody && i < |s.closers| && s.closers[i] == Away
    ensures Leads(s, t) && t == s.(phase := Released, closers := s.closers[i := Finished])
  {
    hide Leads, CloserSolo;
    Closes(s, i);
    CloserLeads(s, i, true, 5);
    var a := CloserSolo(s, i, true, 5);
    LastPollDecides(a, i, true);
    CloserLeads(a, i, false, 1);
    var b := CloserSolo(a, i, false, 1);
    LeadsJoin(s, a, b);
    CloserLeads(b, i, true, 1);
    var c := CloserSolo(b, i, true, 1);
    LeadsJoin(s, b, c);
    assert a.closers[i := Result(true)] == s.closers[i := Result(true)];
    Finishes(c, i, true);
    CloserLeads(c, i, true, 5);
    t := CloserSolo(c, i, true, 5);
    LeadsJoin(s, c, t);
    assert c.closers[i := Finished] == s.closers[i := Finished];
  }

  /** From every boot state, a writer can be admitted and leave, and the port can be released. */
  lemma WholeLife(s: State, i: nat, w: nat, c: nat) returns (used: State, released: State)
    requires Boot(s) && i < |s.inits| && w < |s.threads| && c < |s.closers|
    ensures Leads(s, used) && Uses(used, Writer(w)) && Leads(used, released) && released.phase == Released
  {
    hide Leads, InitSolo, WriterSolo;
    Activates(s, i);
    InitLeads(s, i, 5);
    var a := InitSolo(s, i, 5);
    Admitted(a, w, false);
    WriterLeads(a, w, false, 5);
    used := WriterSolo(a, w, false, 5);
    LeadsJoin(s, a, used);
    Leaves(used, w);
    WriterLeads(used, w, false, 2);
    var b := WriterSolo(used, w, false, 2);
    released := CanRelease(b, c);
    LeadsJoin(used, b, released);
  }
}
