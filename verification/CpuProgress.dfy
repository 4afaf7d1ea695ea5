/** What the lifecycle can achieve: an AP comes online, goes offline with a receipt and comes back in
    the next epoch, from every state in which nobody else holds what it needs. */
module CpuProgress {
  import opened CpuState
  import opened CpuSteps
  import opened CpuSolo

  // ----- solo runs as steps of the machine

  /** The state with another slot i and other shared cells. */
  function With(s: State, i: nat, l: Local): State
    requires i < |s.cpus|
  {
    s.(g := l.g, cpus := s.cpus[i := l.c])
  }

  function ApRun(i: nat, n: nat): seq<Step> {
    seq(n, _ => ApStep(i, true))
  }

  function CtlRun(n: nat): seq<Step> {
    seq(n, _ => CtlStep(true))
  }

  lemma {:induction false} ApLift(s: State, i: nat, n: nat)
    requires 0 < i < |s.cpus| && !Requesting(s.w, i)
    ensures Execute(s, ApRun(i, n)) == With(s, i, ApSolo(Local(s.g, s.cpus[i]), i, n))
    decreases n
  {
    hide ApNext;
    if n == 0 {
      assert s.cpus[i := s.cpus[i]] == s.cpus;
    } else {
      var t := Apply(s, ApStep(i, true));
      assert ApRun(i, n)[0] == ApStep(i, true) && ApRun(i, n)[1..] == ApRun(i, n - 1);
      ApLift(t, i, n - 1);
      var l := ApSolo(Local(s.g, s.cpus[i]), i, n);
      assert t.cpus[i := l.c] == s.cpus[i := l.c];
    }
  }

  /** Handlers of CPU i may be gone, nothing else. */
  predicate Thinned(w: Wire, v: Wire) {
    v == w.(handlers := v.handlers) && |v.handlers| == |w.handlers|
  }

  lemma CtlStays(g: Shared, c: Cpu, w: Wire, v: Wire)
    requires Thinned(w, v)
    ensures CtlNext(g, c, v, true) == CtlNext(g, c, w, true)
    ensures var h := CtlNext(g, c, w, true).g; h.ctl == Idle || (g.ctl != Idle && h.ctl.i == g.ctl.i)
  {
  }

  lemma {:induction false} CtlLift(s: State, i: nat, n: nat)
    requires i < |s.cpus| && (s.g.ctl != Idle ==> s.g.ctl.i == i)
    ensures var t := Execute(s, CtlRun(n));
      t == With(s, i, CtlSolo(Local(s.g, s.cpus[i]), s.w, n)).(w := t.w) && Thinned(s.w, t.w)
    decreases n
  {
    hide CtlNext;
    if n == 0 {
      assert s.cpus[i := s.cpus[i]] == s.cpus;
    } else {
      var t := Apply(s, CtlStep(true));
      assert CtlRun(n)[0] == CtlStep(true) && CtlRun(n)[1..] == CtlRun(n - 1);
      CtlStays(s.g, s.cpus[i], s.w, s.w);
      CtlIdle(s.g, s.cpus[i], s.w);
      assert s.cpus[i := s.cpus[i]] == s.cpus;
      assert t == With(s, i, CtlNext(s.g, s.cpus[i], s.w, true)).(w := t.w) && Thinned(s.w, t.w);
      CtlLift(t, i, n - 1);
      SameSolo(Local(t.g, t.cpus[i]), s.w, t.w, n - 1);
      var l := CtlSolo(Local(s.g, s.cpus[i]), s.w, n);
      assert t.cpus[i := l.c] == s.cpus[i := l.c];
    }
  }

  lemma CtlIdle(g: Shared, c: Cpu, w: Wire)
    ensures g.ctl == Idle ==> CtlNext(g, c, w, true) == Local(g, c)
  {
  }

  lemma {:induction false} SameSolo(l: Local, w: Wire, v: Wire, n: nat)
    requires Thinned(w, v)
    ensures CtlSolo(l, v, n) == CtlSolo(l, w, n)
    decreases n
  {
    hide CtlNext;
    if n > 0 {
      CtlStays(l.g, l.c, w, v);
      SameSolo(CtlNext(l.g, l.c, w, true), w, v, n - 1);
    }
  }

  lemma ApLeads(s: State, i: nat, n: nat)
    requires 0 < i < |s.cpus| && !Requesting(s.w, i)
    ensures Leads(s, Lifecycle(i), With(s, i, ApSolo(Local(s.g, s.cpus[i]), i, n)))
  {
    hide ApSolo, Execute, Apply;
    ApLift(s, i, n);
    assert forall k :: 0 <= k < n ==> Belongs(ApRun(i, n)[k], Lifecycle(i));
  }

  lemma CtlLeads(s: State, i: nat, n: nat) returns (t: State)
    requires i < |s.cpus| && (s.g.ctl != Idle ==> s.g.ctl.i == i)
    ensures Leads(s, Lifecycle(i), t) && Thinned(s.w, t.w)
    ensures t == With(s, i, CtlSolo(Local(s.g, s.cpus[i]), s.w, n)).(w := t.w)
  {
    hide CtlSolo, Execute, Apply;
    CtlLift(s, i, n);
    t := Execute(s, CtlRun(n));
    assert forall k :: 0 <= k < n ==> Belongs(CtlRun(n)[k], Lifecycle(i));
  }

  // ----- publish_online

  /** From the runtime owner on, the own next steps of a qualified AP make it Online, schedulable and
      a participant, and at the grant it caches nothing. */
  lemma JoinGrants(s: State, i: nat)
    requires 0 < i < |s.cpus| && !Requesting(s.w, i)
    requires s.cpus[i].ap == Entering(s.cpus[i].b.epoch, JoinRuntime) && s.cpus[i].b.state == Qualified
    requires s.g.runtime == Free && s.g.tables == Free
    ensures |Execute(s, ApRun(i, 6)).cpus| == |s.cpus|
    ensures var granted := Execute(s, ApRun(i, 6)).cpus[i];
      granted.ap.Granted? && granted.b.state == Online && granted.tlb == map[]
    ensures Execute(s, ApRun(i, 11)) == With(s, i, Local(s.g, s.cpus[i].(
      b := s.cpus[i].b.(state := Online, member := true, sched := true),
      tlb := map[], flushed := true, ap := Working(s.cpus[i].b.epoch, Running))))
  {
    hide Execute, ApSolo;
    JoinsGranted(s.g, i, s.cpus[i], s.cpus[i].b.epoch);
    Joins(s.g, i, s.cpus[i], s.cpus[i].b.epoch);
    ApLift(s, i, 6);
    ApLift(s, i, 11);
  }

  // ----- the ways of the lifecycle

  /** Nobody else is in the way: no controller activity, no mutex held, no request, no shutdown. */
  predicate Calm(s: State) {
    && s.g.ctl == Idle && s.g.runtime == Free && s.g.tables == Free && !s.g.terminal
    && s.w.requester == NoRequest
  }

  /** Only slot i, the shared cells and handlers changed, and it is calm again. */
  predicate CalmAfter(s: State, i: nat, t: State) {
    && Calm(t) && |t.cpus| == |s.cpus| && Thinned(s.w, t.w)
    && forall j :: 0 <= j < |s.cpus| && j != i ==> t.cpus[j] == s.cpus[j]
  }

  /** An admitted and qualified AP that waits for its release. */
  predicate Awaiting(c: Cpu, e: nat) {
    && c.b.state == Qualified && c.b.epoch == c.b.installed == c.b.admitted == e && c.b.phase == 2
    && c.ap == Entering(e, AwaitRelease)
  }

  /** An AP at work in epoch e. */
  predicate AtWorkIn(c: Cpu, e: nat) {
    && c.b.state == Online && c.b.member && c.b.epoch == c.b.installed == c.b.admitted == e && c.b.phase == 2
    && c.ap == Working(e, Running)
  }

  lemma CommandLeads(s: State, cmd: Command)
    requires s.g.ctl == Idle && 0 < cmd.i < |s.cpus|
    ensures Leads(s, Lifecycle(cmd.i), Apply(s, Step.Command(cmd)))
    ensures var t := Apply(s, Step.Command(cmd)); t == s.(g := s.g.(ctl := t.g.ctl))
    ensures Apply(s, Step.Command(cmd)).g.ctl == match cmd
      case GoOffline(i, e) => Busy(i, e, Off(OffEpoch))
      case GoOnline(i, e) => Busy(i, e, On(OnEpoch))
      case GoBoot(i) => Busy(i, s.cpus[i].b.epoch, Go(BootAdmit(0)))
      case GoRelease(i) => Busy(i, s.cpus[i].b.epoch, Go(LetState))
      case GoAwait(i) => Busy(i, s.cpus[i].b.epoch, Go(SeeState))
  {
    LeadsStep(s, Lifecycle(cmd.i), Step.Command(cmd));
    hide Leads;
  }

  /** The startup IPI wakes the AP. */
  lemma SipiLeads(s: State, i: nat, e: nat) returns (t: State)
    requires i < |s.cpus| && s.g.ctl == Busy(i, e, Go(RunSipi))
    ensures Leads(s, Lifecycle(i), t) && Thinned(s.w, t.w)
    ensures t == With(s, i, Local(
      s.g.(ctl := Busy(i, e, Go(RunAwait))), s.cpus[i].(ap := Entering(e, Begin)))).(w := t.w)
  {
    t := Apply(s, CtlStep(true));
    LeadsStep(s, Lifecycle(i), CtlStep(true));
    hide Leads;
  }

  /** From the startup IPI to the wait for the release: the AP enters and is qualified. */
  lemma LaunchLeads(s: State, i: nat, e: nat) returns (t: State)
    requires 0 < i < |s.cpus| && s.g.ctl == Busy(i, e, Go(RunSipi)) && s.g.runtime == Free && !Requesting(s.w, i)
    requires s.cpus[i].b.phase == 1 && s.cpus[i].b.admitted == e && s.cpus[i].b.state == Starting
    ensures Leads(s, Lifecycle(i), t) && Thinned(s.w, t.w)
    ensures t == With(s, i, Local(
      s.g.(runtime := ByController, ctl := Busy(i, e, Go(Qual(Move(Entered, Qualified, Settled(true)))))),
      s.cpus[i].(
        b := s.cpus[i].b.(installed := e, phase := 2, state := Qualified, sched := false),
        tlb := map[], flushed := true, ap := Entering(e, AwaitRelease)))).(w := t.w)
  {
    hide ApSolo, CtlSolo, Leads;
    var a := SipiLeads(s, i, e);
    Enters(a.g, i, a.cpus[i], e);
    ApLeads(a, i, 9);
    var b := With(a, i, ApSolo(Local(a.g, a.cpus[i]), i, 9));
    LeadsJoin(s, Lifecycle(i), a, b);
    Qualifies(b.g, b.cpus[i], b.w, i, e);
    t := CtlLeads(b, i, 7);
    LeadsJoin(s, Lifecycle(i), b, t);
  }

  /** The first launch ends with the AP qualified and the controller idle. */
  lemma BootsQualified(s: State, i: nat) returns (t: State)
    requires Calm(s) && 0 < i < |s.cpus| && s.cpus[i].b.state == Detected && s.cpus[i].b.phase == 0
    ensures Leads(s, Lifecycle(i), t) && CalmAfter(s, i, t) && Awaiting(t.cpus[i], s.cpus[i].b.epoch)
    ensures t.cpus[i].ack == s.cpus[i].ack
  {
    hide ApSolo, CtlSolo, Leads, Apply;
    var e := s.cpus[i].b.epoch;
    CommandLeads(s, GoBoot(i));
    var a := Apply(s, Step.Command(GoBoot(i)));
    Admits(a.g, a.cpus[i], a.w, i, e);
    var b := CtlLeads(a, i, 7);
    LeadsJoin(s, Lifecycle(i), a, b);
    var c := LaunchLeads(b, i, e);
    LeadsJoin(s, Lifecycle(i), b, c);
    t := StopsLaunch(c, i, e);
    LeadsJoin(s, Lifecycle(i), c, t);
  }

  lemma StopsLaunch(s: State, i: nat, e: nat) returns (t: State)
    requires i < |s.cpus| && s.g.ctl == Busy(i, e, Go(Qual(Move(Entered, Qualified, Settled(true)))))
    ensures Leads(s, Lifecycle(i), t) && t == s.(g := s.g.(runtime := Free, ctl := Idle))
  {
    t := Apply(s, CtlStep(false));
    LeadsStep(s, Lifecycle(i), CtlStep(false));
    hide Leads;
    assert s.cpus[i := s.cpus[i]] == s.cpus;
  }

  /** The released AP joins. */
  lemma ReleasedLeads(s: State, i: nat, e: nat) returns (t: State)
    requires 0 < i < |s.cpus| && !Requesting(s.w, i) && s.g.runtime == Free && s.g.tables == Free && !s.g.terminal
    requires Awaiting(s.cpus[i], e) && s.cpus[i].release == e
    ensures Leads(s, Lifecycle(i), t)
    ensures t == With(s, i, Local(s.g, s.cpus[i].(
      b := s.cpus[i].b.(state := Online, member := true, sched := true),
      tlb := map[], flushed := true, ap := Working(e, Running))))
  {
    hide ApSolo, Leads;
    Released(s.g, i, s.cpus[i], e);
    ApLeads(s, i, 6);
    var a := With(s, i, ApSolo(Local(s.g, s.cpus[i]), i, 6));
    Joins(a.g, i, a.cpus[i], e);
    ApLeads(a, i, 11);
    t := With(a, i, ApSolo(Local(a.g, a.cpus[i]), i, 11));
    LeadsJoin(s, Lifecycle(i), a, t);
  }

  /** The controller sees the AP online. */
  lemma OnlineSeen(s: State, i: nat, e: nat) returns (t: State)
    requires i < |s.cpus| && s.g.ctl == Busy(i, e, Go(RunOnline)) && s.cpus[i].b.state == Online
    ensures Leads(s, Lifecycle(i), t) && Thinned(s.w, t.w) && t == s.(g := s.g.(ctl := Idle), w := t.w)
  {
    hide CtlSolo, Leads;
    SeesOnline(s.g, s.cpus[i], s.w, i, e);
    t := CtlLeads(s, i, 1);
    assert s.cpus[i := s.cpus[i]] == s.cpus;
  }

  /** Activation releases a qualified AP and sees it online. */
  lemma Activates(s: State, i: nat) returns (t: State)
    requires Calm(s) && 0 < i < |s.cpus| && Awaiting(s.cpus[i], s.cpus[i].b.epoch)
    ensures Leads(s, Lifecycle(i), t) && CalmAfter(s, i, t)
    ensures AtWorkIn(t.cpus[i], s.cpus[i].b.epoch) && t.cpus[i].b.sched
    ensures t.cpus[i].ack == s.cpus[i].ack && t.cpus[i].tlb == map[]
  {
    hide ApSolo, CtlSolo, Leads, Apply;
    var e := s.cpus[i].b.epoch;
    CommandLeads(s, GoRelease(i));
    var a := Apply(s, Step.Command(GoRelease(i)));
    LetsGo(a.g, a.cpus[i], a.w, i, e);
    var b := CtlLeads(a, i, 4);
    LeadsJoin(s, Lifecycle(i), a, b);
    CommandLeads(b, GoAwait(i));
    var c := Apply(b, Step.Command(GoAwait(i)));
    LeadsJoin(s, Lifecycle(i), b, c);
    SeesIt(c.g, c.cpus[i], c.w, i, e);
    var d := CtlLeads(c, i, 3);
    LeadsJoin(s, Lifecycle(i), c, d);
    var f := ReleasedLeads(d, i, e);
    LeadsJoin(s, Lifecycle(i), d, f);
    t := OnlineSeen(f, i, e);
    LeadsJoin(s, Lifecycle(i), f, t);
  }

  /** A CPU at work is drained, and parks. */
  lemma DrainsAndParks(s: State, i: nat, e: nat) returns (t: State)
    requires Calm(s) && 0 < i < |s.cpus| && AtWorkIn(s.cpus[i], e) && e != 0
    ensures Leads(s, Lifecycle(i), t) && Thinned(s.w, t.w)
    ensures t == With(s, i, Local(s.g.(ctl := Busy(i, e, Off(OffWait))), s.cpus[i].(
      b := s.cpus[i].b.(cancel := 0, parked := e, withdrawn := 0, stopReq := 0, stopped := 0, retired := 0,
                        irq := e, drain := e, state := Parked, sched := false),
      tlb := map[], flushed := true, ap := Polling(e, true, Poll)))).(w := t.w)
  {
    hide ApSolo, CtlSolo, Leads, Apply;
    CommandLeads(s, GoOffline(i, e));
    var a := Apply(s, Step.Command(GoOffline(i, e)));
    Drains(a.g, a.cpus[i], a.w, i, e);
    var b := CtlLeads(a, i, 21);
    LeadsJoin(s, Lifecycle(i), a, b);
    Parks(b.g, i, b.cpus[i], e);
    ApLeads(b, i, 15);
    t := With(b, i, ApSolo(Local(b.g, b.cpus[i]), i, 15));
    LeadsJoin(s, Lifecycle(i), b, t);
  }

  /** The parked CPU is withdrawn, stops and gets its receipt. */
  lemma GoesOffline(s: State, i: nat, e: nat) returns (t: State)
    requires Calm(s) && 0 < i < |s.cpus| && AtWorkIn(s.cpus[i], e) && e != 0 && !s.w.diag
    requires i in s.w.reqTarget ==> s.cpus[i].ack == s.w.reqGen
    ensures Leads(s, Lifecycle(i), t) && CalmAfter(s, i, t)
    ensures var b := t.cpus[i].b; Receipt(b, e) && b.retired == b.admitted == e && b.phase == 2
    ensures t.cpus[i].ap == Halted && t.cpus[i].ack == s.cpus[i].ack
  {
    hide ApSolo, CtlSolo, Leads, Apply;
    var a := DrainsAndParks(s, i, e);
    Withdraws(a.g, a.cpus[i], a.w, i, e);
    var b := CtlLeads(a, i, 18);
    LeadsJoin(s, Lifecycle(i), a, b);
    Stops(b.g, i, b.cpus[i], e, true);
    ApLeads(b, i, 13);
    var c := With(b, i, ApSolo(Local(b.g, b.cpus[i]), i, 13));
    LeadsJoin(s, Lifecycle(i), b, c);
    Confirms(c.g, c.cpus[i], c.w, i, e);
    t := CtlLeads(c, i, 12);
    LeadsJoin(s, Lifecycle(i), c, t);
  }

  /** A receipt that may be reused starts the next epoch. */
  lemma Relaunched(s: State, i: nat, e: nat) returns (t: State)
    requires Calm(s) && 0 < i < |s.cpus| && e != 0
    requires var b := s.cpus[i].b; Receipt(b, e) && b.retired == b.admitted == e && b.phase == 2
    ensures Leads(s, Lifecycle(i), t) && Thinned(s.w, t.w)
    ensures t == With(s, i, Local(s.g.(ctl := Busy(i, e + 1, Go(RunSipi))), s.cpus[i].(
      b := s.cpus[i].b.(admitted := e + 1, phase := 1, epoch := e + 1, state := Starting, sched := false),
      ack := 0, release := 0))).(w := t.w)
  {
    hide ApSolo, CtlSolo, Leads, Apply;
    CommandLeads(s, GoOnline(i, e));
    var a := Apply(s, Step.Command(GoOnline(i, e)));
    Rearms(a.g, a.cpus[i], a.w, i, e);
    var b := CtlLeads(a, i, 29);
    LeadsJoin(s, Lifecycle(i), a, b);
    Relaunches(b.g, b.cpus[i], b.w, i, e);
    t := CtlLeads(b, i, 13);
    LeadsJoin(s, Lifecycle(i), b, t);
  }

  /** The CPU comes back in the next epoch. */
  lemma ComesBack(s: State, i: nat, e: nat) returns (t: State)
    requires Calm(s) && 0 < i < |s.cpus| && e != 0
    requires var b := s.cpus[i].b; Receipt(b, e) && b.retired == b.admitted == e && b.phase == 2
    ensures Leads(s, Lifecycle(i), t) && CalmAfter(s, i, t) && AtWorkIn(t.cpus[i], e + 1) && t.cpus[i].b.sched
    ensures t.cpus[i].tlb == map[]
  {
    hide ApSolo, CtlSolo, Leads, Apply;
    var a := Relaunched(s, i, e);
    var b := LaunchLeads(a, i, e + 1);
    LeadsJoin(s, Lifecycle(i), a, b);
    Releases(b.g, b.cpus[i], b.w, i, e + 1);
    var c := CtlLeads(b, i, 2);
    LeadsJoin(s, Lifecycle(i), b, c);
    var d := ReleasedLeads(c, i, e + 1);
    LeadsJoin(s, Lifecycle(i), c, d);
    t := OnlineSeen(d, i, e + 1);
    LeadsJoin(s, Lifecycle(i), d, t);
  }

  /** A CPU whose drain fails before it parks is taken back at once. */
  lemma DrainTakenBack(s: State, i: nat, e: nat) returns (t: State)
    requires 0 < i < |s.cpus| && s.g.ctl == Busy(i, e, Can(CanLock)) && s.g.runtime == Free
    requires s.cpus[i].b.state == Draining && s.cpus[i].b.withdrawn != e
    ensures Leads(s, Lifecycle(i), t) && Thinned(s.w, t.w)
    ensures t == With(s, i, Local(s.g.(ctl := Idle), s.cpus[i].(
      b := s.cpus[i].b.(state := Online, member := true, sched := true, drain := 0)))).(w := t.w)
  {
    hide CtlSolo, Leads;
    CancelsDrain(s.g, s.cpus[i], s.w, i, e);
    t := CtlLeads(s, i, 10);
  }

  /** A parked CPU whose withdrawal fails is cancelled, and is Online again in the same epoch. */
  lemma CancelledInTime(s: State, i: nat, e: nat) returns (t: State)
    requires Calm(s) && 0 < i < |s.cpus| && AtWorkIn(s.cpus[i], e) && e != 0
    ensures Leads(s, Lifecycle(i), t) && CalmAfter(s, i, t) && AtWorkIn(t.cpus[i], e) && t.cpus[i].b.sched
    ensures t.cpus[i].b.drain == t.cpus[i].b.cancel == 0
  {
    hide ApSolo, CtlSolo, Leads, Apply;
    var a := DrainsAndParks(s, i, e);
    var b := GivesUpWait(a, i, e);
    LeadsJoin(s, Lifecycle(i), a, b);
    CancelsPark(b.g, b.cpus[i], b.w, i, e);
    var c := CtlLeads(b, i, 7);
    LeadsJoin(s, Lifecycle(i), b, c);
    Resumes(c.g, i, c.cpus[i], e);
    ApLeads(c, i, 16);
    t := With(c, i, ApSolo(Local(c.g, c.cpus[i]), i, 16));
    LeadsJoin(s, Lifecycle(i), c, t);
  }

  lemma GivesUpWait(s: State, i: nat, e: nat) returns (t: State)
    requires i < |s.cpus| && s.g.ctl == Busy(i, e, Off(OffWait))
    ensures Leads(s, Lifecycle(i), t) && t == s.(g := s.g.(ctl := Busy(i, e, Can(CanLock))))
  {
    t := Apply(s, CtlStep(false));
    LeadsStep(s, Lifecycle(i), CtlStep(false));
    hide Leads;
    assert s.cpus[i := s.cpus[i]] == s.cpus;
  }

  /** An AP that does not enter in time is failed, and the controller is idle again. */
  lemma FailedInTime(s: State, i: nat, e: nat) returns (t: State)
    requires 0 < i < |s.cpus| && s.g.ctl == Busy(i, e, Go(RunAwait)) && s.g.runtime == Free
    requires Allowed(s.cpus[i].b.state, Failed)
    ensures Leads(s, Lifecycle(i), t) && Thinned(s.w, t.w)
    ensures t == With(s, i, Local(s.g.(ctl := Idle), s.cpus[i].(
      b := s.cpus[i].b.(state := Failed, sched := false, member := false)))).(w := t.w)
  {
    var a := Apply(s, CtlStep(false));
    LeadsStep(s, Lifecycle(i), CtlStep(false));
    hide CtlSolo, Leads, Apply;
    assert s.cpus[i := s.cpus[i]] == s.cpus;
    Fails(a.g, a.cpus[i], a.w, i, e);
    t := CtlLeads(a, i, 6);
    LeadsJoin(s, Lifecycle(i), a, t);
  }

  // ----- the terminal stop

  function StopSolo(l: Local, n: nat): Local
    requires l.g.stop.StopLock? ==> l.g.stop.from == Online || l.g.stop.from == Draining
    decreases n
  {
    if n == 0 || l.g.stop == Resting then l
    else
      var m := ShutdownNext(l.g, l.c);
      if m.g.stop.StopLock? then l else StopSolo(m, n - 1)
  }

  lemma StopMoves(g: Shared, c: Cpu, i: nat, from: Life)
    requires g.stop == StopLock(i, from) && (from == Online || from == Draining)
    requires g.runtime == Free && c.b.state == from
    ensures StopSolo(Local(g, c), 4) == Local(g.(stop := Resting), c.(
      b := c.b.(state := TerminalPending, sched := false)))
  {
  }

  lemma {:induction false} StopLeads(s: State, i: nat, n: nat)
    requires 0 < i < |s.cpus| && (s.g.stop != Resting ==> s.g.stop.i == i)
    requires s.g.stop.StopLock? ==> s.g.stop.from == Online || s.g.stop.from == Draining
    ensures Leads(s, Shutdown(i), With(s, i, StopSolo(Local(s.g, s.cpus[i]), n)))
    decreases n
  {
    assert s.cpus[i := s.cpus[i]] == s.cpus;
    LeadsNowhere(s, Shutdown(i));
    if n > 0 && s.g.stop != Resting && !ShutdownNext(s.g, s.cpus[i]).g.stop.StopLock? {
      var t := Apply(s, StopStep);
      LeadsStep(s, Shutdown(i), StopStep);
      StopKeepsSlot(s.g, s.cpus[i]);
      hide Leads, ShutdownNext;
      StopLeads(t, i, n - 1);
      var u := With(s, i, StopSolo(Local(s.g, s.cpus[i]), n));
      assert t.cpus[i := u.cpus[i]] == s.cpus[i := u.cpus[i]];
      LeadsJoin(s, Shutdown(i), t, u);
    }
  }

  lemma StopKeepsSlot(g: Shared, c: Cpu)
    requires g.stop != Resting && (g.stop.StopLock? ==> g.stop.from == Online || g.stop.from == Draining)
    ensures var h := ShutdownNext(g, c).g; h.stop == Resting || h.stop.i == g.stop.i
  {
  }

  lemma {:induction false} EndLeads(s: State, i: nat, n: nat)
    requires 0 < i < |s.cpus| && !Requesting(s.w, i)
    ensures Leads(s, Shutdown(i), With(s, i, ApSolo(Local(s.g, s.cpus[i]), i, n)))
  {
    hide ApSolo, Execute, Apply;
    ApLift(s, i, n);
    assert forall k :: 0 <= k < n ==> Belongs(ApRun(i, n)[k], Shutdown(i));
  }

  lemma StopBegins(s: State, i: nat) returns (t: State)
    requires 0 < i < |s.cpus| && s.g.stop == Resting
    requires s.cpus[i].b.state == Online || s.cpus[i].b.state == Draining
    ensures Leads(s, Shutdown(i), t)
    ensures t == s.(g := s.g.(terminal := true, stop := StopLock(i, s.cpus[i].b.state)))
  {
    var a := Apply(s, RaiseTerminal);
    LeadsStep(s, Shutdown(i), RaiseTerminal);
    t := Apply(a, StartStop(i));
    LeadsStep(a, Shutdown(i), StartStop(i));
    hide Leads;
    LeadsJoin(s, Shutdown(i), a, t);
  }

  /** The terminal stop takes a running CPU out of both masks and halts it for good. */
  lemma TerminalEnds(s: State, i: nat, e: nat) returns (t: State)
    requires 0 < i < |s.cpus| && !Requesting(s.w, i) && s.g.runtime == Free && s.g.stop == Resting
    requires s.cpus[i].ap == Working(e, Running) && (s.cpus[i].b.state == Online || s.cpus[i].b.state == Draining)
    ensures Leads(s, Shutdown(i), t)
    ensures t == With(s, i, Local(s.g.(terminal := true), s.cpus[i].(
      b := s.cpus[i].b.(state := Terminal, sched := false, member := false), ap := Halted)))
  {
    hide Leads, Apply, ApSolo, StopSolo;
    var b := StopBegins(s, i);
    StopMoves(b.g, b.cpus[i], i, s.cpus[i].b.state);
    StopLeads(b, i, 4);
    var c := With(b, i, StopSolo(Local(b.g, b.cpus[i]), 4));
    LeadsJoin(s, Shutdown(i), b, c);
    RunningEnds(c.g, i, c.cpus[i], e);
    EndLeads(c, i, 6);
    t := With(c, i, ApSolo(Local(c.g, c.cpus[i]), i, 6));
    LeadsJoin(s, Shutdown(i), c, t);
  }

  /** It ends a parked CPU as well. */
  lemma TerminalEndsParked(s: State, i: nat, e: nat, armed: bool) returns (t: State)
    requires 0 < i < |s.cpus| && !Requesting(s.w, i) && s.cpus[i].ap == Polling(e, armed, Poll)
    requires s.cpus[i].b.state == Parked || s.cpus[i].b.state == StopPending
    ensures Leads(s, Shutdown(i), t)
    ensures t == With(s, i, Local(s.g.(terminal := true), s.cpus[i].(
      b := s.cpus[i].b.(state := Terminal, sched := false, member := false),
      tlb := map[], flushed := true, ap := Halted)))
  {
    var a := Apply(s, RaiseTerminal);
    LeadsStep(s, Shutdown(i), RaiseTerminal);
    hide Leads, Apply, ApSolo;
    ParkedEnds(a.g, i, a.cpus[i], e, armed);
    EndLeads(a, i, 6);
    t := With(a, i, ApSolo(Local(a.g, a.cpus[i]), i, 6));
    LeadsJoin(s, Shutdown(i), a, t);
  }

  // ----- from boot

  lemma ReachableOn(s: State, crew: Crew, t: State)
    requires Reachable(s) && Leads(s, crew, t)
    ensures Reachable(t)
  {
    hide Execute, Init;
    var s0, a: seq<Step> :| Init(s0) && s == Execute(s0, a);
    var b: seq<Step> :| (forall k :: 0 <= k < |b| ==> Belongs(b[k], crew)) && Execute(s, b) == t;
    ExecuteJoin(s0, a, b);
  }

  lemma InitCalm(s: State, i: nat)
    requires Init(s) && 0 < i < |s.cpus|
    ensures Reachable(s) && Calm(s) && !s.w.diag && s.w.reqTarget == {}
    ensures s.cpus[i].b.state == Detected && s.cpus[i].b.phase == 0 && s.cpus[i].b.epoch > 1
  {
    assert Execute(s, []) == s;
    assert s.cpus[i] == BootCpu(s.cpus[i].b.epoch);
  }

  /** From every boot state, every AP can come online, go offline with a passing and reusable receipt,
      and come online again in the next epoch, with steps of the controller and of that AP alone. */
  lemma HotPlugCycle(s: State, i: nat) returns (online: State, offline: State, again: State)
    requires Init(s) && 0 < i < |s.cpus|
    ensures Leads(s, Lifecycle(i), online) && Leads(online, Lifecycle(i), offline)
    ensures Leads(offline, Lifecycle(i), again)
    ensures Reachable(online) && Reachable(offline) && Reachable(again)
    ensures |online.cpus| == |offline.cpus| == |again.cpus| == |s.cpus|
    ensures var e := s.cpus[i].b.epoch;
      && AtWorkIn(online.cpus[i], e) && online.cpus[i].b.sched
      && Receipt(offline.cpus[i].b, e) && offline.cpus[i].b.retired == e
      && AtWorkIn(again.cpus[i], e + 1) && again.cpus[i].b.sched
  {
    hide Leads, Execute, Init, Reachable;
    InitCalm(s, i);
    var e := s.cpus[i].b.epoch;
    var q := BootsQualified(s, i);
    online := Activates(q, i);
    LeadsJoin(s, Lifecycle(i), q, online);
    ReachableOn(s, Lifecycle(i), online);
    offline := GoesOffline(online, i, e);
    ReachableOn(online, Lifecycle(i), offline);
    again := ComesBack(offline, i, e);
    ReachableOn(offline, Lifecycle(i), again);
  }
}
