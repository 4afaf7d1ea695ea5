/** When `invalidate` answers ok and when it does not, and that it can always finish while its
    targets are live. */
module CpuInvalidate {
  import opened CpuState
  import opened CpuSteps
  import opened CpuSystem
  import opened CpuSolo

  // ----- the failures

  /** A target is still a participant, and the last scan did not see its acknowledgement. */
  predicate Unanswered(s: State, target: set<nat>, acked: set<nat>) {
    exists i :: i in target && i !in acked && i < |s.cpus| && s.cpus[i].b.member
  }

  /** The only ways to fail: nothing to invalidate, no way to send, or a target without an answer. */
  predicate MayFail(s: State, pc: RequestPc, ask: Ask, base: nat, pages: nat) {
    match pc
    case Mapping => ask == Invalidate(base, 0) && pages == 0
    case StoreGen(b, p, target, gen) => b == base && p == pages && target != {} && ask != Continue(true)
    case CheckMembers(b, p, target, gen, acked) =>
      b == base && p == pages && ask != Continue(true) && Unanswered(s, target, acked)
    case _ => false
  }

  /** Whatever any thread does: `invalidate` newly answers false only by a step of its own, for one of
      those reasons. */
  lemma FailsOnlyFor(s: State, step: Step, cpu: nat, base: nat, pages: nat)
    requires Apply(s, step).w.requester == By(cpu, RequestPc.Returned(base, pages, false))
    requires s.w.requester != By(cpu, RequestPc.Returned(base, pages, false))
    ensures step.RequestStep? && s.w.requester.By? && s.w.requester.cpu == cpu
    ensures MayFail(s, s.w.requester.pc, step.ask, base, pages)
  {
    hide ApNext, CtlNext, ShutdownNext, HandlerNext, InvalidateNext;
    if step.HandlerStep? && step.h < |s.w.handlers| {
      HandlerFrame(s, step.h);
    } else if step.RequestStep? && s.w.requester.By? && s.w.requester.cpu < |s.cpus| {
      AnswersFalse(s, s.w.requester.cpu, s.w.requester.pc, step.ask, base, pages);
    }
  }

  lemma AnswersFalse(s: State, cpu: nat, pc: RequestPc, ask: Ask, base: nat, pages: nat)
    requires cpu < |s.cpus| && s.w.requester == By(cpu, pc)
    requires InvalidateNext(s, cpu, pc, ask).w.requester.By?
    requires InvalidateNext(s, cpu, pc, ask).w.requester.pc == RequestPc.Returned(base, pages, false)
    ensures InvalidateNext(s, cpu, pc, ask).w.requester.cpu == cpu && MayFail(s, pc, ask, base, pages)
  {
    hide FlushStep, FlushCount, Clean;
    if pc.CheckMembers? {
      var i :| i in pc.target && i !in pc.acked + (pc.target - Members(s.cpus));
    }
  }

  // ----- the answer ok

  /** n steps of the requester; what it is asked meanwhile does not matter. */
  function Requests(asks: seq<Ask>): seq<Step> {
    seq(|asks|, k requires 0 <= k < |asks| => RequestStep(asks[k]))
  }

  /** Every target has answered the request, or is no participant. */
  predicate AllAnswered(s: State, target: set<nat>, gen: nat) {
    forall i :: i in target && i < |s.cpus| ==> s.cpus[i].ack == gen || !s.cpus[i].b.member
  }

  /** The targets among the first n CPUs that have answered. */
  function AnsweredBefore(cpus: seq<Cpu>, target: set<nat>, gen: nat, n: nat): set<nat>
    requires n <= |cpus|
  {
    set i: nat | i < n && i in target && cpus[i].ack == gen
  }

  /** One pass over the acknowledgements collects exactly them. */
  lemma {:induction false} Scans(s: State, asks: seq<Ask>, cpu: nat, base: nat, pages: nat, target: set<nat>, gen: nat,
                                 at: nat)
    requires cpu < |s.cpus| && at <= |s.cpus| && at + |asks| == |s.cpus| + 1
    requires s.w.requester == By(cpu, Scan(base, pages, target, gen, at, AnsweredBefore(s.cpus, target, gen, at)))
    ensures Execute(s, Requests(asks)) == RequestAt(s, cpu,
      CheckMembers(base, pages, target, gen, AnsweredBefore(s.cpus, target, gen, |s.cpus|)))
    decreases |asks|
  {
    var steps := Requests(asks);
    var t := Apply(s, steps[0]);
    assert steps[1..] == Requests(asks[1..]);
    if at < |s.cpus| {
      var acked, more := AnsweredBefore(s.cpus, target, gen, at), AnsweredBefore(s.cpus, target, gen, at + 1);
      assert more == if at in target && s.cpus[at].ack == gen then acked + {at} else acked;
      Scans(t, asks[1..], cpu, base, pages, target, gen, at + 1);
    } else {
      assert Requests([]) == [];
    }
  }

  /** From the start of a scan in which every target has answered or left, the requester's own next
      steps end in ok, and its range is clean. */
  lemma ScanSucceeds(s: State, asks: seq<Ask>, cpu: nat, base: nat, pages: nat, target: set<nat>, gen: nat)
    requires cpu < |s.cpus| && |asks| == |s.cpus| + 2
    requires s.w.requester == By(cpu, Scan(base, pages, target, gen, 0, {})) && AllAnswered(s, target, gen)
    ensures Execute(s, Requests(asks)) == Succeed(s, cpu, base, pages)
    ensures Execute(s, Requests(asks)).w.requester == By(cpu, RequestPc.Returned(base, pages, true))
  {
    hide Apply, Execute;
    var n := |s.cpus| + 1;
    assert AnsweredBefore(s.cpus, target, gen, 0) == {};
    Scans(s, asks[..n], cpu, base, pages, target, gen, 0);
    var t := Execute(s, Requests(asks[..n]));
    assert Requests(asks) == Requests(asks[..n]) + Requests([asks[n]]);
    ExecuteJoin(s, Requests(asks[..n]), Requests([asks[n]]));
    ChecksOk(t, asks[n], cpu, base, pages, target, gen);
    OneStep(t, RequestStep(asks[n]));
    assert Requests([asks[n]]) == [RequestStep(asks[n])];
  }

  lemma OneStep(s: State, step: Step)
    ensures Execute(s, [step]) == Apply(s, step)
  {
    hide Apply;
    assert [step][1..] == [];
    assert Execute(Apply(s, step), []) == Apply(s, step);
  }

  lemma ChecksOk(t: State, ask: Ask, cpu: nat, base: nat, pages: nat, target: set<nat>, gen: nat)
    requires cpu < |t.cpus| && AllAnswered(t, target, gen)
    requires t.w.requester ==
      By(cpu, CheckMembers(base, pages, target, gen, AnsweredBefore(t.cpus, target, gen, |t.cpus|)))
    ensures Apply(t, RequestStep(ask)) == Succeed(t, cpu, base, pages)
  {
    var acked := AnsweredBefore(t.cpus, target, gen, |t.cpus|);
    assert target <= acked + (target - Members(t.cpus));
  }

  // ----- from the request to its answer

  /** The requester flushes its own range, whatever its size. */
  lemma {:induction false} OwnFlushes(s: State, cpu: nat, base: nat, pages: nat, done: nat) returns (t: State)
    requires cpu < |s.cpus| && s.w.requester == By(cpu, OwnFlush(base, pages, done))
    ensures Leads(s, Shootdown, t) && |t.cpus| == |s.cpus|
    ensures t == s.(cpus := s.cpus[cpu := s.cpus[cpu].(tlb := t.cpus[cpu].tlb)],
                    w := s.w.(requester := By(cpu, ReadMembers(base, pages))))
    decreases if pages < done then 0 else pages - done
  {
    var step := RequestStep(Continue(true));
    t := Apply(s, step);
    LeadsStep(s, Shootdown, step);
    hide Leads;
    if done < pages {
      var a := t;
      t := OwnFlushes(a, cpu, base, pages, FlushCount(pages, done));
      LeadsJoin(s, Shootdown, a, t);
      assert a.cpus[cpu := t.cpus[cpu]] == s.cpus[cpu := t.cpus[cpu]];
    } else {
      assert s.cpus[cpu := s.cpus[cpu]] == s.cpus;
    }
  }

  /** The request that is published: its cells, then its generation. */
  function PublishedAs(w: Wire, cpu: nat, base: nat, pages: nat, target: set<nat>): Wire {
    w.(generation := w.generation + 1, reqGen := w.generation + 1, reqBase := base, reqPages := pages,
       reqTarget := target,
       requester := By(cpu, Scan(base, pages, target, w.generation + 1, 0, {})))
  }

  /** The next point of a request that stores its cells one after the other. */
  lemma Stores(s: State, cpu: nat, base: nat, pages: nat, target: set<nat>, gen: nat)
    requires cpu < |s.cpus| && s.w.requester.By? && s.w.requester.cpu == cpu
    ensures var w, t := s.w, RequestNext(s, Continue(true));
      match s.w.requester.pc
      case BumpGen(b, p, m) => b == base && p == pages && m == target && gen == w.generation + 1 ==>
        t == s.(w := w.(generation := gen, requester := By(cpu, StoreBase(base, pages, target, gen))))
      case StoreBase(b, p, m, g) => b == base && p == pages && m == target && g == gen ==>
        t == s.(w := w.(reqBase := base, requester := By(cpu, StorePages(base, pages, target, gen))))
      case StorePages(b, p, m, g) => b == base && p == pages && m == target && g == gen ==>
        t == s.(w := w.(reqPages := pages, requester := By(cpu, StoreTarget(base, pages, target, gen))))
      case StoreTarget(b, p, m, g) => b == base && p == pages && m == target && g == gen ==>
        t == s.(w := w.(reqTarget := target, requester := By(cpu, StoreGen(base, pages, target, gen))))
      case StoreGen(b, p, m, g) => b == base && p == pages && m == target && g == gen ==>
        (if target == {} then t.w.requester == By(cpu, RequestPc.Returned(base, pages, true))
         else t == s.(w := w.(reqGen := gen, requester := By(cpu, Scan(base, pages, target, gen, 0, {})))))
      case _ => true
  {
    hide FlushStep, FlushCount, Members, Clean;
  }

  lemma RequestLeads(s: State, u: State) returns (t: State)
    requires Leads(s, Shootdown, u)
    ensures Leads(s, Shootdown, t) && t == RequestNext(u, Continue(true))
  {
    t := Apply(u, RequestStep(Continue(true)));
    LeadsStep(u, Shootdown, RequestStep(Continue(true)));
    hide Leads, RequestNext;
    LeadsJoin(s, Shootdown, u, t);
  }

  /** After its own flush the requester publishes a request to all other participants, or is done when
      there is none. */
  lemma Publishes(s: State, cpu: nat, base: nat, pages: nat) returns (t: State)
    requires cpu < |s.cpus| && s.w.requester == By(cpu, ReadMembers(base, pages))
    ensures Leads(s, Shootdown, t)
    ensures var target := Members(s.cpus) - {cpu};
      if target == {} then t.w.requester == By(cpu, RequestPc.Returned(base, pages, true))
      else t == s.(w := PublishedAs(s.w, cpu, base, pages, target))
  {
    var target, gen := Members(s.cpus) - {cpu}, s.w.generation + 1;
    assert RequestNext(s, Continue(true)) == RequestAt(s, cpu, BumpGen(base, pages, target));
    hide Leads, RequestNext, Members;
    LeadsNowhere(s, Shootdown);
    t := RequestLeads(s, s);
    Stores(t, cpu, base, pages, target, gen);
    t := RequestLeads(s, t);
    Stores(t, cpu, base, pages, target, gen);
    t := RequestLeads(s, t);
    Stores(t, cpu, base, pages, target, gen);
    t := RequestLeads(s, t);
    Stores(t, cpu, base, pages, target, gen);
    t := RequestLeads(s, t);
    Stores(t, cpu, base, pages, target, gen);
    t := RequestLeads(s, t);
  }

  // ----- the handlers

  /** A handler flushes the range it loaded. */
  lemma {:induction false} HandlerFlushes(
    s: State, h: nat, i: nat, poll: bool, gen: nat, base: nat, pages: nat, done: nat)
      returns (t: State)
    requires h < |s.w.handlers| && i < |s.cpus| && Live(s.cpus[i].ap)
    requires s.w.handlers[h] == At(i, Flush(poll, gen, base, pages, done))
    ensures Leads(s, Shootdown, t) && |t.cpus| == |s.cpus|
    ensures t == s.(cpus := s.cpus[i := s.cpus[i].(tlb := t.cpus[i].tlb)],
                    w := s.w.(handlers := s.w.handlers[h := At(i, if poll then StoreAck(gen) else LoadDrop(gen))]))
    decreases if pages < done then 0 else pages - done
  {
    var step := HandlerStep(h);
    t := Apply(s, step);
    LeadsStep(s, Shootdown, step);
    hide Leads;
    if done < pages {
      var a := t;
      t := HandlerFlushes(a, h, i, poll, gen, base, pages, FlushCount(pages, done));
      LeadsJoin(s, Shootdown, a, t);
      assert a.cpus[i := t.cpus[i]] == s.cpus[i := t.cpus[i]];
      assert a.w.handlers[h := t.w.handlers[h]] == s.w.handlers[h := t.w.handlers[h]];
    } else {
      assert s.cpus[i := s.cpus[i]] == s.cpus;
    }
  }

  function HandlerSolo(s: State, h: nat, n: nat): State
    decreases n
  {
    if n == 0 || h >= |s.w.handlers| then s else HandlerSolo(HandlerNext(s, h), h, n - 1)
  }

  lemma {:induction false} HandlerLeads(s: State, h: nat, n: nat)
    ensures Leads(s, Shootdown, HandlerSolo(s, h, n))
    decreases n
  {
    LeadsNowhere(s, Shootdown);
    if n > 0 && h < |s.w.handlers| {
      LeadsStep(s, Shootdown, HandlerStep(h));
      hide Leads;
      HandlerLeads(HandlerNext(s, h), h, n - 1);
      LeadsJoin(s, Shootdown, Apply(s, HandlerStep(h)), HandlerSolo(s, h, n));
    }
  }

  /** A handler that has loaded the pending request and begins to flush its range. */
  function Flushing(s: State, h: nat, i: nat, poll: bool): State
    requires h < |s.w.handlers|
  {
    s.(w := s.w.(handlers := s.w.handlers[h := At(i, Flush(poll, s.w.reqGen, s.w.reqBase, s.w.reqPages, 0))]))
  }

  /** A handler that knows the pending generation and looks for its target. */
  function Looking(s: State, h: nat, i: nat, poll: bool): State
    requires h < |s.w.handlers|
  {
    s.(w := s.w.(handlers := s.w.handlers[h := At(i, LoadTarget(poll, s.w.reqGen))]))
  }

  lemma HandlerLooks(s: State, h: nat, i: nat)
    requires h < |s.w.handlers| && i < |s.cpus| && Live(s.cpus[i].ap) && s.w.handlers[h] == At(i, LoadGen(false))
    requires s.w.reqGen != 0
    ensures HandlerSolo(s, h, 1) == Looking(s, h, i, false)
  {
  }

  lemma PollLooks(s: State, h: nat, i: nat)
    requires h < |s.w.handlers| && i < |s.cpus| && Live(s.cpus[i].ap) && s.w.handlers[h] == At(i, LoadGen(true))
    requires s.w.reqGen != 0 && !s.w.diag && s.cpus[i].ack != s.w.reqGen
    ensures HandlerSolo(s, h, 3) == Looking(s, h, i, true)
  {
  }

  lemma TargetMoves(s: State, h: nat, i: nat, poll: bool, gen: nat, base: nat)
    requires h < |s.w.handlers| && i < |s.cpus| && Live(s.cpus[i].ap)
    ensures s.w.handlers[h] == At(i, LoadTarget(poll, gen)) && i in s.w.reqTarget ==>
      HandlerNext(s, h) == HandlerAt(s, h, At(i, LoadBase(poll, gen)))
    ensures s.w.handlers[h] == At(i, LoadBase(poll, gen)) ==>
      HandlerNext(s, h) == HandlerAt(s, h, At(i, LoadPages(poll, gen, s.w.reqBase)))
    ensures s.w.handlers[h] == At(i, LoadPages(poll, gen, base)) ==>
      HandlerNext(s, h) == HandlerAt(s, h, At(i, Flush(poll, gen, base, s.w.reqPages, 0)))
  {
  }

  lemma TargetLoads(s: State, h: nat, i: nat, poll: bool)
    requires h < |s.w.handlers| && i < |s.cpus| && Live(s.cpus[i].ap) && i in s.w.reqTarget
    requires s.w.handlers[h] == At(i, LoadTarget(poll, s.w.reqGen))
    ensures HandlerSolo(s, h, 3) == Flushing(s, h, i, poll)
  {
    hide HandlerNext, Live;
    var gen, base := s.w.reqGen, s.w.reqBase;
    TargetMoves(s, h, i, poll, gen, base);
    var a := HandlerNext(s, h);
    TargetMoves(a, h, i, poll, gen, base);
    var b := HandlerNext(a, h);
    TargetMoves(b, h, i, poll, gen, base);
    assert HandlerSolo(HandlerNext(b, h), h, 0) == HandlerNext(b, h);
  }

  lemma {:induction false} HandlerJoin(s: State, h: nat, m: nat, n: nat)
    ensures HandlerSolo(s, h, m + n) == HandlerSolo(HandlerSolo(s, h, m), h, n)
    decreases m
  {
    hide HandlerNext;
    if m > 0 && h < |s.w.handlers| { HandlerJoin(HandlerNext(s, h), h, m - 1, n); }
  }

  lemma HandlerLoads(s: State, h: nat, i: nat, poll: bool)
    requires h < |s.w.handlers| && i < |s.cpus| && Live(s.cpus[i].ap) && s.w.handlers[h] == At(i, LoadGen(poll))
    requires s.w.reqGen != 0 && i in s.w.reqTarget && (poll ==> !s.w.diag && s.cpus[i].ack != s.w.reqGen)
    ensures HandlerSolo(s, h, if poll then 6 else 4) == Flushing(s, h, i, poll)
  {
    hide HandlerSolo, Live;
    if poll {
      PollLooks(s, h, i);
    } else {
      HandlerLooks(s, h, i);
    }
    TargetLoads(Looking(s, h, i, poll), h, i, poll);
    HandlerJoin(s, h, if poll then 3 else 1, 3);
  }

  lemma HandlerStores(s: State, h: nat, i: nat, poll: bool, gen: nat)
    requires h < |s.w.handlers| && i < |s.cpus| && Live(s.cpus[i].ap) && (poll || i !in s.w.drop)
    requires s.w.handlers[h] == At(i, if poll then StoreAck(gen) else LoadDrop(gen))
    ensures HandlerSolo(s, h, 2) ==
      s.(cpus := s.cpus[i := s.cpus[i].(ack := gen)], w := s.w.(handlers := s.w.handlers[h := NoHandler]))
  {
  }

  /** A diagnosed target drops one answer: its flush is done, but the request stays unanswered. */
  lemma HandlerDrops(s: State, h: nat, i: nat, gen: nat)
    requires h < |s.w.handlers| && i < |s.cpus| && Live(s.cpus[i].ap) && i in s.w.drop
    requires s.w.handlers[h] == At(i, LoadDrop(gen))
    ensures HandlerSolo(s, h, 2) ==
      s.(w := s.w.(drop := s.w.drop - {i}, handlers := s.w.handlers[h := NoHandler]))
  {
  }

  lemma HandlerBegins(s: State, h: nat, i: nat, poll: bool) returns (t: State)
    requires h < |s.w.handlers| && s.w.handlers[h] == NoHandler && i < |s.cpus| && Live(s.cpus[i].ap)
    requires s.w.reqGen != 0 && i in s.w.reqTarget && (poll ==> !s.w.diag && s.cpus[i].ack != s.w.reqGen)
    ensures Leads(s, Shootdown, t) && t == Flushing(s, h, i, poll)
  {
    var step := StartHandler(h, i, poll);
    var a := Apply(s, step);
    LeadsStep(s, Shootdown, step);
    hide Leads, HandlerSolo, Live, Apply, HandlerNext;
    HandlerLoads(a, h, i, poll);
    var n := if poll then 6 else 4;
    HandlerLeads(a, h, n);
    t := HandlerSolo(a, h, n);
    LeadsJoin(s, Shootdown, a, t);
  }

  lemma HandlerEnds(s: State, h: nat, i: nat, poll: bool, gen: nat) returns (t: State)
    requires h < |s.w.handlers| && i < |s.cpus| && Live(s.cpus[i].ap) && (poll || i !in s.w.drop)
    requires s.w.handlers[h] == At(i, if poll then StoreAck(gen) else LoadDrop(gen))
    ensures Leads(s, Shootdown, t)
    ensures t == s.(cpus := s.cpus[i := s.cpus[i].(ack := gen)], w := s.w.(handlers := s.w.handlers[h := NoHandler]))
  {
    hide Leads, HandlerSolo, Live;
    HandlerStores(s, h, i, poll, gen);
    HandlerLeads(s, h, 2);
    t := HandlerSolo(s, h, 2);
  }

  /** An interrupt handler on a live target answers the pending request, and so does a poll outside
      diagnostics that has not answered it yet. */
  lemma HandlerAnswers(s: State, h: nat, i: nat, poll: bool) returns (t: State)
    requires h < |s.w.handlers| && s.w.handlers[h] == NoHandler && i < |s.cpus| && Live(s.cpus[i].ap)
    requires s.w.reqGen != 0 && i in s.w.reqTarget
    requires if poll then !s.w.diag && s.cpus[i].ack != s.w.reqGen else i !in s.w.drop
    ensures Leads(s, Shootdown, t) && |t.cpus| == |s.cpus|
    ensures t == s.(cpus := s.cpus[i := s.cpus[i].(tlb := t.cpus[i].tlb, ack := s.w.reqGen)])
  {
    hide Leads, Live;
    var b := HandlerBegins(s, h, i, poll);
    var c := HandlerFlushes(b, h, i, poll, s.w.reqGen, s.w.reqBase, s.w.reqPages, 0);
    LeadsJoin(s, Shootdown, b, c);
    t := HandlerEnds(c, h, i, poll, s.w.reqGen);
    LeadsJoin(s, Shootdown, c, t);
    assert t.w.handlers == s.w.handlers;
    assert t.cpus == s.cpus[i := t.cpus[i]];
  }

  /** The request waits, and all its targets that are participants are live. */
  predicate Awaits(s: State, h: nat, cpu: nat, base: nat, pages: nat) {
    && h < |s.w.handlers| && s.w.handlers[h] == NoHandler && cpu < |s.cpus| && s.w.reqGen != 0 && s.w.drop == {}
    && s.w.requester == By(cpu, Scan(base, pages, s.w.reqTarget, s.w.reqGen, 0, {}))
    && forall i :: 0 <= i < |s.cpus| && s.cpus[i].b.member ==> Live(s.cpus[i].ap)
  }

  /** All targets answer, one after the other. */
  lemma {:induction false} AllAnswer(s: State, h: nat, cpu: nat, base: nat, pages: nat, n: nat) returns (t: State)
    requires Awaits(s, h, cpu, base, pages) && n <= |s.cpus|
    requires forall i :: i in s.w.reqTarget && i < n ==> s.cpus[i].ack == s.w.reqGen || !s.cpus[i].b.member
    ensures Leads(s, Shootdown, t) && Awaits(t, h, cpu, base, pages) && t.w == s.w
    ensures AllAnswered(t, t.w.reqTarget, t.w.reqGen)
    decreases |s.cpus| - n
  {
    hide Leads, Live;
    if n == |s.cpus| {
      LeadsNowhere(s, Shootdown);
      t := s;
    } else if n in s.w.reqTarget && s.cpus[n].b.member {
      var a := HandlerAnswers(s, h, n, false);
      t := AllAnswer(a, h, cpu, base, pages, n + 1);
      LeadsJoin(s, Shootdown, a, t);
    } else {
      t := AllAnswer(s, h, cpu, base, pages, n + 1);
    }
  }

  lemma RequestsBelong(asks: seq<Ask>, s: State)
    ensures Leads(s, Shootdown, Execute(s, Requests(asks)))
  {
    hide Execute;
    assert forall k :: 0 <= k < |asks| ==> Belongs(Requests(asks)[k], Shootdown);
  }

  lemma Asked(s: State, cpu: nat, base: nat, pages: nat) returns (t: State)
    requires cpu < |s.cpus| && s.w.requester == By(cpu, Mapping) && pages > 0
    ensures Leads(s, Shootdown, t) && t == RequestAt(s, cpu, OwnFlush(base, pages, 0))
  {
    var step := RequestStep(Invalidate(base, pages));
    t := Apply(s, step);
    LeadsStep(s, Shootdown, step);
    hide Leads;
  }

  /** From every state in which a range is to be invalidated, all other participants are live, none is
      told to drop its answer, and an interrupt can be taken, `invalidate` can finish with ok. */
  lemma InvalidateCompletes(s: State, cpu: nat, base: nat, pages: nat, h: nat) returns (t: State)
    requires cpu < |s.cpus| && s.w.requester == By(cpu, Mapping) && pages > 0 && s.w.drop == {}
    requires h < |s.w.handlers| && s.w.handlers[h] == NoHandler
    requires forall i :: 0 <= i < |s.cpus| && s.cpus[i].b.member ==> Live(s.cpus[i].ap)
    ensures Leads(s, Shootdown, t) && t.w.requester == By(cpu, RequestPc.Returned(base, pages, true))
  {
    hide Leads, Live, Apply, Execute;
    var a := Asked(s, cpu, base, pages);
    var b := OwnFlushes(a, cpu, base, pages, 0);
    LeadsJoin(s, Shootdown, a, b);
    var c := Publishes(b, cpu, base, pages);
    LeadsJoin(s, Shootdown, b, c);
    if Members(b.cpus) - {cpu} == {} {
      t := c;
    } else {
      t := Answers(c, h, cpu, base, pages);
      LeadsJoin(s, Shootdown, c, t);
    }
  }

  /** A published request whose targets are live is answered with ok. */
  lemma Answers(s: State, h: nat, cpu: nat, base: nat, pages: nat) returns (t: State)
    requires Awaits(s, h, cpu, base, pages)
    ensures Leads(s, Shootdown, t) && t.w.requester == By(cpu, RequestPc.Returned(base, pages, true))
  {
    hide Leads, Live, Apply, Execute;
    var d := AllAnswer(s, h, cpu, base, pages, 0);
    var asks := seq(|d.cpus| + 2, _ => Continue(true));
    ScanSucceeds(d, asks, cpu, base, pages, d.w.reqTarget, d.w.reqGen);
    RequestsBelong(asks, d);
    t := Execute(d, Requests(asks));
    LeadsJoin(s, Shootdown, d, t);
  }
}
