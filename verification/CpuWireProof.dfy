/** Every step keeps the invariant of the shootdown. */
module CpuWireProof {
  import opened CpuState
  import opened CpuSteps
  import opened CpuInvariant
  import opened CpuCtlBooks
  import opened CpuWire

  // ----- the AP and the controller

  lemma JoinQuieter(g: Shared, i: nat, c: Cpu, e: nat, at: EntryPc, pick: bool)
    requires c.ap == Entering(e, at) && ApFacts(c.b.state, c.ap)
    ensures var d := JoinNext(g, i, c, e, at, pick).c; Quieter(c, d) && Untouched(c.b, d.b)
  {
  }

  lemma EntryQuieter(g: Shared, i: nat, c: Cpu, e: nat, at: EntryPc, pick: bool)
    requires c.ap == Entering(e, at) && ApFacts(c.b.state, c.ap)
    ensures var d := EntryNext(g, i, c, e, at, pick).c; Quieter(c, d) && Untouched(c.b, d.b)
  {
    JoinQuieter(g, i, c, e, at, pick);
    hide JoinNext;
  }

  lemma ReturnMember(b: Book, z: Zone, ctl: Ctl, stop: Stopper)
    requires BookInv(b, z, ctl, stop) && z == InReturn
    ensures b.member
  {
  }

  lemma GrantQuieter(g: Shared, c: Cpu, e: nat, at: GrantPc)
    requires c.ap == Granted(e, at) && ApFacts(c.b.state, c.ap)
    ensures var d := GrantNext(g, c, e, at).c; Quieter(c, d) && Untouched(c.b, d.b)
  {
  }

  lemma WorkQuieter(g: Shared, c: Cpu, i: nat, e: nat, at: WorkPc, pick: bool)
    requires c.ap == Working(e, at) && ApFacts(c.b.state, c.ap)
    ensures var d := WorkNext(g, i, c, e, at, pick).c; Quieter(c, d) && Untouched(c.b, d.b)
  {
  }

  lemma DyingQuieter(g: Shared, c: Cpu, e: nat, m: Move)
    requires c.ap == Dying(e, m) && ApFacts(c.b.state, c.ap)
    ensures var d := DyingNext(g, c, e, m).c; Quieter(c, d) && Untouched(c.b, d.b)
  {
  }

  lemma ParkQuieter(g: Shared, c: Cpu, e: nat, at: ParkPc, pick: bool)
    requires c.ap == Parking(e, at) && ApFacts(c.b.state, c.ap)
    ensures var d := ParkNext(g, c, e, at, pick).c; Quieter(c, d) && Untouched(c.b, d.b)
  {
  }

  lemma PollQuieter(g: Shared, c: Cpu, e: nat, armed: bool, at: PollPc)
    requires c.ap == Polling(e, armed, at) && ApFacts(c.b.state, c.ap)
    ensures var d := PollNext(g, c, e, armed, at).c; Quieter(c, d) && Untouched(c.b, d.b)
  {
  }

  lemma CancelQuieter(g: Shared, c: Cpu, i: nat, e: nat, armed: bool, at: CancelPc, pick: bool)
    requires c.ap == Cancelling(e, armed, at) && ApFacts(c.b.state, c.ap)
    ensures var d := CancelNext(g, i, c, e, armed, at, pick).c; Quieter(c, d) && Untouched(c.b, d.b)
  {
  }

  lemma ReturnQuieter(g: Shared, c: Cpu, e: nat, at: ReturnPc)
    requires c.ap == Returning(e, at) && ApFacts(c.b.state, c.ap) && (ZoneOf(c.ap) == InReturn ==> c.b.member)
    ensures var d := ReturnNext(g, c, e, at).c; Quieter(c, d) && Untouched(c.b, d.b)
  {
  }

  lemma ApQuieter(g: Shared, i: nat, c: Cpu, pick: bool)
    requires SlotInv(c, ViewOf(g, i))
    ensures var d := ApNext(g, i, c, pick).c; Quieter(c, d) && Untouched(c.b, d.b)
  {
    if ZoneOf(c.ap) == InReturn {
      ReturnMember(c.b, ZoneOf(c.ap), ViewOf(g, i).ctl, ViewOf(g, i).stop);
    }
    hide BookInv, EntryNext, GrantNext, WorkNext, DyingNext, ParkNext, PollNext, CancelNext, ReturnNext;
    match c.ap
    case Entering(e, at) => EntryQuieter(g, i, c, e, at, pick);
    case Granted(e, at) => GrantQuieter(g, c, e, at);
    case Working(e, at) => WorkQuieter(g, c, i, e, at, pick);
    case Dying(e, m) => DyingQuieter(g, c, e, m);
    case Parking(e, at) => ParkQuieter(g, c, e, at, pick);
    case Polling(e, armed, at) => PollQuieter(g, c, e, armed, at);
    case Cancelling(e, armed, at) => CancelQuieter(g, c, i, e, armed, at, pick);
    case Returning(e, at) => ReturnQuieter(g, c, e, at);
    case _ =>
  }

  /** A controller that cancels a drain finds the CPU still in the mask, and puts no other there. */
  lemma CancelMember(b: Book, z: Zone, ctl: Ctl, stop: Stopper)
    requires BookInv(b, z, ctl, stop) && ctl.Busy?
    ensures Exchanges(ctl.at).stage == JoinMask ==> b.member
    ensures ctl.at == Go(RunSipi) ==> z == AtRest
  {
  }

  lemma DrainQuieter(g: Shared, c: Cpu, i: nat, e: nat, at: OffPc, pick: bool)
    requires Exchanges(Off(at)).stage == JoinMask ==> c.b.member
    ensures var d := DrainNext(g, c, i, e, at, pick).c; Quieter(c, d) && d.ap == c.ap
  {
  }

  lemma WithdrawQuieter(g: Shared, c: Cpu, w: Wire, i: nat, e: nat, at: TakePc, pick: bool)
    requires Exchanges(Take(at)).stage == JoinMask ==> c.b.member
    ensures var d := WithdrawNext(g, c, w, i, e, at, pick).c; Quieter(c, d) && d.ap == c.ap
  {
  }

  lemma UndoQuieter(g: Shared, c: Cpu, i: nat, e: nat, at: CanPc, pick: bool)
    requires Exchanges(Can(at)).stage == JoinMask ==> c.b.member
    ensures var d := UndoNext(g, c, i, e, at, pick).c; Quieter(c, d) && d.ap == c.ap
  {
  }

  lemma RestartQuieter(g: Shared, c: Cpu, i: nat, e: nat, at: OnPc, pick: bool)
    requires Exchanges(On(at)).stage == JoinMask ==> c.b.member
    ensures var d := RestartNext(g, c, i, e, at, pick).c; Quieter(c, d) && d.ap == c.ap
  {
  }

  lemma LaunchQuieter(g: Shared, c: Cpu, i: nat, e: nat, at: GoPc, pick: bool)
    requires Exchanges(Go(at)).stage == JoinMask ==> c.b.member
    ensures var d := LaunchNext(g, c, i, e, at, pick).c; Quieter(c, d) && (d.ap == c.ap || at == RunSipi)
  {
  }

  lemma CtlQuieter(g: Shared, c: Cpu, w: Wire, pick: bool)
    requires g.ctl.Busy? && SlotInv(c, ViewOf(g, g.ctl.i))
    ensures var d := CtlNext(g, c, w, pick).c; Quieter(c, d) && (d.ap == c.ap || c.ap == Halted)
    ensures g.ctl.at == Go(RunSipi) ==> c.ap == Halted
  {
    CancelMember(c.b, ZoneOf(c.ap), g.ctl, ViewOf(g, g.ctl.i).stop);
    hide BookInv, DrainNext, WithdrawNext, UndoNext, RestartNext, LaunchNext;
    var i, e := g.ctl.i, g.ctl.e;
    match g.ctl.at
    case Off(at) => DrainQuieter(g, c, i, e, at, pick);
    case Take(at) => WithdrawQuieter(g, c, w, i, e, at, pick);
    case Can(at) => UndoQuieter(g, c, i, e, at, pick);
    case On(at) => RestartQuieter(g, c, i, e, at, pick);
    case Go(at) => LaunchQuieter(g, c, i, e, at, pick);
  }

  lemma StopQuieter(g: Shared, c: Cpu)
    requires g.stop != Resting && (g.stop.StopLock? ==> g.stop.from == Online || g.stop.from == Draining)
    requires SlotInv(c, ViewOf(g, g.stop.i))
    ensures var d := ShutdownNext(g, c).c; Quieter(c, d) && Untouched(c.b, d.b)
  {
  }

  /** A quieter step on one CPU keeps the whole shootdown invariant. */
  lemma QuietStep(cpus: seq<Cpu>, i: nat, d: Cpu, w: Wire)
    requires i < |cpus| && Cpus(cpus, w) && Handlers(cpus, w) && Published(w)
    requires Quieter(cpus[i], d) && (JoinReady(cpus[i].ap) ==> w.requester.NoRequest?)
    ensures Cpus(cpus[i := d], w) && Handlers(cpus[i := d], w)
  {
    QuieterKeeps(cpus[i], d, i, w);
    OneCpu(cpus, i, d, w);
    OneTlb(cpus, i, d, w);
  }

  // ----- the requester

  /** Another program point of the requester that owes the handlers nothing new. */
  lemma SameHandlers(cpus: seq<Cpu>, w: Wire, v: Wire)
    requires Handlers(cpus, w)
    requires v.handlers == w.handlers && v.reqGen >= w.reqGen
    requires Pending(v) ==>
      || v.reqGen > w.reqGen
      || (Pending(w) && v.reqGen == w.reqGen && v.reqBase == w.reqBase && v.reqPages == w.reqPages && v.pt == w.pt)
    ensures Handlers(cpus, v)
  {
    forall h | 0 <= h < |v.handlers| ensures HandlerInv(v.handlers[h], cpus, v) {
      assert HandlerInv(w.handlers[h], cpus, w);
    }
  }

  /** The state invariant as the requester sees it. */
  ghost predicate WireInv(s: State) {
    && Cpus(s.cpus, s.w) && Handlers(s.cpus, s.w) && Published(s.w)
    && (s.w.requester.By? ==> s.w.requester.cpu < |s.cpus| && forall i :: 0 <= i < |s.cpus| ==>
         !JoinReady(s.cpus[i].ap))
  }

  lemma MappingKeeps(s: State, cpu: nat, ask: Ask)
    requires WireInv(s) && s.w.requester == By(cpu, Mapping)
    ensures var t := InvalidateNext(s, cpu, Mapping, ask); Cpus(t.cpus, t.w) && Handlers(t.cpus, t.w) && Published(t.w)
  {
    var t := InvalidateNext(s, cpu, Mapping, ask);
    SameHandlers(s.cpus, s.w, t.w);
    forall i | 0 <= i < |s.cpus| ensures CpuInv(t.cpus[i], i, t.w) {
      assert CpuInv(s.cpus[i], i, s.w);
      assert s.cpus[i].b.member ==> forall p: Page :: p !in t.w.dirty ==>
        p !in s.w.dirty && Fresh(s.cpus[i].tlb, s.w.pt, p);
    }
  }

  lemma OwnFlushKeeps(s: State, cpu: nat, pc: RequestPc, ask: Ask)
    requires WireInv(s) && s.w.requester == By(cpu, pc) && pc.OwnFlush?
    ensures var t := InvalidateNext(s, cpu, pc, ask); Cpus(t.cpus, t.w) && Handlers(t.cpus, t.w) && Published(t.w)
  {
    var t := InvalidateNext(s, cpu, pc, ask);
    var base, pages, done := pc.base, pc.pages, pc.done;
    assert CpuInv(s.cpus[cpu], cpu, s.w);
    if done < pages {
      FlushStepFresh(s.cpus[cpu].tlb, s.w.pt, base, pages, done);
      FlushStepKeeps(s.cpus[cpu].tlb, s.w.pt, base, pages, done);
      OneTlb(s.cpus, cpu, t.cpus[cpu], s.w);
      SameHandlers(t.cpus, s.w, t.w);
    } else {
      SameHandlers(s.cpus, s.w, t.w);
    }
    forall i | 0 <= i < |s.cpus| ensures CpuInv(t.cpus[i], i, t.w) {
      assert CpuInv(s.cpus[i], i, s.w);
    }
  }

  lemma PublishKeeps(s: State, cpu: nat, pc: RequestPc, ask: Ask)
    requires WireInv(s) && s.w.requester == By(cpu, pc)
    requires pc.ReadMembers? || pc.BumpGen? || pc.StoreBase? || pc.StorePages? || pc.StoreTarget? || pc.Returned?
    ensures var t := InvalidateNext(s, cpu, pc, ask); Cpus(t.cpus, t.w) && Handlers(t.cpus, t.w) && Published(t.w)
  {
    var t := InvalidateNext(s, cpu, pc, ask);
    SameHandlers(s.cpus, s.w, t.w);
    forall i | 0 <= i < |s.cpus| ensures CpuInv(t.cpus[i], i, t.w) {
      assert CpuInv(s.cpus[i], i, s.w);
      assert pc.ReadMembers? && s.cpus[i].b.member ==> i in Members(s.cpus);
    }
  }

  /** A successful invalidation: every participant is fresh on the range. */
  lemma SucceedKeeps(s: State, t: State, cpu: nat, base: nat, pages: nat)
    requires Cpus(s.cpus, s.w) && Handlers(s.cpus, s.w) && s.w.reqGen <= s.w.generation
    requires t == Succeed(s, cpu, base, pages)
    requires forall i :: 0 <= i < |s.cpus| && s.cpus[i].b.member ==> FreshRange(s.cpus[i].tlb, s.w.pt, base, pages)
    ensures Cpus(t.cpus, t.w) && Handlers(t.cpus, t.w) && Published(t.w)
  {
    SameHandlers(s.cpus, s.w, t.w);
    forall i | 0 <= i < |s.cpus| ensures CpuInv(t.cpus[i], i, t.w) {
      assert CpuInv(s.cpus[i], i, s.w);
      if s.cpus[i].b.member {
        forall p: Page | p !in t.w.dirty ensures Fresh(s.cpus[i].tlb, t.w.pt, p) {
          assert p !in s.w.dirty || base <= p < base + pages;
        }
      }
    }
  }

  lemma StoreGenKeeps(s: State, cpu: nat, pc: RequestPc, ask: Ask)
    requires WireInv(s) && s.w.requester == By(cpu, pc) && pc.StoreGen?
    ensures var t := InvalidateNext(s, cpu, pc, ask); Cpus(t.cpus, t.w) && Handlers(t.cpus, t.w) && Published(t.w)
  {
    var t := InvalidateNext(s, cpu, pc, ask);
    var mid := RequestAt(s.(w := s.w.(reqGen := pc.gen)), cpu, RequestPc.Returned(pc.base, pc.pages, false));
    forall i | 0 <= i < |s.cpus| ensures CpuInv(s.cpus[i], i, mid.w) && (CpuInv(s.cpus[i], i, t.w) || pc.target == {}) {
      assert CpuInv(s.cpus[i], i, s.w);
    }
    SameHandlers(s.cpus, s.w, mid.w);
    if pc.target == {} {
      SucceedKeeps(mid, t, cpu, pc.base, pc.pages);
    } else {
      SameHandlers(s.cpus, s.w, t.w);
    }
  }

  lemma ScanKeeps(s: State, cpu: nat, pc: RequestPc, ask: Ask)
    requires WireInv(s) && s.w.requester == By(cpu, pc) && (pc.Scan? || pc.CheckMembers?)
    ensures var t := InvalidateNext(s, cpu, pc, ask); Cpus(t.cpus, t.w) && Handlers(t.cpus, t.w) && Published(t.w)
  {
    var t := InvalidateNext(s, cpu, pc, ask);
    if pc.CheckMembers? && pc.target <= pc.acked + (pc.target - Members(s.cpus)) {
      forall i | 0 <= i < |s.cpus| && s.cpus[i].b.member ensures FreshRange(s.cpus[i].tlb, s.w.pt, pc.base, pc.pages) {
        assert CpuInv(s.cpus[i], i, s.w);
        assert i in Members(s.cpus);
      }
      SucceedKeeps(s, t, cpu, pc.base, pc.pages);
    } else {
      SameHandlers(s.cpus, s.w, t.w);
      forall i | 0 <= i < |s.cpus| ensures CpuInv(t.cpus[i], i, t.w) {
        assert CpuInv(s.cpus[i], i, s.w);
      }
    }
  }

  /** Any step of the holder of the page-table owner. */
  lemma RequestKeeps(s: State, ask: Ask)
    requires WireInv(s)
    ensures var t := RequestNext(s, ask); Cpus(t.cpus, t.w) && Handlers(t.cpus, t.w) && Published(t.w)
  {
    hide Cpus, Handlers;
    if s.w.requester.By? {
      var cpu, pc := s.w.requester.cpu, s.w.requester.pc;
      if pc.Mapping? {
        MappingKeeps(s, cpu, ask);
      } else if pc.OwnFlush? {
        OwnFlushKeeps(s, cpu, pc, ask);
      } else if pc.StoreGen? {
        StoreGenKeeps(s, cpu, pc, ask);
      } else if pc.Scan? || pc.CheckMembers? {
        ScanKeeps(s, cpu, pc, ask);
      } else {
        PublishKeeps(s, cpu, pc, ask);
      }
    } else {
      AcquireKeeps(s, ask);
    }
  }

  lemma AcquireKeeps(s: State, ask: Ask)
    requires WireInv(s) && s.w.requester == NoRequest
    ensures var t := RequestNext(s, ask); Cpus(t.cpus, t.w) && Handlers(t.cpus, t.w) && Published(t.w)
  {
    var t := RequestNext(s, ask);
    SameHandlers(s.cpus, s.w, t.w);
    forall i | 0 <= i < |s.cpus| ensures CpuInv(t.cpus[i], i, t.w) {
      assert CpuInv(s.cpus[i], i, s.w);
    }
  }

  // ----- the handlers

  /** Handler h moves on; the cells it reads stay as they are. */
  lemma OneHandler(cpus: seq<Cpu>, w: Wire, h: nat, x: Handler)
    requires h < |w.handlers| && Handlers(cpus, w) && HandlerInv(x, cpus, w)
    ensures Handlers(cpus, w.(handlers := w.handlers[h := x]))
  {
    var v := w.(handlers := w.handlers[h := x]);
    forall k | 0 <= k < |v.handlers| ensures HandlerInv(v.handlers[k], cpus, v) {
      assert HandlerInv(w.handlers[k], cpus, w);
      assert HandlerInv(x, cpus, w);
    }
  }

  /** The cells the CPUs' invariant reads do not include the handlers and the drop mask. */
  lemma SameCpus(cpus: seq<Cpu>, w: Wire, handlers: seq<Handler>, drop: set<nat>, diag: bool)
    requires Cpus(cpus, w)
    ensures Cpus(cpus, w.(handlers := handlers, drop := drop, diag := diag))
  {
    forall i | 0 <= i < |cpus| ensures CpuInv(cpus[i], i, w.(handlers := handlers, drop := drop, diag := diag)) {
      assert CpuInv(cpus[i], i, w);
    }
  }

  lemma SameDrop(cpus: seq<Cpu>, w: Wire, drop: set<nat>, diag: bool)
    requires Handlers(cpus, w)
    ensures Handlers(cpus, w.(drop := drop, diag := diag))
  {
    SameHandlers(cpus, w, w.(drop := drop, diag := diag));
  }

  lemma FlushServes(s: State, h: nat, cpu: nat, at: HandlerPc)
    requires WireInv(s) && h < |s.w.handlers| && cpu < |s.cpus| && s.w.handlers[h] == At(cpu, at) && at.Flush?
    ensures var t := ServeNext(s, h, cpu, at); Cpus(t.cpus, t.w) && Handlers(t.cpus, t.w) && Published(t.w)
  {
    var t := ServeNext(s, h, cpu, at);
    var c := s.cpus[cpu];
    assert HandlerInv(s.w.handlers[h], s.cpus, s.w);
    assert CpuInv(c, cpu, s.w);
    if at.done < at.pages {
      if FreshRange(c.tlb, s.w.pt, at.base, at.done) {
        FlushStepFresh(c.tlb, s.w.pt, at.base, at.pages, at.done);
      }
      FlushStepKeeps(c.tlb, s.w.pt, at.base, at.pages, at.done);
      FresherKeeps(c, t.cpus[cpu].tlb, cpu, s.w);
      OneCpu(s.cpus, cpu, t.cpus[cpu], s.w);
      OneTlb(s.cpus, cpu, t.cpus[cpu], s.w);
    }
    OneHandler(t.cpus, s.w, h, t.w.handlers[h]);
    SameCpus(t.cpus, s.w, t.w.handlers, s.w.drop, s.w.diag);
  }

  lemma AckServes(s: State, h: nat, cpu: nat, at: HandlerPc)
    requires WireInv(s) && h < |s.w.handlers| && cpu < |s.cpus| && s.w.handlers[h] == At(cpu, at) && at.StoreAck?
    ensures var t := ServeNext(s, h, cpu, at); Cpus(t.cpus, t.w) && Handlers(t.cpus, t.w) && Published(t.w)
  {
    var t := ServeNext(s, h, cpu, at);
    assert HandlerInv(s.w.handlers[h], s.cpus, s.w);
    assert CpuInv(s.cpus[cpu], cpu, s.w);
    assert CpuInv(t.cpus[cpu], cpu, s.w);
    OneCpu(s.cpus, cpu, t.cpus[cpu], s.w);
    OneTlb(s.cpus, cpu, t.cpus[cpu], s.w);
    OneHandler(t.cpus, s.w, h, NoHandler);
    SameCpus(t.cpus, s.w, t.w.handlers, s.w.drop, s.w.diag);
  }

  /** A load of a handler touches its own frame and at most the drop mask. */
  lemma LoadFrame(s: State, h: nat, cpu: nat, at: HandlerPc)
    requires h < |s.w.handlers| && cpu < |s.cpus| && !at.Flush? && !at.StoreAck?
    ensures var t := ServeNext(s, h, cpu, at);
      && t.cpus == s.cpus && |t.w.handlers| == |s.w.handlers|
      && t.w == s.w.(handlers := s.w.handlers[h := t.w.handlers[h]], drop := t.w.drop)
  {
  }

  /** The loads up to the target mask know nothing of the request yet. */
  lemma EarlyLoad(s: State, h: nat, cpu: nat, at: HandlerPc)
    requires h < |s.w.handlers| && cpu < |s.cpus| && HandlerInv(At(cpu, at), s.cpus, s.w)
    requires at.LoadGen? || at.LoadDiag? || at.LoadAck? || at.LoadTarget? || at.ClearDrop?
    ensures HandlerInv(ServeNext(s, h, cpu, at).w.handlers[h], s.cpus, s.w)
  {
  }

  /** The loads of the request's range, and of the drop mask after the flush. */
  lemma RangeLoad(s: State, h: nat, cpu: nat, at: HandlerPc)
    requires h < |s.w.handlers| && cpu < |s.cpus| && HandlerInv(At(cpu, at), s.cpus, s.w)
    requires at.LoadBase? || at.LoadPages? || at.LoadDrop?
    ensures HandlerInv(ServeNext(s, h, cpu, at).w.handlers[h], s.cpus, s.w)
  {
  }

  lemma LoadServes(s: State, h: nat, cpu: nat, at: HandlerPc)
    requires WireInv(s) && h < |s.w.handlers| && cpu < |s.cpus| && s.w.handlers[h] == At(cpu, at)
    requires !at.Flush? && !at.StoreAck?
    ensures var t := ServeNext(s, h, cpu, at); Cpus(t.cpus, t.w) && Handlers(t.cpus, t.w) && Published(t.w)
  {
    hide ServeNext, HandlerInv, Cpus;
    var t := ServeNext(s, h, cpu, at);
    assert HandlerInv(s.w.handlers[h], s.cpus, s.w);
    if at.LoadBase? || at.LoadPages? || at.LoadDrop? {
      RangeLoad(s, h, cpu, at);
    } else {
      EarlyLoad(s, h, cpu, at);
    }
    LoadFrame(s, h, cpu, at);
    OneHandler(s.cpus, s.w, h, t.w.handlers[h]);
    SameDrop(s.cpus, s.w.(handlers := t.w.handlers), t.w.drop, s.w.diag);
    SameCpus(s.cpus, s.w, t.w.handlers, t.w.drop, s.w.diag);
  }

  /** Any step of a handler. */
  lemma HandlerKeeps(s: State, h: nat)
    requires WireInv(s) && h < |s.w.handlers|
    ensures var t := HandlerNext(s, h); Cpus(t.cpus, t.w) && Handlers(t.cpus, t.w) && Published(t.w)
  {
    hide Cpus, Handlers;
    var x := s.w.handlers[h];
    if x.At? && x.cpu < |s.cpus| {
      if x.at.Flush? {
        FlushServes(s, h, x.cpu, x.at);
      } else if x.at.StoreAck? {
        AckServes(s, h, x.cpu, x.at);
      } else {
        LoadServes(s, h, x.cpu, x.at);
      }
    }
  }
}
