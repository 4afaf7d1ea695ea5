/** Every step of the controller and of the shutdown thread keeps the invariant of its slot. */
module CpuCtlProof {
  import opened CpuState
  import opened CpuSteps
  import opened CpuInvariant
  import opened CpuCtlBooks

  lemma BookPositive(b: Book, z: Zone, ctl: Ctl, stop: Stopper)
    requires BookInv(b, z, ctl, stop)
    ensures b.epoch > 1
    ensures z == InStop ==> b.state == Offline
  {
  }

  /** Leaving the mask: no stop is recorded or on its way. */
  lemma LeaveMaskKeeps(c: Cpu, v: View, d: Cpu, u: View)
    requires SlotInv(c, v) && c.b.stopped != c.b.epoch && c.b.state != StopPending && c.b.state != Offline
    requires d == c.(b := c.b.(member := false), flushed := false)
    requires u.runtime == v.runtime && u.tables == v.tables && BookInv(d.b, ZoneOf(d.ap), u.ctl, u.stop)
    ensures SlotInv(d, u)
  {
    BookPositive(c.b, ZoneOf(c.ap), v.ctl, v.stop);
    hide BookInv;
  }

  /** The new epoch and the SIPI find a halted AP. */
  lemma AtRestKeeps(c: Cpu, v: View, d: Cpu, u: View)
    requires SlotInv(c, v) && ZoneOf(c.ap) == AtRest && d.b.stopped < d.b.epoch
    requires d.ap == c.ap || d.ap == Entering(d.b.epoch, Begin)
    requires u.runtime == v.runtime && u.tables == v.tables && BookInv(d.b, ZoneOf(d.ap), u.ctl, u.stop)
    ensures SlotInv(d, u)
  {
    hide BookInv;
  }

  lemma DrainKeeps(g: Shared, c: Cpu, i: nat, e: nat, at: OffPc, pick: bool)
    requires g.ctl == Busy(i, e, Off(at)) && Exclusive(g) && SlotInv(c, ViewOf(g, i))
    ensures CtlKept(g, DrainNext(g, c, i, e, at, pick), i)
  {
    var l, v := DrainNext(g, c, i, e, at, pick), ViewOf(g, i);
    CtlBook(c.b, ZoneOf(c.ap), g.ctl, v.stop);
    hide BookInv, DrainNext;
    DrainBook(g, c, i, e, at, pick, v.stop);
    DrainLocks(g, c, i, e, at, pick);
    DrainGentle(g, c, i, e, at, pick);
    GentleKeeps(c, v, l.c, ViewOf(l.g, i));
  }

  lemma WithdrawKeeps(g: Shared, c: Cpu, w: Wire, i: nat, e: nat, at: TakePc, pick: bool)
    requires g.ctl == Busy(i, e, Take(at)) && Exclusive(g) && SlotInv(c, ViewOf(g, i))
    ensures CtlKept(g, WithdrawNext(g, c, w, i, e, at, pick), i)
  {
    var l, v := WithdrawNext(g, c, w, i, e, at, pick), ViewOf(g, i);
    CtlBook(c.b, ZoneOf(c.ap), g.ctl, v.stop);
    hide BookInv;
    WithdrawBook(g, c, w, i, e, at, pick, v.stop);
    WithdrawLocks(g, c, w, i, e, at, pick);
    if at.OffLoad? && at.k > 6 {
      LeaveMaskKeeps(c, v, l.c, ViewOf(l.g, i));
    } else {
      WithdrawGentle(g, c, w, i, e, at, pick);
      GentleKeeps(c, v, l.c, ViewOf(l.g, i));
    }
  }

  lemma UndoKeeps(g: Shared, c: Cpu, i: nat, e: nat, at: CanPc, pick: bool)
    requires g.ctl == Busy(i, e, Can(at)) && Exclusive(g) && SlotInv(c, ViewOf(g, i))
    ensures CtlKept(g, UndoNext(g, c, i, e, at, pick), i)
  {
    var l, v := UndoNext(g, c, i, e, at, pick), ViewOf(g, i);
    CtlBook(c.b, ZoneOf(c.ap), g.ctl, v.stop);
    hide BookInv, UndoNext;
    UndoBook(g, c, i, e, at, pick, v.stop);
    UndoLocks(g, c, i, e, at, pick);
    UndoGentle(g, c, i, e, at, pick);
    GentleKeeps(c, v, l.c, ViewOf(l.g, i));
  }

  lemma RestartKeeps(g: Shared, c: Cpu, i: nat, e: nat, at: OnPc, pick: bool)
    requires g.ctl == Busy(i, e, On(at)) && Exclusive(g) && SlotInv(c, ViewOf(g, i))
    ensures CtlKept(g, RestartNext(g, c, i, e, at, pick), i)
  {
    var l, v := RestartNext(g, c, i, e, at, pick), ViewOf(g, i);
    CtlBook(c.b, ZoneOf(c.ap), g.ctl, v.stop);
    hide BookInv;
    RestartBook(g, c, i, e, at, pick, v.stop);
    RestartLocks(g, c, i, e, at, pick);
    if at.OnTopology? && at.k > 1 {
      AtRestKeeps(c, v, l.c, ViewOf(l.g, i));
    } else {
      RestartGentle(g, c, i, e, at, pick);
      GentleKeeps(c, v, l.c, ViewOf(l.g, i));
    }
  }

  lemma LaunchKeeps(g: Shared, c: Cpu, i: nat, e: nat, at: GoPc, pick: bool)
    requires g.ctl == Busy(i, e, Go(at)) && Exclusive(g) && SlotInv(c, ViewOf(g, i))
    ensures CtlKept(g, LaunchNext(g, c, i, e, at, pick), i)
  {
    var l, v := LaunchNext(g, c, i, e, at, pick), ViewOf(g, i);
    CtlBook(c.b, ZoneOf(c.ap), g.ctl, v.stop);
    hide BookInv;
    LaunchBook(g, c, i, e, at, pick, v.stop);
    LaunchLocks(g, c, i, e, at, pick);
    if at.RunSipi? {
      AtRestKeeps(c, v, l.c, ViewOf(l.g, i));
    } else {
      LaunchGentle(g, c, i, e, at, pick);
      GentleKeeps(c, v, l.c, ViewOf(l.g, i));
    }
  }

  /** Any step of the controller. */
  lemma CtlKeeps(g: Shared, c: Cpu, w: Wire, pick: bool)
    requires g.ctl.Busy? && Exclusive(g) && SlotInv(c, ViewOf(g, g.ctl.i))
    ensures CtlKept(g, CtlNext(g, c, w, pick), g.ctl.i)
  {
    hide SlotInv, Exclusive, CtlKept;
    var i, e := g.ctl.i, g.ctl.e;
    match g.ctl.at
    case Off(at) => DrainKeeps(g, c, i, e, at, pick);
    case Take(at) => WithdrawKeeps(g, c, w, i, e, at, pick);
    case Can(at) => UndoKeeps(g, c, i, e, at, pick);
    case On(at) => RestartKeeps(g, c, i, e, at, pick);
    case Go(at) => LaunchKeeps(g, c, i, e, at, pick);
  }

  /** The stop thread before it changes the state, or after it cleared the mask bit. */
  predicate Harmless(stop: Stopper) {
    stop.Stopping? ==>
      stop.m.to == TerminalPending && (stop.m.from == Online || stop.m.from == Draining)
      && (stop.m.stage == Exchange || stop.m.stage.Settled?)
  }

  lemma StopsIdly(b: Book, z: Zone, ctl: Ctl, stop: Stopper, next: Stopper)
    requires BookInv(b, z, ctl, stop) && Harmless(stop) && Harmless(next)
    ensures BookInv(b, z, ctl, next)
  {
  }

  lemma StopsRunning(b: Book, z: Zone, ctl: Ctl, i: nat, m: Move)
    requires BookInv(b, z, ctl, Stopping(i, m)) && !CtlRuntime(ctl) && (b.state == Online ==> z == AtWork)
    requires m.stage == Exchange && m.from == b.state
    ensures BookInv(b.(state := m.to), z, ctl, Stopping(i, m.(stage := UnscheduleMask)))
  {
  }

  lemma StopsMask(b: Book, z: Zone, ctl: Ctl, i: nat, m: Move)
    requires BookInv(b, z, ctl, Stopping(i, m)) && m.stage == UnscheduleMask
    ensures BookInv(b.(sched := false), z, ctl, Stopping(i, m.(stage := Settled(true))))
  {
  }

  lemma RunningAlone(c: Cpu, ctl: Ctl, stop: Stopper)
    requires BookInv(c.b, ZoneOf(c.ap), ctl, stop) && !ApRuntime(c.ap) && c.b.state == Online
    ensures ZoneOf(c.ap) == AtWork
  {
  }

  lemma StopShape(b: Book, z: Zone, ctl: Ctl, i: nat, m: Move)
    requires BookInv(b, z, ctl, Stopping(i, m))
    ensures m.to == TerminalPending && (m.from == Online || m.from == Draining)
    ensures m.stage == Exchange || m.stage == UnscheduleMask || m.stage.Settled?
  {
  }

  lemma StopMoves(c: Cpu, z: Zone, ctl: Ctl, i: nat, m: Move)
    requires BookInv(c.b, z, ctl, Stopping(i, m)) && !CtlRuntime(ctl) && (c.b.state == Online ==> z == AtWork)
    requires !m.stage.Settled?
    ensures BookInv(MoveCpu(c, m).b, z, ctl, Stopping(i, MoveNext(c, m)))
  {
    StopShape(c.b, z, ctl, i, m);
    hide BookInv;
    if m.stage == UnscheduleMask {
      StopsMask(c.b, z, ctl, i, m);
    } else if m.from == c.b.state {
      StopsRunning(c.b, z, ctl, i, m);
    } else {
      StopsIdly(c.b, z, ctl, Stopping(i, m), Stopping(i, MoveNext(c, m)));
    }
  }

  lemma ShutdownLockKeeps(g: Shared, c: Cpu)
    requires g.stop.StopLock? && (g.stop.from == Online || g.stop.from == Draining)
    requires Exclusive(g) && SlotInv(c, ViewOf(g, g.stop.i))
    ensures var l := ShutdownNext(g, c); SlotInv(l.c, ViewOf(l.g, g.stop.i)) && Exclusive(l.g) && l.g.ctl == g.ctl
  {
    hide BookInv;
    var l, v, z := ShutdownNext(g, c), ViewOf(g, g.stop.i), ZoneOf(c.ap);
    BookPositive(c.b, z, v.ctl, v.stop);
    StopsIdly(c.b, z, v.ctl, v.stop, ViewOf(l.g, g.stop.i).stop);
    GentleKeeps(c, v, l.c, ViewOf(l.g, g.stop.i));
  }

  lemma ShutdownMoveKeeps(g: Shared, c: Cpu)
    requires g.stop.Stopping? && Exclusive(g) && SlotInv(c, ViewOf(g, g.stop.i))
    ensures var l := ShutdownNext(g, c); SlotInv(l.c, ViewOf(l.g, g.stop.i)) && Exclusive(l.g) && l.g.ctl == g.ctl
  {
    hide BookInv;
    var i, m := g.stop.i, g.stop.m;
    var l, v, z := ShutdownNext(g, c), ViewOf(g, i), ZoneOf(c.ap);
    BookPositive(c.b, z, v.ctl, v.stop);
    StopShape(c.b, z, v.ctl, i, m);
    if m.stage.Settled? {
      StopsIdly(c.b, z, v.ctl, v.stop, Resting);
    } else {
      if c.b.state == Online { RunningAlone(c, v.ctl, v.stop); }
      StopMoves(c, z, v.ctl, i, m);
    }
    GentleKeeps(c, v, l.c, ViewOf(l.g, i));
  }

  lemma ShutdownKeeps(g: Shared, c: Cpu)
    requires g.stop != Resting && (g.stop.StopLock? ==> g.stop.from == Online || g.stop.from == Draining)
    requires Exclusive(g) && SlotInv(c, ViewOf(g, g.stop.i))
    ensures var l := ShutdownNext(g, c); SlotInv(l.c, ViewOf(l.g, g.stop.i)) && Exclusive(l.g) && l.g.ctl == g.ctl
  {
    hide *;
    if g.stop.StopLock? {
      ShutdownLockKeeps(g, c);
    } else {
      ShutdownMoveKeeps(g, c);
    }
  }
}
