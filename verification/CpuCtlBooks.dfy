/** The controller keeps the book of the slot it works on, one group of program points at a time. */
module CpuCtlBooks {
  import opened CpuState
  import opened CpuSteps
  import opened CpuInvariant

  predicate CtlInv(g: Shared) {
    && (g.runtime == ByController <==> CtlRuntime(g.ctl))
    && (g.tables == ByController <==> CtlTables(g.ctl))
  }

  /** What a step of the controller on slot i may do to the shared cells. */
  predicate CtlStepped(g: Shared, h: Shared, i: nat) {
    && h.stop == g.stop && h.terminal == g.terminal
    && (h.runtime == g.runtime || (g.runtime == Free && h.runtime == ByController) ||
         (g.runtime == ByController && h.runtime == Free))
    && (h.tables == g.tables || (g.tables == Free && h.tables == ByController) ||
         (g.tables == ByController && h.tables == Free))
    && (h.ctl == Idle || h.ctl.i == i)
    && CtlInv(h)
  }

  /** The Runtime owner is held by at most one of the three threads that look at slot i. */
  predicate Exclusive(g: Shared) {
    && CtlInv(g)
    && (g.runtime == ByStopper <==> g.stop.Stopping?)
  }

  /** A step that leaves the AP, its epoch and its flush alone, and takes its state away only
      when the AP cannot rely on it. */
  predicate Gentle(c: Cpu, d: Cpu) {
    && d.ap == c.ap && d.b.epoch == c.b.epoch && d.b.installed == c.b.installed && d.flushed == c.flushed
    && (d.b.stopped == c.b.stopped || d.b.stopped == 0)
    && (d.b.state == c.b.state || (!ApRuntime(c.ap) && c.b.state != StopPending && c.b.state != TerminalPending))
  }

  lemma GentleKeeps(c: Cpu, v: View, d: Cpu, u: View)
    requires SlotInv(c, v) && Gentle(c, d) && c.b.epoch > 1
    requires u.runtime == v.runtime && u.tables == v.tables && BookInv(d.b, ZoneOf(d.ap), u.ctl, u.stop)
    ensures SlotInv(d, u)
  {
    hide BookInv;
  }

  predicate CtlKept(g: Shared, l: Local, i: nat) {
    CtlStepped(g, l.g, i) && SlotInv(l.c, ViewOf(l.g, i))
  }

  /** The controller may act under the Runtime owner only when the AP does not hold it. */
  predicate Turn(g: Shared, c: Cpu, i: nat, e: nat, at: CtlPc, stop: Stopper) {
    && g.ctl == Busy(i, e, at)
    && BookInv(c.b, ZoneOf(c.ap), g.ctl, stop)
    && (RuntimePc(at) ==> !ApRuntime(c.ap) && !stop.Stopping?)
  }

  /** The move the controller is about to make, if any. */
  function Exchanges(at: CtlPc): Move {
    match at
    case Off(x) => if x.OffBegin? then x.m else Move(Offline, Offline, Settled(false))
    case Take(_) => Move(Offline, Offline, Settled(false))
    case Can(x) => if x.CanResume? then x.m else Move(Offline, Offline, Settled(false))
    case On(x) => if x.OnSlot? then x.m else Move(Offline, Offline, Settled(false))
    case Go(x) => if x.Run? || x.Qual? || x.Fail? then x.m else Move(Offline, Offline, Settled(false))
  }

  predicate Movable(at: CtlPc) {
    var m := Exchanges(at);
    m.stage == Exchange ==> m.from != StopPending && m.from != TerminalPending
  }

  /** What the program points of the controller that touch more than the book rely on. */
  lemma CtlBook(b: Book, z: Zone, ctl: Ctl, stop: Stopper)
    requires BookInv(b, z, ctl, stop) && ctl.Busy?
    ensures b.epoch > 1
    ensures ctl.at.Take? && ctl.at.take.OffLoad? ==>
      b.stopped != b.epoch && b.state != StopPending && b.state != Offline
    ensures ctl.at.On? && ctl.at.on.OnTopology? ==> z == AtRest && ctl.e == b.epoch
    ensures ctl.at == Go(RunSipi) ==> z == AtRest && ctl.e == b.epoch
    ensures ctl.at.Take? && ctl.at.take.OffArm? && b.state == Parked ==> z == InPoll || z == InLeave
    ensures Movable(ctl.at)
  {
  }

  predicate BookKept(l: Local, stop: Stopper) {
    BookInv(l.c.b, ZoneOf(l.c.ap), l.g.ctl, stop)
  }

  lemma OffBook(g: Shared, c: Cpu, i: nat, e: nat, at: OffPc, pick: bool, stop: Stopper)
    requires Turn(g, c, i, e, Off(at), stop)
    requires at.OffEpoch? || at.OffTerminal? || at.OffLock?
    ensures BookKept(DrainNext(g, c, i, e, at, pick), stop)
  {
  }

  lemma OffReceiptBook(g: Shared, c: Cpu, i: nat, e: nat, at: OffPc, pick: bool, stop: Stopper)
    requires Turn(g, c, i, e, Off(at), stop)
    requires at.OffReceipt?
    ensures BookKept(DrainNext(g, c, i, e, at, pick), stop)
  {
  }

  lemma OffHeldBook(g: Shared, c: Cpu, i: nat, e: nat, at: OffPc, pick: bool, stop: Stopper)
    requires Turn(g, c, i, e, Off(at), stop)
    requires at.OffState? || at.OffInstalled? || at.OffRefused? || at.OffUnlock?
    ensures BookKept(DrainNext(g, c, i, e, at, pick), stop)
  {
  }

  lemma OffMigrateBook(g: Shared, c: Cpu, i: nat, e: nat, at: OffPc, pick: bool, stop: Stopper)
    requires Turn(g, c, i, e, Off(at), stop)
    requires at.OffMigrate? || at.OffIrq?
    ensures BookKept(DrainNext(g, c, i, e, at, pick), stop)
  {
  }

  lemma OffWaitBook(g: Shared, c: Cpu, i: nat, e: nat, at: OffPc, pick: bool, stop: Stopper)
    requires Turn(g, c, i, e, Off(at), stop)
    requires at.OffRequest? || at.OffWait?
    ensures BookKept(DrainNext(g, c, i, e, at, pick), stop)
  {
  }

  lemma ResetBook(g: Shared, c: Cpu, i: nat, e: nat, at: OffPc, pick: bool, stop: Stopper)
    requires Turn(g, c, i, e, Off(at), stop)
    requires at.OffReset? && at.k < 4
    ensures BookKept(DrainNext(g, c, i, e, at, pick), stop)
  {
  }

  lemma ResetLateBook(g: Shared, c: Cpu, i: nat, e: nat, at: OffPc, pick: bool, stop: Stopper)
    requires Turn(g, c, i, e, Off(at), stop)
    requires at.OffReset? && at.k >= 4
    ensures BookKept(DrainNext(g, c, i, e, at, pick), stop)
  {
  }

  lemma BeginBook(g: Shared, c: Cpu, i: nat, e: nat, at: OffPc, pick: bool, stop: Stopper)
    requires Turn(g, c, i, e, Off(at), stop)
    requires at.OffBegin? && at.m.stage == Exchange
    ensures BookKept(DrainNext(g, c, i, e, at, pick), stop)
  {
  }

  lemma DrainedBook(g: Shared, c: Cpu, i: nat, e: nat, at: OffPc, pick: bool, stop: Stopper)
    requires Turn(g, c, i, e, Off(at), stop)
    requires at.OffDrain?
    ensures BookKept(DrainNext(g, c, i, e, at, pick), stop)
  {
  }

  lemma UnmaskBook(g: Shared, c: Cpu, i: nat, e: nat, at: OffPc, pick: bool, stop: Stopper)
    requires Turn(g, c, i, e, Off(at), stop)
    requires at.OffBegin? && at.m.stage != Exchange
    ensures BookKept(DrainNext(g, c, i, e, at, pick), stop)
  {
  }

  lemma BeginMaskBook(g: Shared, c: Cpu, i: nat, e: nat, at: OffPc, pick: bool, stop: Stopper)
    requires Turn(g, c, i, e, Off(at), stop)
    requires at.OffDrain? || (at.OffBegin? && at.m.stage != Exchange)
    ensures BookKept(DrainNext(g, c, i, e, at, pick), stop)
  {
    hide *;
    if at.OffDrain? {
      DrainedBook(g, c, i, e, at, pick, stop);
    } else {
      UnmaskBook(g, c, i, e, at, pick, stop);
    }
  }

  lemma TablesBook(g: Shared, c: Cpu, w: Wire, i: nat, e: nat, at: TakePc, pick: bool, stop: Stopper)
    requires Turn(g, c, i, e, Take(at), stop)
    requires at.OffMove? || at.OffTables? || at.OffGiveUp?
    ensures BookKept(WithdrawNext(g, c, w, i, e, at, pick), stop)
  {
  }

  lemma TablesDoneBook(g: Shared, c: Cpu, w: Wire, i: nat, e: nat, at: TakePc, pick: bool, stop: Stopper)
    requires Turn(g, c, i, e, Take(at), stop)
    requires at.OffGen? || at.OffTablesDone?
    ensures BookKept(WithdrawNext(g, c, w, i, e, at, pick), stop)
  {
  }

  lemma LoadBook(g: Shared, c: Cpu, w: Wire, i: nat, e: nat, at: TakePc, pick: bool, stop: Stopper)
    requires Turn(g, c, i, e, Take(at), stop)
    requires at.OffLoad? && at.k < 3
    ensures BookKept(WithdrawNext(g, c, w, i, e, at, pick), stop)
  {
  }

  lemma LoadTargetBook(g: Shared, c: Cpu, w: Wire, i: nat, e: nat, at: TakePc, pick: bool, stop: Stopper)
    requires Turn(g, c, i, e, Take(at), stop)
    requires at.OffLoad? && 3 <= at.k < 6
    ensures BookKept(WithdrawNext(g, c, w, i, e, at, pick), stop)
  {
  }

  lemma LeaveBook(g: Shared, c: Cpu, w: Wire, i: nat, e: nat, at: TakePc, pick: bool, stop: Stopper)
    requires Turn(g, c, i, e, Take(at), stop)
    requires at.OffLoad? && at.k >= 6
    ensures BookKept(WithdrawNext(g, c, w, i, e, at, pick), stop)
  {
  }

  lemma RecordBook(g: Shared, c: Cpu, w: Wire, i: nat, e: nat, at: TakePc, pick: bool, stop: Stopper)
    requires Turn(g, c, i, e, Take(at), stop)
    requires at.OffWithdrawn? || at.OffStopReq?
    ensures BookKept(WithdrawNext(g, c, w, i, e, at, pick), stop)
  {
  }

  lemma ArmBook(g: Shared, c: Cpu, w: Wire, i: nat, e: nat, at: TakePc, pick: bool, stop: Stopper)
    requires Turn(g, c, i, e, Take(at), stop)
    requires at.OffArm? && at.k < 2
    ensures BookKept(WithdrawNext(g, c, w, i, e, at, pick), stop)
  {
  }

  lemma ArmedBook(g: Shared, c: Cpu, w: Wire, i: nat, e: nat, at: TakePc, pick: bool, stop: Stopper)
    requires Turn(g, c, i, e, Take(at), stop)
    requires at.OffArm? && at.k >= 2
    ensures BookKept(WithdrawNext(g, c, w, i, e, at, pick), stop)
  {
  }

  lemma RefuteBook(g: Shared, c: Cpu, w: Wire, i: nat, e: nat, at: TakePc, pick: bool, stop: Stopper)
    requires Turn(g, c, i, e, Take(at), stop)
    requires at.OffConfirm? && !ReceiptLoad(c.b, e, at.k)
    ensures BookKept(WithdrawNext(g, c, w, i, e, at, pick), stop)
  {
  }

  lemma ConfirmBook(g: Shared, c: Cpu, w: Wire, i: nat, e: nat, at: TakePc, pick: bool, stop: Stopper)
    requires Turn(g, c, i, e, Take(at), stop)
    requires at.OffConfirm? && ReceiptLoad(c.b, e, at.k)
    ensures BookKept(WithdrawNext(g, c, w, i, e, at, pick), stop)
  {
  }

  lemma RetireBook(g: Shared, c: Cpu, w: Wire, i: nat, e: nat, at: TakePc, pick: bool, stop: Stopper)
    requires Turn(g, c, i, e, Take(at), stop)
    requires at.OffAwait? || at.OffRetire?
    ensures BookKept(WithdrawNext(g, c, w, i, e, at, pick), stop)
  {
  }

  lemma CanBook(g: Shared, c: Cpu, i: nat, e: nat, at: CanPc, pick: bool, stop: Stopper)
    requires Turn(g, c, i, e, Can(at), stop)
    requires at.CanLock? || at.CanWithdrawn? || at.CanState? || at.CanParked? || at.CanUnlock? || at.CanWait?
    ensures BookKept(UndoNext(g, c, i, e, at, pick), stop)
  {
  }

  lemma UndrainBook(g: Shared, c: Cpu, i: nat, e: nat, at: CanPc, pick: bool, stop: Stopper)
    requires Turn(g, c, i, e, Can(at), stop)
    requires at.CanResume? && at.m.stage == Exchange
    ensures BookKept(UndoNext(g, c, i, e, at, pick), stop)
  {
  }

  lemma UndrainMaskBook(g: Shared, c: Cpu, i: nat, e: nat, at: CanPc, pick: bool, stop: Stopper)
    requires Turn(g, c, i, e, Can(at), stop)
    requires at.CanResume? && at.m.stage != Exchange
    ensures BookKept(UndoNext(g, c, i, e, at, pick), stop)
  {
  }

  lemma StoreBook(g: Shared, c: Cpu, i: nat, e: nat, at: CanPc, pick: bool, stop: Stopper)
    requires Turn(g, c, i, e, Can(at), stop)
    requires at.CanDrain? || at.CanStore?
    ensures BookKept(UndoNext(g, c, i, e, at, pick), stop)
  {
  }

  lemma OnStartBook(g: Shared, c: Cpu, i: nat, e: nat, at: OnPc, pick: bool, stop: Stopper)
    requires Turn(g, c, i, e, On(at), stop)
    requires at.OnEpoch? || at.OnTerminal?
    ensures BookKept(RestartNext(g, c, i, e, at, pick), stop)
  {
  }

  lemma OnCurrentBook(g: Shared, c: Cpu, i: nat, e: nat, at: OnPc, pick: bool, stop: Stopper)
    requires Turn(g, c, i, e, On(at), stop)
    requires at.OnCurrent?
    ensures BookKept(RestartNext(g, c, i, e, at, pick), stop)
  {
  }

  lemma OnBook(g: Shared, c: Cpu, i: nat, e: nat, at: OnPc, pick: bool, stop: Stopper)
    requires Turn(g, c, i, e, On(at), stop)
    requires at.OnEpoch? || at.OnTerminal? || at.OnCurrent?
    ensures BookKept(RestartNext(g, c, i, e, at, pick), stop)
  {
    hide *;
    if at.OnEpoch? || at.OnTerminal? {
      OnStartBook(g, c, i, e, at, pick, stop);
    } else {
      OnCurrentBook(g, c, i, e, at, pick, stop);
    }
  }

  lemma OnReceiptBook(g: Shared, c: Cpu, i: nat, e: nat, at: OnPc, pick: bool, stop: Stopper)
    requires Turn(g, c, i, e, On(at), stop)
    requires at.OnReceipt?
    ensures BookKept(RestartNext(g, c, i, e, at, pick), stop)
  {
  }

  lemma OnTablesBook(g: Shared, c: Cpu, i: nat, e: nat, at: OnPc, pick: bool, stop: Stopper)
    requires Turn(g, c, i, e, On(at), stop)
    requires at.OnTables? || at.OnTablesDone?
    ensures BookKept(RestartNext(g, c, i, e, at, pick), stop)
  {
  }

  lemma OnRearmBook(g: Shared, c: Cpu, i: nat, e: nat, at: OnPc, pick: bool, stop: Stopper)
    requires Turn(g, c, i, e, On(at), stop)
    requires at.OnRearm? || at.OnAck?
    ensures BookKept(RestartNext(g, c, i, e, at, pick), stop)
  {
  }

  lemma AdmitBook(g: Shared, c: Cpu, i: nat, e: nat, at: OnPc, pick: bool, stop: Stopper)
    requires Turn(g, c, i, e, On(at), stop)
    requires at.OnAdmit? && at.k < 3
    ensures BookKept(RestartNext(g, c, i, e, at, pick), stop)
  {
  }

  lemma AdmitClaimBook(g: Shared, c: Cpu, i: nat, e: nat, at: OnPc, pick: bool, stop: Stopper)
    requires Turn(g, c, i, e, On(at), stop)
    requires at.OnAdmit? && 3 <= at.k < 5
    ensures BookKept(RestartNext(g, c, i, e, at, pick), stop)
  {
  }

  lemma AdmitStoreBook(g: Shared, c: Cpu, i: nat, e: nat, at: OnPc, pick: bool, stop: Stopper)
    requires Turn(g, c, i, e, On(at), stop)
    requires at.OnAdmit? && at.k >= 5
    ensures BookKept(RestartNext(g, c, i, e, at, pick), stop)
  {
  }

  lemma TopologyLoadBook(g: Shared, c: Cpu, i: nat, e: nat, at: OnPc, pick: bool, stop: Stopper)
    requires Turn(g, c, i, e, On(at), stop)
    requires at.OnTopology? && at.k <= 1
    ensures BookKept(RestartNext(g, c, i, e, at, pick), stop)
  {
  }

  lemma TopologyBook(g: Shared, c: Cpu, i: nat, e: nat, at: OnPc, pick: bool, stop: Stopper)
    requires Turn(g, c, i, e, On(at), stop)
    requires at.OnTopology? && at.k > 1
    ensures BookKept(RestartNext(g, c, i, e, at, pick), stop)
  {
  }

  lemma OnSlotBook(g: Shared, c: Cpu, i: nat, e: nat, at: OnPc, pick: bool, stop: Stopper)
    requires Turn(g, c, i, e, On(at), stop)
    requires at.OnRelease? || at.OnSlotEpoch? || at.OnSlotLock?
    ensures BookKept(RestartNext(g, c, i, e, at, pick), stop)
  {
  }

  lemma SlotBook(g: Shared, c: Cpu, i: nat, e: nat, at: OnPc, pick: bool, stop: Stopper)
    requires Turn(g, c, i, e, On(at), stop)
    requires at.OnSlot? && at.m.stage == Exchange
    ensures BookKept(RestartNext(g, c, i, e, at, pick), stop)
  {
  }

  lemma SlotMaskBook(g: Shared, c: Cpu, i: nat, e: nat, at: OnPc, pick: bool, stop: Stopper)
    requires Turn(g, c, i, e, On(at), stop)
    requires at.OnSlot? && at.m.stage != Exchange
    ensures BookKept(RestartNext(g, c, i, e, at, pick), stop)
  {
  }

  lemma BootBook(g: Shared, c: Cpu, i: nat, e: nat, at: GoPc, pick: bool, stop: Stopper)
    requires Turn(g, c, i, e, Go(at), stop)
    requires at.BootAdmit? && at.k == 0
    ensures BookKept(LaunchNext(g, c, i, e, at, pick), stop)
  {
  }

  lemma BootStoreBook(g: Shared, c: Cpu, i: nat, e: nat, at: GoPc, pick: bool, stop: Stopper)
    requires Turn(g, c, i, e, Go(at), stop)
    requires at.BootAdmit? && at.k > 0
    ensures BookKept(LaunchNext(g, c, i, e, at, pick), stop)
  {
  }

  lemma RunLockBook(g: Shared, c: Cpu, i: nat, e: nat, at: GoPc, pick: bool, stop: Stopper)
    requires Turn(g, c, i, e, Go(at), stop)
    requires at.RunLock?
    ensures BookKept(LaunchNext(g, c, i, e, at, pick), stop)
  {
  }

  lemma RunBook(g: Shared, c: Cpu, i: nat, e: nat, at: GoPc, pick: bool, stop: Stopper)
    requires Turn(g, c, i, e, Go(at), stop)
    requires at.Run? && at.m.stage == Exchange
    ensures BookKept(LaunchNext(g, c, i, e, at, pick), stop)
  {
  }

  lemma RunMaskBook(g: Shared, c: Cpu, i: nat, e: nat, at: GoPc, pick: bool, stop: Stopper)
    requires Turn(g, c, i, e, Go(at), stop)
    requires at.Run? && at.m.stage != Exchange
    ensures BookKept(LaunchNext(g, c, i, e, at, pick), stop)
  {
  }

  lemma SipiBook(g: Shared, c: Cpu, i: nat, e: nat, at: GoPc, pick: bool, stop: Stopper)
    requires Turn(g, c, i, e, Go(at), stop)
    requires at.RunSipi?
    ensures BookKept(LaunchNext(g, c, i, e, at, pick), stop)
  {
  }

  lemma AwaitBook(g: Shared, c: Cpu, i: nat, e: nat, at: GoPc, pick: bool, stop: Stopper)
    requires Turn(g, c, i, e, Go(at), stop)
    requires at.RunAwait? || at.RunQualified? || at.QualLock?
    ensures BookKept(LaunchNext(g, c, i, e, at, pick), stop)
  {
  }

  lemma QualBook(g: Shared, c: Cpu, i: nat, e: nat, at: GoPc, pick: bool, stop: Stopper)
    requires Turn(g, c, i, e, Go(at), stop)
    requires at.Qual? && at.m.stage == Exchange
    ensures BookKept(LaunchNext(g, c, i, e, at, pick), stop)
  {
  }

  lemma QualMaskBook(g: Shared, c: Cpu, i: nat, e: nat, at: GoPc, pick: bool, stop: Stopper)
    requires Turn(g, c, i, e, Go(at), stop)
    requires at.Qual? && at.m.stage != Exchange
    ensures BookKept(LaunchNext(g, c, i, e, at, pick), stop)
  {
  }

  lemma ReleaseBook(g: Shared, c: Cpu, i: nat, e: nat, at: GoPc, pick: bool, stop: Stopper)
    requires Turn(g, c, i, e, Go(at), stop)
    requires at.RunRelease? || at.RunOnline?
    ensures BookKept(LaunchNext(g, c, i, e, at, pick), stop)
  {
  }

  lemma FailLockBook(g: Shared, c: Cpu, i: nat, e: nat, at: GoPc, pick: bool, stop: Stopper)
    requires Turn(g, c, i, e, Go(at), stop)
    requires at.FailLock? || at.FailState?
    ensures BookKept(LaunchNext(g, c, i, e, at, pick), stop)
  {
  }

  lemma FailBook(g: Shared, c: Cpu, i: nat, e: nat, at: GoPc, pick: bool, stop: Stopper)
    requires Turn(g, c, i, e, Go(at), stop)
    requires at.Fail? && at.m.stage == Exchange
    ensures BookKept(LaunchNext(g, c, i, e, at, pick), stop)
  {
  }

  lemma FailMaskBook(g: Shared, c: Cpu, i: nat, e: nat, at: GoPc, pick: bool, stop: Stopper)
    requires Turn(g, c, i, e, Go(at), stop)
    requires at.Fail? && at.m.stage != Exchange
    ensures BookKept(LaunchNext(g, c, i, e, at, pick), stop)
  {
  }

  lemma LetBook(g: Shared, c: Cpu, i: nat, e: nat, at: GoPc, pick: bool, stop: Stopper)
    requires Turn(g, c, i, e, Go(at), stop)
    requires at.LetState? || at.LetQualified? || at.LetGo?
    ensures BookKept(LaunchNext(g, c, i, e, at, pick), stop)
  {
  }

  lemma SeeBook(g: Shared, c: Cpu, i: nat, e: nat, at: GoPc, pick: bool, stop: Stopper)
    requires Turn(g, c, i, e, Go(at), stop)
    requires at.SeeState? || at.SeeQualified?
    ensures BookKept(LaunchNext(g, c, i, e, at, pick), stop)
  {
  }

  /** Any step of Off. */
  lemma DrainBook(g: Shared, c: Cpu, i: nat, e: nat, at: OffPc, pick: bool, stop: Stopper)
    requires Turn(g, c, i, e, Off(at), stop)
    ensures BookKept(DrainNext(g, c, i, e, at, pick), stop)
  {
    hide Turn, BookKept;
    if at.OffEpoch? || at.OffTerminal? || at.OffLock? {
      OffBook(g, c, i, e, at, pick, stop);
    } else if at.OffReceipt? {
      OffReceiptBook(g, c, i, e, at, pick, stop);
    } else if at.OffState? || at.OffInstalled? || at.OffRefused? || at.OffUnlock? {
      OffHeldBook(g, c, i, e, at, pick, stop);
    } else if at.OffMigrate? || at.OffIrq? {
      OffMigrateBook(g, c, i, e, at, pick, stop);
    } else if at.OffRequest? || at.OffWait? {
      OffWaitBook(g, c, i, e, at, pick, stop);
    } else if at.OffReset? && at.k < 4 {
      ResetBook(g, c, i, e, at, pick, stop);
    } else if at.OffReset? {
      ResetLateBook(g, c, i, e, at, pick, stop);
    } else if at.OffBegin? && at.m.stage == Exchange {
      BeginBook(g, c, i, e, at, pick, stop);
    } else {
      BeginMaskBook(g, c, i, e, at, pick, stop);
    }
  }

  lemma DrainLocks(g: Shared, c: Cpu, i: nat, e: nat, at: OffPc, pick: bool)
    requires g.ctl == Busy(i, e, Off(at)) && CtlInv(g)
    ensures CtlStepped(g, DrainNext(g, c, i, e, at, pick).g, i)
  {
  }

  lemma DrainGentle(g: Shared, c: Cpu, i: nat, e: nat, at: OffPc, pick: bool)
    requires RuntimePc(Off(at)) ==> !ApRuntime(c.ap)
    requires Movable(Off(at))
    ensures Gentle(c, DrainNext(g, c, i, e, at, pick).c)
  {
  }

  /** Any step of Take. */
  lemma WithdrawBook(g: Shared, c: Cpu, w: Wire, i: nat, e: nat, at: TakePc, pick: bool, stop: Stopper)
    requires Turn(g, c, i, e, Take(at), stop)
    ensures BookKept(WithdrawNext(g, c, w, i, e, at, pick), stop)
  {
    hide Turn, BookKept;
    if at.OffMove? || at.OffTables? || at.OffGiveUp? {
      TablesBook(g, c, w, i, e, at, pick, stop);
    } else if at.OffGen? || at.OffTablesDone? {
      TablesDoneBook(g, c, w, i, e, at, pick, stop);
    } else if at.OffLoad? && at.k < 3 {
      LoadBook(g, c, w, i, e, at, pick, stop);
    } else if at.OffLoad? && at.k < 6 {
      LoadTargetBook(g, c, w, i, e, at, pick, stop);
    } else if at.OffLoad? {
      LeaveBook(g, c, w, i, e, at, pick, stop);
    } else if at.OffWithdrawn? || at.OffStopReq? {
      RecordBook(g, c, w, i, e, at, pick, stop);
    } else if at.OffArm? && at.k < 2 {
      ArmBook(g, c, w, i, e, at, pick, stop);
    } else if at.OffArm? {
      ArmedBook(g, c, w, i, e, at, pick, stop);
    } else if at.OffConfirm? && !ReceiptLoad(c.b, e, at.k) {
      RefuteBook(g, c, w, i, e, at, pick, stop);
    } else if at.OffConfirm? && ReceiptLoad(c.b, e, at.k) {
      ConfirmBook(g, c, w, i, e, at, pick, stop);
    } else {
      RetireBook(g, c, w, i, e, at, pick, stop);
    }
  }

  lemma WithdrawLocks(g: Shared, c: Cpu, w: Wire, i: nat, e: nat, at: TakePc, pick: bool)
    requires g.ctl == Busy(i, e, Take(at)) && CtlInv(g)
    ensures CtlStepped(g, WithdrawNext(g, c, w, i, e, at, pick).g, i)
  {
  }

  lemma WithdrawGentle(g: Shared, c: Cpu, w: Wire, i: nat, e: nat, at: TakePc, pick: bool)
    requires RuntimePc(Take(at)) ==> !ApRuntime(c.ap)
    requires Movable(Take(at))
    requires !(at.OffLoad? && at.k > 6) && (at.OffArm? && c.b.state == Parked ==> !ApRuntime(c.ap))
    ensures Gentle(c, WithdrawNext(g, c, w, i, e, at, pick).c)
  {
  }

  /** Any step of Can. */
  lemma UndoBook(g: Shared, c: Cpu, i: nat, e: nat, at: CanPc, pick: bool, stop: Stopper)
    requires Turn(g, c, i, e, Can(at), stop)
    ensures BookKept(UndoNext(g, c, i, e, at, pick), stop)
  {
    hide Turn, BookKept;
    if at.CanLock? || at.CanWithdrawn? || at.CanState? || at.CanParked? || at.CanUnlock? || at.CanWait? {
      CanBook(g, c, i, e, at, pick, stop);
    } else if at.CanResume? && at.m.stage == Exchange {
      UndrainBook(g, c, i, e, at, pick, stop);
    } else if at.CanResume? && at.m.stage != Exchange {
      UndrainMaskBook(g, c, i, e, at, pick, stop);
    } else {
      StoreBook(g, c, i, e, at, pick, stop);
    }
  }

  lemma UndoLocks(g: Shared, c: Cpu, i: nat, e: nat, at: CanPc, pick: bool)
    requires g.ctl == Busy(i, e, Can(at)) && CtlInv(g)
    ensures CtlStepped(g, UndoNext(g, c, i, e, at, pick).g, i)
  {
  }

  lemma UndoGentle(g: Shared, c: Cpu, i: nat, e: nat, at: CanPc, pick: bool)
    requires RuntimePc(Can(at)) ==> !ApRuntime(c.ap)
    requires Movable(Can(at))
    ensures Gentle(c, UndoNext(g, c, i, e, at, pick).c)
  {
  }

  /** Any step of On. */
  lemma RestartBook(g: Shared, c: Cpu, i: nat, e: nat, at: OnPc, pick: bool, stop: Stopper)
    requires Turn(g, c, i, e, On(at), stop)
    ensures BookKept(RestartNext(g, c, i, e, at, pick), stop)
  {
    hide Turn, BookKept;
    if at.OnEpoch? || at.OnTerminal? || at.OnCurrent? {
      OnBook(g, c, i, e, at, pick, stop);
    } else if at.OnReceipt? {
      OnReceiptBook(g, c, i, e, at, pick, stop);
    } else if at.OnTables? || at.OnTablesDone? {
      OnTablesBook(g, c, i, e, at, pick, stop);
    } else if at.OnRearm? || at.OnAck? {
      OnRearmBook(g, c, i, e, at, pick, stop);
    } else if at.OnAdmit? && at.k < 3 {
      AdmitBook(g, c, i, e, at, pick, stop);
    } else if at.OnAdmit? && 3 <= at.k < 5 {
      AdmitClaimBook(g, c, i, e, at, pick, stop);
    } else if at.OnAdmit? && at.k >= 5 {
      AdmitStoreBook(g, c, i, e, at, pick, stop);
    } else if at.OnTopology? && at.k <= 1 {
      TopologyLoadBook(g, c, i, e, at, pick, stop);
    } else if at.OnTopology? && at.k > 1 {
      TopologyBook(g, c, i, e, at, pick, stop);
    } else if at.OnRelease? || at.OnSlotEpoch? || at.OnSlotLock? {
      OnSlotBook(g, c, i, e, at, pick, stop);
    } else if at.OnSlot? && at.m.stage == Exchange {
      SlotBook(g, c, i, e, at, pick, stop);
    } else {
      SlotMaskBook(g, c, i, e, at, pick, stop);
    }
  }

  lemma RestartTablesLocks(g: Shared, c: Cpu, i: nat, e: nat, at: OnPc, pick: bool)
    requires g.ctl == Busy(i, e, On(at)) && CtlInv(g)
    requires at.OnTables? || at.OnTablesDone? || at.OnSlotLock? || at.OnSlot?
    ensures CtlStepped(g, RestartNext(g, c, i, e, at, pick).g, i)
  {
  }

  lemma RestartOtherLocks(g: Shared, c: Cpu, i: nat, e: nat, at: OnPc, pick: bool)
    requires g.ctl == Busy(i, e, On(at)) && CtlInv(g)
    requires !at.OnTables? && !at.OnTablesDone? && !at.OnSlotLock? && !at.OnSlot?
    ensures CtlStepped(g, RestartNext(g, c, i, e, at, pick).g, i)
  {
  }

  lemma RestartLocks(g: Shared, c: Cpu, i: nat, e: nat, at: OnPc, pick: bool)
    requires g.ctl == Busy(i, e, On(at)) && CtlInv(g)
    ensures CtlStepped(g, RestartNext(g, c, i, e, at, pick).g, i)
  {
    hide *;
    if at.OnTables? || at.OnTablesDone? || at.OnSlotLock? || at.OnSlot? {
      RestartTablesLocks(g, c, i, e, at, pick);
    } else {
      RestartOtherLocks(g, c, i, e, at, pick);
    }
  }

  lemma RestartGentle(g: Shared, c: Cpu, i: nat, e: nat, at: OnPc, pick: bool)
    requires RuntimePc(On(at)) ==> !ApRuntime(c.ap)
    requires Movable(On(at))
    requires !(at.OnTopology? && at.k > 1)
    ensures Gentle(c, RestartNext(g, c, i, e, at, pick).c)
  {
  }

  /** Any step of Go. */
  lemma LaunchBook(g: Shared, c: Cpu, i: nat, e: nat, at: GoPc, pick: bool, stop: Stopper)
    requires Turn(g, c, i, e, Go(at), stop)
    ensures BookKept(LaunchNext(g, c, i, e, at, pick), stop)
  {
    hide Turn, BookKept;
    if at.BootAdmit? && at.k == 0 {
      BootBook(g, c, i, e, at, pick, stop);
    } else if at.BootAdmit? && at.k > 0 {
      BootStoreBook(g, c, i, e, at, pick, stop);
    } else if at.RunLock? {
      RunLockBook(g, c, i, e, at, pick, stop);
    } else if at.Run? && at.m.stage == Exchange {
      RunBook(g, c, i, e, at, pick, stop);
    } else if at.Run? && at.m.stage != Exchange {
      RunMaskBook(g, c, i, e, at, pick, stop);
    } else if at.RunSipi? {
      SipiBook(g, c, i, e, at, pick, stop);
    } else if at.RunAwait? || at.RunQualified? || at.QualLock? {
      AwaitBook(g, c, i, e, at, pick, stop);
    } else if at.Qual? && at.m.stage == Exchange {
      QualBook(g, c, i, e, at, pick, stop);
    } else if at.Qual? && at.m.stage != Exchange {
      QualMaskBook(g, c, i, e, at, pick, stop);
    } else if at.RunRelease? || at.RunOnline? {
      ReleaseBook(g, c, i, e, at, pick, stop);
    } else if at.FailLock? || at.FailState? {
      FailLockBook(g, c, i, e, at, pick, stop);
    } else if at.Fail? && at.m.stage == Exchange {
      FailBook(g, c, i, e, at, pick, stop);
    } else if at.LetState? || at.LetQualified? || at.LetGo? {
      LetBook(g, c, i, e, at, pick, stop);
    } else if at.SeeState? || at.SeeQualified? {
      SeeBook(g, c, i, e, at, pick, stop);
    } else {
      FailMaskBook(g, c, i, e, at, pick, stop);
    }
  }

  lemma LaunchLocks(g: Shared, c: Cpu, i: nat, e: nat, at: GoPc, pick: bool)
    requires g.ctl == Busy(i, e, Go(at)) && CtlInv(g)
    ensures CtlStepped(g, LaunchNext(g, c, i, e, at, pick).g, i)
  {
  }

  lemma LaunchGentle(g: Shared, c: Cpu, i: nat, e: nat, at: GoPc, pick: bool)
    requires RuntimePc(Go(at)) ==> !ApRuntime(c.ap)
    requires Movable(Go(at))
    requires !at.RunSipi?
    ensures Gentle(c, LaunchNext(g, c, i, e, at, pick).c)
  {
  }
}
