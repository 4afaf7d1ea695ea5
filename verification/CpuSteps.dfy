/** The steps of the three kinds of threads.  Each function performs one access to shared
    memory; `pick` decides what the model leaves open (a timeout, a refused foreign call). A
    thread that waits for a mutex does not change the state. */
module CpuSteps {
  import opened CpuState

  /** The interrupt-free continuation of a live CPU executes instructions. */
  predicate Live(ap: Ap) {
    ap != Halted
  }

  /** transition_held, one access at a time. */
  function MoveCpu(c: Cpu, m: Move): Cpu {
    match m.stage
    case Exchange => if c.b.state == m.from then c.(b := c.b.(state := m.to)) else c
    case JoinMask => c.(b := c.b.(member := true))
    case ScheduleMask => c.(b := c.b.(sched := true))
    case UnscheduleMask => c.(b := c.b.(sched := false))
    case LeaveMask => c.(b := c.b.(member := false))
    case Settled(_) => c
  }

  function MoveNext(c: Cpu, m: Move): Move {
    match m.stage
    case Exchange =>
      m.(stage := if c.b.state != m.from then Settled(false)
                  else if m.to == Online then JoinMask else UnscheduleMask)
    case JoinMask => m.(stage := ScheduleMask)
    case ScheduleMask => m.(stage := Settled(true))
    case UnscheduleMask => m.(stage := if m.to == Terminal || m.to == Failed then LeaveMask else Settled(true))
    case LeaveMask => m.(stage := Settled(true))
    case Settled(_) => m
  }

  function Starts(from: Life, to: Life): Move
    requires Allowed(from, to)
  {
    Move(from, to, Exchange)
  }

  function FlushAll(c: Cpu): Cpu {
    c.(tlb := map[], flushed := true)
  }

  function EntryAt(g: Shared, c: Cpu, e: nat, at: EntryPc): Local { Local(g, c.(ap := Entering(e, at))) }
  function WorkAt(g: Shared, c: Cpu, e: nat, at: WorkPc): Local { Local(g, c.(ap := Working(e, at))) }
  function PollAt(g: Shared, c: Cpu, e: nat, armed: bool, at: PollPc): Local {
    Local(g, c.(ap := Polling(e, armed, at)))
  }
  function CancelAt(g: Shared, c: Cpu, e: nat, armed: bool, at: CancelPc): Local {
    Local(g, c.(ap := Cancelling(e, armed, at)))
  }

  /** r4os_ap_entry: qualification of the new execution epoch. */
  function EntryNext(g: Shared, i: nat, c: Cpu, e: nat, at: EntryPc, pick: bool): Local {
    var halt := Local(g, c.(ap := Halted));
    match at
    case Begin => EntryAt(g, c, e, if c.b.phase == 1 && c.b.admitted == e && pick then Install else Reject(0))
    case Install => Local(g, c.(b := c.b.(installed := e), ap := Entering(e, EntryFlush)))
    case EntryFlush => Local(g, FlushAll(c).(ap := Entering(e, EntryState)))
    case EntryState => if c.b.state != Starting then halt else EntryAt(g, c, e, if pick then Qualify else Reject(0))
    case Reject(k) =>
      if k == 0 then (if c.b.phase == 1 then EntryAt(g, c, e, Reject(1)) else halt)
      else if k == 1 then (if c.b.admitted == e then EntryAt(g, c, e, Reject(2)) else halt)
      else Local(g, c.(b := c.b.(phase := 3), ap := Halted))
    case Qualify =>
      if c.b.admitted == e && c.b.phase == 1 then
        Local(g, c.(b := c.b.(phase := 2), ap := Entering(e, if pick then EnterLock else GiveUpLock)))
      else halt
    case GiveUpLock =>
      if g.runtime == Free then Local(g.(runtime := ByAp(i)), c.(ap := Entering(e, GiveUpState))) else Local(g, c)
    case GiveUpState =>
      if Allowed(c.b.state, Failed) then EntryAt(g, c, e, GiveUp(Starts(c.b.state, Failed)))
      else Local(g.(runtime := Free), c.(ap := Halted))
    case GiveUp(m) =>
      if m.stage.Settled? then Local(g.(runtime := Free), c.(ap := Halted))
      else Local(g, MoveCpu(c, m).(ap := Entering(e, GiveUp(MoveNext(c, m)))))
    case EnterLock =>
      if g.runtime == Free then Local(g.(runtime := ByAp(i)), c.(ap := Entering(e, Enter(Starts(Starting, Entered)))))
      else Local(g, c)
    case Enter(m) =>
      if m.stage.Settled? then
        Local(g.(runtime := Free), c.(ap := if m.stage.ok then Entering(e, AwaitRelease) else Halted))
      else Local(g, MoveCpu(c, m).(ap := Entering(e, Enter(MoveNext(c, m)))))
    case AwaitRelease =>
      if c.release == e then EntryAt(g, c, e, EntryQualified)
      else if pick then EntryAt(g, c, e, AwaitRelease) else halt
    case EntryQualified => if c.b.state == Qualified then EntryAt(g, c, e, EntryAdmitted) else halt
    case EntryAdmitted =>
      if c.b.phase != 2 || c.b.admitted != e then halt else EntryAt(g, c, e, if pick then JoinLoop(0) else GiveUpLock)
    case _ => JoinNext(g, i, c, e, at, pick)
  }

  /** publish_online: the full flush and the grant happen under both mutexes. */
  function JoinNext(g: Shared, i: nat, c: Cpu, e: nat, at: EntryPc, pick: bool): Local {
    var halt := Local(g, c.(ap := Halted));
    match at
    case JoinLoop(k) =>
      if k == 0 then (if c.b.state == Qualified then EntryAt(g, c, e, JoinLoop(1)) else halt)
      else if k == 1 then (if c.b.epoch == e then EntryAt(g, c, e, JoinLoop(2)) else halt)
      else if !g.terminal && pick then EntryAt(g, c, e, JoinRuntime) else halt
    case JoinRuntime =>
      if g.runtime == Free then Local(g.(runtime := ByAp(i)), c.(ap := Entering(e, JoinTables)))
      else EntryAt(g, c, e, JoinLoop(0))
    case JoinTables =>
      if g.tables == Free then Local(g.(tables := ByAp(i)), c.(ap := Entering(e, JoinState)))
      else EntryAt(g, c, e, JoinBack)
    case JoinBack => Local(g.(runtime := Free), c.(ap := Entering(e, JoinLoop(0))))
    case JoinState => EntryAt(g, c, e, if c.b.state == Qualified then JoinEpoch else JoinRefuse)
    case JoinEpoch => EntryAt(g, c, e, if c.b.epoch == e then JoinFlush else JoinRefuse)
    case JoinFlush => Local(g, FlushAll(c).(ap := Entering(e, JoinExchange)))
    case JoinExchange =>
      var m := Starts(Qualified, Online);
      var next := MoveNext(c, m);
      Local(g, MoveCpu(c, m).(ap := if next.stage.Settled? then Entering(e, JoinRefuse)
          else Granted(e, GrantMask(next))))
    case JoinRefuse => Local(g.(tables := Free), c.(ap := Entering(e, JoinRefuseRuntime)))
    case JoinRefuseRuntime => Local(g.(runtime := Free), c.(ap := Halted))
    case _ => Local(g, c)
  }

  function GrantNext(g: Shared, c: Cpu, e: nat, at: GrantPc): Local {
    match at
    case GrantMask(m) =>
      if m.stage.Settled? then Local(g, c.(ap := Granted(e, GrantTables)))
      else Local(g, MoveCpu(c, m).(ap := Granted(e, GrantMask(MoveNext(c, m)))))
    case GrantTables => Local(g.(tables := Free), c.(ap := Granted(e, GrantRuntime)))
    case GrantRuntime => Local(g.(runtime := Free), c.(ap := Working(e, Running)))
  }

  /** The scheduler loop, the terminal stop vector and an idle checkpoint up to its park. */
  function WorkNext(g: Shared, i: nat, c: Cpu, e: nat, at: WorkPc, pick: bool): Local {
    match at
    case Running =>
      if g.terminal && pick then WorkAt(g, c, e, StopIpiLock)
      else WorkAt(g, c, e, if c.b.state == Draining then IdleInstalled else Running)
    case StopIpiLock =>
      if g.runtime == Free then Local(g.(runtime := ByAp(i)), c.(ap := Working(e, StopIpi))) else Local(g, c)
    case StopIpi =>
      var m := Starts(TerminalPending, Terminal);
      var next := MoveNext(c, m);
      Local(g, MoveCpu(c, m).(ap := if next.stage.Settled? then Working(e, IdleUnlock) else Dying(e, next)))
    case IdleInstalled =>
      Local(g, c.(ap := if c.b.installed != 0 then Working(c.b.installed, IdleDrain) else Working(e, Running)))
    case IdleDrain => WorkAt(g, c, e, if c.b.drain == e then IdleIrq else Running)
    case IdleIrq => WorkAt(g, c, e, if c.b.irq == e then IdleEpoch else Running)
    case IdleEpoch => WorkAt(g, c, e, if c.b.epoch == e && pick then IdleLock else Running)
    case IdleLock =>
      if g.runtime == Free then Local(g.(runtime := ByAp(i)), c.(ap := Working(e, IdleState))) else Local(g, c)
    case IdleState => WorkAt(g, c, e, if c.b.state == Draining then IdleIrqAgain else IdleUnlock)
    case IdleIrqAgain => WorkAt(g, c, e, if c.b.irq == e then IdleReceipt else IdleUnlock)
    case IdleReceipt => WorkAt(g, c, e, if pick then IdleExchange else IdleUnlock)
    case IdleExchange =>
      var m := Starts(Draining, Parked);
      var next := MoveNext(c, m);
      Local(g, MoveCpu(c, m).(ap := if next.stage.Settled? then Working(e, IdleUnlock) else Parking(e, ParkMask(next))))
    case IdleUnlock => Local(g.(runtime := Free), c.(ap := Working(e, Running)))
  }

  /** The mask updates of a running CPU that stops for good. */
  function DyingNext(g: Shared, c: Cpu, e: nat, m: Move): Local {
    if m.stage.Settled? then Local(g.(runtime := Free), c.(ap := Halted))
    else Local(g, MoveCpu(c, m).(ap := Dying(e, MoveNext(c, m))))
  }

  /** The park: flush, then record the parked epoch.  A stopped timer without a clean FPU state
      is kept for a later resume, with the park unrecorded. */
  function ParkNext(g: Shared, c: Cpu, e: nat, at: ParkPc, pick: bool): Local {
    match at
    case ParkMask(m) =>
      if m.stage.Settled? then Local(g, c.(ap := Parking(e, ParkUnlock)))
      else Local(g, MoveCpu(c, m).(ap := Parking(e, ParkMask(MoveNext(c, m)))))
    case ParkUnlock =>
      Local(g.(runtime := Free), c.(ap := if pick then Parking(e, ParkFlush) else Polling(e, false, Poll)))
    case ParkFlush =>
      if pick then Local(g, FlushAll(c).(ap := Parking(e, ParkStore))) else Local(g, c.(ap := Polling(e, true, Poll)))
    case ParkStore => Local(g, c.(b := c.b.(parked := e), ap := Polling(e, true, Poll)))
  }

  /** The poll loop: a terminal stop, an authenticated logical stop, or a cancel request. */
  function PollNext(g: Shared, c: Cpu, e: nat, armed: bool, at: PollPc): Local {
    match at
    case Poll => PollAt(g, c, e, armed, if g.terminal then TermFlush else StopLoad(0))
    case TermFlush => Local(g, FlushAll(c).(ap := Polling(e, armed, TermState)))
    case TermState =>
      var leaves := c.b.state == Parked || c.b.state == StopPending || c.b.state == TerminalPending;
      PollAt(g, c, e, armed, if leaves then TermSched(c.b.state) else StopLoad(0))
    case TermSched(seen) => Local(g, c.(b := c.b.(sched := false), ap := Polling(e, armed, TermLeave(seen))))
    case TermLeave(seen) => Local(g, c.(b := c.b.(member := false), ap := Leaving(e, armed, seen)))
    case StopLoad(k) =>
      var hit := match k
        case 0 => c.b.state == StopPending
        case 1 => c.b.stopReq == e
        case 2 => c.b.withdrawn == e
        case 3 => c.b.parked == e
        case 4 => c.b.installed == e
        case 5 => c.b.epoch == e
        case _ => !c.b.member;
      PollAt(g, c, e, armed, if !hit then CancelLoad else if k < 6 then StopLoad(k + 1) else StopFlush)
    case StopFlush => Local(g, FlushAll(c).(ap := Polling(e, armed, StopConfirm(0))))
    case StopConfirm(k) =>
      if k == 0 then PollAt(g, c, e, armed, if !c.b.sched then StopConfirm(1) else CancelLoad)
      else if k == 1 then PollAt(g, c, e, armed, if !c.b.member then StopConfirm(2) else CancelLoad)
      else if c.b.state == StopPending then Local(g, c.(b := c.b.(state := Offline), ap := Ap.Stopped(e)))
      else PollAt(g, c, e, armed, CancelLoad)
    case CancelLoad =>
      Local(g, c.(ap := if c.b.cancel == e then Cancelling(e, armed, CancelWithdrawn) else Polling(e, armed, Poll)))
  }

  /** The last exchange of a terminal stop. */
  function LeaveNext(g: Shared, c: Cpu, e: nat, armed: bool, seen: Life): Local {
    if c.b.state == seen then Local(g, c.(b := c.b.(state := Terminal), ap := Halted))
    else Local(g, c.(ap := Polling(e, armed, StopLoad(0))))
  }

  /** A cancelled park goes back to Online only under the Runtime owner and while still a member. */
  function CancelNext(g: Shared, i: nat, c: Cpu, e: nat, armed: bool, at: CancelPc, pick: bool): Local {
    match at
    case CancelWithdrawn =>
      if c.b.withdrawn != e then CancelAt(g, c, e, armed, ResumeTry)
      else Local(g, c.(ap := Polling(e, armed, Poll)))
    case ResumeTry =>
      if g.runtime == Free then
        Local(g.(runtime := ByAp(i)), c.(ap := Cancelling(e, armed, if armed then ResumeFlush else ResumeAbort)))
      else Local(g, c.(ap := Polling(e, armed, Poll)))
    case ResumeFlush => Local(g, FlushAll(c).(ap := Cancelling(e, armed, if pick then ResumeMember else ResumeAbort)))
    case ResumeMember => CancelAt(g, c, e, armed, if c.b.member then ResumeState else ResumeAbort)
    case ResumeState => CancelAt(g, c, e, armed, if c.b.state == Draining || c.b.state == Parked then ResumeFrom
      else ResumeAbort)
    case ResumeFrom => CancelAt(g, c, e, armed, if Allowed(c.b.state, Online) then ResumeExchange(c.b.state)
      else ResumeAbort)
    case ResumeExchange(from) =>
      var m := Move(from, Online, Exchange);
      var next := MoveNext(c, m);
      Local(g, MoveCpu(c, m).(ap := if next.stage.Settled? then Cancelling(e, armed, ResumeAbort)
          else Returning(e, ResumeMask(next))))
    case ResumeAbort => Local(g.(runtime := Free), c.(ap := Polling(e, false, Poll)))
  }

  function ReturnNext(g: Shared, c: Cpu, e: nat, at: ReturnPc): Local {
    match at
    case ResumeMask(m) =>
      if m.stage.Settled? then Local(g, c.(ap := Returning(e, ResumeClearCancel)))
      else Local(g, MoveCpu(c, m).(ap := Returning(e, ResumeMask(MoveNext(c, m)))))
    case ResumeClearCancel => Local(g, c.(b := c.b.(cancel := 0), ap := Returning(e, ResumeClearDrain)))
    case ResumeClearDrain => Local(g, c.(b := c.b.(drain := 0), ap := Returning(e, ResumeUnlock)))
    case ResumeUnlock => Local(g.(runtime := Free), c.(ap := Working(e, Running)))
  }

  /** One step of the AP on slot i. */
  function ApNext(g: Shared, i: nat, c: Cpu, pick: bool): Local {
    match c.ap
    case Bsp => Local(g, c)
    case Halted => Local(g, c)
    case Entering(e, at) => EntryNext(g, i, c, e, at, pick)
    case Granted(e, at) => GrantNext(g, c, e, at)
    case Working(e, at) => WorkNext(g, i, c, e, at, pick)
    case Dying(e, m) => DyingNext(g, c, e, m)
    case Parking(e, at) => ParkNext(g, c, e, at, pick)
    case Polling(e, armed, at) => PollNext(g, c, e, armed, at)
    case Leaving(e, armed, seen) => LeaveNext(g, c, e, armed, seen)
    case Stopped(e) => Local(g, c.(b := c.b.(stopped := e), ap := Halted))
    case Cancelling(e, armed, at) => CancelNext(g, i, c, e, armed, at, pick)
    case Returning(e, at) => ReturnNext(g, c, e, at)
  }

  /** Offline up to the request that makes the AP park. */
  function DrainNext(g: Shared, c: Cpu, i: nat, e: nat, at: OffPc, pick: bool): Local {
    var idle := g.(ctl := Idle);
    match at
    case OffEpoch =>
      if e != 0 && c.b.epoch == e then Local(g.(ctl := Busy(i, e, Off(OffTerminal))), c)
      else Local(idle, c)
    case OffTerminal => if !g.terminal then Local(g.(ctl := Busy(i, e, Off(OffReceipt(0)))), c) else Local(idle, c)
    case OffReceipt(k) =>
      if !ReceiptLoad(c.b, e, k) then Local(g.(ctl := Busy(i, e, Off(OffLock))), c)
      else if k < RECEIPT then Local(g.(ctl := Busy(i, e, Off(OffReceipt(k + 1)))), c)
      else Local(idle, c)
    case OffLock =>
      if g.runtime == Free then Local(g.(runtime := ByController, ctl := Busy(i, e, Off(OffState))), c) else Local(g, c)
    case OffState => Local(g.(ctl := if c.b.state == Online then Busy(i, e, Off(OffInstalled))
      else Busy(i, e, Off(OffRefused))), c)
    case OffInstalled =>
      Local(g.(ctl := if c.b.installed == e && pick then Busy(i, e, Off(OffReset(0))) else Busy(i, e, Off(OffRefused))),
          c)
    case OffReset(k) =>
      var next := if k < 6 then Busy(i, e, Off(OffReset(k + 1))) else Busy(i, e, Off(OffDrain));
      Local(g.(ctl := next),
            match k
            case 0 => c.(b := c.b.(cancel := 0))
            case 1 => c.(b := c.b.(parked := 0))
            case 2 => c.(b := c.b.(withdrawn := 0))
            case 3 => c.(b := c.b.(stopReq := 0))
            case 4 => c.(b := c.b.(stopped := 0))
            case 5 => c.(b := c.b.(retired := 0))
            case _ => c.(b := c.b.(irq := 0)))
    case OffDrain => Local(g.(ctl := Busy(i, e, Off(OffBegin(Starts(Online, Draining))))), c.(b := c.b.(drain := e)))
    case OffBegin(m) =>
      if m.stage.Settled? then Local(g.(ctl := if m.stage.ok then Busy(i, e, Off(OffUnlock))
        else Busy(i, e, Off(OffRefused))), c)
      else Local(g.(ctl := Busy(i, e, Off(OffBegin(MoveNext(c, m))))), MoveCpu(c, m))
    case OffRefused => Local(idle.(runtime := Free), c)
    case OffUnlock => Local(g.(runtime := Free, ctl := Busy(i, e, Off(OffMigrate))), c)
    case OffMigrate => Local(g.(ctl := if pick then Busy(i, e, Off(OffIrq)) else Busy(i, e, Can(CanLock))), c)
    case OffIrq => Local(g.(ctl := Busy(i, e, Off(OffRequest))), c.(b := c.b.(irq := e)))
    case OffRequest => Local(g.(ctl := if pick then Busy(i, e, Off(OffWait)) else Busy(i, e, Can(CanLock))), c)
    case OffWait =>
      Local(g.(ctl := if !pick then Busy(i, e, Can(CanLock)) else if c.b.parked == e then Busy(i, e, Take(OffMove))
          else Busy(i, e, Off(OffWait))), c)
  }

  /** Offline from the recorded park to the retired record. */
  function WithdrawNext(g: Shared, c: Cpu, w: Wire, i: nat, e: nat, at: TakePc, pick: bool): Local {
    var idle := g.(ctl := Idle);
    match at
    case OffMove => Local(g.(ctl := if pick then Busy(i, e, Take(OffTables)) else Busy(i, e, Can(CanLock))), c)
    case OffTables =>
      if g.tables == Free then Local(g.(tables := ByController, ctl := Busy(i, e, Take(OffLoad(0, 0, false)))), c)
      else Local(g.(ctl := Busy(i, e, Can(CanLock))), c)
    case OffLoad(k, gen, hit) =>
      var fail := g.(ctl := Busy(i, e, Take(OffGiveUp)));
      var next := g.(ctl := Busy(i, e, Take(OffLoad(k + 1, gen, hit))));
      (match k
       case 0 => Local(if !w.diag then next else fail, c)
       case 1 => Local(if c.b.epoch == e then next else fail, c)
       case 2 => Local(g.(ctl := Busy(i, e, Take(OffLoad(3, w.reqGen, hit)))), c)
       case 3 => Local(g.(ctl := Busy(i, e, Take(OffLoad(4, gen, i in w.reqTarget)))), c)
       case 4 => Local(if !hit || c.ack == gen then next else fail, c)
       case 5 => Local(if c.b.state == Parked then next else fail, c)
       case 6 => Local(if !c.b.sched then next else fail, c)
       case _ => Local(if c.b.member then g.(ctl := Busy(i, e, Take(OffGen(gen))))
         else fail, c.(b := c.b.(member := false), flushed := false)))
    case OffGiveUp =>
      if pick then Local(g.(ctl := Busy(i, e, Take(OffLoad(0, 0, false)))), c)
      else Local(g.(tables := Free, ctl := Busy(i, e, Can(CanLock))), c)
    case OffGen(gen) => Local(g.(ctl := Busy(i, e, Take(OffWithdrawn))), c.(tlbGen := gen))
    case OffWithdrawn => Local(g.(ctl := Busy(i, e, Take(OffTablesDone))), c.(b := c.b.(withdrawn := e)))
    case OffTablesDone => Local(g.(tables := Free, ctl := Busy(i, e, Take(OffStopReq))), c)
    case OffStopReq => Local(g.(ctl := Busy(i, e, Take(OffArm(0)))), c.(b := c.b.(stopReq := e)))
    case OffArm(k) =>
      if k == 0 then Local(if !c.b.sched then g.(ctl := Busy(i, e, Take(OffArm(1)))) else idle, c)
      else if k == 1 then Local(if !c.b.member then g.(ctl := Busy(i, e, Take(OffArm(2)))) else idle, c)
      else if c.b.state == Parked then Local(g.(ctl := Busy(i, e, Take(OffAwait))), c.(b := c.b.(state := StopPending)))
      else Local(idle, c)
    case OffAwait => Local(if pick then g.(ctl := Busy(i, e, Take(OffConfirm(0)))) else idle, c)
    case OffConfirm(k) =>
      if !ReceiptLoad(c.b, e, k) then Local(g.(ctl := Busy(i, e, Take(OffAwait))), c)
      else if k + 1 < RECEIPT then Local(g.(ctl := Busy(i, e, Take(OffConfirm(k + 1)))), c)
      else Local(g.(ctl := Busy(i, e, Take(OffRetire))), c)
    case OffRetire => Local(idle, if pick then c.(b := c.b.(retired := e)) else c)
  }

  /** Cancel. */
  function UndoNext(g: Shared, c: Cpu, i: nat, e: nat, at: CanPc, pick: bool): Local {
    var idle := g.(ctl := Idle);
    match at
    case CanLock =>
      if g.runtime == Free then Local(g.(runtime := ByController, ctl := Busy(i, e, Can(CanWithdrawn))), c)
      else Local(g, c)
    case CanWithdrawn => Local(g.(ctl := if c.b.withdrawn == e then Busy(i, e, Can(CanUnlock))
      else Busy(i, e, Can(CanState))), c)
    case CanState =>
      Local(g.(ctl := if c.b.state == Draining then Busy(i, e, Can(CanResume(Starts(Draining, Online))))
          else Busy(i, e, Can(CanParked))), c)
    case CanResume(m) =>
      if m.stage.Settled? then Local(g.(ctl := if m.stage.ok then Busy(i, e, Can(CanDrain))
        else Busy(i, e, Can(CanParked))), c)
      else Local(g.(ctl := Busy(i, e, Can(CanResume(MoveNext(c, m))))), MoveCpu(c, m))
    case CanDrain => Local(g.(ctl := Busy(i, e, Can(CanUnlock))), c.(b := c.b.(drain := 0)))
    case CanParked => Local(g.(ctl := if c.b.state == Parked then Busy(i, e, Can(CanStore))
      else Busy(i, e, Can(CanUnlock))), c)
    case CanStore => Local(g.(ctl := Busy(i, e, Can(CanUnlock))), c.(b := c.b.(cancel := e)))
    case CanUnlock => Local(g.(runtime := Free, ctl := Busy(i, e, Can(CanWait))), c)
    case CanWait => Local(if pick then idle else g, c)
  }

  /** Online and restart up to the launch. */
  function RestartNext(g: Shared, c: Cpu, i: nat, e: nat, at: OnPc, pick: bool): Local {
    var idle := g.(ctl := Idle);
    match at
    case OnEpoch => if e != 0 && c.b.epoch == e then Local(g.(ctl := Busy(i, e, On(OnTerminal))), c) else Local(idle, c)
    case OnTerminal => if !g.terminal then Local(g.(ctl := Busy(i, e, On(OnReceipt(0)))), c) else Local(idle, c)
    case OnReceipt(k) =>
      if !ReceiptLoad(c.b, e, k) then Local(idle, c)
      else if k < RECEIPT then Local(g.(ctl := Busy(i, e, On(OnReceipt(k + 1)))), c)
      else Local(g.(ctl := Busy(i, e, On(OnCurrent(0)))), c)
    case OnCurrent(k) =>
      if k == 0 then Local(if c.b.state == Offline then g.(ctl := Busy(i, e, On(OnCurrent(1)))) else idle, c)
      else Local(if c.b.epoch == e then g.(ctl := Busy(i, e, On(OnTables))) else idle, c)
    case OnTables =>
      if g.tables == Free then Local(g.(tables := ByController, ctl := Busy(i, e, On(OnRearm(0)))), c)
      else Local(idle, c)
    case OnRearm(k) =>
      var hit := match k
        case 0 => c.b.state == Offline
        case 1 => c.b.epoch == e
        case 2 => c.b.state == Offline
        case _ => !c.b.member;
      Local(g.(ctl := if !hit then Busy(i, e, On(OnTablesDone(false)))
                      else if k < 3 then Busy(i, e, On(OnRearm(k + 1))) else Busy(i, e, On(OnAck))), c)
    case OnAck => Local(g.(ctl := Busy(i, e, On(OnTablesDone(true)))), c.(ack := 0))
    case OnTablesDone(ok) => Local(if ok then g.(tables := Free, ctl := Busy(i, e, On(OnAdmit(0))))
      else idle.(tables := Free), c)
    case OnAdmit(k) =>
      var next := g.(ctl := Busy(i, e, On(OnAdmit(k + 1))));
      (match k
       case 0 => Local(if c.b.state == Offline then next else idle, c)
       case 1 => Local(if c.b.epoch == e then next else idle, c)
       case 2 => Local(if c.b.admitted == e then next else idle, c)
       case 3 => if c.b.phase == 2 then Local(next, c.(b := c.b.(phase := 0))) else Local(idle, c)
       case 4 => Local(if c.b.phase == 0 then next else idle, c)
       case 5 => Local(next, c.(b := c.b.(admitted := e + 1)))
       case _ => Local(g.(ctl := Busy(i, e, On(OnTopology(0)))), c.(b := c.b.(phase := 1))))
    case OnTopology(k) =>
      var next := g.(ctl := Busy(i, e, On(OnTopology(k + 1))));
      (match k
       case 0 => Local(if c.b.state == Offline then next else idle, c)
       case 1 => Local(if c.b.epoch == e then next else idle, c)
       case _ =>
         if c.b.epoch == e then Local(g.(ctl := Busy(i, e + 1, On(OnRelease))), c.(b := c.b.(epoch := e + 1)))
         else Local(idle, c))
    case OnRelease => Local(g.(ctl := Busy(i, e, On(OnSlotEpoch))), c.(release := 0))
    case OnSlotEpoch => Local(if c.b.epoch == e then g.(ctl := Busy(i, e, On(OnSlotLock))) else idle, c)
    case OnSlotLock =>
      if g.runtime == Free then Local(g.(runtime := ByController,
        ctl := Busy(i, e, On(OnSlot(Starts(Offline, Detected))))), c)
      else Local(g, c)
    case OnSlot(m) =>
      if m.stage.Settled? then Local(if m.stage.ok then g.(runtime := Free, ctl := Busy(i, e, Go(RunLock)))
        else idle.(runtime := Free), c)
      else Local(g.(ctl := Busy(i, e, On(OnSlot(MoveNext(c, m))))), MoveCpu(c, m))
  }

  /** The two loads of a qualified admission record. */
  predicate AdmissionLoad(b: Book, e: nat, k: nat) {
    if k == 0 then b.phase == 2 else b.admitted == e
  }

  /** The first admission, launch_secondary, activation and fail_ap. */
  function LaunchNext(g: Shared, c: Cpu, i: nat, e: nat, at: GoPc, pick: bool): Local {
    var idle := g.(ctl := Idle);
    match at
    case BootAdmit(k) =>
      if k == 0 then Local(g.(ctl := if c.b.phase == 0 then Busy(i, e, Go(BootAdmit(1))) else Busy(i, e, Go(FailLock))),
        c)
      else if k == 1 then Local(g.(ctl := Busy(i, e, Go(BootAdmit(2)))), c.(b := c.b.(admitted := e)))
      else Local(g.(ctl := Busy(i, e, Go(RunLock))), c.(b := c.b.(phase := 1)))
    case RunLock =>
      if !pick then Local(g.(ctl := Busy(i, e, Go(FailLock))), c)
      else if g.runtime == Free then Local(g.(runtime := ByController,
        ctl := Busy(i, e, Go(Run(Starts(Detected, Starting))))), c)
      else Local(g, c)
    case Run(m) =>
      if m.stage.Settled? then Local(if m.stage.ok then g.(runtime := Free, ctl := Busy(i, e, Go(RunSipi)))
        else idle.(runtime := Free), c)
      else Local(g.(ctl := Busy(i, e, Go(Run(MoveNext(c, m))))), MoveCpu(c, m))
    case RunSipi =>
      if pick then Local(g.(ctl := Busy(i, e, Go(RunAwait))), c.(ap := Entering(e, Begin)))
      else Local(g.(ctl := Busy(i, e, Go(FailLock))), c)
    case RunAwait =>
      Local(g.(ctl := if !pick then Busy(i, e, Go(FailLock))
          else if c.b.state == Entered then Busy(i, e, Go(RunQualified(0))) else Busy(i, e, Go(RunAwait))), c)
    case RunQualified(k) =>
      var hit := if k < 2 then AdmissionLoad(c.b, e, k) else c.b.state == Entered;
      Local(g.(ctl := if !hit then Busy(i, e, Go(FailLock)) else if k < 2 then Busy(i, e, Go(RunQualified(k + 1)))
          else Busy(i, e, Go(QualLock))), c)
    case QualLock =>
      if !pick then Local(g.(ctl := Busy(i, e, Go(FailLock))), c)
      else if g.runtime == Free then Local(g.(runtime := ByController,
        ctl := Busy(i, e, Go(Qual(Starts(Entered, Qualified))))), c)
      else Local(g, c)
    case Qual(m) =>
      // a first launch leaves the AP qualified, a restart goes on to its release; `pick` says which
      if m.stage.Settled? then
        Local(g.(runtime := Free, ctl := if !m.stage.ok then Busy(i, e, Go(FailLock))
          else if pick then Busy(i, e, Go(RunRelease)) else Idle), c)
      else Local(g.(ctl := Busy(i, e, Go(Qual(MoveNext(c, m))))), MoveCpu(c, m))
    case RunRelease =>
      if pick then Local(g.(ctl := Busy(i, e, Go(RunOnline))), c.(release := e))
      else Local(g.(ctl := Busy(i, e, Go(FailLock))), c)
    case RunOnline =>
      Local(if !pick then g.(ctl := Busy(i, e, Go(FailLock))) else if c.b.state == Online then idle else g, c)
    case FailLock =>
      if g.runtime == Free then Local(g.(runtime := ByController, ctl := Busy(i, e, Go(FailState))), c) else Local(g, c)
    case FailState =>
      if Allowed(c.b.state, Failed) then Local(g.(ctl := Busy(i, e, Go(Fail(Starts(c.b.state, Failed))))), c)
      else Local(idle.(runtime := Free), c)
    case Fail(m) =>
      if m.stage.Settled? then Local(idle.(runtime := Free), c)
      else Local(g.(ctl := Busy(i, e, Go(Fail(MoveNext(c, m))))), MoveCpu(c, m))
    case LetState =>
      Local(if c.b.state == Qualified then g.(ctl := Busy(i, e, Go(LetQualified(0)))) else idle, c)
    case LetQualified(k) =>
      Local(if !AdmissionLoad(c.b, e, k) then idle
        else g.(ctl := Busy(i, e, Go(if k < 1 then LetQualified(k + 1) else LetGo))), c)
    case LetGo => Local(idle, c.(release := e))
    case SeeState =>
      Local(if c.b.state == Qualified then g.(ctl := Busy(i, e, Go(SeeQualified(0))))
        else if c.b.state == Failed then g.(ctl := Busy(i, e, Go(FailLock))) else idle, c)
    case SeeQualified(k) =>
      Local(g.(ctl := Busy(i, e, Go(if !AdmissionLoad(c.b, e, k) then FailLock
        else if k < 1 then SeeQualified(k + 1) else RunOnline))), c)
  }

  /** One step of the controller on the slot it works on. */
  function CtlNext(g: Shared, c: Cpu, w: Wire, pick: bool): Local {
    if g.ctl == Idle then Local(g, c)
    else
      var i, e, at := g.ctl.i, g.ctl.e, g.ctl.at;
      match at
      case Off(off) => DrainNext(g, c, i, e, off, pick)
      case Take(take) => WithdrawNext(g, c, w, i, e, take, pick)
      case Can(can) => UndoNext(g, c, i, e, can, pick)
      case On(on) => RestartNext(g, c, i, e, on, pick)
      case Go(go) => LaunchNext(g, c, i, e, go, pick)
  }

  /** One step of the shutdown thread. */
  function ShutdownNext(g: Shared, c: Cpu): Local
    requires g.stop != Resting
    requires g.stop.StopLock? ==> g.stop.from == Online || g.stop.from == Draining
  {
    match g.stop
    case StopLock(i, from) =>
      if g.runtime == Free then Local(g.(runtime := ByStopper, stop := Stopping(i, Starts(from, TerminalPending))), c)
      else Local(g, c)
    case Stopping(i, m) =>
      if m.stage.Settled? then Local(g.(runtime := Free, stop := Resting), c)
      else Local(g.(stop := Stopping(i, MoveNext(c, m))), MoveCpu(c, m))
  }

  /** flush_local, one instruction: a full reload from 64 pages on, else page by page. */
  function FlushStep(tlb: map<Page, Version>, base: nat, pages: nat, done: nat): map<Page, Version> {
    if pages >= FULL_RELOAD then map[] else tlb - {base + done}
  }

  function FlushCount(pages: nat, done: nat): nat {
    if pages >= FULL_RELOAD then pages else done + 1
  }

  function Members(cpus: seq<Cpu>): set<nat> {
    set i: nat | i < |cpus| && cpus[i].b.member
  }

  /** The pages of `dirty` outside the invalidated range. */
  function Clean(dirty: set<Page>, base: nat, pages: nat): set<Page> {
    set p | p in dirty && !(base <= p < base + pages)
  }

  /** What the caller of the page-table owner asks for next. */
  datatype Ask =
    | AcquireTables(cpu: nat)
    | WritePage(page: Page)
    | Invalidate(base: nat, pages: nat)
    | ReleaseTables
    | Continue(pick: bool)

  /** The requester moves to another point of its program. */
  function RequestAt(s: State, cpu: nat, pc: RequestPc): State {
    s.(w := s.w.(requester := By(cpu, pc)))
  }

  /** The invalidation succeeded: its range is clean again. */
  function Succeed(s: State, cpu: nat, base: nat, pages: nat): State {
    s.(w := s.w.(requester := By(cpu, RequestPc.Returned(base, pages, true)), dirty := Clean(s.w.dirty, base, pages)))
  }

  /** One step of the thread that holds the page-table owner. */
  function RequestNext(s: State, ask: Ask): State {
    if s.w.requester == NoRequest then
      if ask.AcquireTables? && ask.cpu < |s.cpus| && Live(s.cpus[ask.cpu].ap) && s.g.tables == Free
      then s.(g := s.g.(tables := ByRequester), w := s.w.(requester := By(ask.cpu, Mapping))) else s
    else if s.w.requester.cpu < |s.cpus| then InvalidateNext(s, s.w.requester.cpu, s.w.requester.pc, ask)
    else s
  }

  function InvalidateNext(s: State, cpu: nat, pc: RequestPc, ask: Ask): State
    requires cpu < |s.cpus|
  {
    var w := s.w;
    match pc
    case Mapping =>
      (match ask
       case WritePage(p) =>
         s.(w := w.(pt := w.pt[p := VersionOf(w.pt, p) + 1], dirty := w.dirty + {p}))
       case Invalidate(base, pages) =>
         RequestAt(s, cpu, if pages == 0 then RequestPc.Returned(base, pages, false) else OwnFlush(base, pages, 0))
       case ReleaseTables => s.(g := s.g.(tables := Free), w := w.(requester := NoRequest))
       case _ => s)
    case OwnFlush(base, pages, done) =>
      if done >= pages then RequestAt(s, cpu, ReadMembers(base, pages))
      else
        var c := s.cpus[cpu];
        s.(cpus := s.cpus[cpu := c.(tlb := FlushStep(c.tlb, base, pages, done))],
           w := w.(requester := By(cpu, OwnFlush(base, pages, FlushCount(pages, done)))))
    case ReadMembers(base, pages) => RequestAt(s, cpu, BumpGen(base, pages, Members(s.cpus) - {cpu}))
    case BumpGen(base, pages, target) =>
      s.(w := w.(generation := w.generation + 1,
                 requester := By(cpu, StoreBase(base, pages, target, w.generation + 1))))
    case StoreBase(base, pages, target, gen) =>
      s.(w := w.(reqBase := base, requester := By(cpu, StorePages(base, pages, target, gen))))
    case StorePages(base, pages, target, gen) =>
      s.(w := w.(reqPages := pages, requester := By(cpu, StoreTarget(base, pages, target, gen))))
    case StoreTarget(base, pages, target, gen) =>
      s.(w := w.(reqTarget := target, requester := By(cpu, StoreGen(base, pages, target, gen))))
    case StoreGen(base, pages, target, gen) =>
      // without a registered sender a request with targets fails at once
      var sent := s.(w := w.(reqGen := gen));
      if target == {} then Succeed(sent, cpu, base, pages)
      else RequestAt(sent, cpu, if ask.Continue? && ask.pick then Scan(base, pages, target, gen, 0, {})
        else RequestPc.Returned(base, pages, false))
    case Scan(base, pages, target, gen, at, acked) =>
      if at >= |s.cpus| then RequestAt(s, cpu, CheckMembers(base, pages, target, gen, acked))
      else RequestAt(s, cpu, Scan(base, pages, target, gen, at + 1,
                                  if at in target && s.cpus[at].ack == gen then acked + {at} else acked))
    case CheckMembers(base, pages, target, gen, acked) =>
      // otherwise spin again, or run out of the spin limit
      var offline := target - Members(s.cpus);
      if target <= acked + offline then Succeed(s, cpu, base, pages)
      else RequestAt(s, cpu, if ask.Continue? && ask.pick then Scan(base, pages, target, gen, 0, {})
        else RequestPc.Returned(base, pages, false))
    case Returned(base, pages, ok) => RequestAt(s, cpu, Mapping)
  }

  function HandlerAt(s: State, h: nat, x: Handler): State
    requires h < |s.w.handlers|
  {
    s.(w := s.w.(handlers := s.w.handlers[h := x]))
  }

  /** One step of the handler in slot h, on behalf of a live CPU. */
  function HandlerNext(s: State, h: nat): State
    requires h < |s.w.handlers|
  {
    var x := s.w.handlers[h];
    if x.NoHandler? || x.cpu >= |s.cpus| || !Live(s.cpus[x.cpu].ap) then s
    else ServeNext(s, h, x.cpu, x.at)
  }

  function ServeNext(s: State, h: nat, cpu: nat, at: HandlerPc): State
    requires h < |s.w.handlers| && cpu < |s.cpus|
  {
    var w := s.w;
    var c := s.cpus[cpu];
    match at
    case LoadGen(poll) =>
      HandlerAt(s, h, if poll then At(cpu, LoadDiag(w.reqGen))
                      else if w.reqGen == 0 then NoHandler else At(cpu, LoadTarget(false, w.reqGen)))
    case LoadDiag(gen) => HandlerAt(s, h, if w.diag || gen == 0 then NoHandler else At(cpu, LoadAck(gen)))
    case LoadAck(gen) => HandlerAt(s, h, if c.ack == gen then NoHandler else At(cpu, LoadTarget(true, gen)))
    case LoadTarget(poll, gen) => HandlerAt(s, h, if cpu in w.reqTarget then At(cpu, LoadBase(poll, gen))
      else NoHandler)
    case LoadBase(poll, gen) => HandlerAt(s, h, At(cpu, LoadPages(poll, gen, w.reqBase)))
    case LoadPages(poll, gen, base) => HandlerAt(s, h, At(cpu, Flush(poll, gen, base, w.reqPages, 0)))
    case Flush(poll, gen, base, pages, done) =>
      if done >= pages then HandlerAt(s, h, At(cpu, if poll then StoreAck(gen) else LoadDrop(gen)))
      else HandlerAt(s.(cpus := s.cpus[cpu := c.(tlb := FlushStep(c.tlb, base, pages, done))]), h,
                     At(cpu, Flush(poll, gen, base, pages, FlushCount(pages, done))))
    case LoadDrop(gen) => HandlerAt(s, h, At(cpu, if cpu in w.drop then ClearDrop else StoreAck(gen)))
    case ClearDrop => HandlerAt(s.(w := w.(drop := w.drop - {cpu})), h, NoHandler)
    case StoreAck(gen) => HandlerAt(s.(cpus := s.cpus[cpu := c.(ack := gen)]), h, NoHandler)
  }

  /** Commands that start a controller operation. */
  datatype Command = GoOffline(i: nat, e: nat) | GoOnline(i: nat, e: nat) | GoBoot(i: nat)
    | GoRelease(i: nat) | GoAwait(i: nat)

  /** Everything any thread may do next. */
  datatype Step =
    | ApStep(i: nat, pick: bool)
    | Command(cmd: Command)
    | CtlStep(pick: bool)
    | RaiseTerminal
    | StartStop(i: nat)
    | StopStep
    | RequestStep(ask: Ask)
    | StartHandler(h: nat, cpu: nat, poll: bool)
    | HandlerStep(h: nat)
    | Cache(i: nat, page: Page)
    | Diagnose(i: nat)
    | EndDiagnose

  /** A CPU that leaves its halt loses the handler frames of its old execution. */
  function DropFrames(handlers: seq<Handler>, cpu: nat): seq<Handler> {
    seq(|handlers|, h requires 0 <= h < |handlers| =>
      if !handlers[h].NoHandler? && handlers[h].cpu == cpu then NoHandler else handlers[h])
  }

  /** The page-table owner excludes preemption: while it is held on CPU i, the idle and entry
      code of that CPU does not run. */
  predicate Requesting(w: Wire, i: nat) {
    !w.requester.NoRequest? && w.requester.cpu == i
  }

  /** The successor state; a step that is not enabled leaves the state unchanged. */
  function Apply(s: State, step: Step): State {
    match step
    case ApStep(i, pick) =>
      if 0 < i < |s.cpus| && !Requesting(s.w, i) then
        var l := ApNext(s.g, i, s.cpus[i], pick);
        s.(g := l.g, cpus := s.cpus[i := l.c])
      else s
    case Command(cmd) =>
      if s.g.ctl == Idle && 0 < cmd.i < |s.cpus| then
        s.(g := s.g.(ctl := match cmd
                            case GoOffline(i, e) => Busy(i, e, Off(OffEpoch))
                            case GoOnline(i, e) => Busy(i, e, On(OnEpoch))
                            case GoBoot(i) => Busy(i, s.cpus[i].b.epoch, Go(BootAdmit(0)))
                            case GoRelease(i) => Busy(i, s.cpus[i].b.epoch, Go(LetState))
                            case GoAwait(i) => Busy(i, s.cpus[i].b.epoch, Go(SeeState))))
      else s
    case CtlStep(pick) =>
      if s.g.ctl != Idle && s.g.ctl.i < |s.cpus| then
        var l := CtlNext(s.g, s.cpus[s.g.ctl.i], s.w, pick);
        s.(g := l.g, cpus := s.cpus[s.g.ctl.i := l.c],
           w := if s.g.ctl.at == Go(RunSipi) && pick then s.w.(handlers := DropFrames(s.w.handlers, s.g.ctl.i))
               else s.w)
      else s
    case RaiseTerminal => s.(g := s.g.(terminal := true))
    case StartStop(i) =>
      if s.g.terminal && s.g.stop == Resting && 0 < i < |s.cpus| &&
        (s.cpus[i].b.state == Online || s.cpus[i].b.state == Draining)
      then s.(g := s.g.(stop := StopLock(i, s.cpus[i].b.state))) else s
    case StopStep =>
      if s.g.stop != Resting && s.g.stop.i < |s.cpus|
         && (s.g.stop.StopLock? ==> s.g.stop.from == Online || s.g.stop.from == Draining) then
        var l := ShutdownNext(s.g, s.cpus[s.g.stop.i]);
        s.(g := l.g, cpus := s.cpus[s.g.stop.i := l.c])
      else s
    case RequestStep(ask) => RequestNext(s, ask)
    case StartHandler(h, cpu, poll) =>
      if h < |s.w.handlers| && s.w.handlers[h].NoHandler? && cpu < |s.cpus| && Live(s.cpus[cpu].ap)
      then s.(w := s.w.(handlers := s.w.handlers[h := At(cpu, LoadGen(poll))])) else s
    case HandlerStep(h) => if h < |s.w.handlers| then HandlerNext(s, h) else s
    case Cache(i, page) =>
      if i < |s.cpus| && Live(s.cpus[i].ap)
      then s.(cpus := s.cpus[i := s.cpus[i].(tlb := s.cpus[i].tlb[page := VersionOf(s.w.pt, page)])]) else s
    case Diagnose(i) => s.(w := s.w.(drop := {i}, diag := true))
    case EndDiagnose => s.(w := s.w.(drop := {}, diag := false))
  }

  /** The state after a whole schedule. */
  function Execute(s: State, steps: seq<Step>): State
    decreases |steps|
  {
    if steps == [] then s else Execute(Apply(s, steps[0]), steps[1..])
  }

  function BootCpu(e: nat): Cpu {
    Cpu(Book(Detected, false, false, e, 0, 0, 0, 0, 0, 0, 0, 0, 0, 0, 0), 0, 0, 0, map[], false, Halted)
  }

  function BspCpu(): Cpu {
    BootCpu(1).(b := BootCpu(1).b.(state := Online, sched := true, member := true, installed := 1), ap := Bsp)
  }

  /** After init_bsp and seed_plan: only the boot CPU runs and no request was ever made. */
  ghost predicate Init(s: State) {
    && |s.cpus| > 0
    && s.cpus[0] == BspCpu()
    && (forall i :: 0 < i < |s.cpus| ==> s.cpus[i].b.epoch > 1 && s.cpus[i] == BootCpu(s.cpus[i].b.epoch))
    && s.g == Shared(Free, Free, false, Idle, Resting)
    && s.w == Wire(0, 0, 0, 0, {}, false, {}, NoRequest, seq(|s.w.handlers|, _ => NoHandler), map[], {})
  }

  ghost predicate Reachable(s: State) {
    exists s0, steps: seq<Step> :: Init(s0) && s == Execute(s0, steps)
  }
}
