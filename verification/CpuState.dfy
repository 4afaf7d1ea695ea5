/** State of the CPU hot-unplug and TLB shootdown protocol.

    Three kinds of threads interleave: the lifecycle controller on the boot CPU, every
    application processor (AP) in its own continuation, and the holder of the page-table
    owner that runs `invalidate`.  Every shared cell is an atomic of the kernel; one step of
    any thread performs one access to shared memory, and the two locks (the Runtime owner and
    the page-table owner) are plain mutexes.  Interleavings are sequentially consistent and
    the epoch and generation counters do not wrap.
  */
module CpuState {

  type Page = nat
  type Version = nat

  /** Lifecycle states of one CPU slot, in the order of their numeric codes 1..12. */
  datatype Life =
    | Detected | Starting | Entered | Online | TerminalPending | Terminal
    | Failed | Qualified | Draining | Parked | Offline | StopPending

  /** The table of transitions any caller may request. */
  predicate Allowed(from: Life, to: Life) {
    match from
    case Detected => to == Starting || to == Failed
    case Starting => to == Entered || to == Failed
    case Entered => to == Qualified || to == Failed
    case Qualified => to == Online || to == Failed
    case Online => to == TerminalPending || to == Draining
    case TerminalPending => to == Terminal
    case Draining => to == Parked || to == Online || to == TerminalPending
    case Parked => to == Online || to == TerminalPending
    case Offline => to == Detected
    case StopPending => false
    case Terminal => false
    case Failed => false
  }

  /** One lifecycle transition in flight: a compare-exchange followed by the mask updates. */
  datatype Stage = Exchange | JoinMask | ScheduleMask | UnscheduleMask | LeaveMask | Settled(ok: bool)
  datatype Move = Move(from: Life, to: Life, stage: Stage)

  /** Who holds one of the two mutexes. */
  datatype Owner = Free | ByController | ByStopper | ByRequester | ByAp(index: nat)

  // Program points of an AP, grouped by what the other threads may assume about it.

  /** r4os_ap_entry and publish_online up to the grant of the Online state. */
  datatype EntryPc =
    | Begin | Install | EntryFlush | EntryState | Reject(k: nat) | Qualify
    | GiveUpLock | GiveUpState | GiveUp(m: Move)
    | EnterLock | Enter(m: Move)
    | AwaitRelease | EntryQualified | EntryAdmitted
    | JoinLoop(k: nat) | JoinRuntime | JoinTables | JoinBack
    | JoinState | JoinEpoch | JoinFlush | JoinExchange | JoinRefuse | JoinRefuseRuntime

  /** The grant: mask bits, then the two mutexes are dropped. */
  datatype GrantPc = GrantMask(m: Move) | GrantTables | GrantRuntime

  /** The scheduler loop, the terminal stop vector, and an idle checkpoint before its park. */
  datatype WorkPc =
    | Running | StopIpiLock | StopIpi
    | IdleInstalled | IdleDrain | IdleIrq | IdleEpoch | IdleLock
    | IdleState | IdleIrqAgain | IdleReceipt | IdleExchange | IdleUnlock

  /** Parked, but the park is not yet recorded. */
  datatype ParkPc = ParkMask(m: Move) | ParkUnlock | ParkFlush | ParkStore

  /** The parked poll loop. */
  datatype PollPc =
    | Poll
    | TermFlush | TermState | TermSched(seen: Life) | TermLeave(seen: Life)
    | StopLoad(k: nat) | StopFlush | StopConfirm(k: nat)
    | CancelLoad

  /** The AP saw its cancel request. */
  datatype CancelPc =
    | CancelWithdrawn | ResumeTry | ResumeFlush | ResumeMember | ResumeState | ResumeFrom
    | ResumeExchange(from: Life) | ResumeAbort

  /** Online again in the same epoch. */
  datatype ReturnPc = ResumeMask(m: Move) | ResumeClearCancel | ResumeClearDrain | ResumeUnlock

  /** The continuation of an AP and the execution epoch it works for.  `armed` means that the
      paused timer token is still owned. */
  datatype Ap =
    | Bsp
    | Halted
    | Entering(e: nat, entry: EntryPc)
    | Granted(e: nat, grant: GrantPc)
    | Working(e: nat, work: WorkPc)
    | Dying(e: nat, m: Move)
    | Parking(e: nat, park: ParkPc)
    | Polling(e: nat, armed: bool, poll: PollPc)
    | Leaving(e: nat, armed: bool, seen: Life)
    | Stopped(e: nat)
    | Cancelling(e: nat, armed: bool, can: CancelPc)
    | Returning(e: nat, ret: ReturnPc)

  /** The cells of one CPU slot: its lifecycle state, its bits of the SCHEDULABLE and
      TLB_PARTICIPANTS masks, the topology epoch, the lifecycle record and the admission record. */
  datatype Book = Book(
    state: Life, sched: bool, member: bool,
    epoch: nat, installed: nat, drain: nat, cancel: nat, parked: nat, withdrawn: nat,
    stopReq: nat, stopped: nat, retired: nat, irq: nat, phase: nat, admitted: nat)

  /** One CPU slot: its cells, the release epoch, the recorded and acknowledged generations, the
      hardware translation cache `tlb`, `flushed` (a full flush followed the last withdrawal from
      the mask) and the program point of the AP. */
  datatype Cpu = Cpu(
    b: Book, release: nat, tlbGen: nat, ack: nat, tlb: map<Page, Version>, flushed: bool, ap: Ap)

  // Program points of the lifecycle controller.

  /** Offline up to the request that makes the AP park. */
  datatype OffPc =
    | OffEpoch | OffTerminal | OffReceipt(k: nat) | OffLock | OffState | OffInstalled | OffReset(k: nat)
    | OffDrain | OffBegin(m: Move) | OffUnlock | OffRefused | OffMigrate | OffIrq | OffRequest | OffWait

  /** Offline from the recorded park to the retired record. */
  datatype TakePc =
    | OffMove | OffTables | OffLoad(k: nat, gen: nat, hit: bool) | OffGiveUp | OffGen(gen: nat)
    | OffWithdrawn | OffTablesDone | OffStopReq | OffArm(k: nat) | OffAwait | OffConfirm(k: nat)
    | OffRetire

  /** Cancel. */
  datatype CanPc =
    | CanLock | CanWithdrawn | CanState | CanResume(m: Move) | CanDrain | CanParked | CanStore
    | CanUnlock | CanWait

  /** Online and restart. */
  datatype OnPc =
    | OnEpoch | OnTerminal | OnReceipt(k: nat) | OnCurrent(k: nat) | OnTables | OnRearm(k: nat) | OnAck
    | OnTablesDone(ok: bool) | OnAdmit(k: nat) | OnTopology(k: nat) | OnRelease | OnSlotEpoch
    | OnSlotLock | OnSlot(m: Move)

  /** First admission and launch_secondary, the two passes of activate over an AP (release it, then
      await it), and fail_ap. */
  datatype GoPc =
    | BootAdmit(k: nat) | RunLock | Run(m: Move) | RunSipi | RunAwait | RunQualified(k: nat) | QualLock
    | Qual(m: Move) | RunRelease | RunOnline | FailLock | FailState | Fail(m: Move)
    | LetState | LetQualified(k: nat) | LetGo | SeeState | SeeQualified(k: nat)

  datatype CtlPc = Off(off: OffPc) | Take(take: TakePc) | Can(can: CanPc) | On(on: OnPc) | Go(go: GoPc)

  /** The lifecycle controller, working on CPU `i` for epoch `e`. */
  datatype Ctl = Idle | Busy(i: nat, e: nat, at: CtlPc)

  /** The shutdown thread moving a running CPU to TerminalPending. */
  datatype Stopper = Resting | StopLock(i: nat, from: Life) | Stopping(i: nat, m: Move)

  /** One activation of the invalidation handler (IPI or poll) on a CPU. */
  datatype HandlerPc =
    | LoadGen(poll: bool)
    | LoadDiag(gen: nat) | LoadAck(gen: nat)
    | LoadTarget(poll: bool, gen: nat)
    | LoadBase(poll: bool, gen: nat)
    | LoadPages(poll: bool, gen: nat, base: nat)
    | Flush(poll: bool, gen: nat, base: nat, pages: nat, done: nat)
    | LoadDrop(gen: nat) | ClearDrop | StoreAck(gen: nat)
  datatype Handler = NoHandler | At(cpu: nat, at: HandlerPc)

  /** The holder of the page-table owner, and `invalidate` while it runs on that CPU. */
  datatype RequestPc =
    | Mapping
    | OwnFlush(base: nat, pages: nat, done: nat)
    | ReadMembers(base: nat, pages: nat)
    | BumpGen(base: nat, pages: nat, target: set<nat>)
    | StoreBase(base: nat, pages: nat, target: set<nat>, gen: nat)
    | StorePages(base: nat, pages: nat, target: set<nat>, gen: nat)
    | StoreTarget(base: nat, pages: nat, target: set<nat>, gen: nat)
    | StoreGen(base: nat, pages: nat, target: set<nat>, gen: nat)
    | Scan(base: nat, pages: nat, target: set<nat>, gen: nat, at: nat, acked: set<nat>)
    | CheckMembers(base: nat, pages: nat, target: set<nat>, gen: nat, acked: set<nat>)
    | Returned(base: nat, pages: nat, ok: bool)
  datatype Requester = NoRequest | By(cpu: nat, pc: RequestPc)

  /** The shootdown cells, the page tables and `dirty`: the pages whose mapping changed since
      their last successful invalidation. */
  datatype Wire = Wire(
    generation: nat, reqGen: nat, reqBase: nat, reqPages: nat, reqTarget: set<nat>,
    diag: bool, drop: set<nat>,
    requester: Requester, handlers: seq<Handler>,
    pt: map<Page, Version>, dirty: set<Page>)

  datatype Shared = Shared(runtime: Owner, tables: Owner, terminal: bool, ctl: Ctl, stop: Stopper)

  datatype State = State(g: Shared, cpus: seq<Cpu>, w: Wire)

  /** The result of one step of one thread on the CPU slot it works on. */
  datatype Local = Local(g: Shared, c: Cpu)

  const FULL_RELOAD: nat := 64

  function VersionOf(pt: map<Page, Version>, p: Page): Version {
    if p in pt then pt[p] else 0
  }

  /** The CPU caches nothing older than the page tables for page p. */
  predicate Fresh(tlb: map<Page, Version>, pt: map<Page, Version>, p: Page) {
    p in tlb ==> tlb[p] == VersionOf(pt, p)
  }

  ghost predicate FreshRange(tlb: map<Page, Version>, pt: map<Page, Version>, base: nat, pages: nat) {
    forall p :: base <= p < base + pages ==> Fresh(tlb, pt, p)
  }

  /** The seven records a stop receipt compares with the epoch, and the three state conditions,
      in the order the kernel loads them; the eleventh load is the `retired` record. */
  predicate ReceiptLoad(b: Book, e: nat, k: nat) {
    match k
    case 0 => b.state == Offline
    case 1 => !b.member
    case 2 => b.epoch == e
    case 3 => b.installed == e
    case 4 => b.drain == e
    case 5 => b.irq == e
    case 6 => b.parked == e
    case 7 => b.withdrawn == e
    case 8 => b.stopReq == e
    case 9 => b.stopped == e
    case _ => b.retired == e
  }

  const RECEIPT: nat := 10

  /** The first k loads of a receipt all succeed in this one state. */
  predicate ReceiptPrefix(b: Book, e: nat, k: nat) {
    && (k > 0 ==> b.state == Offline)
    && (k > 1 ==> !b.member)
    && (k > 2 ==> b.epoch == e)
    && (k > 3 ==> b.installed == e)
    && (k > 4 ==> b.drain == e)
    && (k > 5 ==> b.irq == e)
    && (k > 6 ==> b.parked == e)
    && (k > 7 ==> b.withdrawn == e)
    && (k > 8 ==> b.stopReq == e)
    && (k > 9 ==> b.stopped == e)
    && (k > 10 ==> b.retired == e)
  }

  /** A stop receipt for (cpu, epoch). */
  predicate Receipt(b: Book, e: nat) {
    ReceiptPrefix(b, e, RECEIPT)
  }
}
