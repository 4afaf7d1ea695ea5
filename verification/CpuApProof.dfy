/** Every step of an AP keeps the invariant of its slot. */
module CpuApProof {
  import opened CpuState
  import opened CpuSteps
  import opened CpuInvariant
  import opened CpuMoves

  /** What a step of the AP on slot i may do to the mutexes. */
  predicate LockStep(g: Shared, h: Shared, i: nat) {
    && h.ctl == g.ctl && h.stop == g.stop && h.terminal == g.terminal
    && (h.runtime == g.runtime || (g.runtime == Free && h.runtime == ByAp(i)) ||
         (g.runtime == ByAp(i) && h.runtime == Free))
    && (h.tables == g.tables || (g.tables == Free && h.tables == ByAp(i)) || (g.tables == ByAp(i) && h.tables == Free))
  }

  /** When the AP holds the Runtime owner, nobody else does. */
  predicate Alone(g: Shared, i: nat) {
    g.runtime == ByAp(i) ==> Quiet(ViewOf(g, i).ctl, ViewOf(g, i).stop)
  }

  lemma StoppedKeeps(g: Shared, i: nat, c: Cpu, e: nat)
    requires Alone(g, i) && SlotInv(c, ViewOf(g, i)) && c.ap == Ap.Stopped(e)
    ensures SlotInv(c.(b := c.b.(stopped := e), ap := Halted), ViewOf(g, i))
  {
    hide BookInv;
    StopRecords(c.b, ViewOf(g, i).ctl, ViewOf(g, i).stop);
  }

  lemma EntryKeeps(g: Shared, i: nat, c: Cpu, e: nat, at: EntryPc, pick: bool)
    requires Alone(g, i) && SlotInv(c, ViewOf(g, i)) && c.ap == Entering(e, at)
    requires at.Begin? || at.Install? || at.EntryFlush? || at.EntryState?
    ensures var l := EntryNext(g, i, c, e, at, pick); LockStep(g, l.g, i) && SlotInv(l.c, ViewOf(l.g, i))
  {
    hide BookInv;
    var b, v := c.b, ViewOf(g, i);
    EntryRests(b, v.ctl, v.stop);
    EntryInstalls(b, v.ctl, v.stop);
  }

  lemma QualifyKeeps(g: Shared, i: nat, c: Cpu, e: nat, at: EntryPc, pick: bool)
    requires Alone(g, i) && SlotInv(c, ViewOf(g, i)) && c.ap == Entering(e, at)
    requires at.Reject? || at.Qualify?
    ensures var l := EntryNext(g, i, c, e, at, pick); LockStep(g, l.g, i) && SlotInv(l.c, ViewOf(l.g, i))
  {
    hide BookInv;
    var b, v := c.b, ViewOf(g, i);
    EntryRests(b, v.ctl, v.stop);
    EntryPhase(b, 2, v.ctl, v.stop);
    EntryPhase(b, 3, v.ctl, v.stop);
    EntryRests(b.(phase := 3), v.ctl, v.stop);
  }

  lemma GiveUpKeeps(g: Shared, i: nat, c: Cpu, e: nat, at: EntryPc, pick: bool)
    requires Alone(g, i) && SlotInv(c, ViewOf(g, i)) && c.ap == Entering(e, at)
    requires at.GiveUpLock? || at.GiveUpState?
    ensures var l := EntryNext(g, i, c, e, at, pick); LockStep(g, l.g, i) && SlotInv(l.c, ViewOf(l.g, i))
  {
    hide BookInv;
    EntryRests(c.b, ViewOf(g, i).ctl, ViewOf(g, i).stop);
  }

  lemma GivingUpKeeps(g: Shared, i: nat, c: Cpu, e: nat, at: EntryPc, pick: bool)
    requires Alone(g, i) && SlotInv(c, ViewOf(g, i)) && c.ap == Entering(e, at)
    requires at.GiveUp?
    ensures var l := EntryNext(g, i, c, e, at, pick); LockStep(g, l.g, i) && SlotInv(l.c, ViewOf(l.g, i))
  {
    hide BookInv;
    var b, v := c.b, ViewOf(g, i);
    EntryRests(b, v.ctl, v.stop);
    EntryUnmasked(b, v.ctl, v.stop);
    if at.m.stage == Exchange {
      EntryFails(b, v.ctl, v.stop);
    }
  }

  lemma EnterLockKeeps(g: Shared, i: nat, c: Cpu, e: nat, at: EntryPc, pick: bool)
    requires Alone(g, i) && SlotInv(c, ViewOf(g, i)) && c.ap == Entering(e, at)
    requires at.EnterLock?
    ensures var l := EntryNext(g, i, c, e, at, pick); LockStep(g, l.g, i) && SlotInv(l.c, ViewOf(l.g, i))
  {
    hide BookInv;
    EntryRests(c.b, ViewOf(g, i).ctl, ViewOf(g, i).stop);
  }

  lemma EnterMoveKeeps(g: Shared, i: nat, c: Cpu, e: nat, at: EntryPc, pick: bool)
    requires Alone(g, i) && SlotInv(c, ViewOf(g, i)) && c.ap == Entering(e, at)
    requires at.Enter?
    ensures var l := EntryNext(g, i, c, e, at, pick); LockStep(g, l.g, i) && SlotInv(l.c, ViewOf(l.g, i))
  {
    hide BookInv;
    var b, v := c.b, ViewOf(g, i);
    EntryRests(b, v.ctl, v.stop);
    EntryUnmasked(b, v.ctl, v.stop);
    if at.m.stage == Exchange && b.state == Starting {
      EntryEnters(b, v.ctl, v.stop);
    }
  }

  lemma EnterKeeps(g: Shared, i: nat, c: Cpu, e: nat, at: EntryPc, pick: bool)
    requires Alone(g, i) && SlotInv(c, ViewOf(g, i)) && c.ap == Entering(e, at)
    requires at.EnterLock? || at.Enter?
    ensures var l := EntryNext(g, i, c, e, at, pick); LockStep(g, l.g, i) && SlotInv(l.c, ViewOf(l.g, i))
  {
    hide *;
    if at.EnterLock? {
      EnterLockKeeps(g, i, c, e, at, pick);
    } else {
      EnterMoveKeeps(g, i, c, e, at, pick);
    }
  }

  lemma AwaitKeeps(g: Shared, i: nat, c: Cpu, e: nat, at: EntryPc, pick: bool)
    requires Alone(g, i) && SlotInv(c, ViewOf(g, i)) && c.ap == Entering(e, at)
    requires at.AwaitRelease? || at.EntryQualified? || at.EntryAdmitted?
    ensures var l := EntryNext(g, i, c, e, at, pick); LockStep(g, l.g, i) && SlotInv(l.c, ViewOf(l.g, i))
  {
    hide BookInv;
    var b, v := c.b, ViewOf(g, i);
    EntryRests(b, v.ctl, v.stop);
  }

  lemma JoinLockKeeps(g: Shared, i: nat, c: Cpu, e: nat, at: EntryPc, pick: bool)
    requires Alone(g, i) && SlotInv(c, ViewOf(g, i)) && c.ap == Entering(e, at)
    requires at.JoinLoop? || at.JoinRuntime? || at.JoinTables?
    ensures var l := JoinNext(g, i, c, e, at, pick); LockStep(g, l.g, i) && SlotInv(l.c, ViewOf(l.g, i))
  {
    hide BookInv;
    var b, v := c.b, ViewOf(g, i);
    EntryRests(b, v.ctl, v.stop);
  }

  lemma JoinBackKeeps(g: Shared, i: nat, c: Cpu, e: nat, at: EntryPc, pick: bool)
    requires Alone(g, i) && SlotInv(c, ViewOf(g, i)) && c.ap == Entering(e, at)
    requires at.JoinBack? || at.JoinRefuseRuntime?
    ensures var l := JoinNext(g, i, c, e, at, pick); LockStep(g, l.g, i) && SlotInv(l.c, ViewOf(l.g, i))
  {
    hide BookInv;
    var b, v := c.b, ViewOf(g, i);
    EntryRests(b, v.ctl, v.stop);
  }

  lemma JoinTryKeeps(g: Shared, i: nat, c: Cpu, e: nat, at: EntryPc, pick: bool)
    requires Alone(g, i) && SlotInv(c, ViewOf(g, i)) && c.ap == Entering(e, at)
    requires at.JoinLoop? || at.JoinRuntime? || at.JoinTables? || at.JoinBack? || at.JoinRefuseRuntime?
    ensures var l := JoinNext(g, i, c, e, at, pick); LockStep(g, l.g, i) && SlotInv(l.c, ViewOf(l.g, i))
  {
    hide *;
    if at.JoinLoop? || at.JoinRuntime? || at.JoinTables? {
      JoinLockKeeps(g, i, c, e, at, pick);
    } else {
      JoinBackKeeps(g, i, c, e, at, pick);
    }
  }

  lemma JoinKeeps(g: Shared, i: nat, c: Cpu, e: nat, at: EntryPc, pick: bool)
    requires Alone(g, i) && SlotInv(c, ViewOf(g, i)) && c.ap == Entering(e, at)
    requires EntryTables(at)
    ensures var l := JoinNext(g, i, c, e, at, pick); LockStep(g, l.g, i) && SlotInv(l.c, ViewOf(l.g, i))
  {
    hide BookInv;
    var b, v := c.b, ViewOf(g, i);
    if at.JoinExchange? {
      Grants(b, v.ctl, v.stop);
    }
  }

  lemma GrantMaskKeeps(g: Shared, i: nat, c: Cpu, e: nat, at: GrantPc)
    requires Alone(g, i) && SlotInv(c, ViewOf(g, i)) && c.ap == Granted(e, at) && at.GrantMask?
    ensures var l := GrantNext(g, c, e, at); LockStep(g, l.g, i) && SlotInv(l.c, ViewOf(l.g, i))
  {
    hide BookInv;
    var b, v := c.b, ViewOf(g, i);
    if at.m.stage == JoinMask {
      GrantMasks(b, v.ctl, v.stop);
    } else {
      Schedules(b, InJoin, v.ctl, v.stop);
    }
  }

  lemma GrantKeeps(g: Shared, i: nat, c: Cpu, e: nat, at: GrantPc)
    requires Alone(g, i) && SlotInv(c, ViewOf(g, i)) && c.ap == Granted(e, at) && !at.GrantMask?
    ensures var l := GrantNext(g, c, e, at); LockStep(g, l.g, i) && SlotInv(l.c, ViewOf(l.g, i))
  {
    hide BookInv;
    if at.GrantRuntime? {
      StartsWork(c.b, InJoin, ViewOf(g, i).ctl, ViewOf(g, i).stop);
    }
  }

  lemma WorkKeeps(g: Shared, i: nat, c: Cpu, e: nat, at: WorkPc, pick: bool)
    requires Alone(g, i) && SlotInv(c, ViewOf(g, i)) && c.ap == Working(e, at)
    requires at.Running? || at.StopIpiLock? || at.StopIpi? || at.IdleInstalled? || at.IdleDrain? || at.IdleIrq?
    ensures var l := WorkNext(g, i, c, e, at, pick); LockStep(g, l.g, i) && SlotInv(l.c, ViewOf(l.g, i))
  {
    hide BookInv;
    var b, v := c.b, ViewOf(g, i);
    if at.StopIpi? && b.state == TerminalPending {
      Dies(b, v.ctl, v.stop);
    }
  }

  lemma IdleKeeps(g: Shared, i: nat, c: Cpu, e: nat, at: WorkPc, pick: bool)
    requires Alone(g, i) && SlotInv(c, ViewOf(g, i)) && c.ap == Working(e, at)
    requires at.IdleEpoch? || at.IdleLock? || at.IdleState? || at.IdleIrqAgain? || at.IdleReceipt? ||
      at.IdleExchange? || at.IdleUnlock?
    ensures var l := WorkNext(g, i, c, e, at, pick); LockStep(g, l.g, i) && SlotInv(l.c, ViewOf(l.g, i))
  {
    hide BookInv;
    var b, v := c.b, ViewOf(g, i);
    if at.IdleExchange? {
      Parks(b, v.ctl, v.stop);
    }
  }

  lemma DyingKeeps(g: Shared, i: nat, c: Cpu, e: nat, m: Move)
    requires Alone(g, i) && SlotInv(c, ViewOf(g, i)) && c.ap == Dying(e, m)
    ensures var l := DyingNext(g, c, e, m); LockStep(g, l.g, i) && SlotInv(l.c, ViewOf(l.g, i))
  {
    hide BookInv;
    var b, v := c.b, ViewOf(g, i);
    DeathMasks(b, v.ctl, v.stop);
    DeathRests(b, v.ctl, v.stop);
  }

  lemma ParkKeeps(g: Shared, i: nat, c: Cpu, e: nat, at: ParkPc, pick: bool)
    requires Alone(g, i) && SlotInv(c, ViewOf(g, i)) && c.ap == Parking(e, at)
    ensures var l := ParkNext(g, c, e, at, pick); LockStep(g, l.g, i) && SlotInv(l.c, ViewOf(l.g, i))
  {
    hide BookInv;
    var b, v := c.b, ViewOf(g, i);
    ParkUnmasked(b, InPark, v.ctl, v.stop);
    ParkRecords(b, v.ctl, v.stop);
  }

  lemma TermLoadKeeps(g: Shared, i: nat, c: Cpu, e: nat, armed: bool, at: PollPc)
    requires Alone(g, i) && SlotInv(c, ViewOf(g, i)) && c.ap == Polling(e, armed, at)
    requires at.Poll? || at.TermFlush? || at.TermState?
    ensures var l := PollNext(g, c, e, armed, at); LockStep(g, l.g, i) && SlotInv(l.c, ViewOf(l.g, i))
  {
    hide BookInv;
  }

  lemma TermMaskKeeps(g: Shared, i: nat, c: Cpu, e: nat, armed: bool, at: PollPc)
    requires Alone(g, i) && SlotInv(c, ViewOf(g, i)) && c.ap == Polling(e, armed, at)
    requires at.TermSched? || at.TermLeave?
    ensures var l := PollNext(g, c, e, armed, at); LockStep(g, l.g, i) && SlotInv(l.c, ViewOf(l.g, i))
  {
    hide BookInv;
    var b, v := c.b, ViewOf(g, i);
    match at
    case TermSched(_) => ParkUnmasked(b, InPoll, v.ctl, v.stop);
    case TermLeave(_) => Leaves(b, v.ctl, v.stop);
  }

  lemma PollTermKeeps(g: Shared, i: nat, c: Cpu, e: nat, armed: bool, at: PollPc)
    requires Alone(g, i) && SlotInv(c, ViewOf(g, i)) && c.ap == Polling(e, armed, at)
    requires at.Poll? || at.TermFlush? || at.TermState? || at.TermSched? || at.TermLeave?
    ensures var l := PollNext(g, c, e, armed, at); LockStep(g, l.g, i) && SlotInv(l.c, ViewOf(l.g, i))
  {
    hide *;
    if at.Poll? || at.TermFlush? || at.TermState? {
      TermLoadKeeps(g, i, c, e, armed, at);
    } else {
      TermMaskKeeps(g, i, c, e, armed, at);
    }
  }

  lemma PollStopKeeps(g: Shared, i: nat, c: Cpu, e: nat, armed: bool, at: PollPc)
    requires Alone(g, i) && SlotInv(c, ViewOf(g, i)) && c.ap == Polling(e, armed, at)
    requires at.StopFlush? || at.StopConfirm?
    ensures var l := PollNext(g, c, e, armed, at); LockStep(g, l.g, i) && SlotInv(l.c, ViewOf(l.g, i))
  {
    hide BookInv;
    if at.StopConfirm? {
      Stops(c.b, ViewOf(g, i).ctl, ViewOf(g, i).stop);
    }
  }

  lemma PollLoadKeeps(g: Shared, i: nat, c: Cpu, e: nat, armed: bool, at: PollPc)
    requires Alone(g, i) && SlotInv(c, ViewOf(g, i)) && c.ap == Polling(e, armed, at)
    requires at.StopLoad? || at.CancelLoad?
    ensures var l := PollNext(g, c, e, armed, at); LockStep(g, l.g, i) && SlotInv(l.c, ViewOf(l.g, i))
  {
    hide BookInv;
    if at.CancelLoad? && c.b.cancel == e {
      SeesCancel(c.b, ViewOf(g, i).ctl, ViewOf(g, i).stop);
    }
  }

  lemma LeaveKeeps(g: Shared, i: nat, c: Cpu, e: nat, armed: bool, seen: Life)
    requires Alone(g, i) && SlotInv(c, ViewOf(g, i)) && c.ap == Leaving(e, armed, seen)
    ensures var l := LeaveNext(g, c, e, armed, seen); LockStep(g, l.g, i) && SlotInv(l.c, ViewOf(l.g, i))
  {
    hide BookInv;
    var b, v := c.b, ViewOf(g, i);
    if b.state == seen {
      LeavesForGood(b, v.ctl, v.stop);
    } else {
      LeavesLate(b, v.ctl, v.stop);
    }
  }

  lemma CancelTryKeeps(g: Shared, i: nat, c: Cpu, e: nat, armed: bool, at: CancelPc, pick: bool)
    requires Alone(g, i) && SlotInv(c, ViewOf(g, i)) && c.ap == Cancelling(e, armed, at)
    requires at.CancelWithdrawn? || at.ResumeTry? || at.ResumeFlush? || at.ResumeAbort?
    ensures var l := CancelNext(g, i, c, e, armed, at, pick); LockStep(g, l.g, i) && SlotInv(l.c, ViewOf(l.g, i))
  {
    hide BookInv;
    var b, v := c.b, ViewOf(g, i);
    GivesUpCancel(b, v.ctl, v.stop);
  }

  lemma CancelKeeps(g: Shared, i: nat, c: Cpu, e: nat, armed: bool, at: CancelPc, pick: bool)
    requires Alone(g, i) && SlotInv(c, ViewOf(g, i)) && c.ap == Cancelling(e, armed, at)
    requires at.ResumeMember? || at.ResumeState? || at.ResumeFrom? || at.ResumeExchange?
    ensures var l := CancelNext(g, i, c, e, armed, at, pick); LockStep(g, l.g, i) && SlotInv(l.c, ViewOf(l.g, i))
  {
    hide BookInv;
    var b, v := c.b, ViewOf(g, i);
    if at.ResumeExchange? {
      Resumes(b, v.ctl, v.stop);
    }
  }

  lemma ReturnMaskKeeps(g: Shared, i: nat, c: Cpu, e: nat, at: ReturnPc)
    requires Alone(g, i) && SlotInv(c, ViewOf(g, i)) && c.ap == Returning(e, at)
    requires at.ResumeMask?
    ensures var l := ReturnNext(g, c, e, at); LockStep(g, l.g, i) && SlotInv(l.c, ViewOf(l.g, i))
  {
    hide BookInv;
    var b, v := c.b, ViewOf(g, i);
    ResumeMasks(b, v.ctl, v.stop);
    Schedules(b, InReturn, v.ctl, v.stop);
  }

  lemma ReturnKeeps(g: Shared, i: nat, c: Cpu, e: nat, at: ReturnPc)
    requires Alone(g, i) && SlotInv(c, ViewOf(g, i)) && c.ap == Returning(e, at)
    requires !at.ResumeMask?
    ensures var l := ReturnNext(g, c, e, at); LockStep(g, l.g, i) && SlotInv(l.c, ViewOf(l.g, i))
  {
    hide BookInv;
    var b, v := c.b, ViewOf(g, i);
    match at
    case ResumeClearCancel => ResumeClears(b, v.ctl, v.stop);
    case ResumeClearDrain => ResumeUndrains(b, v.ctl, v.stop);
    case _ => StartsWork(b, Zone.Returned, v.ctl, v.stop);
  }

  /** Any step of the AP on slot i. */
  lemma ApKeeps(g: Shared, i: nat, c: Cpu, pick: bool)
    requires Alone(g, i) && SlotInv(c, ViewOf(g, i))
    ensures var l := ApNext(g, i, c, pick); LockStep(g, l.g, i) && SlotInv(l.c, ViewOf(l.g, i))
  {
    hide SlotInv;
    match c.ap
    case Bsp =>
    case Halted =>
    case Entering(e, at) =>
      if at.Begin? || at.Install? || at.EntryFlush? || at.EntryState? {
        EntryKeeps(g, i, c, e, at, pick);
      } else if at.Reject? || at.Qualify? {
        QualifyKeeps(g, i, c, e, at, pick);
      } else if at.GiveUpLock? || at.GiveUpState? {
        GiveUpKeeps(g, i, c, e, at, pick);
      } else if at.GiveUp? {
        GivingUpKeeps(g, i, c, e, at, pick);
      } else if at.EnterLock? || at.Enter? {
        EnterKeeps(g, i, c, e, at, pick);
      } else if at.AwaitRelease? || at.EntryQualified? || at.EntryAdmitted? {
        AwaitKeeps(g, i, c, e, at, pick);
      } else if EntryTables(at) {
        JoinKeeps(g, i, c, e, at, pick);
      } else {
        JoinTryKeeps(g, i, c, e, at, pick);
      }
    case Granted(e, at) =>
      if at.GrantMask? {
        GrantMaskKeeps(g, i, c, e, at);
      } else {
        GrantKeeps(g, i, c, e, at);
      }
    case Working(e, at) =>
      if at.Running? || at.StopIpiLock? || at.StopIpi? || at.IdleInstalled? || at.IdleDrain? || at.IdleIrq? {
        WorkKeeps(g, i, c, e, at, pick);
      } else {
        IdleKeeps(g, i, c, e, at, pick);
      }
    case Dying(e, m) => DyingKeeps(g, i, c, e, m);
    case Parking(e, at) => ParkKeeps(g, i, c, e, at, pick);
    case Polling(e, armed, at) =>
      if at.Poll? || at.TermFlush? || at.TermState? || at.TermSched? || at.TermLeave? {
        PollTermKeeps(g, i, c, e, armed, at);
      } else if at.StopLoad? || at.CancelLoad? {
        PollLoadKeeps(g, i, c, e, armed, at);
      } else {
        PollStopKeeps(g, i, c, e, armed, at);
      }
    case Leaving(e, armed, seen) => LeaveKeeps(g, i, c, e, armed, seen);
    case Stopped(e) => StoppedKeeps(g, i, c, e);
    case Cancelling(e, armed, at) =>
      if at.CancelWithdrawn? || at.ResumeTry? || at.ResumeFlush? || at.ResumeAbort? {
        CancelTryKeeps(g, i, c, e, armed, at, pick);
      } else {
        CancelKeeps(g, i, c, e, armed, at, pick);
      }
    case Returning(e, at) =>
      if at.ResumeMask? {
        ReturnMaskKeeps(g, i, c, e, at);
      } else {
        ReturnKeeps(g, i, c, e, at);
      }
  }
}
