/** The life of a display backend through the outcomes its driver sees: which request is accepted after
    which, and with which token. */
module DisplayLaws {
  import opened DisplayBackend

  predicate Accepts(m: Manager, op: Op) {
    Apply(m, op).1.Ok?
  }

  function After(m: Manager, op: Op): Manager {
    Apply(m, op).0
  }

  /** There are generations and resets left for two more grants. */
  predicate Fresh(m: Manager) {
    m.serial + 2 < MAX && m.value.resetGeneration + 2 < MAX
  }

  /** A driver may begin exactly from the boot framebuffer, with a proper identity and the policy on
      its side; its generation then is the only token that commits, aborts or fails. */
  lemma BeginLaw(m: Manager, owner: nat, adapter: nat, o: nat, g: nat, reason: nat, software: bool)
    requires Sound(m) && Fresh(m)
    ensures Accepts(m, Begin(owner, adapter)) <==>
      0 < owner <= MAX_OWNER && adapter != 0 && m.value.policy == 0 && m.value.state == BootFb
    ensures Accepts(m, Begin(owner, adapter)) ==>
      var n, mine := After(m, Begin(owner, adapter)), o == owner && g == Apply(m, Begin(owner, adapter)).1.value;
      && (Accepts(n, Commit(o, g, software)) <==> mine) && (Accepts(n, Abort(o, g, reason)) <==> mine)
      && (Accepts(n, FailCommit(o, g)) <==> mine) && !Accepts(n, Begin(owner, adapter))
  {
  }

  /** A committed backend is the active owner; only a software mode may report mode results. */
  lemma CommitLaw(m: Manager, owner: nat, g: nat, software: bool, confirmed: bool)
    requires Sound(m) && Fresh(m) && Accepts(m, Commit(owner, g, software))
    ensures var n := After(m, Commit(owner, g, software));
      && MatchesActive(n, owner, g) && n.value.adapter == m.value.pendingAdapter
      && (Accepts(n, ModeResult(owner, g, confirmed)) <==> software)
      && Accepts(n, BeginRecovery(owner, g)) && Accepts(n, BeginDeviceReset(owner, g))
      && !Accepts(n, Commit(owner, g, software)) && !Accepts(n, RestoreBoot(owner, g))
      && n.value.reason == 0
  {
  }

  /** A failed commit leaves the backend its owner without a mode, until it recovers or a mode works. */
  lemma FailCommitLaw(m: Manager, owner: nat, g: nat, confirmed: bool)
    requires Sound(m) && Fresh(m) && Accepts(m, FailCommit(owner, g))
    ensures var n := After(m, FailCommit(owner, g));
      && MatchesActive(n, owner, g) && n.value.state == Unavailable && n.value.reason == 6
      && Accepts(n, BeginRecovery(owner, g)) && Accepts(n, ModeResult(owner, g, confirmed))
      && After(n, ModeResult(owner, g, true)).value.state == SoftwareNative
      && After(n, ModeResult(owner, g, false)).value.state == Unavailable
  {
  }

  /** A first preparation that aborts gives the boot framebuffer back; one of a recovery leaves its
      owner without a mode but able to recover again. */
  lemma AbortLaw(m: Manager, owner: nat, g: nat, reason: nat, other: nat, adapter: nat)
    requires Sound(m) && Fresh(m) && Accepts(m, Abort(owner, g, reason))
    ensures var n := After(m, Abort(owner, g, reason));
      && !Accepts(n, Commit(owner, g, false)) && n.value.owner == m.value.owner
      && (!m.recoveringPreparation ==>
           && n.value.state == BootFb && n.value.reason == reason
           && (m.value.policy == 0 && 0 < other <= MAX_OWNER && adapter != 0 ==> Accepts(n, Begin(other, adapter))))
      && (m.recoveringPreparation ==>
           && n.value.state == Unavailable && n.value.reason == 8
           && Accepts(n, BeginRecovery(n.value.owner, n.value.generation)))
  {
  }

  /** A recovery is granted to the active owner of a backend that is not already in one. */
  lemma RecoveryLaw(m: Manager, owner: nat, g: nat)
    requires Sound(m) && Fresh(m)
    ensures Accepts(m, BeginRecovery(owner, g)) <==>
      MatchesActive(m, owner, g) &&
      (m.value.state == Native || m.value.state == SoftwareNative || m.value.state == Unavailable)
    ensures Accepts(m, BeginRecovery(owner, g)) ==>
      var n, h := After(m, BeginRecovery(owner, g)), Apply(m, BeginRecovery(owner, g)).1.value;
      && Recovers(n, owner, h) && n.value.adapter == m.value.adapter
      && n.value.resetGeneration == m.value.resetGeneration + 1 && n.value.reason == 7
      && !Names(n, owner, g)
  {
  }

  /** What a recovering owner may do next. */
  predicate Recovers(n: Manager, owner: nat, h: nat) {
    && MatchesActive(n, owner, h)
    && Accepts(n, RestoreBoot(owner, h)) && Accepts(n, FinishTerminal(owner, h)) && Accepts(n, RecoveryFailed(owner, h))
    && !Accepts(n, BeginRecovery(owner, h)) && !Accepts(n, ModeResult(owner, h, true))
    && Accepts(n, BeginDeviceReset(owner, h))
  }

  /** A device reset recovers from every state with a token: it restarts a recovery, it adopts a
      preparation, or it is a recovery. */
  lemma ResetLaw(m: Manager, owner: nat, g: nat)
    requires Sound(m) && Fresh(m)
    ensures Accepts(m, BeginDeviceReset(owner, g)) <==>
      if m.value.state == Preparing then MatchesPending(m, owner, g)
      else MatchesActive(m, owner, g) && m.value.state != BootFb
    ensures Accepts(m, BeginDeviceReset(owner, g)) ==>
      var n, h := After(m, BeginDeviceReset(owner, g)), Apply(m, BeginDeviceReset(owner, g)).1.value;
      && MatchesActive(n, owner, h) && n.value.state == Recovering && !Names(n, owner, g)
      && n.value.adapter == (if m.value.state == Preparing then m.value.pendingAdapter else m.value.adapter)
      && n.value.resetGeneration > m.value.resetGeneration
  {
  }

  /** A restored boot framebuffer has no owner; its last owner, and nobody else, may still reset its
      device, once, and a new driver may begin. */
  lemma RestoreLaw(m: Manager, owner: nat, g: nat, o: nat, h: nat, a: nat)
    requires Sound(m) && Fresh(m) && Accepts(m, RestoreBoot(owner, g))
    ensures var n := After(m, RestoreBoot(owner, g));
      && n.value.state == BootFb && !MatchesActive(n, o, h) && n.value.policy == m.value.policy
      && (Accepts(n, BeginRestoredReset(o, h, a)) <==>
           o == owner && h == n.serial && a == m.value.adapter && a != 0)
      && (Accepts(n, BeginRestoredReset(o, h, a)) ==>
           var r := After(n, BeginRestoredReset(o, h, a));
           && MatchesActive(r, owner, r.serial) && r.value.state == Recovering && r.value.adapter == m.value.adapter
           && !Accepts(r, BeginRestoredReset(o, h, a)))
      && (m.value.policy == 0 && 0 < o <= MAX_OWNER && a != 0 ==> Accepts(n, Begin(o, a)))
  {
  }

  /** A terminal finish leaves no token at all, and no way to begin. */
  lemma FinishLaw(m: Manager, owner: nat, g: nat, o: nat, h: nat, a: nat, policy: nat)
    requires Sound(m) && Fresh(m) && Accepts(m, FinishTerminal(owner, g))
    ensures var n := After(m, FinishTerminal(owner, g));
      && !Names(n, o, h) && !Accepts(n, Begin(o, a)) && n.value.state == Unavailable
      && n.value.resetGeneration == m.value.resetGeneration && Accepts(n, SetPolicy(policy))
  {
  }

  /** A failed recovery keeps its owner and token, and may be tried again. */
  lemma RecoveryFailedLaw(m: Manager, owner: nat, g: nat)
    requires Sound(m) && Fresh(m) && Accepts(m, RecoveryFailed(owner, g))
    ensures var n := After(m, RecoveryFailed(owner, g));
      MatchesActive(n, owner, g) && n.value.state == Unavailable && n.value.reason == 8
      && Accepts(n, BeginRecovery(owner, g)) && !Accepts(n, RestoreBoot(owner, g))
  {
  }

  /** A recovering owner prepares its adapter again: the new generation commits, and the old token stays
      the active one meanwhile. */
  lemma RepreparesLaw(m: Manager, owner: nat, g: nat, adapter: nat, o: nat, h: nat)
    requires Sound(m) && Fresh(m)
    ensures Accepts(m, Reprepare(owner, g, adapter)) <==>
      MatchesActive(m, owner, g) && m.value.state == Recovering && adapter == m.value.adapter != 0
    ensures Accepts(m, Reprepare(owner, g, adapter)) ==>
      var n := After(m, Reprepare(owner, g, adapter));
      && MatchesActive(n, owner, g) && n.recoveringPreparation
      && (Accepts(n, Commit(o, h, false)) <==> o == owner && h == Apply(m, Reprepare(owner, g, adapter)).1.value)
  {
  }

  /** The policy is changed exactly while nobody owns or prepares the display, and turns drivers away. */
  lemma PolicyLaw(m: Manager, policy: nat, owner: nat, adapter: nat)
    requires Sound(m) && Fresh(m)
    ensures Accepts(m, SetPolicy(policy)) <==>
      m.value.owner == 0 && (m.value.state == BootFb || m.value.state == Unavailable)
    ensures Accepts(m, SetPolicy(policy)) && m.value.state == BootFb && 0 < owner <= MAX_OWNER && adapter != 0 ==>
      (Accepts(After(m, SetPolicy(policy)), Begin(owner, adapter)) <==> policy == 0)
    ensures Accepts(m, SetPolicy(policy)) ==>
      var v := After(m, SetPolicy(policy)).value;
      v.policy == policy && v.state == m.value.state && v.reason == if policy == 0 then 1 else 2
  {
  }

  /** A rejection is recorded exactly while the boot framebuffer waits for a driver, and changes only the
      reason. */
  lemma RejectLaw(m: Manager, reason: nat)
    requires m.value.revision < MAX
    ensures Accepts(m, Reject(reason))
    ensures var n, waits := After(m, Reject(reason)), m.value.state == BootFb && m.value.policy == 0;
      && (!waits ==> n == m)
      && (waits ==> n == m.(value := m.value.(reason := reason, revision := m.value.revision + 1)))
  {
  }

  /** Every accepted request is one revision, except a rejection nobody waits for, which changes
      nothing. */
  lemma RevisionLaw(m: Manager, op: Op)
    requires Accepts(m, op) && m.value.revision < MAX
    ensures After(m, op).value.revision == m.value.revision + 1 || (op.Reject? && After(m, op) == m)
    ensures op.Reject? ==> forall o: nat, g: nat :: Names(After(m, op), o, g) <==> Names(m, o, g)
  {
  }

  /** No request takes a counter beyond 64 bits, and none is refused as exhausted while both have room. */
  lemma ExhaustedLaw(m: Manager, op: Op)
    requires Sound(m) && m.serial <= MAX && m.value.resetGeneration <= MAX && m.value.revision <= MAX
    ensures var n := After(m, op); n.serial <= MAX && n.value.resetGeneration <= MAX && n.value.revision <= MAX
    ensures Apply(m, op).1 == Err(Exhausted) ==> m.serial == MAX || m.value.resetGeneration == MAX
  {
  }

  /** The token a request carries. */
  function TokenOf(op: Op): (nat, nat) {
    match op
    case Abort(o, g, _) => (o, g)
    case Commit(o, g, _) => (o, g)
    case FailCommit(o, g) => (o, g)
    case BeginRecovery(o, g) => (o, g)
    case BeginDeviceReset(o, g) => (o, g)
    case BeginRestoredReset(o, g, _) => (o, g)
    case Reprepare(o, g, _) => (o, g)
    case RecoveryFailed(o, g) => (o, g)
    case RestoreBoot(o, g) => (o, g)
    case FinishTerminal(o, g) => (o, g)
    case ModeResult(o, g, _) => (o, g)
    case _ => (0, 0)
  }

  /** A request whose token names nothing is stale, and one whose token names the active owner never is,
      unless it is a request of a preparation or speaks of another adapter. */
  lemma StaleLaw(m: Manager, op: Op)
    requires Sound(m) && !op.SetPolicy? && !op.Reject? && !op.Begin?
    ensures !Names(m, TokenOf(op).0, TokenOf(op).1) && !op.BeginRestoredReset? ==> Apply(m, op).1 == Err(Stale)
    ensures MatchesActive(m, TokenOf(op).0, TokenOf(op).1) && m.value.state != Preparing && !op.BeginRestoredReset?
        && !op.Abort? && !op.Commit? && !op.FailCommit? && (op.Reprepare? ==> op.adapter == m.value.adapter != 0)
      ==> Apply(m, op).1 != Err(Stale)
  {
  }

  /** Why a driver may not begin. */
  lemma BeginRefused(m: Manager, owner: nat, adapter: nat)
    requires Fresh(m)
    ensures Apply(m, Begin(owner, adapter)).1 == Err(Invalid) <==> owner == 0 || owner > MAX_OWNER || adapter == 0
    ensures Apply(m, Begin(owner, adapter)).1 == Err(Disabled) <==>
      0 < owner <= MAX_OWNER && adapter != 0 && m.value.policy != 0
  {
  }
}
