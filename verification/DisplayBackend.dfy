/** The display backend manager: which driver owns the display, and which tokens prove it. */
module DisplayBackend {

  const MAX: nat := 0xFFFF_FFFF_FFFF_FFFF
  const MAX_OWNER: nat := 0xFFFF_FFFF

  datatype Life = Unavailable | BootFb | Preparing | Native | SoftwareNative | Recovering
  datatype Error = Invalid | Disabled | Busy | Stale | Exhausted
  datatype Outcome = Ok(value: nat) | Err(error: Error)

  datatype Snapshot = Snapshot(
    state: Life, policy: nat, reason: nat, revision: nat, generation: nat, resetGeneration: nat,
    owner: nat, adapter: nat, pendingOwner: nat, pendingAdapter: nat, pendingGeneration: nat)

  const DEFAULT := Snapshot(Unavailable, 0, 1, 0, 0, 0, 0, 0, 0, 0, 0)

  datatype Restored = Restored(owner: nat, adapter: nat, generation: nat)

  datatype Manager = Manager(
    value: Snapshot, serial: nat, recoveringPreparation: bool, hasRestored: bool, restored: Restored)

  const BOOT := Manager(DEFAULT.(state := BootFb, revision := 1, generation := 1), 1, false, false, Restored(0, 0, 0))

  /** Every request of a display driver. */
  datatype Op =
    | SetPolicy(policy: nat)
    | Reject(reason: nat)
    | Begin(owner: nat, adapter: nat)
    | Abort(owner: nat, generation: nat, reason: nat)
    | Commit(owner: nat, generation: nat, software: bool)
    | FailCommit(owner: nat, generation: nat)
    | BeginRecovery(owner: nat, generation: nat)
    | BeginDeviceReset(owner: nat, generation: nat)
    | BeginRestoredReset(owner: nat, generation: nat, adapter: nat)
    | Reprepare(owner: nat, generation: nat, adapter: nat)
    | RecoveryFailed(owner: nat, generation: nat)
    | RestoreBoot(owner: nat, generation: nat)
    | FinishTerminal(owner: nat, generation: nat)
    | ModeResult(owner: nat, generation: nat, confirmed: bool)

  // ----- the tokens

  predicate MatchesPending(m: Manager, owner: nat, generation: nat) {
    && owner != 0 && generation != 0 && m.value.state == Preparing
    && m.value.pendingOwner == owner && m.value.pendingGeneration == generation
  }

  predicate MatchesActive(m: Manager, owner: nat, generation: nat) {
    owner != 0 && generation != 0 && m.value.owner == owner && m.value.generation == generation
  }

  /** The token of the last owner of a restored boot framebuffer. */
  predicate MatchesRestored(m: Manager, owner: nat, generation: nat, adapter: nat) {
    && m.hasRestored && m.value.state == BootFb && m.value.owner == 0 && m.value.pendingOwner == 0
    && m.value.generation == generation && m.restored == Restored(owner, adapter, generation)
    && owner != 0 && adapter != 0
  }

  // ----- the requests on values

  function Changed(v: Snapshot): Snapshot {
    v.(revision := if v.revision < MAX then v.revision + 1 else MAX)
  }

  function Adopted(v: Snapshot): Snapshot {
    v.(
      owner := v.pendingOwner, adapter := v.pendingAdapter, generation := v.pendingGeneration,
      resetGeneration := if v.resetGeneration == 0 then 1 else v.resetGeneration,
      pendingOwner := 0, pendingAdapter := 0, pendingGeneration := 0)
  }

  /** A preparation in flight, under the given generation. */
  function Prepared(v: Snapshot, owner: nat, adapter: nat, generation: nat): Snapshot {
    v.(state := Preparing, pendingOwner := owner, pendingAdapter := adapter, pendingGeneration := generation)
  }

  /** A recovery that starts from the given snapshot with the next generation. */
  function Recover(m: Manager, v: Snapshot): (Manager, Outcome) {
    if v.resetGeneration == MAX || m.serial == MAX then (m, Err(Exhausted))
    else
      var next := v.(
        generation := m.serial + 1, resetGeneration := v.resetGeneration + 1,
        state := Recovering, reason := 7);
      (m.(value := Changed(next), serial := m.serial + 1), Ok(m.serial + 1))
  }

  function Recovery(m: Manager, owner: nat, generation: nat): (Manager, Outcome) {
    if !MatchesActive(m, owner, generation) then (m, Err(Stale))
    else if m.value.state != Native && m.value.state != SoftwareNative && m.value.state != Unavailable
    then (m, Err(Busy))
    else Recover(m, m.value)
  }

  function Apply(m: Manager, op: Op): (Manager, Outcome) {
    var v := m.value;
    match op
    case SetPolicy(policy) =>
      if (v.state != BootFb && v.state != Unavailable) || v.owner != 0 || v.pendingOwner != 0 then (m, Err(Busy))
      else (m.(value := Changed(v.(policy := policy, reason := if policy == 0 then 1 else 2))), Ok(0))
    case Reject(reason) =>
      if v.state != BootFb || v.policy != 0 then (m, Ok(0)) else (m.(value := Changed(v.(reason := reason))), Ok(0))
    case Begin(owner, adapter) =>
      if owner == 0 || owner > MAX_OWNER || adapter == 0 then (m, Err(Invalid))
      else if v.policy != 0 then (m, Err(Disabled))
      else if v.state != BootFb then (m, Err(Busy))
      else if m.serial == MAX then (m, Err(Exhausted))
      else (m.(value := Changed(Prepared(v, owner, adapter, m.serial + 1)), serial := m.serial + 1),
            Ok(m.serial + 1))
    case Abort(owner, generation, reason) =>
      if !MatchesPending(m, owner, generation) then (m, Err(Stale))
      else
        var next := v.(
          state := if m.recoveringPreparation then Unavailable else BootFb,
          reason := if m.recoveringPreparation then 8 else reason,
          pendingOwner := 0, pendingAdapter := 0, pendingGeneration := 0);
        (m.(value := Changed(next), recoveringPreparation := false), Ok(0))
    case Commit(owner, generation, software) =>
      if !MatchesPending(m, owner, generation) then (m, Err(Stale))
      else (m.(value := Changed(Adopted(v).(state := if software then SoftwareNative else Native, reason := 0)),
               recoveringPreparation := false),
            Ok(0))
    case FailCommit(owner, generation) =>
      if !MatchesPending(m, owner, generation) then (m, Err(Stale))
      else (m.(value := Changed(Adopted(v).(state := Unavailable, reason := 6)), recoveringPreparation := false), Ok(0))
    case BeginRecovery(owner, generation) => Recovery(m, owner, generation)
    case BeginDeviceReset(owner, generation) =>
      if v.state == Recovering then
        if !MatchesActive(m, owner, generation) then (m, Err(Stale))
        else if v.resetGeneration == MAX || m.serial == MAX then (m, Err(Exhausted))
        else
          var next := v.(generation := m.serial + 1, resetGeneration := v.resetGeneration + 1);
          (m.(value := Changed(next), serial := m.serial + 1), Ok(m.serial + 1))
      else if v.state != Preparing then Recovery(m, owner, generation)
      else if !MatchesPending(m, owner, generation) then (m, Err(Stale))
      else
        var r := Recover(m, Adopted(v));
        if r.1.Ok? then (r.0.(recoveringPreparation := false), r.1) else r
    case BeginRestoredReset(owner, generation, adapter) =>
      if !MatchesRestored(m, owner, generation, adapter) then (m, Err(Stale))
      else
        var r := Recover(m, v.(owner := owner, adapter := adapter));
        if r.1.Ok? then (r.0.(hasRestored := false), r.1) else r
    case Reprepare(owner, generation, adapter) =>
      if !MatchesActive(m, owner, generation) then (m, Err(Stale))
      else if v.state != Recovering then (m, Err(Busy))
      else if adapter == 0 || adapter != v.adapter then (m, Err(Stale))
      else if m.serial == MAX then (m, Err(Exhausted))
      else (m.(value := Changed(Prepared(v, owner, adapter, m.serial + 1)),
               serial := m.serial + 1, recoveringPreparation := true),
            Ok(m.serial + 1))
    case RecoveryFailed(owner, generation) =>
      if !MatchesActive(m, owner, generation) then (m, Err(Stale))
      else if v.state != Recovering then (m, Err(Busy))
      else (m.(value := Changed(v.(state := Unavailable, reason := 8))), Ok(0))
    case RestoreBoot(owner, generation) =>
      if !MatchesActive(m, owner, generation) then (m, Err(Stale))
      else if v.state != Recovering then (m, Err(Busy))
      else if m.serial == MAX then (m, Err(Exhausted))
      else
        var next := DEFAULT.(
          state := BootFb, policy := v.policy, reason := 7,
          revision := v.revision, generation := m.serial + 1);
        (m.(value := Changed(next), serial := m.serial + 1,
            hasRestored := true, restored := Restored(owner, v.adapter, m.serial + 1)),
         Ok(0))
    case FinishTerminal(owner, generation) =>
      if !MatchesActive(m, owner, generation) then (m, Err(Stale))
      else if v.state != Recovering then (m, Err(Busy))
      else if m.serial == MAX then (m, Err(Exhausted))
      else
        var next := DEFAULT.(
          policy := v.policy, reason := 7, revision := v.revision,
          generation := m.serial + 1, resetGeneration := v.resetGeneration);
        (m.(value := Changed(next), serial := m.serial + 1, recoveringPreparation := false), Ok(0))
    case ModeResult(owner, generation, confirmed) =>
      if !MatchesActive(m, owner, generation) then (m, Err(Stale))
      else if v.state != SoftwareNative && v.state != Unavailable then (m, Err(Busy))
      else
        var state, reason := if confirmed then SoftwareNative else Unavailable, if confirmed then 0 else 6;
        (m.(value := Changed(v.(state := state, reason := reason))), Ok(0))
  }

  function Run(m: Manager, ops: seq<Op>): Manager
    decreases |ops|
  {
    if ops == [] then m else Run(Apply(m, ops[0]).0, ops[1..])
  }

  // ----- what every request keeps

  predicate Sound(m: Manager) {
    var v := m.value;
    && (v.state == Preparing <==> v.pendingOwner != 0)
    && (v.state == BootFb ==> v.owner == 0)
    && (v.state == Native || v.state == SoftwareNative || v.state == Recovering ==> v.owner != 0)
    && (m.recoveringPreparation ==> v.state == Preparing && v.owner != 0)
    && (v.state == Preparing && !m.recoveringPreparation ==> v.owner == 0)
    && 0 < v.generation <= m.serial && v.pendingGeneration <= m.serial
    && (v.state == Preparing ==> v.pendingGeneration > v.generation && v.pendingAdapter != 0)
    && (v.state != Preparing ==> v.pendingGeneration == 0 && v.pendingAdapter == 0)
    && (m.hasRestored ==> m.restored.generation <= m.serial)
  }

  /** The pair names the active or the pending slot. */
  predicate Names(m: Manager, owner: nat, generation: nat) {
    MatchesActive(m, owner, generation) || MatchesPending(m, owner, generation)
  }

  lemma BootSound()
    ensures Sound(BOOT)
  {
  }

  lemma ApplySound(m: Manager, op: Op)
    requires Sound(m)
    ensures Sound(Apply(m, op).0)
  {
  }

  /** A refused request changes nothing; a granted generation is new and strictly larger than all
      before it. */
  lemma ApplyGrants(m: Manager, op: Op)
    requires Sound(m)
    ensures var r := Apply(m, op);
      && (r.1.Err? ==> r.0 == m)
      && m.serial <= r.0.serial <= m.serial + 1
      && (r.1.Ok? && r.1.value != 0 ==>
           r.1.value == r.0.serial == m.serial + 1 && exists owner :: Names(r.0, owner, r.1.value))
  {
    var r := Apply(m, op);
    if r.1.Ok? && r.1.value != 0 {
      assert Names(r.0, if r.0.value.state == Preparing then r.0.value.pendingOwner else r.0.value.owner, r.1.value);
    }
  }

  /** No request revives an old pair: whatever is named afterwards was named before, or carries a
      generation that did not exist. */
  lemma NoRevival(m: Manager, op: Op, owner: nat, generation: nat)
    requires Sound(m) && Names(Apply(m, op).0, owner, generation)
    ensures Names(m, owner, generation) || generation > m.serial
  {
  }

  lemma {:induction false} RunSound(m: Manager, ops: seq<Op>)
    requires Sound(m)
    ensures Sound(Run(m, ops)) && m.serial <= Run(m, ops).serial
    decreases |ops|
  {
    hide Sound, Apply;
    if ops != [] {
      ApplySound(m, ops[0]);
      ApplyGrants(m, ops[0]);
      RunSound(Apply(m, ops[0]).0, ops[1..]);
    }
  }

  /** Over every run from boot: a pair with an issued generation that names neither slot never
      names one again. */
  lemma {:induction false} StaleForGood(m: Manager, ops: seq<Op>, owner: nat, generation: nat)
    requires Sound(m) && generation <= m.serial && !Names(m, owner, generation)
    ensures !Names(Run(m, ops), owner, generation)
    decreases |ops|
  {
    hide Sound, Apply, Names;
    if ops != [] {
      ApplySound(m, ops[0]);
      ApplyGrants(m, ops[0]);
      if Names(Apply(m, ops[0]).0, owner, generation) {
        NoRevival(m, ops[0], owner, generation);
        assert false;
      }
      StaleForGood(Apply(m, ops[0]).0, ops[1..], owner, generation);
    }
  }

  /** The restored-boot token is kept while a preparation is tried, and may be used again after it
      was aborted. */
  predicate KeepsRestored(m: Manager, owner: nat, generation: nat, adapter: nat) {
    m.hasRestored && m.restored == Restored(owner, adapter, generation) && m.value.generation == generation &&
        m.value.owner == 0
  }

  lemma RestoredStep(m: Manager, op: Op, owner: nat, generation: nat, adapter: nat)
    requires Sound(m) && KeepsRestored(Apply(m, op).0, owner, generation, adapter)
    ensures KeepsRestored(m, owner, generation, adapter) || generation > m.serial
  {
  }

  /** Once spent or overtaken, the restored-boot token never matches again. */
  lemma {:induction false} RestoredSpent(m: Manager, ops: seq<Op>, owner: nat, generation: nat, adapter: nat)
    requires Sound(m) && generation <= m.serial && !KeepsRestored(m, owner, generation, adapter)
    ensures !MatchesRestored(Run(m, ops), owner, generation, adapter)
    decreases |ops|
  {
    if ops != [] {
      ApplySound(m, ops[0]);
      ApplyGrants(m, ops[0]);
      hide Sound, Apply, KeepsRestored, MatchesRestored;
      if KeepsRestored(Apply(m, ops[0]).0, owner, generation, adapter) {
        RestoredStep(m, ops[0], owner, generation, adapter);
        assert false;
      }
      RestoredSpent(Apply(m, ops[0]).0, ops[1..], owner, generation, adapter);
    }
  }

  /** From boot, for every run: the life-cycle states have the owners they promise. */
  lemma RunFromBoot(ops: seq<Op>)
    ensures var v := Run(BOOT, ops).value;
      && (v.state == Preparing <==> v.pendingOwner != 0)
      && (v.state == BootFb ==> v.owner == 0)
      && (v.state == Native || v.state == SoftwareNative || v.state == Recovering ==> v.owner != 0)
  {
    BootSound();
    RunSound(BOOT, ops);
  }
}
