/** The display backend manager as an object updated in place. */
module DisplayManager {
  import opened DisplayBackend

  class BackendManager {
    var value: Snapshot
    var serial: nat
    var recoveringPreparation: bool
    var hasRestored: bool
    var restored: Restored

    function Value(): Manager
      reads this
    {
      Manager(value, serial, recoveringPreparation, hasRestored, restored)
    }

    /** The laws of every manager that started from boot. */
    predicate Valid()
      reads this
    {
      Sound(Value())
    }

    /** init_boot. */
    constructor ()
      ensures Value() == BOOT && Valid()
    {
      value, serial := DEFAULT.(state := BootFb, revision := 1, generation := 1), 1;
      recoveringPreparation, hasRestored, restored := false, false, Restored(0, 0, 0);
    }

    method NextGeneration() returns (r: Outcome)
      modifies this`serial
      ensures old(serial) == MAX ==> r == Err(Exhausted) && serial == MAX
      ensures old(serial) != MAX ==> r == Ok(old(serial) + 1) && serial == old(serial) + 1
      ensures old(Valid()) ==> Valid()
    {
      if serial == MAX { return Err(Exhausted); }
      serial := serial + 1;
      return Ok(serial);
    }

    method MarkChanged()
      modifies this`value
      ensures value == Changed(old(value))
    {
      value := value.(revision := if value.revision < MAX then value.revision + 1 else MAX);
    }

    method ClearPending()
      modifies this`value
      ensures value == old(value).(pendingOwner := 0, pendingAdapter := 0, pendingGeneration := 0)
    {
      value := value.(pendingOwner := 0, pendingAdapter := 0, pendingGeneration := 0);
    }

    method AdoptPending()
      modifies this`value, this`recoveringPreparation
      ensures value == Adopted(old(value)) && !recoveringPreparation
    {
      value := value.(
        owner := value.pendingOwner, adapter := value.pendingAdapter, generation := value.pendingGeneration);
      if value.resetGeneration == 0 { value := value.(resetGeneration := 1); }
      recoveringPreparation := false;
      ClearPending();
    }

    method ChangePolicy(policy: nat) returns (r: Outcome)
      requires Valid() && policy <= 2
      modifies this`value
      ensures Valid() && (Value(), r) == Apply(old(Value()), SetPolicy(policy))
    {
      hide Sound;
      ApplySound(Value(), SetPolicy(policy));
      if (value.state != BootFb && value.state != Unavailable) || value.owner != 0 ||
        value.pendingOwner != 0 { return Err(Busy); }
      value := value.(policy := policy, reason := if policy == 0 then 1 else 2);
      MarkChanged();
      return Ok(0);
    }

    method NoteReject(reason: nat) returns (r: Outcome)
      requires Valid() && reason <= 8
      modifies this`value
      ensures Valid() && (Value(), r) == Apply(old(Value()), Reject(reason))
    {
      hide Sound;
      ApplySound(Value(), Reject(reason));
      if value.state != BootFb || value.policy != 0 { return Ok(0); }
      value := value.(reason := reason);
      MarkChanged();
      return Ok(0);
    }

    method BeginPreparation(owner: nat, adapter: nat) returns (r: Outcome)
      requires Valid()
      modifies this
      ensures Valid() && (Value(), r) == Apply(old(Value()), Begin(owner, adapter))
    {
      hide Sound;
      ApplySound(Value(), Begin(owner, adapter));
      if owner == 0 || owner > MAX_OWNER || adapter == 0 { return Err(Invalid); }
      if value.policy != 0 { return Err(Disabled); }
      if value.state != BootFb { return Err(Busy); }
      r := NextGeneration();
      if r.Err? { return; }
      value := value.(
        state := Preparing,
        pendingOwner := owner, pendingAdapter := adapter, pendingGeneration := r.value);
      MarkChanged();
    }

    method AbortPreparation(owner: nat, generation: nat, reason: nat) returns (r: Outcome)
      requires Valid() && reason <= 8
      modifies this
      ensures Valid() && (Value(), r) == Apply(old(Value()), Abort(owner, generation, reason))
    {
      hide Sound;
      ApplySound(Value(), Abort(owner, generation, reason));
      if !MatchesPending(Value(), owner, generation) { return Err(Stale); }
      value := value.(
        state := if recoveringPreparation then Unavailable else BootFb,
        reason := if recoveringPreparation then 8 else reason);
      recoveringPreparation := false;
      ClearPending();
      MarkChanged();
      return Ok(0);
    }

    method CommitPreparation(owner: nat, generation: nat, software: bool) returns (r: Outcome)
      requires Valid()
      modifies this
      ensures Valid() && (Value(), r) == Apply(old(Value()), Commit(owner, generation, software))
    {
      hide Sound;
      ApplySound(Value(), Commit(owner, generation, software));
      if !MatchesPending(Value(), owner, generation) { return Err(Stale); }
      AdoptPending();
      value := value.(state := if software then SoftwareNative else Native, reason := 0);
      MarkChanged();
      return Ok(0);
    }

    method FailPreparation(owner: nat, generation: nat) returns (r: Outcome)
      requires Valid()
      modifies this
      ensures Valid() && (Value(), r) == Apply(old(Value()), FailCommit(owner, generation))
    {
      hide Sound;
      ApplySound(Value(), FailCommit(owner, generation));
      if !MatchesPending(Value(), owner, generation) { return Err(Stale); }
      AdoptPending();
      value := value.(state := Unavailable, reason := 6);
      MarkChanged();
      return Ok(0);
    }

    method StartRecovery(owner: nat, generation: nat) returns (r: Outcome)
      requires Valid()
      modifies this
      ensures Valid() && (Value(), r) == Apply(old(Value()), BeginRecovery(owner, generation))
    {
      hide Sound;
      ApplySound(Value(), BeginRecovery(owner, generation));
      if !MatchesActive(Value(), owner, generation) { return Err(Stale); }
      if value.state != Native && value.state != SoftwareNative && value.state != Unavailable { return Err(Busy); }
      if value.resetGeneration == MAX { return Err(Exhausted); }
      r := NextGeneration();
      if r.Err? { return; }
      value := value.(
        generation := r.value, resetGeneration := value.resetGeneration + 1,
        state := Recovering, reason := 7);
      MarkChanged();
    }

    method StartDeviceReset(owner: nat, generation: nat) returns (r: Outcome)
      requires Valid()
      modifies this
      ensures Valid() && (Value(), r) == Apply(old(Value()), BeginDeviceReset(owner, generation))
    {
      hide Sound;
      ApplySound(Value(), BeginDeviceReset(owner, generation));
      if value.state == Recovering {
        if !MatchesActive(Value(), owner, generation) { return Err(Stale); }
        if value.resetGeneration == MAX { return Err(Exhausted); }
        r := NextGeneration();
        if r.Err? { return; }
        value := value.(generation := r.value, resetGeneration := value.resetGeneration + 1);
        MarkChanged();
        return;
      }
      if value.state != Preparing {
        r := StartRecovery(owner, generation);
        return;
      }
      if !MatchesPending(Value(), owner, generation) { return Err(Stale); }
      if value.resetGeneration == MAX { return Err(Exhausted); }
      r := NextGeneration();
      if r.Err? { return; }
      AdoptPending();
      value := value.(
        generation := r.value, resetGeneration := value.resetGeneration + 1,
        state := Recovering, reason := 7);
      MarkChanged();
    }

    method StartRestoredReset(owner: nat, generation: nat, adapter: nat) returns (r: Outcome)
      requires Valid()
      modifies this
      ensures Valid() && (Value(), r) == Apply(old(Value()), BeginRestoredReset(owner, generation, adapter))
    {
      hide Sound;
      ApplySound(Value(), BeginRestoredReset(owner, generation, adapter));
      if !MatchesRestored(Value(), owner, generation, adapter) { return Err(Stale); }
      if value.resetGeneration == MAX { return Err(Exhausted); }
      r := NextGeneration();
      if r.Err? { return; }
      value := value.(
        generation := r.value, resetGeneration := value.resetGeneration + 1,
        owner := owner, adapter := adapter,
        state := Recovering, reason := 7);
      hasRestored := false;
      MarkChanged();
    }

    method PrepareAgain(owner: nat, generation: nat, adapter: nat) returns (r: Outcome)
      requires Valid()
      modifies this
      ensures Valid() && (Value(), r) == Apply(old(Value()), Reprepare(owner, generation, adapter))
    {
      hide Sound;
      ApplySound(Value(), Reprepare(owner, generation, adapter));
      if !MatchesActive(Value(), owner, generation) { return Err(Stale); }
      if value.state != Recovering { return Err(Busy); }
      if adapter == 0 || adapter != value.adapter { return Err(Stale); }
      r := NextGeneration();
      if r.Err? { return; }
      value := value.(
        state := Preparing,
        pendingOwner := owner, pendingAdapter := adapter, pendingGeneration := r.value);
      recoveringPreparation := true;
      MarkChanged();
    }

    method NoteRecoveryFailed(owner: nat, generation: nat) returns (r: Outcome)
      requires Valid()
      modifies this
      ensures Valid() && (Value(), r) == Apply(old(Value()), RecoveryFailed(owner, generation))
    {
      hide Sound;
      ApplySound(Value(), RecoveryFailed(owner, generation));
      if !MatchesActive(Value(), owner, generation) { return Err(Stale); }
      if value.state != Recovering { return Err(Busy); }
      value := value.(state := Unavailable, reason := 8);
      MarkChanged();
      return Ok(0);
    }

    method ReturnToBoot(owner: nat, generation: nat) returns (r: Outcome)
      requires Valid()
      modifies this
      ensures Valid() && (Value(), r) == Apply(old(Value()), RestoreBoot(owner, generation))
    {
      hide Sound;
      ApplySound(Value(), RestoreBoot(owner, generation));
      if !MatchesActive(Value(), owner, generation) { return Err(Stale); }
      if value.state != Recovering { return Err(Busy); }
      r := NextGeneration();
      if r.Err? { return; }
      hasRestored := true;
      restored := Restored(owner, value.adapter, r.value);
      value := DEFAULT.(
        state := BootFb, policy := value.policy, reason := 7,
        revision := value.revision, generation := r.value);
      MarkChanged();
      return Ok(0);
    }

    method EndTerminal(owner: nat, generation: nat) returns (r: Outcome)
      requires Valid()
      modifies this
      ensures Valid() && (Value(), r) == Apply(old(Value()), FinishTerminal(owner, generation))
    {
      hide Sound;
      ApplySound(Value(), FinishTerminal(owner, generation));
      if !MatchesActive(Value(), owner, generation) { return Err(Stale); }
      if value.state != Recovering { return Err(Busy); }
      r := NextGeneration();
      if r.Err? { return; }
      value := DEFAULT.(
        policy := value.policy, reason := 7, revision := value.revision,
        generation := r.value, resetGeneration := value.resetGeneration);
      recoveringPreparation := false;
      MarkChanged();
      return Ok(0);
    }

    method NoteModeResult(owner: nat, generation: nat, confirmed: bool) returns (r: Outcome)
      requires Valid()
      modifies this
      ensures Valid() && (Value(), r) == Apply(old(Value()), ModeResult(owner, generation, confirmed))
    {
      hide Sound;
      ApplySound(Value(), ModeResult(owner, generation, confirmed));
      if !MatchesActive(Value(), owner, generation) { return Err(Stale); }
      if value.state != SoftwareNative && value.state != Unavailable { return Err(Busy); }
      value := value.(state := if confirmed then SoftwareNative else Unavailable, reason := if confirmed then 0 else 6);
      MarkChanged();
      return Ok(0);
    }
  }
}
