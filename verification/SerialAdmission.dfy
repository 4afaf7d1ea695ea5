/** The COM1 claim: who may touch the port, while writers, closers, emergency callers and the
    initializer run in any interleaving.  One step is one access to PHASE, WRITERS or the serial
    owner (a mutex, reentrant for its holder). */
module SerialAdmission {

  datatype Phase = Cold | Active | Closing | Released | Failed | Starting

  /** Who holds the serial owner. */
  datatype Owner = Nobody | ByWriter(i: nat) | ByCloser(i: nat) | ByInit(i: nat) | ByOther

  /** The nested flush of a sync call, made with the owner held and a writer admitted. */
  datatype NestedPc = NoNested | NestedCheck | NestedLoad | NestedCount | NestedRecheck | NestedUndo | NestedUse

  /** write, drain, flush and sync. */
  datatype WriterPc =
    | Outside
    | Acquire                    // saw an active port, waits for the owner
    | Load                       // holds the owner, first look at the phase
    | Count                      // saw Active
    | Recheck                    // counted, second look at the phase
    | Undo                       // counted, but the port is no longer active
    | Using(nested: NestedPc)    // admitted
    | Release                    // the writer is dropped, the owner is not

  /** close_after_boot and close_result. */
  datatype CloserPc =
    | Away
    | Waiting                    // admission closed, waits for the writers
    | Info | InfoHeld            // no writers: reads the UART description under the owner
    | Draining | DrainHeld       // transmits the rest and the closing message
    | LastPoll                   // waits until the transmitter is empty
    | Result(released: bool) | ResultHeld(released: bool)
    | FinishPhase(released: bool) | FinishWriters(released: bool) | FinishStore(released: bool)
    | Finished

  datatype EmergencyPc = Calm | Claimed | Lease | Denied

  datatype InitPc = Unborn | Programming | Describe | DescribeHeld | Publish | Ready

  datatype State = State(
    phase: Phase, writers: nat, owner: Owner,
    threads: seq<WriterPc>, closers: seq<CloserPc>, emergencies: seq<EmergencyPc>, inits: seq<InitPc>)

  datatype Step =
    | WriterStep(i: nat, more: bool)    // `more`: a sync call flushes, an admitted writer goes on
    | CloserStep(i: nat, pick: bool)    // `pick`: the budget or the UART allows it
    | EmergencyStep(i: nat)
    | InitStep(i: nat)
    | OtherStep                         // some other holder of the owner

  function SetWriter(s: State, i: nat, pc: WriterPc): State
    requires i < |s.threads|
  {
    s.(threads := s.threads[i := pc])
  }

  function NestedNext(s: State, i: nat, nested: NestedPc, more: bool): State
    requires i < |s.threads|
  {
    match nested
    case NoNested =>
      if more then SetWriter(s, i, Using(NestedCheck))
      else SetWriter(s, i, Release).(writers := if s.writers > 0 then s.writers - 1 else 0)
    case NestedCheck => SetWriter(s, i, Using(if s.phase == Active then NestedLoad else NoNested))
    case NestedLoad => SetWriter(s, i, Using(if s.phase == Active then NestedCount else NoNested))
    case NestedCount => SetWriter(s, i, Using(NestedRecheck)).(writers := s.writers + 1)
    case NestedRecheck => SetWriter(s, i, Using(if s.phase == Active then NestedUse else NestedUndo))
    case NestedUndo => SetWriter(s, i, Using(NoNested)).(writers := if s.writers > 0 then s.writers - 1 else 0)
    case NestedUse => SetWriter(s, i, Using(NoNested)).(writers := if s.writers > 0 then s.writers - 1 else 0)
  }

  function WriterNext(s: State, i: nat, more: bool): State
    requires i < |s.threads|
  {
    match s.threads[i]
    case Outside => if s.phase == Active then SetWriter(s, i, Acquire) else s
    case Acquire => if s.owner == Nobody then SetWriter(s, i, Load).(owner := ByWriter(i)) else s
    case Load => SetWriter(s, i, if s.phase == Active then Count else Release)
    case Count => SetWriter(s, i, Recheck).(writers := s.writers + 1)
    case Recheck => SetWriter(s, i, if s.phase == Active then Using(NoNested) else Undo)
    case Undo => SetWriter(s, i, Release).(writers := if s.writers > 0 then s.writers - 1 else 0)
    case Using(nested) => NestedNext(s, i, nested, more)
    case Release => SetWriter(s, i, Outside).(owner := Nobody)
  }

  function SetCloser(s: State, i: nat, pc: CloserPc): State
    requires i < |s.closers|
  {
    s.(closers := s.closers[i := pc])
  }

  function CloserNext(s: State, i: nat, pick: bool): State
    requires i < |s.closers|
  {
    match s.closers[i]
    case Away => if s.phase == Active then SetCloser(s, i, Waiting).(phase := Closing) else s
    case Waiting => if s.writers == 0 then SetCloser(s, i, Info) else if pick then s else SetCloser(s, i, Result(false))
    case Info => if s.owner == Nobody then SetCloser(s, i, InfoHeld).(owner := ByCloser(i)) else s
    case InfoHeld => SetCloser(s, i, if pick then Draining else Result(false)).(owner := Nobody)
    case Draining =>
      if pick then (if s.owner == Nobody then SetCloser(s, i, DrainHeld).(owner := ByCloser(i)) else s)
      else SetCloser(s, i, Result(false))
    case DrainHeld => SetCloser(s, i, if pick then Draining else LastPoll).(owner := Nobody)
    case LastPoll => SetCloser(s, i, Result(pick))
    case Result(released) =>
      if !released && s.writers != 0 then SetCloser(s, i, FinishPhase(false))
      else if s.owner == Nobody then SetCloser(s, i, ResultHeld(released)).(owner := ByCloser(i)) else s
    case ResultHeld(released) => SetCloser(s, i, FinishPhase(released)).(owner := Nobody)
    case FinishPhase(released) => SetCloser(s, i, if released then FinishWriters(true) else FinishStore(false))
    case FinishWriters(released) => SetCloser(s, i, FinishStore(released))
    case FinishStore(released) => SetCloser(s, i, Finished).(phase := if released then Released else Failed)
    case Finished => s
  }

  function EmergencyNext(s: State, i: nat): State
    requires i < |s.emergencies|
  {
    match s.emergencies[i]
    case Calm =>
      if s.phase == Active then s.(phase := Failed, emergencies := s.emergencies[i := Claimed])
      else s.(emergencies := s.emergencies[i := Denied])
    case Claimed => s.(emergencies := s.emergencies[i := if s.writers == 0 then Lease else Denied])
    case Lease => s
    case Denied => s
  }

  function InitNext(s: State, i: nat): State
    requires i < |s.inits|
  {
    match s.inits[i]
    case Unborn => if s.phase == Cold then s.(phase := Starting, inits := s.inits[i := Programming]) else s
    case Programming => s.(inits := s.inits[i := Describe])
    case Describe => if s.owner == Nobody then s.(owner := ByInit(i), inits := s.inits[i := DescribeHeld]) else s
    case DescribeHeld => s.(owner := Nobody, inits := s.inits[i := Publish])
    case Publish => s.(phase := Active, inits := s.inits[i := Ready])
    case Ready => s
  }

  function Next(s: State, step: Step): State {
    match step
    case WriterStep(i, more) => if i < |s.threads| then WriterNext(s, i, more) else s
    case CloserStep(i, pick) => if i < |s.closers| then CloserNext(s, i, pick) else s
    case EmergencyStep(i) => if i < |s.emergencies| then EmergencyNext(s, i) else s
    case InitStep(i) => if i < |s.inits| then InitNext(s, i) else s
    case OtherStep =>
      if s.owner == Nobody then s.(owner := ByOther) else if s.owner == ByOther then s.(owner := Nobody) else s
  }

  function Run(s: State, steps: seq<Step>): State
    decreases |steps|
  {
    if steps == [] then s else Run(Next(s, steps[0]), steps[1..])
  }

  predicate Boot(s: State) {
    && s.phase == Cold && s.writers == 0 && s.owner == Nobody
    && (forall i :: 0 <= i < |s.threads| ==> s.threads[i] == Outside)
    && (forall i :: 0 <= i < |s.closers| ==> s.closers[i] == Away)
    && (forall i :: 0 <= i < |s.emergencies| ==> s.emergencies[i] == Calm)
    && (forall i :: 0 <= i < |s.inits| ==> s.inits[i] == Unborn)
  }

  // ----- what the program points mean

  /** How often this thread is counted in WRITERS. */
  function Counted(pc: WriterPc): nat {
    match pc
    case Recheck => 1
    case Undo => 1
    case Using(nested) => if nested.NestedRecheck? || nested.NestedUndo? || nested.NestedUse? then 2 else 1
    case _ => 0
  }

  predicate HoldsOwner(pc: WriterPc) {
    !pc.Outside? && !pc.Acquire?
  }

  /** Past a first look that saw an active port, so still able to raise WRITERS. */
  predicate Past(pc: WriterPc) {
    pc.Count? || Counted(pc) > 0
  }

  predicate InClose(pc: CloserPc) {
    !pc.Away? && !pc.Finished?
  }

  predicate CloserOwns(pc: CloserPc) {
    pc.InfoHeld? || pc.DrainHeld? || pc.ResultHeld?
  }

  /** The closer saw no writers, and has not given up on releasing the port. */
  predicate Drains(pc: CloserPc) {
    pc.Info? || pc.InfoHeld? || pc.Draining? || pc.DrainHeld? || pc.LastPoll?
  }

  /** The closer held the owner after it closed admission. */
  predicate Sealed(pc: CloserPc) {
    || pc.InfoHeld? || pc.Draining? || pc.DrainHeld? || pc.LastPoll? || pc.ResultHeld? || pc.FinishWriters?
    || (pc.Result? && pc.released) || (pc.FinishPhase? && pc.released) || (pc.FinishStore? && pc.released)
  }

  predicate Seized(pc: EmergencyPc) {
    pc.Claimed? || pc.Lease?
  }

  predicate Initializing(pc: InitPc) {
    !pc.Unborn? && !pc.Ready?
  }

  // ----- the users of the port

  datatype User = Writer(i: nat) | Closer(i: nat) | Emergency(i: nat) | Initializer(i: nat)

  /** This user executes port instructions. */
  predicate Uses(s: State, u: User) {
    match u
    case Writer(i) => i < |s.threads| && s.threads[i].Using?
    case Closer(i) => i < |s.closers| && (s.closers[i].Draining? || s.closers[i].DrainHeld? || s.closers[i].LastPoll?)
    case Emergency(i) => i < |s.emergencies| && s.emergencies[i].Lease?
    case Initializer(i) => i < |s.inits| && (s.inits[i].Programming? || s.inits[i].Describe?)
  }

  // ----- the invariant

  /** WRITERS counts the holder of the owner, and nobody else. */
  predicate WritersInv(s: State) {
    && (forall i :: 0 <= i < |s.threads| ==> (HoldsOwner(s.threads[i]) <==> s.owner == ByWriter(i)))
    && (s.owner.ByWriter? ==> s.owner.i < |s.threads|)
    && s.writers == if s.owner.ByWriter? && s.owner.i < |s.threads| then Counted(s.threads[s.owner.i]) else 0
  }

  predicate OwnersInv(s: State) {
    && (forall i :: 0 <= i < |s.closers| ==> (CloserOwns(s.closers[i]) <==> s.owner == ByCloser(i)))
    && (forall i :: 0 <= i < |s.inits| ==> (s.inits[i].DescribeHeld? <==> s.owner == ByInit(i)))
  }

  /** Each phase has its one maker. */
  predicate PhaseInv(s: State) {
    && (forall i :: 0 <= i < |s.closers| && InClose(s.closers[i]) ==> s.phase == Closing)
    && (forall i, j | 0 <= i < |s.closers| && 0 <= j < |s.closers| ::
          InClose(s.closers[i]) && InClose(s.closers[j]) ==> i == j)
    && (forall i :: 0 <= i < |s.emergencies| && Seized(s.emergencies[i]) ==> s.phase == Failed)
    && (forall i, j | 0 <= i < |s.emergencies| && 0 <= j < |s.emergencies| ::
          Seized(s.emergencies[i]) && Seized(s.emergencies[j]) ==> i == j)
    && (forall i :: 0 <= i < |s.inits| && Initializing(s.inits[i]) ==> s.phase == Starting)
    && (forall i, j | 0 <= i < |s.inits| && 0 <= j < |s.inits| ::
          Initializing(s.inits[i]) && Initializing(s.inits[j]) ==> i == j)
  }

  predicate NoWriterUses(s: State) {
    forall i :: 0 <= i < |s.threads| ==> !s.threads[i].Using?
  }

  predicate NoWriterPast(s: State) {
    forall i :: 0 <= i < |s.threads| ==> !Past(s.threads[i])
  }

  /** What closers, emergencies and the initializer rely on. */
  predicate PeaceInv(s: State) {
    && (forall i :: 0 <= i < |s.closers| && (Drains(s.closers[i]) || Sealed(s.closers[i])) ==> NoWriterUses(s))
    && (forall i :: 0 <= i < |s.closers| && Sealed(s.closers[i]) ==> NoWriterPast(s))
    && (forall i :: 0 <= i < |s.emergencies| && s.emergencies[i].Lease? ==> NoWriterUses(s))
    && (s.phase == Cold || s.phase == Starting || s.phase == Released ==> NoWriterPast(s))
    && (s.phase == Cold || s.phase == Starting ==>
          forall i :: 0 <= i < |s.threads| ==> s.threads[i].Outside?)
  }

  predicate Inv(s: State) {
    WritersInv(s) && OwnersInv(s) && PhaseInv(s) && PeaceInv(s)
  }

  lemma BootInv(s: State)
    requires Boot(s)
    ensures Inv(s)
  {
  }

  lemma WriterCounts(s: State, i: nat, more: bool)
    requires WritersInv(s) && i < |s.threads|
    ensures WritersInv(WriterNext(s, i, more))
    ensures Counted(s.threads[i]) <= s.writers
  {
  }

  /** A writer leaves everybody else's program point and the phase alone. */
  lemma WriterFrame(s: State, i: nat, more: bool)
    requires i < |s.threads|
    ensures var t := WriterNext(s, i, more);
      && t.phase == s.phase && t.closers == s.closers && t.emergencies == s.emergencies && t.inits == s.inits
      && (t.owner == s.owner || (s.owner == Nobody && t.owner == ByWriter(i)) ||
           (HoldsOwner(s.threads[i]) && t.owner == Nobody))
      && |t.threads| == |s.threads| && (forall j :: 0 <= j < |s.threads| && j != i ==> t.threads[j] == s.threads[j])
      && (t.threads[i].Using? ==> s.threads[i].Using? || s.phase == Active)
      && (Past(t.threads[i]) ==> Past(s.threads[i]) || s.phase == Active)
      && (!t.threads[i].Outside? ==> !s.threads[i].Outside? || s.phase == Active)
  {
  }

  lemma WriterKeeps(s: State, i: nat, more: bool)
    requires Inv(s) && i < |s.threads|
    ensures Inv(WriterNext(s, i, more))
  {
    WriterCounts(s, i, more);
    WriterFrame(s, i, more);
    hide WriterNext, Counted, Past, Sealed, Drains, CloserOwns;
  }

  /** A closer leaves everybody else alone. */
  lemma CloserFrame(s: State, i: nat, pick: bool)
    requires i < |s.closers|
    ensures var t := CloserNext(s, i, pick);
      && t.threads == s.threads && t.writers == s.writers && t.emergencies == s.emergencies && t.inits == s.inits
      && |t.closers| == |s.closers| && (forall j :: 0 <= j < |s.closers| && j != i ==> t.closers[j] == s.closers[j])
  {
  }

  /** It takes and gives back the owner as its program point says. */
  lemma CloserMovesOwner(s: State, i: nat, pick: bool)
    requires i < |s.closers|
    ensures |CloserNext(s, i, pick).closers| == |s.closers| && OwnerMoves(s, CloserNext(s, i, pick), i)
  {
  }

  /** It changes the phase only when it claims the port and when it finishes. */
  lemma CloserMovesPhase(s: State, i: nat, pick: bool)
    requires i < |s.closers|
    ensures |CloserNext(s, i, pick).closers| == |s.closers| && PhaseMoves(s, CloserNext(s, i, pick), i)
  {
  }

  predicate OwnerMoves(s: State, t: State, i: nat)
    requires i < |s.closers| && i < |t.closers|
  {
    var before, after := CloserOwns(s.closers[i]), CloserOwns(t.closers[i]);
    || (t.owner == s.owner && before == after)
    || (s.owner == Nobody && t.owner == ByCloser(i) && !before && after)
    || (t.owner == Nobody && before && !after)
  }

  predicate PhaseMoves(s: State, t: State, i: nat)
    requires i < |s.closers| && i < |t.closers|
  {
    var before, after := InClose(s.closers[i]), InClose(t.closers[i]);
    || (t.phase == s.phase && before == after)
    || (s.phase == Active && t.phase == Closing && !before && after)
    || (before && !after && (t.phase == Released || t.phase == Failed))
  }

  lemma CloserCounts(s: State, i: nat, pick: bool)
    requires WritersInv(s) && OwnersInv(s) && i < |s.closers|
    ensures WritersInv(CloserNext(s, i, pick))
  {
    hide Counted, CloserNext, HoldsOwner, CloserOwns;
    CloserFrame(s, i, pick);
    CloserMovesOwner(s, i, pick);
  }

  lemma CloserOwner(s: State, i: nat, pick: bool)
    requires OwnersInv(s) && i < |s.closers|
    ensures OwnersInv(CloserNext(s, i, pick))
  {
    hide CloserNext, CloserOwns;
    CloserFrame(s, i, pick);
    CloserMovesOwner(s, i, pick);
  }

  lemma CloserPhase(s: State, i: nat, pick: bool)
    requires PhaseInv(s) && i < |s.closers|
    ensures PhaseInv(CloserNext(s, i, pick))
  {
    hide CloserNext, InClose, Seized, Initializing;
    CloserFrame(s, i, pick);
    CloserMovesPhase(s, i, pick);
  }

  /** With the owner free, no writer is past its first look. */
  lemma FreeOwner(s: State)
    requires WritersInv(s) && !s.owner.ByWriter?
    ensures NoWriterPast(s) && NoWriterUses(s)
  {
  }

  lemma NoWriters(s: State)
    requires WritersInv(s) && s.writers == 0
    ensures NoWriterUses(s)
  {
  }

  lemma CloserPeaceStep(s: State, i: nat, pick: bool)
    requires PeaceInv(s) && i < |s.closers| && (InClose(s.closers[i]) ==> s.phase == Closing)
    requires !s.owner.ByWriter? ==> NoWriterPast(s) && NoWriterUses(s)
    requires s.writers == 0 ==> NoWriterUses(s)
    ensures PeaceInv(CloserNext(s, i, pick))
  {
    hide Past;
    var t := CloserNext(s, i, pick);
    assert t.threads == s.threads && t.emergencies == s.emergencies;
    assert Sealed(t.closers[i]) ==> NoWriterPast(s);
    assert Drains(t.closers[i]) || Sealed(t.closers[i]) ==> NoWriterUses(s);
  }

  lemma CloserPeace(s: State, i: nat, pick: bool)
    requires Inv(s) && i < |s.closers|
    ensures PeaceInv(CloserNext(s, i, pick))
  {
    if !s.owner.ByWriter? { FreeOwner(s); }
    if s.writers == 0 { NoWriters(s); }
    hide WritersInv, OwnersInv, Past, PeaceInv, CloserNext;
    CloserPeaceStep(s, i, pick);
  }

  lemma CloserKeeps(s: State, i: nat, pick: bool)
    requires Inv(s) && i < |s.closers|
    ensures Inv(CloserNext(s, i, pick))
  {
    hide WritersInv, OwnersInv, PhaseInv, PeaceInv, CloserNext;
    CloserCounts(s, i, pick);
    CloserOwner(s, i, pick);
    CloserPhase(s, i, pick);
    CloserPeace(s, i, pick);
  }

  lemma EmergencyKeeps(s: State, i: nat)
    requires Inv(s) && i < |s.emergencies|
    ensures Inv(EmergencyNext(s, i))
  {
  }

  lemma InitOwner(s: State, i: nat)
    requires WritersInv(s) && OwnersInv(s) && i < |s.inits|
    ensures WritersInv(InitNext(s, i)) && OwnersInv(InitNext(s, i))
  {
    hide Counted;
  }

  lemma InitPhase(s: State, i: nat)
    requires PhaseInv(s) && PeaceInv(s) && i < |s.inits|
    ensures PhaseInv(InitNext(s, i)) && PeaceInv(InitNext(s, i))
  {
    hide Past, Sealed, Drains;
  }

  lemma InitKeeps(s: State, i: nat)
    requires Inv(s) && i < |s.inits|
    ensures Inv(InitNext(s, i))
  {
    hide WritersInv, OwnersInv, PhaseInv, PeaceInv, InitNext;
    InitOwner(s, i);
    InitPhase(s, i);
  }

  lemma StepKeeps(s: State, step: Step)
    requires Inv(s)
    ensures Inv(Next(s, step))
  {
    match step
    case WriterStep(i, more) => if i < |s.threads| { WriterKeeps(s, i, more); }
    case CloserStep(i, pick) => if i < |s.closers| { CloserKeeps(s, i, pick); }
    case EmergencyStep(i) => if i < |s.emergencies| { EmergencyKeeps(s, i); }
    case InitStep(i) => if i < |s.inits| { InitKeeps(s, i); }
    case OtherStep =>
    hide WriterNext, CloserNext, EmergencyNext, InitNext;
  }

  lemma {:induction false} RunKeeps(s: State, steps: seq<Step>)
    requires Inv(s)
    ensures Inv(Run(s, steps))
    decreases |steps|
  {
    hide Inv, Next;
    if steps != [] {
      StepKeeps(s, steps[0]);
      RunKeeps(Next(s, steps[0]), steps[1..]);
    }
  }

  // ----- what the claim promises, in every interleaving

  /** At most one user touches the port. */
  lemma UsersExclude(s: State, steps: seq<Step>, u: User, v: User)
    requires Boot(s) && Uses(Run(s, steps), u) && Uses(Run(s, steps), v)
    ensures u == v
  {
    BootInv(s);
    RunKeeps(s, steps);
    var t := Run(s, steps);
    hide Run;
  }

  /** The assertions of finish hold: the phase is still Closing, and a release finds no writers. */
  lemma FinishAssertions(s: State, steps: seq<Step>, i: nat)
    requires Boot(s) && i < |Run(s, steps).closers|
    ensures var t := Run(s, steps);
      && (t.closers[i].FinishPhase? || t.closers[i].FinishWriters? || t.closers[i].FinishStore? ==> t.phase == Closing)
      && (t.closers[i].FinishWriters? ==> t.writers == 0)
  {
    BootInv(s);
    RunKeeps(s, steps);
    hide Run;
  }

  /** The assertion of initialized holds. */
  lemma InitAssertion(s: State, steps: seq<Step>, i: nat)
    requires Boot(s) && i < |Run(s, steps).inits| && Run(s, steps).inits[i].Publish?
    ensures Run(s, steps).phase == Starting
  {
    BootInv(s);
    RunKeeps(s, steps);
    hide Run;
  }

  /** The assertion of a dropped writer holds: it is counted when it leaves. */
  lemma DropAssertion(s: State, steps: seq<Step>, i: nat)
    requires Boot(s) && i < |Run(s, steps).threads|
    ensures Counted(Run(s, steps).threads[i]) <= Run(s, steps).writers
  {
    BootInv(s);
    RunKeeps(s, steps);
    WriterCounts(Run(s, steps), i, false);
    hide Run;
  }

  lemma ReleasedStep(s: State, step: Step)
    requires Inv(s) && s.phase == Released
    ensures Next(s, step).phase == Released
  {
  }

  lemma {:induction false} ReleasedRun(s: State, steps: seq<Step>)
    requires Inv(s) && s.phase == Released
    ensures Run(s, steps).phase == Released && Inv(Run(s, steps))
    decreases |steps|
  {
    hide Inv, Next;
    if steps != [] {
      StepKeeps(s, steps[0]);
      ReleasedStep(s, steps[0]);
      ReleasedRun(Next(s, steps[0]), steps[1..]);
    }
  }

  /** A released port stays released and unused: another owner may have it. */
  lemma ReleasedForGood(s: State, steps: seq<Step>, more: seq<Step>, u: User)
    requires Boot(s) && Run(s, steps).phase == Released
    ensures var t := Run(Run(s, steps), more); t.phase == Released && !Uses(t, u)
  {
    BootInv(s);
    RunKeeps(s, steps);
    ReleasedRun(Run(s, steps), more);
    hide Run;
  }
}
