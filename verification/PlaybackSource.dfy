/** One audio source: how many of its frames were accepted, submitted, seen by DMA, consumed. */
module PlaybackSource {
  import opened Common
  import opened RingWindow

  const MAX: nat := 0xFFFF_FFFF_FFFF_FFFF

  /** The frames before `end` that no earlier stamp covers were accepted at time `at`. */
  datatype Stamp = Stamp(end: nat, at: nat)

  datatype Stage = Dma | Consumed | Unconfirmed

  datatype Source = Source(
    generation: nat, accepted: nat, submitted: nat, dma: nat, consumed: nat, unconfirmed: nat,
    retired: nat, dmaRetired: nat, stamps: seq<Stamp>)

  function New(generation: nat): Source {
    Source(generation, 0, 0, 0, 0, 0, 0, 0, [])
  }

  function Last(stamps: seq<Stamp>): Stamp
    requires stamps != []
  {
    stamps[|stamps| - 1]
  }

  predicate CanAccept(stamps: seq<Stamp>, capacity: nat, now: nat) {
    capacity != 0 && (|stamps| < capacity || (stamps != [] && Last(stamps).at == now))
  }

  function Stamped(stamps: seq<Stamp>, end: nat, now: nat): seq<Stamp> {
    if stamps != [] && Last(stamps).at == now then stamps[|stamps| - 1 := Stamp(end, now)]
    else stamps + [Stamp(end, now)]
  }

  function Accept(s: Source, capacity: nat, frames: nat, now: nat): (Source, bool) {
    if frames == 0 || s.generation == 0 || !CanAccept(s.stamps, capacity, now) || s.accepted + frames > MAX
    then (s, false)
    else (s.(accepted := s.accepted + frames, stamps := Stamped(s.stamps, s.accepted + frames, now)), true)
  }

  function Submit(s: Source, frames: nat): (Source, Option<nat>) {
    if s.submitted + frames > MAX || frames == 0 || s.submitted + frames > s.accepted then (s, None)
    else (s.(submitted := s.submitted + frames), Some(s.submitted))
  }

  function DropThrough(stamps: seq<Stamp>, through: nat): seq<Stamp> {
    if stamps != [] && stamps[0].end <= through then DropThrough(stamps[1..], through) else stamps
  }

  function Max(a: nat, b: nat): nat { if a < b then b else a }

  function Retire(s: Source, generation: nat, through: nat, known: bool): (Source, bool) {
    if generation == 0 || s.generation != generation || through < s.retired || through > s.submitted
       || (known && through > s.dmaRetired) then (s, false)
    else
      var frames := through - s.retired;
      (s.(consumed := if known then s.consumed + frames else s.consumed,
          unconfirmed := if known then s.unconfirmed else s.unconfirmed + frames,
          retired := through, dmaRetired := Max(s.dmaRetired, through), stamps := DropThrough(s.stamps, through)), true)
  }

  function ObserveDma(s: Source, generation: nat, through: nat): (Source, bool) {
    if generation == 0 || generation != s.generation || through < s.dmaRetired || through > s.submitted then (s, false)
    else (s.(dma := s.dma + (through - s.dmaRetired), dmaRetired := through), true)
  }

  function Apply(s: Source, generation: nat, through: nat, stage: Stage): (Source, bool) {
    match stage
    case Dma => ObserveDma(s, generation, through)
    case Consumed => Retire(s, generation, through, true)
    case Unconfirmed => Retire(s, generation, through, false)
  }

  function QueueAge(stamps: seq<Stamp>, now: nat): nat {
    if stamps == [] then 0 else if now < stamps[0].at then 0 else now - stamps[0].at
  }

  // ----- conservation, for any sequence of calls

  predicate Conserves(s: Source) {
    && s.consumed + s.unconfirmed == s.retired <= s.dmaRetired <= s.submitted <= s.accepted <= MAX
    && s.consumed <= s.dma <= s.dmaRetired
    && s.dmaRetired - s.dma <= s.unconfirmed
  }

  /** The stamps are a run-length encoding of the acceptance times of the frames from `from` on. */
  predicate Encodes(stamps: seq<Stamp>, from: nat, times: seq<nat>)
    decreases |stamps|
  {
    if stamps == [] then from == |times|
    else
      && from < stamps[0].end <= |times|
      && (forall f :: from <= f < stamps[0].end ==> times[f] == stamps[0].at)
      && Encodes(stamps[1..], stamps[0].end, times)
  }

  /** A source whose frame f was accepted at times[f]. */
  predicate Faithful(s: Source, capacity: nat, times: seq<nat>) {
    Conserves(s) && |s.stamps| <= capacity && |times| == s.accepted && Encodes(s.stamps, s.retired, times)
  }

  lemma {:induction false} DropEncodes(stamps: seq<Stamp>, from: nat, through: nat, times: seq<nat>)
    requires Encodes(stamps, from, times) && from <= through <= |times|
    ensures Encodes(DropThrough(stamps, through), through, times)
    ensures |DropThrough(stamps, through)| <= |stamps|
    decreases |stamps|
  {
    if stamps != [] && stamps[0].end <= through {
      DropEncodes(stamps[1..], stamps[0].end, through, times);
    }
  }

  lemma {:induction false} StampEncodes(stamps: seq<Stamp>, from: nat, times: seq<nat>, more: seq<nat>, now: nat)
    requires Encodes(stamps, from, times) && more != [] && (forall t :: t in more ==> t == now)
    ensures Encodes(Stamped(stamps, |times + more|, now), from, times + more)
    decreases |stamps|
  {
    var all := times + more;
    var next := Stamped(stamps, |all|, now);
    assert forall f :: |times| <= f < |all| ==> all[f] == now by {
      assert forall f :: |times| <= f < |all| ==> all[f] == more[f - |times|] && all[f] in more;
    }
    if |stamps| > 1 {
      StampEncodes(stamps[1..], stamps[0].end, times, more, now);
      assert next[1..] == Stamped(stamps[1..], |all|, now);
    } else if |stamps| == 1 && stamps[0].at != now {
      assert stamps[1..] == [] && stamps[0].end == |times|;
      assert next[1..] == [Stamp(|all|, now)] && next[1..][1..] == [];
    } else {
      assert |stamps| == 1 ==> stamps[1..] == [] && stamps[0].end == |times|;
      assert next == [Stamp(|all|, now)] && next[1..] == [];
    }
  }

  lemma AcceptKeeps(s: Source, capacity: nat, frames: nat, now: nat, times: seq<nat>)
    requires Faithful(s, capacity, times)
    ensures var r := Accept(s, capacity, frames, now);
      Faithful(r.0, capacity, if r.1 then times + seq(frames, _ => now) else times)
  {
    var r := Accept(s, capacity, frames, now);
    if r.1 {
      StampEncodes(s.stamps, s.retired, times, seq(frames, _ => now), now);
    }
  }

  lemma SubmitKeeps(s: Source, capacity: nat, frames: nat, times: seq<nat>)
    requires Faithful(s, capacity, times)
    ensures Faithful(Submit(s, frames).0, capacity, times)
  {
  }

  /** Any progress report, with any generation and position, keeps the conservation laws. */
  lemma ApplyKeeps(s: Source, capacity: nat, generation: nat, through: nat, stage: Stage, times: seq<nat>)
    requires Faithful(s, capacity, times)
    ensures Faithful(Apply(s, generation, through, stage).0, capacity, times)
  {
    if s.retired <= through <= s.submitted {
      DropEncodes(s.stamps, s.retired, through, times);
    }
  }

  /** Everything an owner may do with a source. */
  datatype Call =
    | AcceptCall(frames: nat, now: nat)
    | SubmitCall(frames: nat)
    | ApplyCall(generation: nat, through: nat, stage: Stage)

  function Perform(s: Source, capacity: nat, call: Call): Source {
    match call
    case AcceptCall(frames, now) => Accept(s, capacity, frames, now).0
    case SubmitCall(frames) => Submit(s, frames).0
    case ApplyCall(generation, through, stage) => Apply(s, generation, through, stage).0
  }

  function PerformAll(s: Source, capacity: nat, calls: seq<Call>): Source
    decreases |calls|
  {
    if calls == [] then s else PerformAll(Perform(s, capacity, calls[0]), capacity, calls[1..])
  }

  /** The acceptance times of all accepted frames, as a log of the same calls. */
  function Log(s: Source, capacity: nat, calls: seq<Call>, times: seq<nat>): seq<nat>
    decreases |calls|
  {
    if calls == [] then times
    else
      var c := calls[0];
      var more := if c.AcceptCall? && Accept(s, capacity, c.frames, c.now).1 then seq(c.frames, _ => c.now) else [];
      Log(Perform(s, capacity, c), capacity, calls[1..], times + more)
  }

  /** Every sequence of calls keeps conservation and the queue encoding. */
  lemma {:induction false} CallsKeep(s: Source, capacity: nat, calls: seq<Call>, times: seq<nat>)
    requires Faithful(s, capacity, times)
    ensures Faithful(PerformAll(s, capacity, calls), capacity, Log(s, capacity, calls, times))
    decreases |calls|
  {
    if calls != [] {
      var c := calls[0];
      match c {
        case AcceptCall(frames, now) =>
          AcceptKeeps(s, capacity, frames, now, times);
          assert times + [] == times;
        case SubmitCall(frames) =>
          SubmitKeeps(s, capacity, frames, times);
          assert times + [] == times;
        case ApplyCall(generation, through, stage) =>
          ApplyKeeps(s, capacity, generation, through, stage, times);
          assert times + [] == times;
      }
      var more := if c.AcceptCall? && Accept(s, capacity, c.frames, c.now).1 then seq(c.frames, _ => c.now) else [];
      CallsKeep(Perform(s, capacity, c), capacity, calls[1..], times + more);
    }
  }

  /** So they hold after every sequence of calls on a new source. */
  lemma NewCallsKeep(generation: nat, capacity: nat, calls: seq<Call>)
    ensures var s := New(generation); Faithful(PerformAll(s, capacity, calls), capacity, Log(s, capacity, calls, []))
  {
    CallsKeep(New(generation), capacity, calls, []);
  }

  /** What an owner may count on: frames are accepted while a stamp is free or the last one is of the same
      moment, and exactly the accepted frames that were not submitted yet can be submitted, in order. */
  lemma RoomLaw(s: Source, capacity: nat, times: seq<nat>, frames: nat, now: nat)
    requires Faithful(s, capacity, times) && frames > 0 && s.generation != 0
    ensures |s.stamps| < capacity && s.accepted + frames <= MAX ==>
      Accept(s, capacity, frames, now).1 && Accept(s, capacity, frames, now).0.accepted == s.accepted + frames
    ensures s.retired < s.accepted && times[s.accepted - 1] == now && s.accepted + frames <= MAX ==>
      Accept(s, capacity, frames, now).1
    ensures Submit(s, frames).1.Some? <==> frames <= s.accepted - s.submitted
    ensures Submit(s, frames).1.Some? ==>
      Submit(s, frames).1.value == s.submitted && Submit(s, frames).0.submitted == s.submitted + frames
  {
    if s.retired < s.accepted { LastStamp(s.stamps, s.retired, times); }
  }

  /** The last stamp is that of the last accepted frame. */
  lemma {:induction false} LastStamp(stamps: seq<Stamp>, from: nat, times: seq<nat>)
    requires Encodes(stamps, from, times) && from < |times|
    ensures stamps != [] && Last(stamps).at == times[|times| - 1]
    decreases |stamps|
  {
    if |stamps| > 1 {
      LastStamp(stamps[1..], stamps[0].end, times);
    } else if |stamps| == 1 {
      assert stamps[1..] == [];
    }
  }

  /** The queue age is the age of the oldest unretired frame, and the stamp ring is empty exactly
      when every accepted frame is retired. */
  lemma QueueAgeExact(s: Source, capacity: nat, times: seq<nat>, now: nat)
    requires Faithful(s, capacity, times)
    ensures s.stamps == [] <==> s.accepted == s.retired
    ensures QueueAge(s.stamps, now) ==
      if s.accepted == s.retired || now < times[s.retired] then 0 else now - times[s.retired]
  {
  }

  // ----- the object

  class LiveSource {
    var generation: nat
    var accepted: nat
    var submitted: nat
    var dma: nat
    var consumed: nat
    var unconfirmed: nat
    var retired: nat
    var dmaRetired: nat
    const stamps: array<Stamp>
    var head: nat
    var len: nat

    ghost predicate Valid()
      reads this, stamps
    {
      len <= stamps.Length && (stamps.Length == 0 || head < stamps.Length)
    }

    function Value(): Source
      requires Valid()
      reads this, stamps
    {
      Source(generation, accepted, submitted, dma, consumed, unconfirmed, retired, dmaRetired,
          Window(stamps[..], head, len))
    }

    constructor (generation: nat, capacity: nat)
      ensures Valid() && fresh(stamps) && stamps.Length == capacity && Value() == New(generation)
    {
      this.generation := generation;
      accepted, submitted, dma, consumed, unconfirmed, retired, dmaRetired := 0, 0, 0, 0, 0, 0, 0;
      stamps := new Stamp[capacity](_ => Stamp(0, 0));
      head, len := 0, 0;
    }

    method CanAcceptNow(now: nat) returns (ok: bool)
      requires Valid()
      ensures ok == CanAccept(Value().stamps, stamps.Length, now)
    {
      ok := stamps.Length != 0 && (len < stamps.Length || stamps[Cell(head, len - 1, stamps.Length)].at == now);
    }

    method AcceptFrames(frames: nat, now: nat) returns (ok: bool)
      requires Valid()
      modifies this, stamps
      ensures Valid() && (Value(), ok) == Accept(old(Value()), stamps.Length, frames, now)
    {
      ok := CanAcceptNow(now);
      if frames == 0 || generation == 0 || !ok || accepted + frames > MAX { return false; }
      var end := accepted + frames;
      ghost var cells := stamps[..];
      if len != 0 && stamps[Cell(head, len - 1, stamps.Length)].at == now {
        Replaces(cells, head, len, len - 1, Stamp(end, now));
        stamps[Cell(head, len - 1, stamps.Length)] := Stamp(end, now);
      } else {
        Appends(cells, head, len, Stamp(end, now));
        stamps[Cell(head, len, stamps.Length)] := Stamp(end, now);
        len := len + 1;
      }
      accepted := end;
    }

    method SubmitFrames(frames: nat) returns (first: Option<nat>)
      requires Valid()
      modifies this
      ensures Valid() && (Value(), first) == Submit(old(Value()), frames)
    {
      if submitted + frames > MAX || frames == 0 || submitted + frames > accepted { return None; }
      first := Some(submitted);
      submitted := submitted + frames;
    }

    method RetireThrough(gen: nat, through: nat, known: bool) returns (ok: bool)
      requires Valid()
      modifies this, stamps
      ensures Valid() && (Value(), ok) == Retire(old(Value()), gen, through, known)
    {
      if gen == 0 || generation != gen || through < retired || through > submitted || (known && through > dmaRetired) {
        return false;
      }
      var frames := through - retired;
      if known {
        consumed := consumed + frames;
      } else {
        unconfirmed := unconfirmed + frames;
      }
      retired := through;
      dmaRetired := if dmaRetired < through then through else dmaRetired;
      DropStamps(through);
      ok := true;
    }

    method DropStamps(through: nat)
      requires Valid()
      modifies this`head, this`len, stamps
      ensures Valid() && Value() == old(Value()).(stamps := DropThrough(old(Value()).stamps, through))
    {
      while len != 0 && stamps[head].end <= through
        invariant Valid()
        invariant DropThrough(Window(stamps[..], head, len), through) == DropThrough(old(Value()).stamps, through)
        decreases len
      {
        Drops(stamps[..], head, len, Stamp(0, 0));
        stamps[head] := Stamp(0, 0);
        head := Cell(head, 1, stamps.Length);
        len := len - 1;
      }
    }

    method ObserveDmaThrough(gen: nat, through: nat) returns (ok: bool)
      requires Valid()
      modifies this
      ensures Valid() && (Value(), ok) == ObserveDma(old(Value()), gen, through)
    {
      if gen == 0 || gen != generation || through < dmaRetired || through > submitted { return false; }
      dma := dma + (through - dmaRetired);
      dmaRetired := through;
      ok := true;
    }

    method ApplyUpdate(gen: nat, through: nat, stage: Stage) returns (ok: bool)
      requires Valid()
      modifies this, stamps
      ensures Valid() && (Value(), ok) == Apply(old(Value()), gen, through, stage)
    {
      match stage
      case Dma => ok := ObserveDmaThrough(gen, through);
      case Consumed => ok := RetireThrough(gen, through, true);
      case Unconfirmed => ok := RetireThrough(gen, through, false);
    }

    method QueueAgeNow(now: nat) returns (age: nat)
      requires Valid()
      ensures age == QueueAge(Value().stamps, now)
    {
      if len == 0 { return 0; }
      age := if now < stamps[head].at then 0 else now - stamps[head].at;
    }
  }
}
