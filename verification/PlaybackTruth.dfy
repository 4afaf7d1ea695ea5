/** What the reported counters mean: a source frame counts as played exactly when the device has
    consumed the device frame that carried it, and as read when DMA has. */
module PlaybackTruth {
  import opened Common
  import opened PlaybackSource
  import opened PlaybackLedger
  import opened PlaybackDesk

  // ----- what the device has reached

  /** The position speaks for the epoch of the span: the current one first, else the previous one. */
  predicate Heard(span: Span, p: Position, current: Position, previous: Option<Position>) {
    span.tracking && p.epoch == span.epoch && (p == current || (previous == Some(p) && current.epoch != p.epoch))
  }

  function Counter(p: Position, stage: Stage): nat {
    if stage == Dma then p.dma else p.consumed
  }

  predicate Carries(span: Span, c: Contribution, key: Key, f: nat) {
    c in span.sources && c.key == key && c.first <= f < c.first + span.frames
  }

  /** The device counter has passed the frame of this span that carries source frame f. */
  ghost predicate ReachedIn(span: Span, key: Key, f: nat, current: Position, previous: Option<Position>, stage: Stage) {
    exists c, p :: Carries(span, c, key, f) && Heard(span, p, current, previous)
      && span.first + (f - c.first) < Counter(p, stage)
  }

  ghost predicate Reached(
    spans: seq<Span>, key: Key, f: nat, current: Position, previous: Option<Position>, stage: Stage)
  {
    exists i :: 0 <= i < |spans| && ReachedIn(spans[i], key, f, current, previous, stage)
  }

  /** The frames from `from` to `to` that the device has reached. */
  ghost function ReachedFrames(
    spans: seq<Span>, key: Key, from: nat, to: nat, current: Position, previous: Option<Position>, stage: Stage)
    : set<nat>
  {
    set f: nat | from <= f < to && Reached(spans, key, f, current, previous, stage)
  }

  // ----- one span

  lemma {:induction false} OwnIn(sources: seq<Contribution>, key: Key)
    ensures Own(sources, key).Some? ==> Contribution(key, Own(sources, key).value) in sources
    ensures Own(sources, key).None? ==> forall c :: c in sources ==> c.key != key
    decreases |sources|
  {
    if sources != [] && sources[0].key != key {
      OwnIn(sources[1..], key);
      assert sources == [sources[0]] + sources[1..];
    }
  }

  lemma OwnOnly(sources: seq<Contribution>, key: Key, c: Contribution)
    requires DistinctSlots(sources) && c in sources && c.key == key
    ensures Own(sources, key) == Some(c.first)
  {
    var i :| 0 <= i < |sources| && sources[i] == c;
    OwnPresent(sources, key, i);
  }

  lemma HeardSpeaks(span: Span, p: Position, current: Position, previous: Option<Position>)
    ensures Heard(span, p, current, previous) <==> Speaks(span, current, previous) == Some(p)
  {
  }

  /** How many frames of a span the device has reached. */
  function ReachIn(span: Span, current: Position, previous: Option<Position>, stage: Stage): nat {
    var p := Speaks(span, current, previous);
    if p.Some? then Into(span, Counter(p.value, stage)) else 0
  }

  /** They are its first ones. */
  lemma ReachedPrefix(span: Span, key: Key, f: nat, current: Position, previous: Option<Position>, stage: Stage)
    requires DistinctSlots(span.sources)
    ensures ReachedIn(span, key, f, current, previous, stage) <==>
      var own := Own(span.sources, key);
      own.Some? && own.value <= f < own.value + ReachIn(span, current, previous, stage)
  {
    var own, p := Own(span.sources, key), Speaks(span, current, previous);
    OwnIn(span.sources, key);
    if ReachedIn(span, key, f, current, previous, stage) {
      var c, q :| Carries(span, c, key, f) && Heard(span, q, current, previous)
        && span.first + (f - c.first) < Counter(q, stage);
      OwnOnly(span.sources, key, c);
      HeardSpeaks(span, q, current, previous);
    }
    if own.Some? && own.value <= f < own.value + ReachIn(span, current, previous, stage) {
      HeardSpeaks(span, p.value, current, previous);
      assert Carries(span, Contribution(key, own.value), key, f);
    }
  }

  lemma SeenReaches(span: Span, current: Position, previous: Option<Position>)
    ensures var seen := Seen(span, current, previous);
      && seen.observed == Max(span.observed, ReachIn(span, current, previous, Consumed))
      && seen.observedDma == Max(span.observedDma, ReachIn(span, current, previous, Dma))
  {
  }

  lemma {:induction false} ChainCarries(spans: seq<Span>, key: Key, at: nat, end: nat, i: nat, c: Contribution, f: nat)
    requires Chain(spans, key, at, end) && i < |spans| && DistinctSlots(spans[i].sources)
    requires Carries(spans[i], c, key, f)
    ensures at <= f < end
    decreases |spans|
  {
    var own := Own(spans[0].sources, key);
    var next := if own.Some? then at + spans[0].frames else at;
    ChainGrows(spans[1..], key, next, end);
    if i == 0 {
      OwnOnly(spans[0].sources, key, c);
    } else {
      ChainCarries(spans[1..], key, next, end, i - 1, c, f);
    }
  }

  /** Later spans carry only later frames. */
  lemma LaterOnly(spans: seq<Span>, key: Key, at: nat, end: nat, f: nat, current: Position,
                  previous: Option<Position>, stage: Stage)
    requires Chain(spans, key, at, end) && (forall i :: 0 <= i < |spans| ==> DistinctSlots(spans[i].sources))
    ensures Reached(spans, key, f, current, previous, stage) ==> at <= f < end
  {
    if Reached(spans, key, f, current, previous, stage) {
      var i :| 0 <= i < |spans| && ReachedIn(spans[i], key, f, current, previous, stage);
      var c, p :| Carries(spans[i], c, key, f) && Heard(spans[i], p, current, previous)
        && spans[i].first + (f - c.first) < Counter(p, stage);
      ChainCarries(spans, key, at, end, i, c, f);
    }
  }

  lemma ReachedFirst(spans: seq<Span>, key: Key, f: nat, current: Position, previous: Option<Position>, stage: Stage)
    requires spans != []
    ensures Reached(spans, key, f, current, previous, stage) <==>
      ReachedIn(spans[0], key, f, current, previous, stage) || Reached(spans[1..], key, f, current, previous, stage)
  {
    hide ReachedIn;
    if i :| 0 <= i < |spans| && ReachedIn(spans[i], key, f, current, previous, stage) {
      assert i > 0 ==> spans[1..][i - 1] == spans[i];
    }
    if i :| 0 <= i < |spans[1..]| && ReachedIn(spans[1..][i], key, f, current, previous, stage) {
      assert spans[i + 1] == spans[1..][i];
    }
  }

  // ----- counting

  lemma {:induction false} IntervalSize(a: nat, b: nat, s: set<nat>)
    requires a <= b && forall f: nat :: f in s <==> a <= f < b
    ensures |s| == b - a
    decreases b
  {
    if a == b {
      assert s == {};
    } else {
      IntervalSize(a, b - 1, s - {b - 1});
    }
  }

  /** A split of the reached frames at the end of the first span. */
  lemma ReachedSplit(spans: seq<Span>, key: Key, from: nat, mid: nat, to: nat, reach: nat, current: Position,
                     previous: Option<Position>, stage: Stage)
    requires spans != [] && from <= reach <= mid <= to
    requires forall f: nat :: from <= f < mid ==>
      (Reached(spans, key, f, current, previous, stage) <==> f < reach)
    requires forall f: nat :: mid <= f ==>
      (Reached(spans, key, f, current, previous, stage) <==> Reached(spans[1..], key, f, current, previous, stage))
    ensures |ReachedFrames(spans, key, from, to, current, previous, stage)| ==
      reach - from + |ReachedFrames(spans[1..], key, mid, to, current, previous, stage)|
  {
    hide Reached;
    var whole := ReachedFrames(spans, key, from, to, current, previous, stage);
    var late := ReachedFrames(spans[1..], key, mid, to, current, previous, stage);
    assert late <= whole;
    IntervalSize(from, reach, whole - late);
  }

  // ----- what the reports leave alone

  lemma {:induction false} ReportFrame(s: Source, slot: nat, updates: seq<Update>)
    ensures var t := DeliverAll(s, slot, updates);
      && ((forall i :: 0 <= i < |updates| ==> updates[i].stage != Unconfirmed) ==>
           t.unconfirmed == s.unconfirmed && t.dma - t.dmaRetired == s.dma - s.dmaRetired)
      && ((forall i :: 0 <= i < |updates| ==> updates[i].stage == Unconfirmed) ==>
           t.consumed == s.consumed && t.dma == s.dma)
    decreases |updates|
  {
    if updates != [] {
      ApplyFrame(s, updates[0]);
      ReportFrame(Deliver(s, slot, updates[0]).0, slot, updates[1..]);
    }
  }

  lemma ApplyFrame(s: Source, u: Update)
    ensures var t := Apply(s, u.key.generation, u.through, u.stage).0;
      && (u.stage != Unconfirmed ==>
           t.unconfirmed == s.unconfirmed && t.dma - t.dmaRetired == s.dma - s.dmaRetired)
      && (u.stage == Unconfirmed ==> t.consumed == s.consumed && t.dma == s.dma)
  {
  }

  /** One look: the counters follow the retired positions, and nothing is unconfirmed. */
  lemma LookCounts(spans: seq<Span>, seen: Span, slot: nat, s: Source)
    requires spans != [] && LedgerInv(spans) && SlotInv(spans, slot, s)
    requires spans[0].observed <= seen.observed <= seen.observedDma <= seen.frames &&
      spans[0].observedDma <= seen.observedDma
    requires seen == spans[0].(observed := seen.observed, observedDma := seen.observedDma)
    ensures var t := DeliverAll(s, slot, Progress(spans[0], seen));
      && SlotInv([seen] + spans[1..], slot, t) && t.generation == s.generation
      && t.consumed - s.consumed == t.retired - s.retired && t.dma - s.dma == t.dmaRetired - s.dmaRetired
      && (Own(spans[0].sources, Key(slot, s.generation)).None? ==> t == s)
  {
    LookKeeps(spans, seen, slot, s);
    ReportFrame(s, slot, Progress(spans[0], seen));
    if Own(spans[0].sources, Key(slot, s.generation)).None? { LookOthers(spans[0], seen, slot, s); }
  }

  lemma LookOthers(span: Span, seen: Span, slot: nat, s: Source)
    requires DistinctSlots(span.sources) && s.generation != 0 && Own(span.sources, Key(slot, s.generation)).None?
    ensures DeliverAll(s, slot, Progress(span, seen)) == s
  {
    hide Updates, DeliverAll, Settles;
    var dma := if seen.observedDma > span.observedDma then Updates(span.sources, seen.observedDma, Dma) else [];
    var played := if seen.observed > span.observed then Updates(span.sources, seen.observed, Consumed) else [];
    DeliverUpdates(s, slot, span.sources, seen.observedDma, Dma);
    DeliverUpdates(s, slot, span.sources, seen.observed, Consumed);
    NothingDelivered(s, slot);
    DeliverJoin(s, slot, dma, played);
  }

  lemma LeaveCounts(seen: Span, rest: seq<Span>, slot: nat, s: Source)
    requires LedgerInv(rest) && SlotInv([seen] + rest, slot, s) && DistinctSlots(seen.sources)
    requires seen.observed <= seen.observedDma <= seen.frames
    requires forall i :: 0 <= i < |rest| ==> rest[i].observed == 0 && rest[i].observedDma == 0
    ensures var t := DeliverAll(s, slot, Farewell(seen));
      && SlotInv(rest, slot, t) && t.generation == s.generation && t.consumed == s.consumed && t.dma == s.dma
      && match Own(seen.sources, Key(slot, s.generation))
         case None => t.retired == s.retired && t.dmaRetired == s.dmaRetired
         case Some(first) => t.retired == t.dmaRetired == first + seen.frames
  {
    LeaveKeeps(seen, rest, slot, s);
    ReportFrame(s, slot, Farewell(seen));
    LeaveRetires(seen, rest, slot, s);
  }

  lemma LeaveRetires(seen: Span, rest: seq<Span>, slot: nat, s: Source)
    requires SlotInv([seen] + rest, slot, s) && DistinctSlots(seen.sources)
    requires seen.observed <= seen.observedDma <= seen.frames
    ensures var t := DeliverAll(s, slot, Farewell(seen));
      match Own(seen.sources, Key(slot, s.generation))
      case None => t.retired == s.retired && t.dmaRetired == s.dmaRetired
      case Some(first) => t.retired == t.dmaRetired == first + seen.frames
  {
    var key := Key(slot, s.generation);
    var own := Own(seen.sources, key);
    assert ([seen] + rest)[1..] == rest;
    if own.Some? { ChainGrows(rest, key, own.value + seen.frames, s.submitted); }
    if seen.observed != seen.frames {
      DeliverUpdates(s, slot, seen.sources, seen.frames, Unconfirmed);
    }
  }

  // ----- one observation

  /** What the observation makes of one source: exactly the frames the device has reached are played
      and read, a frame is lost only from a span the current epoch does not own, and the span that
      stays is of the current epoch, with every reached frame reported and one frame unplayed. */
  ghost predicate Truthful(
    spans: seq<Span>, rest: seq<Span>, current: Position, previous: Option<Position>, key: Key, s: Source, t: Source)
  {
    && s.retired <= t.retired && s.dmaRetired <= t.dmaRetired
    && t.consumed == s.consumed + |ReachedFrames(spans, key, s.retired, t.retired, current, previous, Consumed)|
    && t.dma == s.dma + |ReachedFrames(spans, key, s.dmaRetired, t.dmaRetired, current, previous, Dma)|
    && (forall f: nat :: s.retired <= f < t.retired && !Reached(spans, key, f, current, previous, Consumed) ==>
         Forgotten(spans, key, f, current))
    && (rest != [] ==> Waits(rest[0], current) && NoneLeft(rest[0], key, t, current, previous))
  }

  /** The device has reached no frame of the span that is not reported. */
  ghost predicate NoneLeft(span: Span, key: Key, t: Source, current: Position, previous: Option<Position>) {
    forall f: nat ::
      && (ReachedIn(span, key, f, current, previous, Consumed) ==> f < t.retired)
      && (ReachedIn(span, key, f, current, previous, Dma) ==> f < t.dmaRetired)
  }

  /** The frame is in a span without a receipt, or of an epoch that is over. */
  ghost predicate Forgotten(spans: seq<Span>, key: Key, f: nat, current: Position) {
    exists i, c :: 0 <= i < |spans| && Carries(spans[i], c, key, f) &&
      !(spans[i].tracking && spans[i].epoch == current.epoch)
  }

  predicate Waits(span: Span, current: Position) {
    span.tracking && span.epoch == current.epoch && current.consumed < span.first + span.frames
  }

  /** The reached frames of the head span, of one source: its first frames, past those known before. */
  lemma HeadReached(spans: seq<Span>, slot: nat, s: Source, f: nat, current: Position, previous: Option<Position>,
                    stage: Stage)
    requires spans != [] && LedgerInv(spans) && SlotInv(spans, slot, s)
    ensures var key, own := Key(slot, s.generation), Own(spans[0].sources, Key(slot, s.generation));
      && (own.Some? && own.value <= f < own.value + spans[0].frames ==>
           (Reached(spans, key, f, current, previous, stage) <==>
             f < own.value + ReachIn(spans[0], current, previous, stage)))
      && (own.None? || own.value + spans[0].frames <= f ==>
           (Reached(spans, key, f, current, previous, stage) <==>
             Reached(spans[1..], key, f, current, previous, stage)))
  {
    hide Reached, ReachedIn, Heard, Speaks, Into, Conserves;
    var key, own := Key(slot, s.generation), Own(spans[0].sources, Key(slot, s.generation));
    ReachedFirst(spans, key, f, current, previous, stage);
    ReachedPrefix(spans[0], key, f, current, previous, stage);
    assert SpanInv(spans[0]);
    forall i | 0 <= i < |spans[1..]| ensures DistinctSlots(spans[1..][i].sources) {
      assert SpanInv(spans[i + 1]);
    }
    match own
    case None =>
    case Some(first) =>
      LaterOnly(spans[1..], key, first + spans[0].frames, s.submitted, f, current, previous, stage);
      ReachBounded(spans[0], current, previous, stage);
  }

  lemma ReachBounded(span: Span, current: Position, previous: Option<Position>, stage: Stage)
    ensures ReachIn(span, current, previous, stage) <= span.frames
  {
  }

  lemma AllReached(spans: seq<Span>, key: Key, from: nat, to: nat, current: Position, previous: Option<Position>,
                   stage: Stage)
    requires from <= to && forall f: nat :: from <= f < to ==> Reached(spans, key, f, current, previous, stage)
    ensures |ReachedFrames(spans, key, from, to, current, previous, stage)| == to - from
  {
    hide Reached;
    IntervalSize(from, to, ReachedFrames(spans, key, from, to, current, previous, stage));
  }

  lemma NothingTruthful(current: Position, previous: Option<Position>, key: Key, s: Source)
    ensures Truthful([], [], current, previous, key, s, s)
  {
    AllReached([], key, s.retired, s.retired, current, previous, Consumed);
    AllReached([], key, s.dmaRetired, s.dmaRetired, current, previous, Dma);
  }

  /** The head span stays: everything between the old and the new positions was reached. */
  lemma StaysTruthful(spans: seq<Span>, current: Position, previous: Option<Position>, slot: nat, s: Source)
    requires spans != [] && LedgerInv(spans) && SlotInv(spans, slot, s)
    requires PositionOk(current) && (previous.Some? ==> PositionOk(previous.value))
    requires Stays(Seen(spans[0], current, previous), current)
    ensures var seen := Seen(spans[0], current, previous);
      Truthful(spans, [seen] + spans[1..], current, previous, Key(slot, s.generation), s,
               DeliverAll(s, slot, Progress(spans[0], seen)))
  {
    hide Reached, ReachedIn, Conserves, Forgotten, Chain, DeliverAll, Progress, ReachedFrames;
    var span, key := spans[0], Key(slot, s.generation);
    var seen := Seen(span, current, previous);
    var t := DeliverAll(s, slot, Progress(span, seen));
    SeenOk(span, current, previous);
    SeenReaches(span, current, previous);
    LookCounts(spans, seen, slot, s);
    assert ([seen] + spans[1..])[0] == seen;
    forall f: nat
      ensures s.retired <= f < t.retired ==> Reached(spans, key, f, current, previous, Consumed)
      ensures s.dmaRetired <= f < t.dmaRetired ==> Reached(spans, key, f, current, previous, Dma)
    {
      HeadReached(spans, slot, s, f, current, previous, Consumed);
      HeadReached(spans, slot, s, f, current, previous, Dma);
    }
    AllReached(spans, key, s.retired, t.retired, current, previous, Consumed);
    AllReached(spans, key, s.dmaRetired, t.dmaRetired, current, previous, Dma);
    StaysReported(spans, seen, slot, s, t, current, previous);
  }

  lemma StaysReported(spans: seq<Span>, seen: Span, slot: nat, s: Source, t: Source, current: Position,
                      previous: Option<Position>)
    requires spans != [] && LedgerInv(spans) && seen == Seen(spans[0], current, previous) && Stays(seen, current)
    requires SlotInv([seen] + spans[1..], slot, t) && t.generation == s.generation
    ensures Waits(seen, current) && NoneLeft(seen, Key(slot, s.generation), t, current, previous)
  {
    hide ReachedIn, Conserves, Chain;
    var key := Key(slot, s.generation);
    assert ([seen] + spans[1..])[0] == seen;
    assert SpanInv(spans[0]);
    SeenReaches(spans[0], current, previous);
    forall f: nat
      ensures ReachedIn(seen, key, f, current, previous, Consumed) ==> f < t.retired
      ensures ReachedIn(seen, key, f, current, previous, Dma) ==> f < t.dmaRetired
    {
      ReachedPrefix(seen, key, f, current, previous, Consumed);
      ReachedPrefix(seen, key, f, current, previous, Dma);
    }
  }

  /** The counts of an observation that goes on behind the head span. */
  lemma LeavesCounts(spans: seq<Span>, slot: nat, s: Source, from: nat, now: nat, mid: nat, to: nat,
                     current: Position, previous: Option<Position>, stage: Stage)
    requires spans != [] && LedgerInv(spans) && SlotInv(spans, slot, s) && mid <= to
    requires match Own(spans[0].sources, Key(slot, s.generation))
      case None => from == now == mid
      case Some(first) =>
        first <= from && now == Max(from, first + ReachIn(spans[0], current, previous, stage)) && from <= mid
        && mid == first + spans[0].frames
    ensures |ReachedFrames(spans, Key(slot, s.generation), from, to, current, previous, stage)| ==
      now - from + |ReachedFrames(spans[1..], Key(slot, s.generation), mid, to, current, previous, stage)|
  {
    hide Reached, SlotInv, LedgerInv, ReachedFrames, ReachIn;
    var key := Key(slot, s.generation);
    ReachBounded(spans[0], current, previous, stage);
    forall f: nat
      ensures from <= f < mid ==> (Reached(spans, key, f, current, previous, stage) <==> f < now)
      ensures mid <= f ==>
        (Reached(spans, key, f, current, previous, stage) <==> Reached(spans[1..], key, f, current, previous, stage))
    {
      HeadReached(spans, slot, s, f, current, previous, stage);
    }
    ReachedSplit(spans, key, from, mid, to, now, current, previous, stage);
  }

  lemma LedgerRest(spans: seq<Span>)
    requires spans != [] && LedgerInv(spans)
    ensures LedgerInv(spans[1..]) && SpanInv(spans[0])
    ensures forall i :: 0 <= i < |spans[1..]| ==> spans[1..][i].observed == 0 && spans[1..][i].observedDma == 0
  {
  }

  /** The head span leaves, and the observation goes on with the others. */
  lemma LeavesTruthful(spans: seq<Span>, rest: seq<Span>, current: Position, previous: Option<Position>, slot: nat,
                       s: Source, t: Source)
    requires spans != [] && LedgerInv(spans) && SlotInv(spans, slot, s)
    requires PositionOk(current) && (previous.Some? ==> PositionOk(previous.value))
    requires !Stays(Seen(spans[0], current, previous), current)
    requires var seen := Seen(spans[0], current, previous);
      var u := DeliverAll(DeliverAll(s, slot, Progress(spans[0], seen)), slot, Farewell(seen));
      Truthful(spans[1..], rest, current, previous, Key(slot, s.generation), u, t)
    ensures Truthful(spans, rest, current, previous, Key(slot, s.generation), s, t)
  {
    hide Reached, ReachedIn, Conserves, Forgotten, Chain, DeliverAll, Progress, Farewell, ReachedFrames;
    hide NoneLeft, ReachIn;
    var span, key := spans[0], Key(slot, s.generation);
    var seen := Seen(span, current, previous);
    var v := DeliverAll(s, slot, Progress(span, seen));
    var u := DeliverAll(v, slot, Farewell(seen));
    LedgerRest(spans);
    SeenOk(span, current, previous);
    SeenReaches(span, current, previous);
    LookCounts(spans, seen, slot, s);
    assert ([seen] + spans[1..])[0] == seen;
    LeaveCounts(seen, spans[1..], slot, v);
    LeavesCounts(spans, slot, s, s.retired, v.retired, u.retired, t.retired, current, previous, Consumed);
    LeavesCounts(spans, slot, s, s.dmaRetired, v.dmaRetired, u.dmaRetired, t.dmaRetired, current, previous, Dma);
    forall f: nat | s.retired <= f < t.retired && !Reached(spans, key, f, current, previous, Consumed)
      ensures Forgotten(spans, key, f, current)
    {
      HeadReached(spans, slot, s, f, current, previous, Consumed);
      if f < u.retired {
        HeadForgotten(spans, key, f, seen, current, previous);
      } else {
        RestForgotten(spans, key, f, current);
      }
    }
  }

  lemma RestForgotten(spans: seq<Span>, key: Key, f: nat, current: Position)
    requires spans != [] && Forgotten(spans[1..], key, f, current)
    ensures Forgotten(spans, key, f, current)
  {
    hide Carries;
    var i, c :| 0 <= i < |spans[1..]| && Carries(spans[1..][i], c, key, f) &&
      !(spans[1..][i].tracking && spans[1..][i].epoch == current.epoch);
    assert spans[i + 1] == spans[1..][i];
  }

  /** A span of the current epoch leaves only when all its frames are reached. */
  lemma HeadForgotten(spans: seq<Span>, key: Key, f: nat, seen: Span, current: Position, previous: Option<Position>)
    requires spans != [] && SpanInv(spans[0]) && seen == Seen(spans[0], current, previous) && !Stays(seen, current)
    requires var own := Own(spans[0].sources, key);
      own.Some? && own.value + ReachIn(spans[0], current, previous, Consumed) <= f < own.value + spans[0].frames
    ensures Forgotten(spans, key, f, current)
  {
    var own := Own(spans[0].sources, key);
    OwnIn(spans[0].sources, key);
    SeenReaches(spans[0], current, previous);
    assert Carries(spans[0], Contribution(key, own.value), key, f);
  }

  /** An observation reports the truth about every source. */
  lemma {:induction false} ObserveTruthful(
    spans: seq<Span>, current: Position, previous: Option<Position>, slot: nat, s: Source)
    requires LedgerInv(spans) && SlotInv(spans, slot, s)
    requires PositionOk(current) && (previous.Some? ==> PositionOk(previous.value))
    ensures var r := Observe(spans, current, previous);
      Truthful(spans, r.0, current, previous, Key(slot, s.generation), s, DeliverAll(s, slot, r.1))
    decreases |spans|
  {
    hide Truthful, SlotInv, LedgerInv, DeliverAll, Progress, Farewell, Stays;
    if spans == [] {
      NothingTruthful(current, previous, Key(slot, s.generation), s);
      NothingDelivered(s, slot);
    } else {
      var seen := Seen(spans[0], current, previous);
      if Stays(seen, current) {
        StaysTruthful(spans, current, previous, slot, s);
      } else {
        var progress, gone := Progress(spans[0], seen), Farewell(seen);
        var r := Observe(spans[1..], current, previous);
        var v := DeliverAll(s, slot, progress);
        var u := DeliverAll(v, slot, gone);
        LeftInStep(spans, current, previous, slot, s);
        ObserveTruthful(spans[1..], current, previous, slot, u);
        LeavesTruthful(spans, r.0, current, previous, slot, s, DeliverAll(u, slot, r.1));
        DeliverJoin(s, slot, progress, gone);
        DeliverJoin(s, slot, progress + gone, r.1);
      }
    }
  }

  lemma LeftInStep(spans: seq<Span>, current: Position, previous: Option<Position>, slot: nat, s: Source)
    requires spans != [] && LedgerInv(spans) && SlotInv(spans, slot, s)
    requires PositionOk(current) && (previous.Some? ==> PositionOk(previous.value))
    ensures var seen := Seen(spans[0], current, previous);
      var u := DeliverAll(DeliverAll(s, slot, Progress(spans[0], seen)), slot, Farewell(seen));
      LedgerInv(spans[1..]) && SlotInv(spans[1..], slot, u) && u.generation == s.generation
  {
    hide SlotInv, DeliverAll, Progress, Farewell;
    var seen := Seen(spans[0], current, previous);
    LedgerRest(spans);
    SeenOk(spans[0], current, previous);
    LookKeeps(spans, seen, slot, s);
    LeaveKeeps(seen, spans[1..], slot, DeliverAll(s, slot, Progress(spans[0], seen)));
  }

  // ----- the reports themselves

  /** A position behind a report: the device counter has come that far into the span. */
  ghost predicate Vouched(spans: seq<Span>, u: Update, current: Position, previous: Option<Position>) {
    exists i, c, p :: 0 <= i < |spans| && c in spans[i].sources && c.key == u.key
      && Heard(spans[i], p, current, previous) && c.first < u.through <= c.first + spans[i].frames
      && spans[i].first + (u.through - c.first) <= Counter(p, u.stage)
  }

  lemma ProgressVouched(spans: seq<Span>, k: nat, current: Position, previous: Option<Position>)
    requires spans != [] && k < |Progress(spans[0], Seen(spans[0], current, previous))|
    ensures Vouched(spans, Progress(spans[0], Seen(spans[0], current, previous))[k], current, previous)
  {
    var span := spans[0];
    var seen := Seen(span, current, previous);
    var u := Progress(span, seen)[k];
    var n := if seen.observedDma > span.observedDma then |span.sources| else 0;
    var c := span.sources[if k < n then k else k - n];
    assert u.key == c.key && u.through == c.first + if k < n then seen.observedDma else seen.observed;
    SeenReaches(span, current, previous);
    HeardSpeaks(span, Speaks(span, current, previous).value, current, previous);
  }

  /** Every report of an observation is vouched for; the only others are unconfirmed rests. */
  lemma {:induction false} ReportsVouched(spans: seq<Span>, current: Position, previous: Option<Position>, k: nat)
    requires k < |Observe(spans, current, previous).1|
    ensures var u := Observe(spans, current, previous).1[k];
      u.stage == Unconfirmed || Vouched(spans, u, current, previous)
    decreases |spans|
  {
    hide Vouched, Seen, Stays, Progress, Farewell;
    var seen := Seen(spans[0], current, previous);
    var progress, gone := Progress(spans[0], seen), Farewell(seen);
    if k < |progress| {
      ProgressVouched(spans, k, current, previous);
    } else if k < |progress + gone| {
      OnlyUnconfirmed(seen);
    } else {
      var rest := Observe(spans[1..], current, previous).1;
      assert Observe(spans, current, previous).1[k] == rest[k - |progress + gone|];
      ReportsVouched(spans[1..], current, previous, k - |progress + gone|);
      RestVouched(spans, rest[k - |progress + gone|], current, previous);
    }
  }

  lemma OnlyUnconfirmed(seen: Span)
    ensures forall k :: 0 <= k < |Farewell(seen)| ==> Farewell(seen)[k].stage == Unconfirmed
  {
  }

  lemma RestVouched(spans: seq<Span>, u: Update, current: Position, previous: Option<Position>)
    requires spans != [] && (u.stage == Unconfirmed || Vouched(spans[1..], u, current, previous))
    ensures u.stage == Unconfirmed || Vouched(spans, u, current, previous)
  {
    hide Heard;
    if u.stage != Unconfirmed {
      var i, c, p :| 0 <= i < |spans[1..]| && c in spans[1..][i].sources && c.key == u.key
        && Heard(spans[1..][i], p, current, previous)
        && c.first < u.through <= c.first + spans[1..][i].frames
        && spans[1..][i].first + (u.through - c.first) <= Counter(p, u.stage);
      assert spans[i + 1] == spans[1..][i];
    }
  }

  // ----- whole runs

  /** The frames of a stream that were played, and those that DMA read. */
  datatype Tally = Tally(played: set<nat>, read: set<nat>)

  ghost function Tallied(d: Desk, lim: Limits, step: Step, slot: nat, tally: Tally): Tally {
    match step
    case ObserveStep(current, previous) =>
      var next := Next(d, lim, step);
      if !IsOpen(d, slot) || !IsOpen(next, slot) then tally
      else
        var s, t := d.slots[slot].value, next.slots[slot].value;
        var key := Key(slot, s.generation);
        Tally(tally.played + ReachedFrames(d.spans, key, s.retired, t.retired, current, previous, Consumed),
              tally.read + ReachedFrames(d.spans, key, s.dmaRetired, t.dmaRetired, current, previous, Dma))
    case OpenStep(other) => if other == slot && !IsOpen(d, slot) then Tally({}, {}) else tally
    case _ => tally
  }

  /** The tally of a stream slot over a run, from its last opening on. */
  ghost function TallyRun(d: Desk, lim: Limits, steps: seq<Step>, slot: nat, tally: Tally): Tally
    decreases |steps|
  {
    if steps == [] then tally
    else TallyRun(Next(d, lim, steps[0]), lim, steps[1..], slot, Tallied(d, lim, steps[0], slot, tally))
  }

  /** The counters of an open stream are the sizes of its tally. */
  ghost predicate Counted(d: Desk, slot: nat, tally: Tally) {
    IsOpen(d, slot) ==>
      var s := d.slots[slot].value;
      && s.consumed == |tally.played| && (forall f :: f in tally.played ==> f < s.retired)
      && s.dma == |tally.read| && (forall f :: f in tally.read ==> f < s.dmaRetired)
  }

  /** What one observation does to one source. */
  lemma ObservedTruth(d: Desk, lim: Limits, current: Position, previous: Option<Position>, slot: nat)
    requires DeskInv(d, lim) && IsOpen(d, slot)
    ensures var next := Next(d, lim, ObserveStep(current, previous));
      && IsOpen(next, slot)
      && var s, t := d.slots[slot].value, next.slots[slot].value;
         var key := Key(slot, s.generation);
         && s.retired <= t.retired && s.dmaRetired <= t.dmaRetired
         && t.consumed == s.consumed
              + |ReachedFrames(d.spans, key, s.retired, t.retired, current, previous, Consumed)|
         && t.dma == s.dma + |ReachedFrames(d.spans, key, s.dmaRetired, t.dmaRetired, current, previous, Dma)|
  {
    hide SlotInv, LedgerInv, Issued, Observe, Reached;
    var s := d.slots[slot].value;
    var key := Key(slot, s.generation);
    if PositionOk(current) && (previous.Some? ==> PositionOk(previous.value)) {
      assert SlotInv(d.spans, slot, s);
      ObserveTruthful(d.spans, current, previous, slot, s);
    } else {
      NoneReached(d.spans, key, s.retired, current, previous, Consumed);
      NoneReached(d.spans, key, s.dmaRetired, current, previous, Dma);
    }
  }

  lemma NoneReached(spans: seq<Span>, key: Key, at: nat, current: Position, previous: Option<Position>, stage: Stage)
    ensures ReachedFrames(spans, key, at, at, current, previous, stage) == {}
  {
  }

  /** Frames from `from` on are new to a set of earlier ones. */
  lemma NewFrames(before: set<nat>, spans: seq<Span>, key: Key, from: nat, to: nat, current: Position,
                  previous: Option<Position>, stage: Stage)
    requires from <= to && forall f :: f in before ==> f < from
    ensures var more := ReachedFrames(spans, key, from, to, current, previous, stage);
      |before + more| == |before| + |more| && forall f :: f in before + more ==> f < to
  {
    hide Reached;
    assert before !! ReachedFrames(spans, key, from, to, current, previous, stage);
  }

  lemma ObserveCounted(d: Desk, lim: Limits, current: Position, previous: Option<Position>, slot: nat, tally: Tally)
    requires DeskInv(d, lim) && Counted(d, slot, tally)
    ensures var step := ObserveStep(current, previous);
      Counted(Next(d, lim, step), slot, Tallied(d, lim, step, slot, tally))
  {
    if IsOpen(d, slot) {
      ObservedTruth(d, lim, current, previous, slot);
      hide DeskInv, Next, ReachedFrames;
      var s, t := d.slots[slot].value, Next(d, lim, ObserveStep(current, previous)).slots[slot].value;
      var key := Key(slot, s.generation);
      NewFrames(tally.played, d.spans, key, s.retired, t.retired, current, previous, Consumed);
      NewFrames(tally.read, d.spans, key, s.dmaRetired, t.dmaRetired, current, previous, Dma);
    } else {
      hide DeskInv, Observe;
    }
  }

  lemma StepCounted(d: Desk, lim: Limits, step: Step, slot: nat, tally: Tally)
    requires DeskInv(d, lim) && Counted(d, slot, tally)
    ensures Counted(Next(d, lim, step), slot, Tallied(d, lim, step, slot, tally))
  {
    if step.ObserveStep? {
      ObserveCounted(d, lim, step.current, step.previous, slot, tally);
    } else {
      hide DeskInv;
    }
  }

  /** In every run, the consumed and the DMA counter of every open stream are the numbers of its frames
      that the device had reached when they were reported. */
  lemma {:induction false} RunCounted(d: Desk, lim: Limits, steps: seq<Step>, slot: nat, tally: Tally)
    requires DeskInv(d, lim) && Counted(d, slot, tally)
    ensures Counted(Run(d, lim, steps), slot, TallyRun(d, lim, steps, slot, tally))
    decreases |steps|
  {
    hide DeskInv, Counted, Next, Tallied;
    if steps != [] {
      StepKeeps(d, lim, steps[0]);
      StepCounted(d, lim, steps[0], slot, tally);
      RunCounted(Next(d, lim, steps[0]), lim, steps[1..], slot, Tallied(d, lim, steps[0], slot, tally));
    }
  }

  lemma StartHolds(d: Desk, lim: Limits, slot: nat)
    requires Start(d)
    ensures DeskInv(d, lim) && Counted(d, slot, Tally({}, {}))
  {
  }

  lemma PlayedIsPlayed(d: Desk, lim: Limits, steps: seq<Step>, slot: nat)
    requires Start(d)
    ensures Counted(Run(d, lim, steps), slot, TallyRun(d, lim, steps, slot, Tally({}, {})))
  {
    StartHolds(d, lim, slot);
    RunCounted(d, lim, steps, slot, Tally({}, {}));
  }

  /** Every frame of a tally was reached at some observation of the run, in the ledger of that moment. */
  ghost predicate Witnessed(d: Desk, lim: Limits, steps: seq<Step>, slot: nat, f: nat, stage: Stage) {
    exists k :: 0 <= k < |steps| && WitnessedAt(Run(d, lim, steps[..k]), steps[k], slot, f, stage)
  }

  ghost predicate WitnessedAt(d: Desk, step: Step, slot: nat, f: nat, stage: Stage) {
    && step.ObserveStep? && IsOpen(d, slot)
    && Reached(d.spans, Key(slot, d.slots[slot].value.generation), f, step.current, step.previous, stage)
  }

  lemma {:induction false} TallyWitnessed(
    d: Desk, lim: Limits, steps: seq<Step>, slot: nat, tally: Tally, f: nat)
    ensures var after := TallyRun(d, lim, steps, slot, tally);
      && (f in after.played ==> f in tally.played || Witnessed(d, lim, steps, slot, f, Consumed))
      && (f in after.read ==> f in tally.read || Witnessed(d, lim, steps, slot, f, Dma))
    decreases |steps|
  {
    hide Next, WitnessedAt, Tallied;
    if steps != [] {
      var next, more := Next(d, lim, steps[0]), Tallied(d, lim, steps[0], slot, tally);
      TallyWitnessed(next, lim, steps[1..], slot, more, f);
      StepWitnessed(d, lim, steps[0], slot, tally, f);
      assert Run(d, lim, steps[..0]) == d;
      LaterWitness(d, lim, steps, slot, f, Consumed);
      LaterWitness(d, lim, steps, slot, f, Dma);
    }
  }

  lemma StepWitnessed(d: Desk, lim: Limits, step: Step, slot: nat, tally: Tally, f: nat)
    ensures var more := Tallied(d, lim, step, slot, tally);
      && (f in more.played ==> f in tally.played || WitnessedAt(d, step, slot, f, Consumed))
      && (f in more.read ==> f in tally.read || WitnessedAt(d, step, slot, f, Dma))
  {
    hide Next, Reached;
  }

  lemma LaterWitness(d: Desk, lim: Limits, steps: seq<Step>, slot: nat, f: nat, stage: Stage)
    requires steps != []
    ensures Witnessed(Next(d, lim, steps[0]), lim, steps[1..], slot, f, stage) ==>
      Witnessed(d, lim, steps, slot, f, stage)
  {
    hide Next, WitnessedAt;
    var next := Next(d, lim, steps[0]);
    if k :| 0 <= k < |steps[1..]| && WitnessedAt(Run(next, lim, steps[1..][..k]), steps[1..][k], slot, f, stage) {
      assert steps[..k + 1][1..] == steps[1..][..k] && steps[..k + 1][0] == steps[0];
      assert Run(d, lim, steps[..k + 1]) == Run(next, lim, steps[1..][..k]);
      assert steps[1..][k] == steps[k + 1];
    }
  }

  // ----- a stream that plays to its end

  /** The life of one chunk: opened, accepted, mixed, and consumed by the device. */
  function WholeLife(slot: nat, frames: nat, now: nat, first: nat, p: Position): seq<Step> {
    [OpenStep(slot), AcceptStep(slot, frames, now), PumpStep([slot], frames, first, p.epoch, true),
     ObserveStep(p, None)]
  }

  /** It leaves nothing behind: every frame is accepted, submitted, read and played. */
  lemma PlaysThrough(d: Desk, lim: Limits, slot: nat, frames: nat, now: nat, first: nat, p: Position)
    requires DeskInv(d, lim) && d.spans == [] && slot < |d.slots| && d.slots[slot].None?
    requires lim.spans > 0 && lim.sources > 0 && lim.stamps > 0 && 0 < frames && first + frames <= MAX
    requires p.epoch.backend != 0 && p.epoch.output != 0 && p.epoch.reset != 0
    requires first + frames <= p.consumed <= p.dma
    ensures var t := Run(d, lim, WholeLife(slot, frames, now, first, p));
      && t.spans == [] && IsOpen(t, slot)
      && t.slots[slot].value == Source(d.next, frames, frames, frames, frames, 0, frames, frames, [])
  {
    assert d.next > 0;
    hide DeskInv, Next;
    var steps := WholeLife(slot, frames, now, first, p);
    var b := Next(Next(d, lim, steps[0]), lim, steps[1]);
    AcceptedOne(d, lim, slot, frames, now);
    PumpedOne(b, lim, slot, frames, first, p.epoch);
    var c := Next(b, lim, steps[2]);
    ObservedOne(c, lim, slot, frames, p);
    RunFour(d, lim, steps);
  }

  lemma AcceptedOne(d: Desk, lim: Limits, slot: nat, frames: nat, now: nat)
    requires d.next > 0 && slot < |d.slots| && d.slots[slot].None? && lim.stamps > 0 && 0 < frames <= MAX
    ensures var t := Next(Next(d, lim, OpenStep(slot)), lim, AcceptStep(slot, frames, now));
      && t.spans == d.spans && IsOpen(t, slot)
      && t.slots[slot].value == New(d.next).(accepted := frames, stamps := [Stamp(frames, now)])
  {
    var a := Next(d, lim, OpenStep(slot));
    assert a.slots[slot] == Some(New(d.next));
    assert Stamped([], frames, now) == [Stamp(frames, now)];
  }

  lemma ObservedOne(d: Desk, lim: Limits, slot: nat, frames: nat, p: Position)
    requires IsOpen(d, slot) && |d.spans| == 1 && 0 < frames && p.consumed <= p.dma
    requires var s, span := d.slots[slot].value, d.spans[0];
      && s.generation != 0 && s.accepted == s.submitted == frames && |s.stamps| == 1 && s.stamps[0].end == frames
      && s.dma == s.consumed == s.unconfirmed == s.retired == s.dmaRetired == 0
      && span.tracking && span.epoch == p.epoch && span.sources == [Contribution(Key(slot, s.generation), 0)]
      && span.observed == span.observedDma == 0 && span.frames == frames && span.first + frames <= p.consumed
    ensures var t := Next(d, lim, ObserveStep(p, None));
      && t.spans == [] && IsOpen(t, slot)
      && t.slots[slot].value ==
           Source(d.slots[slot].value.generation, frames, frames, frames, frames, 0, frames, frames, [])
  {
    var s := d.slots[slot].value;
    assert d.spans == [d.spans[0]];
    ConsumedOne(d.spans[0], Contribution(Key(slot, s.generation), 0), p);
    DeliversOne(s, slot, frames);
    hide Observe, DeliverAll;
  }

  lemma RunFour(d: Desk, lim: Limits, steps: seq<Step>)
    requires |steps| == 4
    ensures Run(d, lim, steps) ==
      Next(Next(Next(Next(d, lim, steps[0]), lim, steps[1]), lim, steps[2]), lim, steps[3])
  {
    hide Next;
    var a := Next(d, lim, steps[0]);
    var b := Next(a, lim, steps[1]);
    var c := Next(b, lim, steps[2]);
    assert steps[1..][1..] == steps[2..] && steps[2..][1..] == steps[3..] && steps[3..][1..] == [];
    assert Run(Next(c, lim, steps[3]), lim, []) == Next(c, lim, steps[3]);
    assert Run(c, lim, steps[3..]) == Next(c, lim, steps[3]);
    assert Run(b, lim, steps[2..]) == Run(c, lim, steps[3..]);
    assert Run(a, lim, steps[1..]) == Run(b, lim, steps[2..]);
  }

  lemma PumpedOne(d: Desk, lim: Limits, slot: nat, frames: nat, first: nat, epoch: Epoch)
    requires d.spans == [] && lim.spans > 0 && lim.sources > 0 && IsOpen(d, slot) && 0 < frames && first + frames <= MAX
    requires var s := d.slots[slot].value; s.generation != 0 && s.submitted == 0 && s.accepted == frames
    requires epoch.backend != 0 && epoch.output != 0 && epoch.reset != 0
    ensures var t := Next(d, lim, PumpStep([slot], frames, first, epoch, true));
      && t.spans ==
        [Span(epoch, first, frames, 0, 0, true, [Contribution(Key(slot, d.slots[slot].value.generation), 0)])]
      && IsOpen(t, slot) && t.slots[slot].value == d.slots[slot].value.(submitted := frames)
  {
    var s := d.slots[slot].value;
    assert IsOpen(d, [slot][0]);
    assert PumpReady(d, lim, [slot], frames, first, epoch, true);
    assert [slot][1..] == [];
    assert Contributions(d, [slot]) == [ContributionOf(d, slot)];
    var span := Mixed(d, [slot], frames, first, epoch, true);
    assert Pushable(span, lim.sources);
  }

  lemma ConsumedOne(span: Span, c: Contribution, p: Position)
    requires span.tracking && span.epoch == p.epoch && span.sources == [c] && span.observed == span.observedDma == 0
    requires 0 < span.frames && span.first + span.frames <= p.consumed <= p.dma
    ensures Observe([span], p, None) ==
      ([], [Update(c.key, c.first + span.frames, Dma), Update(c.key, c.first + span.frames, Consumed)])
  {
    var seen := Seen(span, p, None);
    assert seen.observed == seen.observedDma == span.frames;
    assert Updates([c], span.frames, Dma) == [Update(c.key, c.first + span.frames, Dma)];
    assert Updates([c], span.frames, Consumed) == [Update(c.key, c.first + span.frames, Consumed)];
    var updates := [Update(c.key, c.first + span.frames, Dma), Update(c.key, c.first + span.frames, Consumed)];
    assert Progress(span, seen) == updates && Farewell(seen) == [];
    NothingObserved(p, None);
    assert [span][1..] == [] && updates + [] + [] == updates;
  }

  lemma DeliversOne(s: Source, slot: nat, frames: nat)
    requires s.generation != 0 && s.accepted == s.submitted == frames > 0
    requires |s.stamps| == 1 && s.stamps[0].end == frames
    requires s.dma == s.consumed == s.unconfirmed == s.retired == s.dmaRetired == 0
    ensures var key := Key(slot, s.generation);
      DeliverAll(s, slot, [Update(key, frames, Dma), Update(key, frames, Consumed)]) ==
        Source(s.generation, frames, frames, frames, frames, 0, frames, frames, [])
  {
    var key := Key(slot, s.generation);
    var u, v := Update(key, frames, Dma), Update(key, frames, Consumed);
    assert [u, v][1..] == [v] && [v][1..] == [];
    var s1 := Deliver(s, slot, u).0;
    assert s1.stamps[1..] == [];
    var s2 := Deliver(s1, slot, v).0;
    assert DropThrough(s1.stamps, frames) == [];
    assert DeliverAll(s1, slot, [v]) == DeliverAll(s2, slot, []);
  }
}
