/** The attribution ledger: which source frames each span of device frames carries. */
module PlaybackLedger {
  import opened Common
  import opened RingWindow
  import opened PlaybackSource

  datatype Epoch = Epoch(backend: nat, output: nat, reset: nat)
  datatype Position = Position(epoch: Epoch, dma: nat, consumed: nat)
  datatype Key = Key(slot: nat, generation: nat)
  datatype Contribution = Contribution(key: Key, first: nat)

  datatype Span = Span(
    epoch: Epoch, first: nat, frames: nat, observed: nat, observedDma: nat, tracking: bool, sources: seq<Contribution>)

  const EMPTY := Span(Epoch(0, 0, 0), 0, 0, 0, 0, true, [])

  datatype Update = Update(key: Key, through: nat, stage: Stage)

  /** What push accepts into a ledger that is not full. */
  predicate Pushable(span: Span, maxSources: nat) {
    && span.frames != 0 && span.sources != [] && |span.sources| <= maxSources
    && (span.tracking ==> span.epoch.backend != 0 && span.epoch.output != 0 && span.epoch.reset != 0)
    && span.first + span.frames <= MAX
    && forall c :: c in span.sources ==> c.key.generation != 0 && c.first + span.frames <= MAX
  }

  function Push(spans: seq<Span>, capacity: nat, maxSources: nat, span: Span): (seq<Span>, bool) {
    if |spans| < capacity && Pushable(span, maxSources)
    then (spans + [span.(observed := 0, observedDma := 0)], true) else (spans, false)
  }

  /** The device position that speaks for a span. */
  function Speaks(span: Span, current: Position, previous: Option<Position>): Option<Position> {
    if !span.tracking then None
    else if span.epoch == current.epoch then Some(current)
    else if previous.Some? && previous.value.epoch == span.epoch then previous
    else None
  }

  /** How far into the span a device counter has come. */
  function Into(span: Span, counter: nat): (r: nat)
    ensures r <= span.frames
  {
    if counter < span.first then 0 else if counter - span.first < span.frames then counter - span.first else span.frames
  }

  function Updates(sources: seq<Contribution>, through: nat, stage: Stage): seq<Update> {
    seq(|sources|, i requires 0 <= i < |sources| => Update(sources[i].key, sources[i].first + through, stage))
  }

  /** The span after one look at it. */
  function Seen(span: Span, current: Position, previous: Option<Position>): Span {
    var p := Speaks(span, current, previous);
    var dma := if p.Some? then Into(span, p.value.dma) else 0;
    var consumed := if p.Some? then Into(span, p.value.consumed) else 0;
    span.(observedDma := Max(span.observedDma, dma), observed := Max(span.observed, consumed))
  }

  /** The updates of one look: what DMA read, then what was consumed. */
  function Progress(span: Span, seen: Span): seq<Update> {
    (if seen.observedDma > span.observedDma then Updates(span.sources, seen.observedDma, Dma) else []) +
    (if seen.observed > span.observed then Updates(span.sources, seen.observed, Consumed) else [])
  }

  predicate Stays(seen: Span, current: Position) {
    seen.tracking && seen.epoch == current.epoch && seen.observed != seen.frames
  }

  /** The updates of a span that leaves the ledger: its unplayed rest is unconfirmed. */
  function Farewell(seen: Span): seq<Update> {
    if seen.observed != seen.frames then Updates(seen.sources, seen.frames, Unconfirmed) else []
  }

  function Observe(spans: seq<Span>, current: Position, previous: Option<Position>): (seq<Span>, seq<Update>)
    decreases |spans|
  {
    if spans == [] then ([], [])
    else
      var seen := Seen(spans[0], current, previous);
      var progress := Progress(spans[0], seen);
      if Stays(seen, current) then ([seen] + spans[1..], progress)
      else
        var rest := Observe(spans[1..], current, previous);
        (rest.0, progress + Farewell(seen) + rest.1)
  }

  /** What is still to be done after the updates `done`. */
  predicate Rest(whole: (seq<Span>, seq<Update>), done: seq<Update>, rest: (seq<Span>, seq<Update>)) {
    whole.0 == rest.0 && whole.1 == done + rest.1
  }

  lemma RestStep(whole: (seq<Span>, seq<Update>), done: seq<Update>, some: seq<Update>, rest: (seq<Span>, seq<Update>))
    requires Rest(whole, done, (rest.0, some + rest.1))
    ensures Rest(whole, done + some, rest)
  {
  }

  lemma RestEnds(whole: (seq<Span>, seq<Update>), done: seq<Update>, spans: seq<Span>)
    ensures Rest(whole, [], whole)
    ensures Rest(whole, done, (spans, [])) ==> whole == (spans, done)
  {
    assert done + [] == done;
  }

  /** The ledger as the kernel keeps it: a ring of spans. */
  class Ledger {
    const spans: array<Span>
    const maxSources: nat
    var head: nat
    var len: nat

    ghost predicate Valid()
      reads this
    {
      len <= spans.Length && (spans.Length == 0 || head < spans.Length)
    }

    function Contents(): seq<Span>
      requires Valid()
      reads this, spans
    {
      Window(spans[..], head, len)
    }

    constructor (capacity: nat, maxSources: nat)
      ensures Valid() && fresh(spans) && spans.Length == capacity && this.maxSources == maxSources && Contents() == []
    {
      spans := new Span[capacity](_ => EMPTY);
      this.maxSources := maxSources;
      head, len := 0, 0;
    }

    method Append(span: Span) returns (ok: bool)
      requires Valid()
      modifies this`len, spans
      ensures Valid() && (Contents(), ok) == Push(old(Contents()), spans.Length, maxSources, span)
    {
      if len == spans.Length || !Pushable(span, maxSources) { return false; }
      Appends(spans[..], head, len, span.(observed := 0, observedDma := 0));
      spans[Cell(head, len, spans.Length)] := span.(observed := 0, observedDma := 0);
      len := len + 1;
      ok := true;
    }

    /** Reports one position for every source of a span. */
    method Report(sources: seq<Contribution>, through: nat, stage: Stage, before: seq<Update>)
        returns (updates: seq<Update>)
      ensures updates == before + Updates(sources, through, stage)
    {
      updates := before;
      for i := 0 to |sources|
        invariant updates == before + Updates(sources, through, stage)[..i]
      {
        updates := updates + [Update(sources[i].key, sources[i].first + through, stage)];
      }
    }

    /** Looks at the head span: its progress is recorded and reported. */
    method Look(current: Position, previous: Option<Position>, before: seq<Update>) returns (updates: seq<Update>)
      requires Valid() && len > 0
      modifies spans
      ensures Valid()
      ensures var span := old(Contents())[0];
        var seen := Seen(span, current, previous);
        Contents() == old(Contents())[0 := seen] && updates == before + Progress(span, seen)
    {
      updates := before;
      var span := spans[head];
      ghost var cells := spans[..];
      Drops(cells, head, len, span);
      ReplacesHead(cells, head, len, Seen(span, current, previous));
      var position := Speaks(span, current, previous);
      var throughDma := if position.Some? then Into(span, position.value.dma) else 0;
      if throughDma > span.observedDma {
        updates := Report(span.sources, throughDma, Dma, updates);
        spans[head] := spans[head].(observedDma := throughDma);
      }
      var through := if position.Some? then Into(span, position.value.consumed) else 0;
      if through > span.observed {
        updates := Report(span.sources, through, Consumed, updates);
        spans[head] := spans[head].(observed := through);
      }
      assert spans[..] == cells[head := Seen(span, current, previous)];
    }

    method ObserveSpans(current: Position, previous: Option<Position>) returns (updates: seq<Update>)
      requires Valid()
      modifies this`head, this`len, spans
      ensures Valid() && (Contents(), updates) == Observe(old(Contents()), current, previous)
    {
      hide Rest, Seen, Progress, Farewell, Window, Stays, Observe, Updates;
      updates := [];
      ghost var whole := Observe(Contents(), current, previous);
      RestEnds(whole, [], []);
      NothingObserved(current, previous);
      while len != 0
        invariant Valid() && Rest(whole, updates, Observe(Contents(), current, previous))
        decreases len
      {
        ghost var spans0, updates0 := Contents(), updates;
        ghost var seen := Seen(spans0[0], current, previous);
        updates := Look(current, previous, updates);
        var stays := StaysNow(current);
        if stays {
          assert Contents() == [seen] + spans0[1..];
          StaysRest(whole, updates0, spans0, current, previous);
          return;
        }
        updates := Dismiss(updates);
        LeavesRest(whole, updates0, updates, spans0, current, previous);
        Pop();
      }
      RestEnds(whole, updates, []);
    }

    /** The head span leaves the ring. */
    method Pop()
      requires Valid() && len > 0
      modifies this`head, this`len, spans
      ensures Valid() && len == old(len) - 1 && Contents() == old(Contents())[1..]
    {
      hide Window;
      Drops(spans[..], head, len, EMPTY);
      spans[head] := EMPTY;
      head := Cell(head, 1, spans.Length);
      len := len - 1;
    }

    /** The rest of a span that leaves is reported as unconfirmed. */
    method Dismiss(before: seq<Update>) returns (updates: seq<Update>)
      requires Valid() && len > 0
      ensures updates == before + Farewell(Contents()[0])
    {
      Drops(spans[..], head, len, EMPTY);
      updates := before;
      if spans[head].observed != spans[head].frames {
        updates := Report(spans[head].sources, spans[head].frames, Unconfirmed, updates);
      }
    }

    method StaysNow(current: Position) returns (stays: bool)
      requires Valid() && len > 0
      ensures stays == Stays(Contents()[0], current)
    {
      Drops(spans[..], head, len, EMPTY);
      stays := spans[head].tracking && spans[head].epoch == current.epoch && spans[head].observed != spans[head].frames;
    }
  }

  lemma NothingObserved(current: Position, previous: Option<Position>)
    ensures Observe([], current, previous) == ([], [])
  {
  }

  lemma ReplacesHead(cells: seq<Span>, head: nat, len: nat, x: Span)
    requires head < |cells| && 0 < len <= |cells|
    ensures Window(cells[head := x], head, len) == Window(cells, head, len)[0 := x]
  {
    Replaces(cells, head, len, 0, x);
  }

  lemma StaysRest(whole: (seq<Span>, seq<Update>), done: seq<Update>, spans: seq<Span>, current: Position,
      previous: Option<Position>)
    requires spans != [] && Rest(whole, done, Observe(spans, current, previous))
    requires Stays(Seen(spans[0], current, previous), current)
    ensures var seen := Seen(spans[0], current, previous);
      whole == ([seen] + spans[1..], done + Progress(spans[0], seen))
  {
  }

  lemma LeavesRest(whole: (seq<Span>, seq<Update>), done: seq<Update>, next: seq<Update>, spans: seq<Span>,
      current: Position, previous: Option<Position>)
    requires spans != [] && Rest(whole, done, Observe(spans, current, previous))
    requires !Stays(Seen(spans[0], current, previous), current)
    requires var seen := Seen(spans[0], current, previous);
      next == done + Progress(spans[0], seen) + Farewell(seen)
    ensures Rest(whole, next, Observe(spans[1..], current, previous))
  {
    var seen := Seen(spans[0], current, previous);
    assert next == done + (Progress(spans[0], seen) + Farewell(seen));
    RestStep(whole, done, Progress(spans[0], seen) + Farewell(seen), Observe(spans[1..], current, previous));
  }
}
