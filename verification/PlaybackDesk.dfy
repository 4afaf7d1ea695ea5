/** The ledger together with the sources it reports to, over every run of the mixer. */
module PlaybackDesk {
  import opened Common
  import opened PlaybackSource
  import opened PlaybackLedger

  // ----- one source among the updates of a ledger

  function Deliver(s: Source, slot: nat, u: Update): (Source, bool) {
    if u.key.slot == slot then Apply(s, u.key.generation, u.through, u.stage) else (s, false)
  }

  function DeliverAll(s: Source, slot: nat, updates: seq<Update>): Source
    decreases |updates|
  {
    if updates == [] then s else DeliverAll(Deliver(s, slot, updates[0]).0, slot, updates[1..])
  }

  /** Every update addressed to the source is accepted when it names the live generation, and
      rejected without a trace when it names another one. */
  predicate Settles(s: Source, slot: nat, updates: seq<Update>)
    decreases |updates|
  {
    updates == [] ||
    (var r := Deliver(s, slot, updates[0]);
     && (r.1 <==> updates[0].key == Key(slot, s.generation))
     && (!r.1 ==> r.0 == s)
     && Settles(r.0, slot, updates[1..]))
  }

  lemma {:induction false} DeliverJoin(s: Source, slot: nat, a: seq<Update>, b: seq<Update>)
    ensures DeliverAll(s, slot, a + b) == DeliverAll(DeliverAll(s, slot, a), slot, b)
    ensures Settles(s, slot, a) && Settles(DeliverAll(s, slot, a), slot, b) ==> Settles(s, slot, a + b)
    decreases |a|
  {
    if a == [] {
      assert a + b == b;
    } else {
      assert (a + b)[1..] == a[1..] + b;
      DeliverJoin(Deliver(s, slot, a[0]).0, slot, a[1..], b);
    }
  }

  /** The first source frame a span carries for a key. */
  function Own(sources: seq<Contribution>, key: Key): Option<nat>
    decreases |sources|
  {
    if sources == [] then None else if sources[0].key == key then Some(sources[0].first) else Own(sources[1..], key)
  }

  predicate DistinctSlots(sources: seq<Contribution>) {
    forall i, j :: 0 <= i < j < |sources| ==> sources[i].key.slot != sources[j].key.slot
  }

  lemma {:induction false} OthersUntouched(s: Source, slot: nat, sources: seq<Contribution>, through: nat, stage: Stage)
    requires forall i :: 0 <= i < |sources| ==> sources[i].key.slot != slot
    ensures DeliverAll(s, slot, Updates(sources, through, stage)) == s &&
      Settles(s, slot, Updates(sources, through, stage))
    decreases |sources|
  {
    if sources != [] {
      assert Updates(sources, through, stage)[1..] == Updates(sources[1..], through, stage);
      OthersUntouched(s, slot, sources[1..], through, stage);
    }
  }

  /** One report for all sources of a span reaches a source at most once, with its own position. */
  lemma {:induction false} DeliverUpdates(s: Source, slot: nat, sources: seq<Contribution>, through: nat, stage: Stage)
    requires DistinctSlots(sources) && s.generation != 0
    requires var own := Own(sources, Key(slot, s.generation));
      own.Some? ==> Apply(s, s.generation, own.value + through, stage).1
    ensures var own := Own(sources, Key(slot, s.generation));
      && Settles(s, slot, Updates(sources, through, stage))
      && DeliverAll(s, slot, Updates(sources, through, stage))
         == if own.Some? then Apply(s, s.generation, own.value + through, stage).0 else s
    decreases |sources|
  {
    if sources != [] {
      var updates := Updates(sources, through, stage);
      assert updates[1..] == Updates(sources[1..], through, stage);
      if sources[0].key == Key(slot, s.generation) {
        OthersUntouched(Deliver(s, slot, updates[0]).0, slot, sources[1..], through, stage);
      } else {
        DeliverUpdates(s, slot, sources[1..], through, stage);
      }
    }
  }

  // ----- contributions are contiguous

  /** The spans carry, for one key, consecutive source frames from `at` to `end`. */
  predicate Chain(spans: seq<Span>, key: Key, at: nat, end: nat)
    decreases |spans|
  {
    if spans == [] then at == end
    else match Own(spans[0].sources, key)
      case None => Chain(spans[1..], key, at, end)
      case Some(first) => first == at && Chain(spans[1..], key, at + spans[0].frames, end)
  }

  lemma {:induction false} ChainGrows(spans: seq<Span>, key: Key, at: nat, end: nat)
    requires Chain(spans, key, at, end)
    ensures at <= end
    decreases |spans|
  {
    if spans != [] {
      match Own(spans[0].sources, key)
      case None => ChainGrows(spans[1..], key, at, end);
      case Some(first) => ChainGrows(spans[1..], key, at + spans[0].frames, end);
    }
  }

  lemma {:induction false} ChainAppend(spans: seq<Span>, span: Span, key: Key, at: nat, end: nat)
    requires Chain(spans, key, at, end)
    ensures Own(span.sources, key) == None ==> Chain(spans + [span], key, at, end)
    ensures Own(span.sources, key) == Some(end) ==> Chain(spans + [span], key, at, end + span.frames)
    decreases |spans|
  {
    if spans == [] {
      assert [span][1..] == [];
    } else {
      assert (spans + [span])[1..] == spans[1..] + [span];
      match Own(spans[0].sources, key)
      case None => ChainAppend(spans[1..], span, key, at, end);
      case Some(first) => ChainAppend(spans[1..], span, key, at + spans[0].frames, end);
    }
  }

  predicate SpanInv(span: Span) {
    && span.frames > 0 && DistinctSlots(span.sources)
    && (forall c :: c in span.sources ==> c.key.generation != 0)
    && span.observed <= span.observedDma <= span.frames && span.observed < span.frames
  }

  /** Only the first span has been looked at. */
  predicate LedgerInv(spans: seq<Span>) {
    && (forall i :: 0 <= i < |spans| ==> SpanInv(spans[i]))
    && (forall i :: 0 < i < |spans| ==> spans[i].observed == 0 && spans[i].observedDma == 0)
  }

  /** The ledger carries the frames of the source from `retired` to `submitted`, in order. */
  predicate SlotInv(spans: seq<Span>, slot: nat, s: Source) {
    && Conserves(s) && s.generation != 0
    && if spans == [] then s.retired == s.submitted
       else
         var key := Key(slot, s.generation);
         match Own(spans[0].sources, key)
         case None => s.retired == s.dmaRetired && Chain(spans[1..], key, s.retired, s.submitted)
         case Some(first) =>
           && s.retired == first + spans[0].observed && s.dmaRetired == first + spans[0].observedDma
           && Chain(spans[1..], key, first + spans[0].frames, s.submitted)
  }

  predicate PositionOk(p: Position) {
    p.consumed <= p.dma
  }

  lemma SeenOk(span: Span, current: Position, previous: Option<Position>)
    requires SpanInv(span) && PositionOk(current) && (previous.Some? ==> PositionOk(previous.value))
    ensures var seen := Seen(span, current, previous);
      && seen.observed <= seen.observedDma <= seen.frames
      && seen == span.(observed := seen.observed, observedDma := seen.observedDma)
      && seen.observed >= span.observed && seen.observedDma >= span.observedDma
  {
  }

  lemma ApplyConserves(s: Source, generation: nat, through: nat, stage: Stage)
    requires Conserves(s)
    ensures Conserves(Apply(s, generation, through, stage).0)
  {
  }

  /** The DMA reports of one look at the head span. */
  lemma DmaKeeps(span: Span, rest: seq<Span>, through: nat, slot: nat, s: Source)
    requires DistinctSlots(span.sources) && SlotInv([span] + rest, slot, s) && span.observedDma < through <= span.frames
    ensures var t := DeliverAll(s, slot, Updates(span.sources, through, Dma));
      && SlotInv([span.(observedDma := through)] + rest, slot, t) && t.generation == s.generation
      && Settles(s, slot, Updates(span.sources, through, Dma))
  {
    var own := Own(span.sources, Key(slot, s.generation));
    assert ([span] + rest)[1..] == rest && ([span.(observedDma := through)] + rest)[1..] == rest;
    if own.Some? { ChainGrows(rest, Key(slot, s.generation), own.value + span.frames, s.submitted); }
    DeliverUpdates(s, slot, span.sources, through, Dma);
    ApplyConserves(s, s.generation, if own.Some? then own.value + through else 0, Dma);
  }

  /** The consumption reports of one look at the head span. */
  lemma ConsumedKeeps(span: Span, rest: seq<Span>, through: nat, slot: nat, s: Source)
    requires DistinctSlots(span.sources) && SlotInv([span] + rest, slot, s) &&
      span.observed < through <= span.observedDma <= span.frames
    ensures var t := DeliverAll(s, slot, Updates(span.sources, through, Consumed));
      && SlotInv([span.(observed := through)] + rest, slot, t) && t.generation == s.generation
      && Settles(s, slot, Updates(span.sources, through, Consumed))
  {
    var own := Own(span.sources, Key(slot, s.generation));
    assert ([span] + rest)[1..] == rest && ([span.(observed := through)] + rest)[1..] == rest;
    if own.Some? { ChainGrows(rest, Key(slot, s.generation), own.value + span.frames, s.submitted); }
    DeliverUpdates(s, slot, span.sources, through, Consumed);
    ApplyConserves(s, s.generation, if own.Some? then own.value + through else 0, Consumed);
  }

  lemma NothingDelivered(s: Source, slot: nat)
    ensures DeliverAll(s, slot, []) == s && Settles(s, slot, [])
  {
  }

  /** One look at the head span, as one source sees it. */
  lemma LookKeeps(spans: seq<Span>, seen: Span, slot: nat, s: Source)
    requires spans != [] && LedgerInv(spans) && SlotInv(spans, slot, s)
    requires spans[0].observed <= seen.observed <= seen.observedDma <= seen.frames &&
      spans[0].observedDma <= seen.observedDma
    requires seen == spans[0].(observed := seen.observed, observedDma := seen.observedDma)
    ensures SlotInv([seen] + spans[1..], slot, DeliverAll(s, slot, Progress(spans[0], seen)))
    ensures Settles(s, slot, Progress(spans[0], seen))
    ensures DeliverAll(s, slot, Progress(spans[0], seen)).generation == s.generation
  {
    hide SlotInv, Updates, DeliverAll, Settles;
    var span, rest := spans[0], spans[1..];
    assert spans == [span] + rest;
    var dma := if seen.observedDma > span.observedDma then Updates(span.sources, seen.observedDma, Dma) else [];
    var played := if seen.observed > span.observed then Updates(span.sources, seen.observed, Consumed) else [];
    var read := span.(observedDma := seen.observedDma);
    if seen.observedDma > span.observedDma {
      DmaKeeps(span, rest, seen.observedDma, slot, s);
    }
    var t := DeliverAll(s, slot, dma);
    NothingDelivered(s, slot);
    NothingDelivered(t, slot);
    if seen.observed > span.observed {
      ConsumedKeeps(read, rest, seen.observed, slot, t);
    }
    DeliverJoin(s, slot, dma, played);
  }

  /** The head span leaves. */
  lemma LeaveKeeps(seen: Span, rest: seq<Span>, slot: nat, s: Source)
    requires LedgerInv(rest) && SlotInv([seen] + rest, slot, s) && DistinctSlots(seen.sources)
    requires seen.observed <= seen.observedDma <= seen.frames
    requires forall i :: 0 <= i < |rest| ==> rest[i].observed == 0 && rest[i].observedDma == 0
    ensures SlotInv(rest, slot, DeliverAll(s, slot, Farewell(seen)))
    ensures Settles(s, slot, Farewell(seen))
    ensures DeliverAll(s, slot, Farewell(seen)).generation == s.generation
  {
    var key := Key(slot, s.generation);
    var own := Own(seen.sources, key);
    assert ([seen] + rest)[1..] == rest;
    if own.Some? { ChainGrows(rest, key, own.value + seen.frames, s.submitted); }
    if seen.observed != seen.frames {
      DeliverUpdates(s, slot, seen.sources, seen.frames, Unconfirmed);
      ApplyConserves(s, s.generation, if own.Some? then own.value + seen.frames else 0, Unconfirmed);
    }
  }

  /** A whole observation, whatever the epochs: the ledger and the source stay in step, and every
      update meets the source it was made for. */
  lemma {:induction false} ObserveKeeps(spans: seq<Span>, current: Position, previous: Option<Position>, slot: nat,
      s: Source)
    requires LedgerInv(spans) && SlotInv(spans, slot, s)
    requires PositionOk(current) && (previous.Some? ==> PositionOk(previous.value))
    ensures var r := Observe(spans, current, previous);
      && SlotInv(r.0, slot, DeliverAll(s, slot, r.1)) && Settles(s, slot, r.1)
      && DeliverAll(s, slot, r.1).generation == s.generation
    decreases |spans|
  {
    if spans != [] {
      var span, rest := spans[0], spans[1..];
      var seen := Seen(span, current, previous);
      SeenOk(span, current, previous);
      LookKeeps(spans, seen, slot, s);
      var progress := Progress(span, seen);
      var t := DeliverAll(s, slot, progress);
      if !Stays(seen, current) {
        LeaveKeeps(seen, rest, slot, t);
        var gone := Farewell(seen);
        var u := DeliverAll(t, slot, gone);
        ObserveKeeps(rest, current, previous, slot, u);
        DeliverJoin(s, slot, progress, gone);
        DeliverJoin(s, slot, progress + gone, Observe(rest, current, previous).1);
      }
    }
  }

  lemma {:induction false} ObserveLedger(spans: seq<Span>, current: Position, previous: Option<Position>)
    requires LedgerInv(spans)
    requires PositionOk(current) && (previous.Some? ==> PositionOk(previous.value))
    ensures LedgerInv(Observe(spans, current, previous).0)
    ensures |Observe(spans, current, previous).0| <= |spans|
    ensures Known(Observe(spans, current, previous).0, Keys(spans))
    decreases |spans|
  {
    if spans != [] {
      SeenOk(spans[0], current, previous);
      ObserveLedger(spans[1..], current, previous);
    }
  }

  ghost function Keys(spans: seq<Span>): iset<Key> {
    iset i, c | 0 <= i < |spans| && c in spans[i].sources :: c.key
  }

  ghost predicate Known(spans: seq<Span>, keys: iset<Key>) {
    forall i, c :: 0 <= i < |spans| && c in spans[i].sources ==> c.key in keys
  }

  // ----- the desk

  datatype Limits = Limits(spans: nat, sources: nat, stamps: nat)

  /** The ledger, the stream slots and the next stream generation. */
  datatype Desk = Desk(spans: seq<Span>, slots: seq<Option<Source>>, next: nat)

  datatype Step =
    | AcceptStep(slot: nat, frames: nat, now: nat)
    | PumpStep(selected: seq<nat>, frames: nat, first: nat, epoch: Epoch, tracking: bool)
    | ObserveStep(current: Position, previous: Option<Position>)
    | OpenStep(slot: nat)
    | CloseStep(slot: nat)

  predicate IsOpen(d: Desk, slot: nat) {
    slot < |d.slots| && d.slots[slot].Some?
  }

  /** A mixed chunk may be written: every selected stream has its frames, the ledger has room. */
  predicate PumpReady(d: Desk, lim: Limits, selected: seq<nat>, frames: nat, first: nat, epoch: Epoch, tracking: bool) {
    && selected != [] && |selected| <= lim.sources && frames > 0 && |d.spans| < lim.spans
    && (forall i, j :: 0 <= i < j < |selected| ==> selected[i] != selected[j])
    && (forall i :: 0 <= i < |selected| ==>
          && IsOpen(d, selected[i])
          && d.slots[selected[i]].value.submitted + frames <= d.slots[selected[i]].value.accepted)
    && (tracking ==> epoch.backend != 0 && epoch.output != 0 && epoch.reset != 0 && first + frames <= MAX)
  }

  function ContributionOf(d: Desk, slot: nat): Contribution
    requires IsOpen(d, slot)
  {
    Contribution(Key(slot, d.slots[slot].value.generation), d.slots[slot].value.submitted)
  }

  predicate AllOpen(d: Desk, selected: seq<nat>) {
    forall i :: 0 <= i < |selected| ==> IsOpen(d, selected[i])
  }

  /** The contributions of the selected streams, taken before they submit. */
  function Contributions(d: Desk, selected: seq<nat>): (r: seq<Contribution>)
    requires AllOpen(d, selected)
    ensures |r| == |selected|
    ensures forall i :: 0 <= i < |r| ==> r[i] == ContributionOf(d, selected[i])
  {
    if selected == [] then [] else [ContributionOf(d, selected[0])] + Contributions(d, selected[1..])
  }

  /** The span of a written chunk; one without a valid receipt keeps its place in the order. */
  function Mixed(d: Desk, selected: seq<nat>, frames: nat, first: nat, epoch: Epoch, tracking: bool): Span
    requires AllOpen(d, selected)
  {
    if tracking then Span(epoch, first, frames, 0, 0, true, Contributions(d, selected))
    else Span(Epoch(0, 0, 0), 0, frames, 0, 0, false, Contributions(d, selected))
  }

  function SubmitSlots(slots: seq<Option<Source>>, selected: seq<nat>, frames: nat): (r: seq<Option<Source>>)
    ensures |r| == |slots|
    ensures forall i :: 0 <= i < |r| ==>
      r[i] == if slots[i].Some? && i in selected then Some(Submit(slots[i].value, frames).0) else slots[i]
  {
    seq(|slots|, i requires 0 <= i < |slots| =>
      if slots[i].Some? && i in selected then Some(Submit(slots[i].value, frames).0) else slots[i])
  }

  function DeliverSlots(slots: seq<Option<Source>>, updates: seq<Update>): (r: seq<Option<Source>>)
    ensures |r| == |slots|
    ensures forall i: nat :: i < |r| ==>
      r[i] == if slots[i].Some? then Some(DeliverAll(slots[i].value, i, updates)) else None
  {
    seq(|slots|, i requires 0 <= i < |slots| => if slots[i].Some? then Some(DeliverAll(slots[i].value, i, updates))
        else None)
  }

  function Next(d: Desk, lim: Limits, step: Step): Desk {
    match step
    case AcceptStep(slot, frames, now) =>
      if IsOpen(d, slot) then d.(slots := d.slots[slot := Some(Accept(d.slots[slot].value, lim.stamps, frames, now).0)])
      else d
    case PumpStep(selected, frames, first, epoch, tracking) =>
      if PumpReady(d, lim, selected, frames, first, epoch, tracking) then
        d.(spans := Push(d.spans, lim.spans, lim.sources, Mixed(d, selected, frames, first, epoch, tracking)).0,
           slots := SubmitSlots(d.slots, selected, frames))
      else d
    case ObserveStep(current, previous) =>
      if PositionOk(current) && (previous.Some? ==> PositionOk(previous.value)) then
        var r := Observe(d.spans, current, previous);
        d.(spans := r.0, slots := DeliverSlots(d.slots, r.1))
      else d
    case OpenStep(slot) =>
      if slot < |d.slots| && d.slots[slot].None?
      then d.(slots := d.slots[slot := Some(New(d.next))], next := d.next + 1)
      else d
    case CloseStep(slot) => if slot < |d.slots| then d.(slots := d.slots[slot := None]) else d
  }

  function Run(d: Desk, lim: Limits, steps: seq<Step>): Desk
    decreases |steps|
  {
    if steps == [] then d else Run(Next(d, lim, steps[0]), lim, steps[1..])
  }

  predicate Start(d: Desk) {
    d.spans == [] && d.next > 0 && forall i :: 0 <= i < |d.slots| ==> d.slots[i].None?
  }

  /** Generations are never reused. */
  predicate Issued(d: Desk) {
    && d.next > 0
    && (forall i :: 0 <= i < |d.slots| && d.slots[i].Some? ==> d.slots[i].value.generation < d.next)
    && (forall i, c :: 0 <= i < |d.spans| && c in d.spans[i].sources ==> c.key.generation < d.next)
  }

  predicate DeskInv(d: Desk, lim: Limits) {
    && |d.spans| <= lim.spans && LedgerInv(d.spans) && Issued(d)
    && forall i :: 0 <= i < |d.slots| && d.slots[i].Some? ==> SlotInv(d.spans, i, d.slots[i].value)
  }

  lemma AcceptSlot(spans: seq<Span>, slot: nat, s: Source, stamps: nat, frames: nat, now: nat)
    requires SlotInv(spans, slot, s)
    ensures SlotInv(spans, slot, Accept(s, stamps, frames, now).0)
  {
  }

  lemma AcceptStepKeeps(d: Desk, lim: Limits, slot: nat, frames: nat, now: nat)
    requires DeskInv(d, lim)
    ensures DeskInv(Next(d, lim, AcceptStep(slot, frames, now)), lim)
  {
    if IsOpen(d, slot) {
      AcceptSlot(d.spans, slot, d.slots[slot].value, lim.stamps, frames, now);
      hide SlotInv;
    }
  }

  lemma {:induction false} OwnAbsent(sources: seq<Contribution>, key: Key)
    requires forall i :: 0 <= i < |sources| ==> sources[i].key != key
    ensures Own(sources, key) == None
    decreases |sources|
  {
    if sources != [] { OwnAbsent(sources[1..], key); }
  }

  lemma {:induction false} OwnPresent(sources: seq<Contribution>, key: Key, i: nat)
    requires DistinctSlots(sources) && i < |sources| && sources[i].key == key
    ensures Own(sources, key) == Some(sources[i].first)
    decreases |sources|
  {
    if i > 0 { OwnPresent(sources[1..], key, i - 1); }
  }

  lemma {:induction false} ChainNone(spans: seq<Span>, key: Key, at: nat)
    requires forall i :: 0 <= i < |spans| ==> Own(spans[i].sources, key) == None
    ensures Chain(spans, key, at, at)
    decreases |spans|
  {
    if spans != [] { ChainNone(spans[1..], key, at); }
  }

  /** A generation that was just issued has no frames in the ledger. */
  lemma OpenStepKeeps(d: Desk, lim: Limits, slot: nat)
    requires DeskInv(d, lim)
    ensures DeskInv(Next(d, lim, OpenStep(slot)), lim)
  {
    if slot < |d.slots| && d.slots[slot].None? {
      var key := Key(slot, d.next);
      forall i | 0 <= i < |d.spans| ensures Own(d.spans[i].sources, key) == None {
        OwnAbsent(d.spans[i].sources, key);
      }
      if d.spans != [] { ChainNone(d.spans[1..], key, 0); }
      assert SlotInv(d.spans, slot, New(d.next));
    }
  }

  lemma CloseStepKeeps(d: Desk, lim: Limits, slot: nat)
    requires DeskInv(d, lim)
    ensures DeskInv(Next(d, lim, CloseStep(slot)), lim)
  {
    hide SlotInv;
  }

  lemma ObserveStepKeeps(d: Desk, lim: Limits, current: Position, previous: Option<Position>)
    requires DeskInv(d, lim)
    ensures DeskInv(Next(d, lim, ObserveStep(current, previous)), lim)
  {
    if PositionOk(current) && (previous.Some? ==> PositionOk(previous.value)) {
      ObserveLedger(d.spans, current, previous);
      var t := Next(d, lim, ObserveStep(current, previous));
      forall i | 0 <= i < |d.slots| && d.slots[i].Some?
        ensures t.slots[i].Some? && SlotInv(t.spans, i, t.slots[i].value) &&
          t.slots[i].value.generation == d.slots[i].value.generation
      {
        ObserveKeeps(d.spans, current, previous, i, d.slots[i].value);
      }
      hide SlotInv, Observe;
      forall i, c | 0 <= i < |t.spans| && c in t.spans[i].sources ensures c.key.generation < d.next {
        assert c.key in Keys(d.spans);
      }
    }
  }

  /** The span of a chunk, as one slot sees it. */
  lemma MixedOwn(d: Desk, lim: Limits, selected: seq<nat>, frames: nat, first: nat, epoch: Epoch, tracking: bool,
      slot: nat)
    requires PumpReady(d, lim, selected, frames, first, epoch, tracking) && IsOpen(d, slot)
    ensures var span, s := Mixed(d, selected, frames, first, epoch, tracking), d.slots[slot].value;
      && DistinctSlots(span.sources)
      && Own(span.sources, Key(slot, s.generation)) == if slot in selected then Some(s.submitted) else None
  {
    var span, s := Mixed(d, selected, frames, first, epoch, tracking), d.slots[slot].value;
    if slot in selected {
      var i :| 0 <= i < |selected| && selected[i] == slot;
      OwnPresent(span.sources, Key(slot, s.generation), i);
    } else {
      OwnAbsent(span.sources, Key(slot, s.generation));
    }
  }

  lemma PumpSlot(spans: seq<Span>, span: Span, slot: nat, s: Source, frames: nat)
    requires SlotInv(spans, slot, s) && span.frames == frames > 0 && span.observed == span.observedDma == 0
    ensures Own(span.sources, Key(slot, s.generation)) == None ==> SlotInv(spans + [span], slot, s)
    ensures Own(span.sources, Key(slot, s.generation)) == Some(s.submitted) && s.submitted + frames <= s.accepted ==>
      SlotInv(spans + [span], slot, Submit(s, frames).0)
  {
    var key := Key(slot, s.generation);
    if spans == [] {
      assert (spans + [span])[1..] == [];
    } else {
      assert (spans + [span])[1..] == spans[1..] + [span];
      match Own(spans[0].sources, key)
      case None => ChainAppend(spans[1..], span, key, s.retired, s.submitted);
      case Some(first) => ChainAppend(spans[1..], span, key, first + spans[0].frames, s.submitted);
    }
  }

  /** After the selected streams have submitted, the ledger always takes the span. */
  lemma PushSucceeds(d: Desk, lim: Limits, selected: seq<nat>, frames: nat, first: nat, epoch: Epoch, tracking: bool)
    requires DeskInv(d, lim) && PumpReady(d, lim, selected, frames, first, epoch, tracking)
    ensures Push(d.spans, lim.spans, lim.sources, Mixed(d, selected, frames, first, epoch, tracking)).1
    ensures forall i :: 0 <= i < |selected| ==>
      Submit(d.slots[selected[i]].value, frames).1 == Some(Contributions(d, selected)[i].first)
  {
    var span := Mixed(d, selected, frames, first, epoch, tracking);
    forall i | 0 <= i < |selected|
      ensures Conserves(d.slots[selected[i]].value) && d.slots[selected[i]].value.generation != 0
    {
      assert SlotInv(d.spans, selected[i], d.slots[selected[i]].value);
    }
    hide SlotInv;
    forall c | c in span.sources ensures c.key.generation != 0 && c.first + span.frames <= MAX {
      var i :| 0 <= i < |selected| && c == span.sources[i];
    }
    assert span.frames <= MAX by { assert Conserves(d.slots[selected[0]].value); }
  }

  /** The slots after a chunk was written. */
  lemma PumpSlots(d: Desk, lim: Limits, selected: seq<nat>, frames: nat, first: nat, epoch: Epoch, tracking: bool,
      i: nat)
    requires DeskInv(d, lim) && PumpReady(d, lim, selected, frames, first, epoch, tracking) && IsOpen(d, i)
    ensures var s, t := d.slots[i].value, SubmitSlots(d.slots, selected, frames)[i];
      && t.Some? && t.value.generation == s.generation
      && SlotInv(d.spans + [Mixed(d, selected, frames, first, epoch, tracking)], i, t.value)
  {
    var span := Mixed(d, selected, frames, first, epoch, tracking);
    MixedOwn(d, lim, selected, frames, first, epoch, tracking, i);
    assert i in selected ==> d.slots[i].value.submitted + frames <= d.slots[i].value.accepted;
    PumpSlot(d.spans, span, i, d.slots[i].value, frames);
    hide SlotInv;
  }

  lemma PumpStepKeeps(d: Desk, lim: Limits, selected: seq<nat>, frames: nat, first: nat, epoch: Epoch, tracking: bool)
    requires DeskInv(d, lim)
    ensures DeskInv(Next(d, lim, PumpStep(selected, frames, first, epoch, tracking)), lim)
  {
    hide SlotInv, Mixed, Pushable, LedgerInv, SpanInv, Submit;
    if PumpReady(d, lim, selected, frames, first, epoch, tracking) {
      var span := Mixed(d, selected, frames, first, epoch, tracking);
      var t := Next(d, lim, PumpStep(selected, frames, first, epoch, tracking));
      PushSucceeds(d, lim, selected, frames, first, epoch, tracking);
      MixedSpan(d, lim, selected, frames, first, epoch, tracking);
      AppendLedger(d.spans, span);
      assert span.(observed := 0, observedDma := 0) == span;
      assert t.spans == d.spans + [span] && t.slots == SubmitSlots(d.slots, selected, frames);
      hide PumpReady, Next;
      forall i: nat | i < |d.slots| && d.slots[i].Some?
        ensures var t := SubmitSlots(d.slots, selected, frames)[i];
          t.Some? && t.value.generation == d.slots[i].value.generation && SlotInv(d.spans + [span], i, t.value)
      {
        PumpSlots(d, lim, selected, frames, first, epoch, tracking, i);
      }
    }
  }

  lemma AppendLedger(spans: seq<Span>, span: Span)
    requires LedgerInv(spans) && SpanInv(span) && span.observed == span.observedDma == 0
    ensures LedgerInv(spans + [span])
  {
  }

  lemma MixedSpan(d: Desk, lim: Limits, selected: seq<nat>, frames: nat, first: nat, epoch: Epoch, tracking: bool)
    requires DeskInv(d, lim) && PumpReady(d, lim, selected, frames, first, epoch, tracking)
    ensures var span := Mixed(d, selected, frames, first, epoch, tracking);
      && SpanInv(span) && span.observed == span.observedDma == 0
      && (forall c :: c in span.sources ==> c.key.generation < d.next)
  {
    var span := Mixed(d, selected, frames, first, epoch, tracking);
    forall c | c in span.sources ensures 0 < c.key.generation < d.next {
      var i :| 0 <= i < |selected| && c == span.sources[i];
      assert SlotInv(d.spans, selected[i], d.slots[selected[i]].value);
    }
    MixedOwn(d, lim, selected, frames, first, epoch, tracking, selected[0]);
  }

  lemma StepKeeps(d: Desk, lim: Limits, step: Step)
    requires DeskInv(d, lim)
    ensures DeskInv(Next(d, lim, step), lim)
  {
    hide DeskInv, Next;
    match step
    case AcceptStep(slot, frames, now) => AcceptStepKeeps(d, lim, slot, frames, now);
    case PumpStep(selected, frames, first, epoch, tracking) =>
      PumpStepKeeps(d, lim, selected, frames, first, epoch, tracking);
    case ObserveStep(current, previous) => ObserveStepKeeps(d, lim, current, previous);
    case OpenStep(slot) => OpenStepKeeps(d, lim, slot);
    case CloseStep(slot) => CloseStepKeeps(d, lim, slot);
  }

  /** Every run keeps, for every open stream, its contributions contiguous from `retired` to
      `submitted`. */
  lemma {:induction false} RunKeeps(d: Desk, lim: Limits, steps: seq<Step>)
    requires DeskInv(d, lim)
    ensures DeskInv(Run(d, lim, steps), lim)
    decreases |steps|
  {
    hide DeskInv, Next;
    if steps != [] {
      StepKeeps(d, lim, steps[0]);
      RunKeeps(Next(d, lim, steps[0]), lim, steps[1..]);
    }
  }

  /** In every run, every update of an observation is accepted by the live generation it names and
      leaves every other generation untouched. */
  lemma UpdatesSettle(d: Desk, lim: Limits, steps: seq<Step>, current: Position, previous: Option<Position>, slot: nat)
    requires Start(d) && PositionOk(current) && (previous.Some? ==> PositionOk(previous.value))
    requires IsOpen(Run(d, lim, steps), slot)
    ensures var t := Run(d, lim, steps);
      Settles(t.slots[slot].value, slot, Observe(t.spans, current, previous).1)
  {
    RunKeeps(d, lim, steps);
    var t := Run(d, lim, steps);
    ObserveKeeps(t.spans, current, previous, slot, t.slots[slot].value);
  }

  /** In every run, an empty ledger means that everything submitted is retired. */
  lemma EmptyMeansRetired(d: Desk, lim: Limits, steps: seq<Step>, slot: nat)
    requires Start(d) && Run(d, lim, steps).spans == [] && IsOpen(Run(d, lim, steps), slot)
    ensures var s := Run(d, lim, steps).slots[slot].value; s.retired == s.dmaRetired == s.submitted
  {
    RunKeeps(d, lim, steps);
    var t := Run(d, lim, steps);
    assert SlotInv(t.spans, slot, t.slots[slot].value);
  }
}
