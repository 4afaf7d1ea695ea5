/** The resampler's output is a function of its input alone. */
module PcmProof {
  import opened Common
  import opened Bits
  import opened PcmFormat
  import opened PcmStream

  // ----- exact positions

  lemma CeilDiv(a: nat, n: nat, k: nat)
    requires n > 0
    ensures k < (a + n - 1) / n <==> k * n < a
  {
    var c := (a + n - 1) / n;
    assert c * n <= a + n - 1 < (c + 1) * n;
    if k < c {
      assert (k + 1) * n <= c * n;
    } else {
      assert c * n <= k * n;
    }
  }

  lemma FloorAtMost(a: nat, d: nat, x: nat)
    requires d > 0
    ensures a / d <= x <==> a < (x + 1) * d
  {
    assert a / d * d <= a < (a / d + 1) * d;
    if a / d <= x {
      assert (a / d + 1) * d <= (x + 1) * d;
    } else {
      assert (x + 1) * d <= a / d * d;
    }
  }

  /** One advance is exactly one step of the ideal position. */
  lemma AdvanceExact(fmt: Format, k: nat)
    ensures var n, r := Step(fmt), k * Step(fmt) % TARGET_RATE + Step(fmt) % TARGET_RATE;
      && Position(fmt, k + 1) == Position(fmt, k) + n / TARGET_RATE + (if r >= TARGET_RATE then 1 else 0)
      && (k + 1) * n % TARGET_RATE == (if r >= TARGET_RATE then r - TARGET_RATE else r)
  {
    var n := Step(fmt);
    var r := k * n % TARGET_RATE + n % TARGET_RATE;
    var carry := if r >= TARGET_RATE then 1 else 0;
    assert (k + 1) * n == k * n + n;
    ModUnique((k + 1) * n, TARGET_RATE, Position(fmt, k) + n / TARGET_RATE + carry, r - carry * TARGET_RATE);
  }

  /** How many output frames n input frames make available before the end of the stream. */
  function Available(fmt: Format, n: nat): nat
    requires fmt.rate > 0
  {
    if n == 0 then 0 else (((n - 1) * ONE + 1) * TARGET_RATE + Step(fmt) - 1) / Step(fmt)
  }

  lemma AvailableExact(fmt: Format, n: nat, k: nat)
    requires fmt.rate > 0 && n > 0
    ensures k < Available(fmt, n) <==> Position(fmt, k) <= (n - 1) * ONE
  {
    CeilDiv(((n - 1) * ONE + 1) * TARGET_RATE, Step(fmt), k);
    FloorAtMost(k * Step(fmt), TARGET_RATE, (n - 1) * ONE);
  }

  lemma TotalExact(fmt: Format, n: nat, k: nat)
    requires fmt.rate > 0
    ensures k < TotalFrames(fmt, n) <==> Position(fmt, k) < n * ONE
  {
    CeilDiv(n * TARGET_RATE, fmt.rate, k);
    assert k * Step(fmt) == k * fmt.rate * ONE;
    if n > 0 {
      FloorAtMost(k * Step(fmt), TARGET_RATE, n * ONE - 1);
    }
  }

  /** More input makes no less output available, and never more than the total. */
  lemma AvailableGrows(fmt: Format, m: nat, n: nat)
    requires fmt.rate > 0 && m <= n
    ensures Available(fmt, m) <= Available(fmt, n) <= TotalFrames(fmt, n)
  {
    if n > 0 {
      var k := Available(fmt, n);
      if m > 0 { AvailableExact(fmt, m, k); }
      AvailableExact(fmt, n, k);
      if k > 0 {
        AvailableExact(fmt, n, k - 1);
        TotalExact(fmt, n, k - 1);
      }
    }
  }

  // ----- the state tracks the ideal position

  /** After the frames `seen` and k output frames, between two chunks or within the next one. */
  predicate Tracks(s: Stream, fmt: Format, seen: seq<Frame>, k: nat) {
    && fmt.rate > 0 && s.fmt == fmt && s.remainder == k * Step(fmt) % TARGET_RATE
    && (s.valid ==> seen != [] && s.previous == seen[|seen| - 1])
    && Position(fmt, k) == s.phase + (if s.valid then |seen| - 1 else |seen|) * ONE
  }

  /** Which path a stream is on: the direct one retains no frame. */
  predicate OnPath(s: Stream, seen: seq<Frame>) {
    if DirectFormat(s.fmt) then !s.valid else s.valid || seen == []
  }

  lemma AdvanceTracks(s: Stream, fmt: Format, seen: seq<Frame>, k: nat)
    requires Tracks(s, fmt, seen, k)
    ensures Tracks(Advance(s), fmt, seen, k + 1)
  {
    AdvanceExact(fmt, k);
  }

  lemma InWindow(s: Stream, fmt: Format, seen: seq<Frame>, chunk: seq<Frame>, k: nat)
    requires Tracks(s, fmt, seen, k) && chunk != [] && (s.valid || seen == [])
    ensures s.phase <= LastPosition(s, chunk) <==> k < Available(fmt, |seen + chunk|)
    ensures s.phase <= LastPosition(s, chunk) ==>
      Interpolate(Window(s, chunk), s.phase) == Reference(seen + chunk, fmt, k)
  {
    var all, window := seen + chunk, Window(s, chunk);
    var base := if s.valid then |seen| - 1 else |seen|;
    AvailableExact(fmt, |all|, k);
    assert window == all[base..];
    if s.phase <= LastPosition(s, chunk) {
      var q := Position(fmt, k);
      ModUnique(q, ONE, s.phase / ONE + base, s.phase % ONE);
      if q % ONE == 0 {
        LerpFrameStart(At(all, q / ONE), At(all, q / ONE + 1), 0);
        LerpFrameStart(At(all, q / ONE), At(all, q / ONE), 0);
      }
    }
  }

  lemma ReferencesLast(input: seq<Frame>, fmt: Format, from: nat, to: nat)
    requires from <= to
    ensures References(input, fmt, from, to + 1) == References(input, fmt, from, to) + [Reference(input, fmt, to)]
    ensures References(input, fmt, from, from) == []
  {
  }

  lemma {:induction false} EmitTracks(s: Stream, fmt: Format, seen: seq<Frame>, chunk: seq<Frame>, k: nat, cap: nat)
    requires Tracks(s, fmt, seen, k) && chunk != [] && (s.valid || seen == [])
    requires k <= Available(fmt, |seen + chunk|)
    ensures var r, end := Emit(s, chunk, cap), Available(fmt, |seen + chunk|);
      var to := if k + cap < end then k + cap else end;
      r.1 == References(seen + chunk, fmt, k, to) && Tracks(r.0, fmt, seen, to)
  {
    hide Available, References, Interpolate;
    var end := Available(fmt, |seen + chunk|);
    if cap == 0 {
      ReferencesLast(seen + chunk, fmt, k, k);
    } else {
      var to := if k + cap - 1 < end then k + cap - 1 else end;
      EmitTracks(s, fmt, seen, chunk, k, cap - 1);
      var r := Emit(s, chunk, cap - 1);
      InWindow(r.0, fmt, seen, chunk, to);
      assert Window(r.0, chunk) == Window(s, chunk);
      hide Window, LastPosition;
      AdvanceTracks(r.0, fmt, seen, to);
      hide Tracks;
      ReferencesLast(seen + chunk, fmt, k, to);
    }
  }

  /** What one call on a chunk must do: emit the next frames of the reference as far as room and
      input allow, and report the chunk done exactly when nothing of it is left. */
  predicate Converted(r: (Stream, seq<Frame>), fmt: Format, seen: seq<Frame>, chunk: seq<Frame>, k: nat, cap: nat)
    requires fmt.rate > 0 && k <= Available(fmt, |seen + chunk|)
  {
    var end := Available(fmt, |seen + chunk|);
    var to := if k + cap < end then k + cap else end;
    && r.1 == References(seen + chunk, fmt, k, to)
    && (r.0.done <==> to == end)
    && Tracks(r.0, fmt, if r.0.done then seen + chunk else seen, to)
  }

  lemma InterpolatingConverts(s: Stream, fmt: Format, seen: seq<Frame>, chunk: seq<Frame>, k: nat, cap: nat)
    requires Tracks(s, fmt, seen, k) && chunk != [] && (s.valid || seen == []) && !s.done
    requires k <= Available(fmt, |seen + chunk|)
    ensures Converted(Interpolating(s, chunk, cap), fmt, seen, chunk, k, cap)
    ensures Interpolating(s, chunk, cap).0.valid || seen == []
  {
    EmitTracks(s, fmt, seen, chunk, k, cap);
    var end := Available(fmt, |seen + chunk|);
    var to := if k + cap < end then k + cap else end;
    InWindow(Emit(s, chunk, cap).0, fmt, seen, chunk, to);
  }

  lemma DirectExact(fmt: Format, n: nat, k: nat)
    requires DirectFormat(fmt)
    ensures Position(fmt, k) == k * ONE && k * Step(fmt) % TARGET_RATE == 0 &&
      Available(fmt, n) == n == TotalFrames(fmt, n)
  {
    assert k * Step(fmt) == k * ONE * TARGET_RATE;
    ModUnique(k * Step(fmt), TARGET_RATE, k * ONE, 0);
    if n > 0 {
      ModUnique(n * Step(fmt), TARGET_RATE, n * ONE, 0);
      ModUnique((n - 1) * Step(fmt), TARGET_RATE, (n - 1) * ONE, 0);
      AvailableExact(fmt, n, n);
      AvailableExact(fmt, n, n - 1);
    }
  }

  lemma DirectReference(fmt: Format, input: seq<Frame>, i: nat)
    requires DirectFormat(fmt) && i < |input|
    ensures Reference(input, fmt, i) == input[i]
  {
    DirectExact(fmt, |input|, i);
    hide Position, LerpFrame;
    LerpFrameStart(At(input, i), At(input, i + 1), 0);
  }

  /** On the direct format the reference is the input itself. */
  lemma DirectReferences(fmt: Format, input: seq<Frame>, from: nat, to: nat)
    requires DirectFormat(fmt) && from <= to <= |input|
    ensures References(input, fmt, from, to) == input[from..to]
  {
    hide Reference;
    forall i | from <= i < to ensures Reference(input, fmt, i) == input[i] {
      DirectReference(fmt, input, i);
    }
  }

  lemma DirectConverts(s: Stream, fmt: Format, seen: seq<Frame>, chunk: seq<Frame>, k: nat, cap: nat)
    requires Tracks(s, fmt, seen, k) && chunk != [] && DirectFormat(fmt) && !s.valid && !s.done
    requires k <= Available(fmt, |seen + chunk|)
    ensures DirectReady(s, fmt)
    ensures Converted(Convert(s, fmt, chunk, cap), fmt, seen, chunk, k, cap)
    ensures !Convert(s, fmt, chunk, cap).0.valid
  {
    var all := seen + chunk;
    var first := k - |seen|;
    var to := if k + cap < |all| then k + cap else |all|;
    DirectExact(fmt, |all|, k);
    DirectExact(fmt, |all|, to);
    DirectReferences(fmt, all, k, to);
    hide Available, References, Position, Interpolating;
    assert s.phase == first * ONE;
    DirectAt(s, |chunk|, first, cap);
    hide Direct;
    assert all[k..to] == chunk[first..to - |seen|];
  }

  /** The direct path from a whole frame. */
  lemma DirectAt(s: Stream, frames: nat, first: nat, cap: nat)
    requires s.phase == first * ONE && first <= frames && !s.done
    ensures s.phase % ONE == 0
    ensures var r, end := Direct(s, frames, cap), if first + cap < frames then first + cap else frames;
      && (first < frames ==> r.1 == first) && r.2 == end - first
      && r.0 == if end == frames then s.(phase := 0, done := true) else s.(phase := end * ONE)
  {
    ModUnique(s.phase, ONE, first, 0);
  }

  /** One call of the converter. */
  lemma ConvertConverts(s: Stream, fmt: Format, seen: seq<Frame>, chunk: seq<Frame>, k: nat, cap: nat)
    requires Tracks(s, fmt, seen, k) && OnPath(s, seen) && chunk != [] && !s.done
    requires k <= Available(fmt, |seen + chunk|)
    ensures var r := Convert(s, fmt, chunk, cap);
      Converted(r, fmt, seen, chunk, k, cap) && OnPath(r.0, if r.0.done then seen + chunk else seen)
  {
    if DirectFormat(fmt) {
      DirectConverts(s, fmt, seen, chunk, k, cap);
    } else {
      InterpolatingConverts(s, fmt, seen, chunk, k, cap);
    }
  }

  /** The direct path emits what the interpolating path would, call by call. */
  lemma DirectAsInterpolating(s: Stream, t: Stream, fmt: Format, seen: seq<Frame>, chunk: seq<Frame>, k: nat, cap: nat)
    requires DirectFormat(fmt) && chunk != [] && !s.done && !t.done
    requires Tracks(s, fmt, seen, k) && !s.valid && Tracks(t, fmt, seen, k) && (t.valid || seen == [])
    requires k <= Available(fmt, |seen + chunk|)
    ensures var r, q := Convert(s, fmt, chunk, cap), Interpolating(t, chunk, cap); r.1 == q.1 && r.0.done == q.0.done
  {
    DirectConverts(s, fmt, seen, chunk, k, cap);
    InterpolatingConverts(t, fmt, seen, chunk, k, cap);
  }

  // ----- whole chunks and whole streams

  /** Later input does not change frames that were already available. */
  lemma ReferenceStable(seen: seq<Frame>, chunk: seq<Frame>, fmt: Format, k: nat)
    requires fmt.rate > 0 && k < Available(fmt, |seen|)
    ensures Reference(seen, fmt, k) == Reference(seen + chunk, fmt, k)
  {
    AvailableExact(fmt, |seen|, k);
    var q := Position(fmt, k);
    if q % ONE == 0 {
      LerpFrameStart(At(seen, q / ONE), At(seen, q / ONE + 1), 0);
      LerpFrameStart(At(seen, q / ONE), At(seen + chunk, q / ONE + 1), 0);
    }
  }

  lemma ReferencesStable(seen: seq<Frame>, chunk: seq<Frame>, fmt: Format, from: nat, to: nat)
    requires fmt.rate > 0 && from <= to <= Available(fmt, |seen|)
    ensures References(seen, fmt, from, to) == References(seen + chunk, fmt, from, to)
  {
    forall k | from <= k < to ensures Reference(seen, fmt, k) == Reference(seen + chunk, fmt, k) {
      ReferenceStable(seen, chunk, fmt, k);
    }
  }

  lemma ReferencesJoin(input: seq<Frame>, fmt: Format, a: nat, b: nat, c: nat)
    requires a <= b <= c
    ensures References(input, fmt, a, b) + References(input, fmt, b, c) == References(input, fmt, a, c)
  {
  }

  function Min(a: nat, b: nat): nat {
    if a < b then a else b
  }

  /** Draining one chunk through any buffers: the reference as far as their room and the input
      allow, and the chunk is reported done exactly when it has a frame and nothing of it is left. */
  lemma {:induction false} DrainConverts(s: Stream, fmt: Format, seen: seq<Frame>, chunk: seq<Frame>, k: nat,
      caps: seq<nat>)
    returns (to: nat)
    requires fmt.rate > 0 && Tracks(s, fmt, seen, k) && OnPath(s, seen) && !s.done &&
      k <= Available(fmt, |seen + chunk|)
    ensures var r, end := Drain(s, fmt, chunk, caps), Available(fmt, |seen + chunk|);
      && k <= to == (if chunk == [] then k else Min(k + Room(caps), end))
      && r.1 == References(seen + chunk, fmt, k, to)
      && (r.0.done <==> chunk != [] && caps != [] && k + Room(caps) >= end)
      && Tracks(r.0, fmt, if r.0.done then seen + chunk else seen, to)
      && OnPath(r.0, if r.0.done then seen + chunk else seen)
    decreases |caps|
  {
    hide Available, Convert, References, Tracks, OnPath;
    to := k;
    var all := seen + chunk;
    if caps != [] && chunk != [] {
      var r, end := Convert(s, fmt, chunk, caps[0]), Available(fmt, |all|);
      ConvertConverts(s, fmt, seen, chunk, k, caps[0]);
      var mid := if k + caps[0] < end then k + caps[0] else end;
      if r.0.done {
        DoneStays(r.0, fmt, chunk, caps[1..]);
        to := mid;
      } else {
        to := DrainConverts(r.0, fmt, seen, chunk, mid, caps[1..]);
        ReferencesJoin(all, fmt, k, mid, to);
      }
    } else {
      EmptyStays(s, fmt, chunk, caps);
      ReferencesLast(all, fmt, k, k);
    }
  }

  /** A chunk can be drained until it is reported done if and only if it has a whole frame. */
  lemma DoneIffFrames(s: Stream, fmt: Format, seen: seq<Frame>, chunk: seq<Frame>, k: nat)
    requires fmt.rate > 0 && Tracks(s, fmt, seen, k) && OnPath(s, seen) && !s.done &&
      k <= Available(fmt, |seen + chunk|)
    ensures (exists caps: seq<nat> :: Drain(s, fmt, chunk, caps).0.done) <==> chunk != []
  {
    if chunk == [] {
      forall caps: seq<nat> ensures !Drain(s, fmt, chunk, caps).0.done {
        EmptyStays(s, fmt, chunk, caps);
      }
    } else {
      var caps := [Available(fmt, |seen + chunk|)];
      assert Room(caps) == caps[0] + Room(caps[1..]);
      var to := DrainConverts(s, fmt, seen, chunk, k, caps);
      assert Drain(s, fmt, chunk, caps).0.done;
    }
  }

  lemma {:induction false} DoneStays(s: Stream, fmt: Format, chunk: seq<Frame>, caps: seq<nat>)
    requires s.done
    ensures Drain(s, fmt, chunk, caps) == (s, [])
    decreases |caps|
  {
    if caps != [] {
      DoneStays(s, fmt, chunk, caps[1..]);
      assert NOTHING + NOTHING == NOTHING;
    }
  }

  /** A chunk without a whole frame changes nothing, and is never reported done. */
  lemma {:induction false} EmptyStays(s: Stream, fmt: Format, chunk: seq<Frame>, caps: seq<nat>)
    requires chunk == [] || caps == []
    ensures Drain(s, fmt, chunk, caps) == (s, [])
    decreases |caps|
  {
    if caps != [] {
      EmptyStays(s, fmt, chunk, caps[1..]);
      assert NOTHING + NOTHING == NOTHING;
    }
  }

  /** One whole chunk, from the end of what was available before to the end of what is now. */
  lemma ChunkConverts(s: Stream, fmt: Format, seen: seq<Frame>, chunk: Chunk)
    requires fmt.rate > 0 && Tracks(s, fmt, seen, Available(fmt, |seen|)) && OnPath(s, seen)
    requires chunk.frames == [] || Drain(BeginChunk(s, fmt), fmt, chunk.frames, chunk.caps).0.done
    ensures var r, mid := Drain(BeginChunk(s, fmt), fmt, chunk.frames, chunk.caps), seen + chunk.frames;
      && r.1 == References(mid, fmt, Available(fmt, |seen|), AvailableTo(fmt, seen, mid))
      && Tracks(r.0, fmt, mid, Available(fmt, |mid|)) && OnPath(r.0, mid) && (r.0.done <==> chunk.frames != [])
  {
    hide Drain, References, Available;
    AvailableGrows(fmt, |seen|, |seen + chunk.frames|);
    var to := DrainConverts(BeginChunk(s, fmt), fmt, seen, chunk.frames, Available(fmt, |seen|), chunk.caps);
    assert chunk.frames == [] ==> seen + chunk.frames == seen;
  }

  lemma {:induction false} PlayConverts(s: Stream, fmt: Format, seen: seq<Frame>, chunks: seq<Chunk>)
    requires fmt.rate > 0 && Drained(s, fmt, chunks)
    requires Tracks(s, fmt, seen, Available(fmt, |seen|)) && OnPath(s, seen)
    ensures var r, all := Play(s, fmt, chunks), seen + Input(chunks);
      && r.1 == References(all, fmt, Available(fmt, |seen|), AvailableTo(fmt, seen, all))
      && Tracks(r.0, fmt, all, Available(fmt, |all|)) && OnPath(r.0, all)
      && (chunks != [] ==> (r.0.done <==> EndsInFrames(chunks)))
    decreases |chunks|
  {
    hide Available, References, Tracks, Drain, OnPath, BeginChunk;
    var k := Available(fmt, |seen|);
    var all := seen + Input(chunks);
    if chunks == [] {
      assert all == seen;
      ReferencesLast(seen, fmt, k, k);
    } else {
      var mid, rest := seen + chunks[0].frames, chunks[1..];
      var r := Drain(BeginChunk(s, fmt), fmt, chunks[0].frames, chunks[0].caps);
      ChunkConverts(s, fmt, seen, chunks[0]);
      PlayConverts(r.0, fmt, mid, rest);
      assert rest != [] ==> rest[|rest| - 1] == chunks[|chunks| - 1];
      assert mid + Input(rest) == all;
      var to := AvailableTo(fmt, seen, mid);
      ReferencesStable(mid, Input(rest), fmt, k, to);
      ReferencesJoin(all, fmt, k, to, AvailableTo(fmt, mid, all));
    }
  }

  /** The end of the available output, known not to be before its start. */
  function AvailableTo(fmt: Format, seen: seq<Frame>, all: seq<Frame>): (r: nat)
    requires fmt.rate > 0 && |seen| <= |all|
    ensures r == Available(fmt, |all|) >= Available(fmt, |seen|)
  {
    AvailableGrows(fmt, |seen|, |all|);
    Available(fmt, |all|)
  }

  lemma FreshTracks(fmt: Format)
    requires fmt.rate > 0
    ensures Tracks(Fresh(fmt), fmt, [], 0) && OnPath(Fresh(fmt), []) && Available(fmt, 0) == 0
  {
  }

  /** Chunking does not matter: any two ways to cut the same frames into chunks, drained through
      buffers of any size, emit the same frames, namely the available part of the reference. */
  lemma ChunkingIrrelevant(fmt: Format, chunks: seq<Chunk>, others: seq<Chunk>)
    requires fmt.rate > 0 && Drained(Fresh(fmt), fmt, chunks) && Drained(Fresh(fmt), fmt, others)
    requires Input(chunks) == Input(others)
    ensures Play(Fresh(fmt), fmt, chunks).1 == Play(Fresh(fmt), fmt, others).1
    ensures Play(Fresh(fmt), fmt, chunks).1 == References(Input(chunks), fmt, 0, Available(fmt, |Input(chunks)|))
  {
    FreshTracks(fmt);
    PlayConverts(Fresh(fmt), fmt, [], chunks);
    PlayConverts(Fresh(fmt), fmt, [], others);
    assert [] + Input(chunks) == Input(chunks);
    assert [] + Input(others) == Input(others);
  }

  // ----- the tail

  /** Frames the tail still holds, for any state: what pending_tail_bytes computes. */
  function Tail(s: Stream): nat
    requires s.fmt.rate > 0 && s.remainder < TARGET_RATE
  {
    if s.phase >= ONE then 0
    else ((ONE - s.phase) * TARGET_RATE - s.remainder + Step(s.fmt) - 1) / Step(s.fmt)
  }

  /** Rounding up after one whole step less. */
  lemma CeilStep(left: nat, n: nat)
    requires left > 0 && n > 0
    ensures (left + n - 1) / n == if left <= n then 1 else (left - n + n - 1) / n + 1
  {
    if left <= n {
      ModUnique(left + n - 1, n, 1, left - 1);
    } else {
      var q, r := (left - 1) / n, (left - 1) % n;
      ModUnique(left - 1 + n, n, q + 1, r);
    }
  }

  /** What is left of the source frame shrinks by one step per advance. */
  lemma AdvanceLeft(s: Stream)
    requires s.remainder < TARGET_RATE
    ensures var t := Advance(s);
      && t.fmt == s.fmt && t.remainder < TARGET_RATE
      && (ONE - t.phase) * TARGET_RATE - t.remainder == (ONE - s.phase) * TARGET_RATE - s.remainder - Step(s.fmt)
  {
    var n := Step(s.fmt);
    assert n == n / TARGET_RATE * TARGET_RATE + n % TARGET_RATE;
  }

  lemma TailStep(s: Stream)
    requires s.fmt.rate > 0 && s.remainder < TARGET_RATE && s.phase < ONE
    ensures Advance(s).remainder < TARGET_RATE && Tail(s) == Tail(Advance(s)) + 1
  {
    hide Advance;
    AdvanceLeft(s);
    CeilStep((ONE - s.phase) * TARGET_RATE - s.remainder, Step(s.fmt));
  }

  lemma {:induction false} HoldCount(s: Stream, cap: nat)
    requires s.fmt.rate > 0 && s.remainder < TARGET_RATE
    ensures var r := Hold(s, cap);
      && |r.1| == (if cap < Tail(s) then cap else Tail(s))
      && (forall j :: 0 <= j < |r.1| ==> r.1[j] == s.previous)
      && (r.0.phase >= ONE <==> cap >= Tail(s))
      && r.0.remainder < TARGET_RATE && Tail(r.0) == Tail(s) - |r.1|
  {
    if cap == 0 {
      if s.phase < ONE { TailStep(s); }
    } else {
      HoldCount(s, cap - 1);
      var r := Hold(s, cap - 1);
      if r.0.phase < ONE {
        TailStep(r.0);
        if Advance(r.0).phase < ONE { TailStep(Advance(r.0)); }
      }
    }
  }

  /** pending_tail_bytes is what finish writes into a buffer with room, in any state. */
  lemma PendingTailExact(s: Stream, cap: nat)
    requires s.fmt.rate > 0 && s.remainder < TARGET_RATE
    ensures FRAME_BYTES * cap >= PendingTailBytes(s) ==> FRAME_BYTES * |Finish(s, cap).1| == PendingTailBytes(s)
  {
    HoldCount(s, cap);
  }

  lemma TailTracks(s: Stream, fmt: Format, seen: seq<Frame>, k: nat)
    requires Tracks(s, fmt, seen, k) && s.valid
    ensures Tail(s) == if k < TotalFrames(fmt, |seen|) then TotalFrames(fmt, |seen|) - k else 0
    ensures k < TotalFrames(fmt, |seen|) && Position(fmt, k) >= (|seen| - 1) * ONE ==>
      s.previous == Reference(seen, fmt, k)
  {
    var q, n, len, total := Position(fmt, k), Step(fmt), |seen|, TotalFrames(fmt, |seen|);
    TotalExact(fmt, len, k);
    assert q * TARGET_RATE + s.remainder == k * n;
    if k < total {
      var left := (ONE - s.phase) * TARGET_RATE - s.remainder;
      assert s.phase == q - (len - 1) * ONE;
      assert left == len * ONE * TARGET_RATE - k * n;
      TotalCeil(fmt, len);
      var a := len * ONE * TARGET_RATE;
      assert total == (a + n - 1) / n;
      assert left + n - 1 == (a + n - 1) - k * n;
      ModUnique(left + n - 1, n, total - k, (a + n - 1) % n);
      ModUnique(q, ONE, len - 1, s.phase);
      LerpFrameStart(At(seen, len - 1), At(seen, len), s.phase);
    }
  }

  lemma TotalCeil(fmt: Format, n: nat)
    requires fmt.rate > 0
    ensures TotalFrames(fmt, n) == (n * ONE * TARGET_RATE + Step(fmt) - 1) / Step(fmt)
  {
    var a, m := n * ONE * TARGET_RATE, Step(fmt);
    var t, u := TotalFrames(fmt, n), (a + m - 1) / m;
    CeilDiv(a, m, t);
    CeilDiv(n * TARGET_RATE, fmt.rate, t);
    CeilDiv(a, m, u);
    CeilDiv(n * TARGET_RATE, fmt.rate, u);
    assert t * m == t * fmt.rate * ONE && u * m == u * fmt.rate * ONE;
  }

  /** Finishing a stream through any buffers continues the reference, up to its end when the
      retained frame is given up. */
  lemma {:induction false} FinishConverts(s: Stream, fmt: Format, seen: seq<Frame>, k: nat, caps: seq<nat>)
    returns (to: nat)
    requires Tracks(s, fmt, seen, k) && s.done && s.valid
    requires Available(fmt, |seen|) <= k <= TotalFrames(fmt, |seen|)
    ensures var r := FinishAll(s, caps);
      && k <= to <= TotalFrames(fmt, |seen|)
      && r.1 == References(seen, fmt, k, to)
      && to == Min(k + Room(caps), TotalFrames(fmt, |seen|))
    decreases |caps|
  {
    to := k;
    if caps != [] {
      var total, cap := TotalFrames(fmt, |seen|), caps[0];
      to := if k + cap < total then k + cap else total;
      TailTracks(s, fmt, seen, k);
      HoldCount(s, cap);
      var r := Finish(s, cap);
      HoldReference(s, fmt, seen, k, to);
      assert r.1 == References(seen, fmt, k, to);
      if r.0.valid {
        HoldTracks(s, fmt, seen, k, cap);
        var mid := to;
        to := FinishConverts(r.0, fmt, seen, mid, caps[1..]);
        ReferencesJoin(seen, fmt, k, mid, to);
      } else {
        FinishedStays(r.0, caps[1..]);
      }
    }
  }

  /** The held frame is the reference all the way to the end. */
  lemma HoldReference(s: Stream, fmt: Format, seen: seq<Frame>, k: nat, to: nat)
    requires Tracks(s, fmt, seen, k) && s.valid && Available(fmt, |seen|) <= k <= to <= TotalFrames(fmt, |seen|)
    ensures forall j :: 0 <= j < to - k ==> References(seen, fmt, k, to)[j] == s.previous
  {
    forall i | k <= i < to ensures Reference(seen, fmt, i) == s.previous {
      TotalExact(fmt, |seen|, i);
      AvailableExact(fmt, |seen|, i);
      var q := Position(fmt, i);
      ModUnique(q, ONE, |seen| - 1, q - (|seen| - 1) * ONE);
      LerpFrameStart(At(seen, |seen| - 1), At(seen, |seen|), q % ONE);
    }
  }

  lemma {:induction false} HoldTracks(s: Stream, fmt: Format, seen: seq<Frame>, k: nat, cap: nat)
    requires Tracks(s, fmt, seen, k)
    ensures Tracks(Hold(s, cap).0, fmt, seen, k + |Hold(s, cap).1|)
  {
    if cap > 0 {
      HoldTracks(s, fmt, seen, k, cap - 1);
      AdvanceTracks(Hold(s, cap - 1).0, fmt, seen, k + |Hold(s, cap - 1).1|);
    }
  }

  /** Without a retained frame, or when the last chunk had no frame, finish writes nothing. */
  lemma {:induction false} FinishedStays(s: Stream, caps: seq<nat>)
    requires !s.valid || !s.done
    ensures FinishAll(s, caps) == (s, [])
    decreases |caps|
  {
    if caps != [] {
      FinishedStays(s, caps[1..]);
      assert NOTHING + NOTHING == NOTHING;
    }
  }

  /** How far a stream gets: what the input allows, and the tail as far as the finish buffers have
      room for it, unless the stream ends with a chunk that has no frame. */
  function Reach(fmt: Format, chunks: seq<Chunk>, caps: seq<nat>): nat
    requires fmt.rate > 0
  {
    var n := |Input(chunks)|;
    var available, total := Available(fmt, n), TotalFrames(fmt, n);
    if available < total && EndsInFrames(chunks) then Min(available + Room(caps), total) else available
  }

  /** The whole stream: chunks of any size, buffers of any room, then the tail, give exactly that
      prefix of the whole-input conversion. */
  lemma StreamReaches(fmt: Format, chunks: seq<Chunk>, caps: seq<nat>)
    requires fmt.rate > 0 && Drained(Fresh(fmt), fmt, chunks)
    ensures var played := Play(Fresh(fmt), fmt, chunks);
      played.1 + FinishAll(played.0, caps).1 == References(Input(chunks), fmt, 0, Reach(fmt, chunks, caps))
  {
    var played, all := Play(Fresh(fmt), fmt, chunks), Input(chunks);
    FreshTracks(fmt);
    PlayConverts(Fresh(fmt), fmt, [], chunks);
    assert [] + all == all;
    var k, total := Available(fmt, |all|), TotalFrames(fmt, |all|);
    AvailableGrows(fmt, |all|, |all|);
    if played.0.valid && played.0.done {
      var to := FinishConverts(played.0, fmt, all, k, caps);
      ReferencesJoin(all, fmt, 0, k, to);
    } else {
      FinishedStays(played.0, caps);
      if !played.0.valid { NoTail(played.0, fmt, all, k); }
    }
  }

  /** A stream that retains no frame has no tail. */
  lemma NoTail(s: Stream, fmt: Format, seen: seq<Frame>, k: nat)
    requires fmt.rate > 0 && s.fmt == fmt && OnPath(s, seen) && !s.valid
    ensures Available(fmt, |seen|) == TotalFrames(fmt, |seen|)
  {
    if DirectFormat(fmt) {
      DirectExact(fmt, |seen|, k);
    } else {
      TotalExact(fmt, 0, 0);
    }
  }

  /** So it is the whole conversion, ceil(frames * 48000 / rate) frames, if and only if there is no
      tail, or the stream ends with a chunk that has a frame and the finish buffers hold the tail. */
  lemma StreamIsReference(fmt: Format, chunks: seq<Chunk>, caps: seq<nat>)
    requires fmt.rate > 0 && Drained(Fresh(fmt), fmt, chunks)
    ensures var played, n := Play(Fresh(fmt), fmt, chunks), |Input(chunks)|;
      played.1 + FinishAll(played.0, caps).1 == References(Input(chunks), fmt, 0, TotalFrames(fmt, n))
      <==> TotalFrames(fmt, n) == Available(fmt, n)
           || (EndsInFrames(chunks) && Available(fmt, n) + Room(caps) >= TotalFrames(fmt, n))
  {
    StreamReaches(fmt, chunks, caps);
    hide Play, FinishAll, Drained, TotalFrames, Available;
    var n := |Input(chunks)|;
    AvailableGrows(fmt, n, n);
    assert |References(Input(chunks), fmt, 0, TotalFrames(fmt, n))| == TotalFrames(fmt, n);
  }

  /** The bytes of a stream, in any chunks, give exactly output_frame_count frames in that case. */
  lemma OutputCountExact(fmt: Format, bytes: nat, chunks: seq<Chunk>, caps: seq<nat>)
    requires fmt.rate > 0 && Drained(Fresh(fmt), fmt, chunks)
    requires SourceFrameBytes(fmt.channels, fmt.format).Some?
    requires |Input(chunks)| == bytes / SourceFrameBytes(fmt.channels, fmt.format).value
    ensures var played, n := Play(Fresh(fmt), fmt, chunks), |Input(chunks)|;
      |played.1| + |FinishAll(played.0, caps).1| == OutputFrameCount(bytes, fmt)
      <==> TotalFrames(fmt, n) == Available(fmt, n)
           || (EndsInFrames(chunks) && Available(fmt, n) + Room(caps) >= TotalFrames(fmt, n))
  {
    hide Play, FinishAll, Drained, Available;
    StreamReaches(fmt, chunks, caps);
    var played, n := Play(Fresh(fmt), fmt, chunks), |Input(chunks)|;
    assert |played.1 + FinishAll(played.0, caps).1| == Reach(fmt, chunks, caps);
    AvailableGrows(fmt, n, n);
    if n == 0 { TotalExact(fmt, 0, 0); }
  }
}
