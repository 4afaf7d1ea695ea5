/** The streaming resampler on values: what one call does to the state and which frames it emits. */
module PcmStream {
  import opened Common
  import opened PcmFormat

  datatype Format = Format(rate: nat, channels: nat, format: nat)

  /** The resampler state.  Phases count source frames in units of 1/65536, relative to the
      retained previous frame when there is one, else to the first frame of the chunk. */
  datatype Stream = Stream(
    fmt: Format, phase: nat, remainder: nat, previous: Frame, valid: bool, done: bool)

  const NOTHING: seq<Frame> := []

  function Fresh(fmt: Format): Stream {
    Stream(fmt, 0, 0, SILENCE, false, false)
  }

  function ResetIfChanged(s: Stream, fmt: Format): Stream {
    if s.fmt == fmt then s else Fresh(fmt)
  }

  function BeginChunk(s: Stream, fmt: Format): Stream {
    ResetIfChanged(s, fmt).(done := false)
  }

  /** The retained frame, if any, followed by the chunk. */
  function Window(s: Stream, chunk: seq<Frame>): seq<Frame> {
    (if s.valid then [s.previous] else []) + chunk
  }

  /** The last position that has a frame to read. */
  function LastPosition(s: Stream, chunk: seq<Frame>): nat
    requires chunk != []
  {
    (|Window(s, chunk)| - 1) * ONE
  }

  function Step(fmt: Format): nat {
    fmt.rate * ONE
  }

  function Advance(s: Stream): Stream {
    var phase := s.phase + Step(s.fmt) / TARGET_RATE;
    var remainder := s.remainder + Step(s.fmt) % TARGET_RATE;
    if remainder >= TARGET_RATE then s.(phase := phase + 1, remainder := remainder - TARGET_RATE)
    else s.(phase := phase, remainder := remainder)
  }

  /** The frame at a position of a window that reaches it. */
  function Interpolate(window: seq<Frame>, phase: nat): Frame
    requires window != [] && phase <= (|window| - 1) * ONE
  {
    var a := window[phase / ONE];
    LerpFrame(a, if phase % ONE == 0 then a else window[phase / ONE + 1], phase % ONE)
  }

  /** The interpolation loop with room for cap frames. */
  function Emit(s: Stream, chunk: seq<Frame>, cap: nat): (r: (Stream, seq<Frame>))
    requires chunk != []
    ensures r.0.fmt == s.fmt && r.0.valid == s.valid && r.0.previous == s.previous && r.0.done == s.done
    ensures |r.1| <= cap
  {
    if cap == 0 then (s, [])
    else
      var r := Emit(s, chunk, cap - 1);
      if r.0.phase <= LastPosition(s, chunk)
      then (Advance(r.0), r.1 + [Interpolate(Window(s, chunk), r.0.phase)])
      else r
  }

  /** The interpolating path of one call. */
  function Interpolating(s: Stream, chunk: seq<Frame>, cap: nat): (Stream, seq<Frame>)
    requires chunk != []
  {
    var last := LastPosition(s, chunk);
    var r := Emit(s, chunk, cap);
    if r.0.phase > last
    then (r.0.(phase := r.0.phase - last, previous := chunk[|chunk| - 1], valid := true, done := true), r.1)
    else r
  }

  predicate DirectFormat(fmt: Format) {
    fmt == Format(TARGET_RATE, TARGET_CHANNELS, S16LE)
  }

  predicate DirectReady(s: Stream, fmt: Format) {
    DirectFormat(fmt) && !ResetIfChanged(s, fmt).valid && ResetIfChanged(s, fmt).phase % ONE == 0
  }

  /** The direct path: a run of frames of the chunk, by index and count. */
  function Direct(s: Stream, frames: nat, cap: nat): (r: (Stream, nat, nat))
    ensures r.1 + r.2 <= frames && r.2 <= cap
  {
    var limit := frames * ONE;
    if s.done then (s, 0, 0)
    else if s.phase >= limit then (s.(phase := s.phase - limit, done := true), 0, 0)
    else
      var first := s.phase / ONE;
      var count := if frames - first < cap then frames - first else cap;
      var phase := s.phase + count * ONE;
      (if phase >= limit then s.(phase := phase - limit, done := true) else s.(phase := phase), first, count)
  }

  /** One call of the converter on a chunk, with room for cap output frames. */
  function Convert(s: Stream, fmt: Format, chunk: seq<Frame>, cap: nat): (Stream, seq<Frame>) {
    if s.done || fmt.rate == 0 || chunk == [] then (s, [])
    else if DirectReady(s, fmt) then
      var r := Direct(ResetIfChanged(s, fmt), |chunk|, cap);
      (r.0, chunk[r.1..r.1 + r.2])
    else Interpolating(ResetIfChanged(s, fmt), chunk, cap)
  }

  /** The tail loop: the last frame is held until one source frame has passed. */
  function Hold(s: Stream, cap: nat): (r: (Stream, seq<Frame>))
    ensures r.0.fmt == s.fmt && r.0.valid == s.valid && r.0.done == s.done && r.0.previous == s.previous
    ensures |r.1| <= cap
  {
    if cap == 0 then (s, [])
    else
      var r := Hold(s, cap - 1);
      if r.0.phase < ONE then (Advance(r.0), r.1 + [s.previous]) else r
  }

  function Finish(s: Stream, cap: nat): (Stream, seq<Frame>) {
    if !s.done || !s.valid then (s, [])
    else
      var r := Hold(s, cap);
      if r.0.phase >= ONE then (r.0.(valid := false, phase := 0, remainder := 0), r.1) else r
  }

  function PendingTailBytes(s: Stream): nat
    requires s.remainder < TARGET_RATE
  {
    if !s.done || !s.valid || s.fmt.rate == 0 || s.phase >= ONE then 0
    else
      var remaining := (ONE - s.phase) * TARGET_RATE - s.remainder;
      (remaining + Step(s.fmt) - 1) / Step(s.fmt) * FRAME_BYTES
  }

  function OutputFrameCount(bytes: nat, fmt: Format): nat {
    if fmt.rate == 0 then 0
    else match SourceFrameBytes(fmt.channels, fmt.format)
      case None => 0
      case Some(width) =>
        if bytes / width == 0 then 0 else (bytes / width * TARGET_RATE + fmt.rate - 1) / fmt.rate
  }

  // ----- whole runs

  /** A chunk of input frames, and the room of each output buffer it is drained through. */
  datatype Chunk = Chunk(frames: seq<Frame>, caps: seq<nat>)

  function Drain(s: Stream, fmt: Format, frames: seq<Frame>, caps: seq<nat>): (Stream, seq<Frame>)
    decreases |caps|
  {
    if caps == [] then (s, [])
    else
      var r := Convert(s, fmt, frames, caps[0]);
      var q := Drain(r.0, fmt, frames, caps[1..]);
      (q.0, r.1 + q.1)
  }

  function Play(s: Stream, fmt: Format, chunks: seq<Chunk>): (Stream, seq<Frame>)
    decreases |chunks|
  {
    if chunks == [] then (s, [])
    else
      var r := Drain(BeginChunk(s, fmt), fmt, chunks[0].frames, chunks[0].caps);
      var q := Play(r.0, fmt, chunks[1..]);
      (q.0, r.1 + q.1)
  }

  /** The room of all buffers together. */
  function Room(caps: seq<nat>): nat {
    if caps == [] then 0 else caps[0] + Room(caps[1..])
  }

  /** Every chunk with a frame was drained until the resampler reported it done. */
  predicate Drained(s: Stream, fmt: Format, chunks: seq<Chunk>)
    decreases |chunks|
  {
    chunks == [] ||
    (var r := Drain(BeginChunk(s, fmt), fmt, chunks[0].frames, chunks[0].caps);
     (chunks[0].frames == [] || r.0.done) && Drained(r.0, fmt, chunks[1..]))
  }

  /** The stream ends with a chunk that has a frame. */
  predicate EndsInFrames(chunks: seq<Chunk>) {
    chunks != [] && chunks[|chunks| - 1].frames != []
  }

  function Input(chunks: seq<Chunk>): seq<Frame> {
    if chunks == [] then [] else chunks[0].frames + Input(chunks[1..])
  }

  /** The tail through output buffers of the given room. */
  function FinishAll(s: Stream, caps: seq<nat>): (Stream, seq<Frame>)
    decreases |caps|
  {
    if caps == [] then (s, [])
    else
      var r := Finish(s, caps[0]);
      var q := FinishAll(r.0, caps[1..]);
      (q.0, r.1 + q.1)
  }

  // ----- the reference: the whole input at once

  /** Position of output frame k, and what the division leaves. */
  function Position(fmt: Format, k: nat): nat {
    k * Step(fmt) / TARGET_RATE
  }

  /** The input, extended by its last frame. */
  function At(input: seq<Frame>, i: nat): Frame {
    if input == [] then SILENCE else if i < |input| then input[i] else input[|input| - 1]
  }

  /** Output frame k of the whole-input conversion. */
  function Reference(input: seq<Frame>, fmt: Format, k: nat): Frame {
    var q := Position(fmt, k);
    LerpFrame(At(input, q / ONE), At(input, q / ONE + 1), q % ONE)
  }

  function References(input: seq<Frame>, fmt: Format, from: nat, to: nat): seq<Frame>
    requires from <= to
  {
    seq(to - from, j requires 0 <= j < to - from => Reference(input, fmt, from + j))
  }

  /** The number of output frames for n input frames. */
  function TotalFrames(fmt: Format, n: nat): nat
    requires fmt.rate > 0
  {
    (n * TARGET_RATE + fmt.rate - 1) / fmt.rate
  }
}
