/** The resampler as the kernel runs it: one object updated in place, bytes in, bytes out. */
module PcmResampler {
  import opened Common
  import opened PcmFormat
  import Spec = PcmStream

  lemma FrameRoundTrip(a: Byte, b: Byte, c: Byte, d: Byte)
    ensures EncodeFrame(Frame(ReadS16(a, b), ReadS16(c, d))) == [a, b, c, d]
  {
    ByteRoundTrip(a, b);
    ByteRoundTrip(c, d);
  }

  /** Stereo 16-bit frames are their own bytes. */
  lemma DecodedFrame(input: seq<Byte>, i: nat)
    requires FRAME_BYTES * i + FRAME_BYTES <= |input|
    ensures i < |Decode(input, TARGET_CHANNELS, S16LE)|
    ensures var p := FRAME_BYTES * i; EncodeFrame(Decode(input, TARGET_CHANNELS, S16LE)[i]) == input[p..p + FRAME_BYTES]
  {
    var p := FRAME_BYTES * i;
    FrameRoundTrip(input[p], input[p + 1], input[p + 2], input[p + 3]);
    assert SourceFrameBytes(TARGET_CHANNELS, S16LE).value == FRAME_BYTES;
    assert Decode(input, TARGET_CHANNELS, S16LE)[i] == ReadFrame(input, i, TARGET_CHANNELS, S16LE);
  }

  lemma SliceJoin(s: seq<Byte>, a: nat, b: nat, c: nat)
    requires a <= b <= c <= |s|
    ensures s[a..b] + s[b..c] == s[a..c]
  {
  }

  lemma {:induction false} EncodeDecode(input: seq<Byte>, first: nat, end: nat)
    requires first <= end <= |input| / FRAME_BYTES
    ensures |Decode(input, TARGET_CHANNELS, S16LE)| == |input| / FRAME_BYTES
    ensures Encode(Decode(input, TARGET_CHANNELS, S16LE)[first..end]) == input[FRAME_BYTES * first..FRAME_BYTES * end]
    decreases end
  {
    hide Encode, EncodeFrame, Decode, SourceFrameBytes;
    DecodedCount(input);
    var frames := Decode(input, TARGET_CHANNELS, S16LE);
    if first == end {
      NothingEncoded(frames, first);
    } else {
      EncodeDecode(input, first, end - 1);
      DecodedFrame(input, end - 1);
      EncodeAppend(frames[first..end - 1], frames[end - 1]);
      assert frames[first..end] == frames[first..end - 1] + [frames[end - 1]];
      SliceJoin(input, FRAME_BYTES * first, FRAME_BYTES * (end - 1), FRAME_BYTES * end);
    }
  }

  lemma DecodedCount(input: seq<Byte>)
    ensures SourceFrameBytes(TARGET_CHANNELS, S16LE).Some?
    ensures |Decode(input, TARGET_CHANNELS, S16LE)| == |input| / FRAME_BYTES
  {
  }

  lemma NothingEncoded(frames: seq<Frame>, at: nat)
    requires at <= |frames|
    ensures Encode(frames[at..at]) == []
  {
  }

  lemma EncodeAppend(frames: seq<Frame>, f: Frame)
    ensures Encode(frames + [f]) == Encode(frames) + EncodeFrame(f)
  {
    assert (frames + [f])[..|frames|] == frames;
  }

  method WriteS16(output: array<Byte>, offset: nat, v: Sample)
    requires offset + 2 <= output.Length
    modifies output
    ensures output[..] == old(output[..])[offset := LowByte(v)][offset + 1 := HighByte(v)]
  {
    output[offset] := LowByte(v);
    output[offset + 1] := HighByte(v);
  }

  /** A buffer whose front was overwritten with data. */
  function Written(buffer: seq<Byte>, data: seq<Byte>): seq<Byte>
    requires |data| <= |buffer|
  {
    data + buffer[|data|..]
  }

  lemma WrittenFrame(buffer: seq<Byte>, data: seq<Byte>, f: Frame)
    requires |data| + FRAME_BYTES <= |buffer|
    ensures var at := |data|;
      var left := Written(buffer, data)[at := LowByte(f.left)][at + 1 := HighByte(f.left)];
      left[at + 2 := LowByte(f.right)][at + 3 := HighByte(f.right)] == Written(buffer, data + EncodeFrame(f))
  {
  }

  method WriteFrame(output: array<Byte>, offset: nat, f: Frame, ghost buffer: seq<Byte>, ghost done: seq<Frame>)
    requires offset + FRAME_BYTES <= output.Length == |buffer| && offset == |Encode(done)|
    requires output[..] == Written(buffer, Encode(done))
    modifies output
    ensures output[..] == Written(buffer, Encode(done + [f]))
  {
    WriteS16(output, offset, f.left);
    WriteS16(output, offset + 2, f.right);
    EncodeAppend(done, f);
    WrittenFrame(buffer, Encode(done), f);
  }

  lemma NothingWritten(buffer: seq<Byte>)
    ensures Encode([]) == [] && Written(buffer, []) == buffer
  {
  }

  /** A loop that writes whole frames stops when no other one fits. */
  lemma FullRoom(n: nat, room: nat, frames: nat)
    requires n == FRAME_BYTES * frames <= room
    ensures frames <= room / FRAME_BYTES && (n + FRAME_BYTES > room ==> frames == room / FRAME_BYTES)
  {
  }

  lemma EmitStarts(s: Spec.Stream, chunk: seq<Frame>, prefix: nat)
    requires chunk != [] && prefix == (if s.valid then 1 else 0)
    ensures Spec.Emit(s, chunk, 0) == (s, []) && Spec.LastPosition(s, chunk) == (|chunk| + prefix - 1) * ONE
  {
  }

  lemma SameWindow(s: Spec.Stream, t: Spec.Stream, chunk: seq<Frame>)
    requires t.valid == s.valid && t.previous == s.previous
    ensures Spec.Window(t, chunk) == Spec.Window(s, chunk)
  {
  }

  lemma EmitMore(s: Spec.Stream, chunk: seq<Frame>, cap: nat)
    requires chunk != []
    ensures Spec.Emit(s, chunk, 0) == (s, [])
    ensures var r := Spec.Emit(s, chunk, cap);
      r.0.phase <= Spec.LastPosition(s, chunk) ==>
        Spec.Emit(s, chunk, cap + 1) == (Spec.Advance(r.0), r.1 + [Spec.Interpolate(Spec.Window(s, chunk), r.0.phase)])
  {
  }

  /** The loops stop when their input is exhausted: more room changes nothing. */
  lemma {:induction false} EmitEnds(s: Spec.Stream, chunk: seq<Frame>, cap: nat, room: nat)
    requires chunk != [] && cap <= room
    requires cap == room || Spec.Emit(s, chunk, cap).0.phase > Spec.LastPosition(s, chunk)
    ensures Spec.Emit(s, chunk, room) == Spec.Emit(s, chunk, cap)
    decreases room
  {
    if cap < room {
      EmitEnds(s, chunk, cap, room - 1);
    }
  }

  lemma {:induction false} HoldEnds(s: Spec.Stream, cap: nat, room: nat)
    requires cap <= room && (cap == room || Spec.Hold(s, cap).0.phase >= ONE)
    ensures Spec.Hold(s, room) == Spec.Hold(s, cap)
    decreases room
  {
    if cap < room {
      HoldEnds(s, cap, room - 1);
    }
  }

  /** What one call must do to the state and the buffer. */
  predicate Answers(s: Spec.Stream, t: Spec.Stream, format: Spec.Format, input: seq<Byte>, buffer: seq<Byte>,
      result: seq<Byte>, n: nat) {
    match SourceFrameBytes(format.channels, format.format)
    case None => t == s && n == 0 && result == buffer
    case Some(_) =>
      var r := Spec.Convert(s, format, Decode(input, format.channels, format.format), |buffer| / FRAME_BYTES);
      && t == r.0 && n == FRAME_BYTES * |r.1| <= |buffer|
      && result == Written(buffer, Encode(r.1))
  }

  lemma NothingAnswers(s: Spec.Stream, format: Spec.Format, input: seq<Byte>, buffer: seq<Byte>)
    requires var width := SourceFrameBytes(format.channels, format.format);
      s.done || format.rate == 0 || width == None || |input| / width.value == 0
    ensures Answers(s, s, format, input, buffer, buffer, 0)
  {
    assert Written(buffer, Encode([])) == buffer;
    hide Written;
  }

  /** The direct path lends exactly the bytes of the frames it stands for. */
  lemma DirectAnswers(s: Spec.Stream, format: Spec.Format, input: seq<Byte>, buffer: seq<Byte>)
    requires Spec.DirectReady(s, format) && !s.done && |input| >= FRAME_BYTES
    ensures var r := Spec.Direct(Spec.ResetIfChanged(s, format), |input| / FRAME_BYTES, |buffer| / FRAME_BYTES);
      var span := input[FRAME_BYTES * r.1..FRAME_BYTES * (r.1 + r.2)];
      |span| <= |buffer| && Answers(s, r.0, format, input, buffer, Written(buffer, span), |span|)
  {
    hide Spec.Direct, Encode, Written, Spec.Interpolating;
    var frames, cap := Decode(input, format.channels, format.format), |buffer| / FRAME_BYTES;
    DirectWidth(format);
    var r := Spec.Direct(Spec.ResetIfChanged(s, format), |frames|, cap);
    EncodeDecode(input, r.1, r.1 + r.2);
    RoomBytes(|buffer|, r.2);
  }

  lemma DirectWidth(format: Spec.Format)
    requires Spec.DirectFormat(format)
    ensures SourceFrameBytes(format.channels, format.format) == Some(FRAME_BYTES)
  {
  }

  lemma InterpolatingAnswers(s: Spec.Stream, format: Spec.Format, input: seq<Byte>, buffer: seq<Byte>)
    requires SourceFrameBytes(format.channels, format.format).Some?
    requires !s.done && format.rate > 0 && !Spec.DirectReady(s, format)
    requires |input| / SourceFrameBytes(format.channels, format.format).value > 0
    ensures var frames := Decode(input, format.channels, format.format);
      var r := Spec.Interpolating(Spec.ResetIfChanged(s, format), frames, |buffer| / FRAME_BYTES);
      FRAME_BYTES * |r.1| <= |buffer|
      ==> Answers(s, r.0, format, input, buffer, Written(buffer, Encode(r.1)), FRAME_BYTES * |r.1|)
  {
    hide Encode, Written, Spec.Interpolating;
  }

  lemma RoomBytes(room: nat, frames: nat)
    requires frames <= room / FRAME_BYTES
    ensures FRAME_BYTES * frames <= room
  {
  }

  class Resampler {
    var fmt: Spec.Format
    var phase: nat
    var remainder: nat
    var previous: Frame
    var previousValid: bool
    var chunkDone: bool

    function Value(): Spec.Stream
      reads this
    {
      Spec.Stream(fmt, phase, remainder, previous, previousValid, chunkDone)
    }

    constructor ()
      ensures Value() == Spec.Fresh(Spec.Format(0, 0, 0))
    {
      fmt, phase, remainder, previous, previousValid, chunkDone := Spec.Format(0, 0, 0), 0, 0, SILENCE, false, false;
    }

    method ResetIfFormatChanged(format: Spec.Format)
      modifies this
      ensures Value() == Spec.ResetIfChanged(old(Value()), format)
    {
      if fmt == format { return; }
      fmt, phase, remainder, previous, previousValid, chunkDone := format, 0, 0, SILENCE, false, false;
    }

    method BeginChunk(format: Spec.Format)
      modifies this
      ensures Value() == Spec.BeginChunk(old(Value()), format)
    {
      ResetIfFormatChanged(format);
      chunkDone := false;
    }

    method AdvancePhase()
      modifies this`phase, this`remainder
      ensures Value() == Spec.Advance(old(Value()))
    {
      var numerator := fmt.rate * ONE;
      phase := phase + numerator / TARGET_RATE;
      remainder := remainder + numerator % TARGET_RATE;
      if remainder >= TARGET_RATE {
        phase := phase + 1;
        remainder := remainder - TARGET_RATE;
      }
    }

    /** The span of input bytes the direct path lends, when it applies. */
    method TakeDirect(input: seq<Byte>, format: Spec.Format, maxBytes: nat) returns (span: Option<seq<Byte>>)
      modifies this
      ensures !Spec.DirectFormat(format) || |input| < FRAME_BYTES ==> span == None && Value() == old(Value())
      ensures Spec.DirectFormat(format) && |input| >= FRAME_BYTES ==>
        var s := Spec.ResetIfChanged(old(Value()), format);
        var r := Spec.Direct(s, |input| / FRAME_BYTES, maxBytes / FRAME_BYTES);
        if Spec.DirectReady(old(Value()), format)
        then Value() == r.0 && span == Some(input[FRAME_BYTES * r.1..FRAME_BYTES * (r.1 + r.2)])
        else span == None && Value() == s
    {
      if !Spec.DirectFormat(format) || |input| < FRAME_BYTES { return None; }
      ResetIfFormatChanged(format);
      if previousValid || phase % ONE != 0 { return None; }
      if chunkDone { return Some(input[..0]); }
      var frames := |input| / FRAME_BYTES;
      var limit := frames * ONE;
      if phase >= limit {
        phase := phase - limit;
        chunkDone := true;
        return Some(input[..0]);
      }
      var first := phase / ONE;
      var count := if frames - first < maxBytes / FRAME_BYTES then frames - first else maxBytes / FRAME_BYTES;
      phase := phase + count * ONE;
      if phase >= limit {
        phase := phase - limit;
        chunkDone := true;
      }
      return Some(input[first * FRAME_BYTES..first * FRAME_BYTES + count * FRAME_BYTES]);
    }

    method CopyDirect(span: seq<Byte>, output: array<Byte>)
      requires |span| <= output.Length
      modifies output
      ensures output[..] == Written(old(output[..]), span)
    {
      for i := 0 to |span|
        invariant output[..i] == span[..i]
        invariant output[|span|..] == old(output[|span|..])
      {
        output[i] := span[i];
      }
    }

    /** One streaming call: the frames the specification emits, as bytes at the front of output. */
    method Convert(input: seq<Byte>, format: Spec.Format, output: array<Byte>) returns (n: nat)
      modifies this, output
      ensures Answers(old(Value()), Value(), format, input, old(output[..]), output[..], n)
    {
      hide Answers, Written, Spec.Interpolating, Spec.Direct, Encode;
      ghost var before, buffer := Value(), output[..];
      var width := SourceFrameBytes(format.channels, format.format);
      if chunkDone || format.rate == 0 || width == None || |input| / width.value == 0 {
        NothingAnswers(before, format, input, buffer);
        return 0;
      }
      var span := TakeDirect(input, format, output.Length);
      if span.Some? {
        DirectAnswers(before, format, input, buffer);
        CopyDirect(span.value, output);
        return |span.value|;
      }
      ResetIfFormatChanged(format);
      n := Interpolate(input, output);
      InterpolatingAnswers(before, format, input, buffer);
    }

    method Interpolate(input: seq<Byte>, output: array<Byte>) returns (n: nat)
      requires SourceFrameBytes(fmt.channels, fmt.format).Some?
      requires Decode(input, fmt.channels, fmt.format) != []
      modifies this, output
      ensures var frames := Decode(input, old(fmt.channels), old(fmt.format));
        var r := Spec.Interpolating(old(Value()), frames, output.Length / FRAME_BYTES);
        && Value() == r.0 && n == FRAME_BYTES * |r.1| <= output.Length
        && output[..] == Written(old(output[..]), Encode(r.1))
    {
      hide Encode, Spec.Emit;
      var frames := Decode(input, fmt.channels, fmt.format);
      var prefix := if previousValid then 1 else 0;
      var last := (|frames| + prefix - 1) * ONE;
      n := EmitFrames(frames, output, prefix, last);
      if phase > last {
        phase := phase - last;
        previous := frames[|frames| - 1];
        previousValid := true;
        chunkDone := true;
      }
    }

    /** The interpolation loop. */
    method EmitFrames(chunk: seq<Frame>, output: array<Byte>, prefix: nat, last: nat) returns (n: nat)
      requires chunk != [] && prefix == (if previousValid then 1 else 0) && last == (|chunk| + prefix - 1) * ONE
      modifies this`phase, this`remainder, output
      ensures var r := Spec.Emit(old(Value()), chunk, output.Length / FRAME_BYTES);
        && Value() == r.0 && n == FRAME_BYTES * |r.1| <= output.Length
        && output[..] == Written(old(output[..]), Encode(r.1))
    {
      hide Spec.Emit, Spec.Advance, Spec.Interpolate, Spec.LastPosition, Spec.Window, Encode;
      ghost var s0, buffer := Value(), output[..];
      ghost var out: seq<Frame> := [];
      n := 0;
      EmitStarts(s0, chunk, prefix);
      NothingWritten(buffer);
      while n + FRAME_BYTES <= output.Length && phase <= last
        invariant n == FRAME_BYTES * |out| <= output.Length
        invariant output[..] == Written(buffer, Encode(out))
        invariant Spec.Emit(s0, chunk, |out|) == (Value(), out)
        decreases output.Length - n
      {
        EmitMore(s0, chunk, |out|);
        SameWindow(s0, Value(), chunk);
        ghost var next := Spec.Emit(s0, chunk, |out| + 1).1;
        EmitOne(chunk, output, prefix, n, buffer, out);
        out := next;
        n := n + FRAME_BYTES;
      }
      FullRoom(n, output.Length, |out|);
      EmitEnds(s0, chunk, |out|, output.Length / FRAME_BYTES);
    }

    /** One iteration: the frame at the current position, then the advance. */
    method EmitOne(chunk: seq<Frame>, output: array<Byte>, prefix: nat, n: nat, ghost buffer: seq<Byte>,
        ghost out: seq<Frame>)
      requires chunk != [] && prefix == (if previousValid then 1 else 0) && phase <= (|chunk| + prefix - 1) * ONE
      requires n + FRAME_BYTES <= output.Length == |buffer| && n == |Encode(out)| &&
        output[..] == Written(buffer, Encode(out))
      modifies this`phase, this`remainder, output
      ensures Value() == Spec.Advance(old(Value()))
      ensures var f := Spec.Interpolate(Spec.Window(old(Value()), chunk), old(phase));
        output[..] == Written(buffer, Encode(out + [f]))
    {
      WriteFrame(output, n, NextFrame(chunk, prefix), buffer, out);
      AdvancePhase();
    }

    /** Frame `index` of the retained frame followed by the chunk. */
    function StreamingFrame(chunk: seq<Frame>, index: nat, prefix: nat): (f: Frame)
      requires prefix == (if previousValid then 1 else 0) && index < |chunk| + prefix
      reads this
      ensures f == Spec.Window(Value(), chunk)[index]
    {
      if prefix != 0 && index == 0 then previous else chunk[index - prefix]
    }

    /** The output frame at the current position. */
    function NextFrame(chunk: seq<Frame>, prefix: nat): (f: Frame)
      requires chunk != [] && prefix == (if previousValid then 1 else 0) && phase <= (|chunk| + prefix - 1) * ONE
      reads this
      ensures f == Spec.Interpolate(Spec.Window(Value(), chunk), phase)
    {
      var index, frac := phase / ONE, phase % ONE;
      var a := StreamingFrame(chunk, index, prefix);
      LerpFrame(a, if frac == 0 then a else StreamingFrame(chunk, index + 1, prefix), frac)
    }

    /** The end of the stream: the last frame is held for the rest of its duration. */
    method Finish(output: array<Byte>) returns (n: nat)
      modifies this, output
      ensures var r := Spec.Finish(old(Value()), output.Length / FRAME_BYTES);
        && Value() == r.0 && n == FRAME_BYTES * |r.1| <= output.Length
        && output[..] == Written(old(output[..]), Encode(r.1))
    {
      hide Spec.Advance;
      if !chunkDone || !previousValid { return 0; }
      ghost var s0, buffer := Value(), output[..];
      ghost var out: seq<Frame> := [];
      n := 0;
      while n + FRAME_BYTES <= output.Length && phase < ONE
        invariant n == FRAME_BYTES * |out| <= output.Length
        invariant output[..] == Written(buffer, Encode(out))
        invariant previous == s0.previous && Spec.Hold(s0, |out|) == (Value(), out)
        decreases output.Length - n
      {
        ghost var next := Spec.Hold(s0, |out| + 1).1;
        WriteFrame(output, n, previous, buffer, out);
        out := next;
        n := n + FRAME_BYTES;
        AdvancePhase();
      }
      HoldEnds(s0, |out|, output.Length / FRAME_BYTES);
      if phase >= ONE {
        previousValid := false;
        phase := 0;
        remainder := 0;
      }
    }
  }
}
