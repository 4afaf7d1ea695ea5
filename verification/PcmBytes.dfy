/** The resampler on bytes: chunks of source bytes in, stereo 16-bit bytes out. */
module PcmBytes {
  import opened Common
  import opened Bits
  import opened PcmFormat
  import opened PcmStream
  import opened PcmProof

  // ----- frames and bytes, concatenated

  lemma {:induction false} EncodeJoin(a: seq<Frame>, b: seq<Frame>)
    ensures Encode(a + b) == Encode(a) + Encode(b)
    decreases |b|
  {
    if b == [] {
      assert a + b == a;
    } else {
      var init, last := b[..|b| - 1], b[|b| - 1];
      assert (a + b)[..|a + b| - 1] == a + init && (a + b)[|a + b| - 1] == last;
      EncodeJoin(a, init);
    }
  }

  lemma FramesJoin(a: nat, b: nat, width: nat)
    requires width > 0 && a % width == 0
    ensures (a + b) / width == a / width + b / width && a == a / width * width
  {
    assert a == a / width * width && b == b / width * width + b % width;
    ModUnique(a + b, width, a / width + b / width, b % width);
  }

  /** A frame depends on its own bytes only. */
  lemma SameFrame(x: seq<Byte>, i: nat, y: seq<Byte>, j: nat, channels: nat, format: nat)
    requires SourceFrameBytes(channels, format).Some?
    requires var width := SourceFrameBytes(channels, format).value;
      && Fits(|x|, width, i) && Fits(|y|, width, j)
      && x[i * width..i * width + width] == y[j * width..j * width + width]
    ensures ReadFrame(x, i, channels, format) == ReadFrame(y, j, channels, format)
  {
    var width := SourceFrameBytes(channels, format).value;
    var sx, sy := x[i * width..i * width + width], y[j * width..j * width + width];
    assert sx == sy && sx[0] == sy[0];
    if width > 1 { assert sx[1] == sy[1]; }
    if width > 2 { assert sx[2] == sy[2] && sx[3] == sy[3]; }
  }

  /** A frame of the first span is the same in both together. */
  lemma FirstFrame(a: seq<Byte>, b: seq<Byte>, channels: nat, format: nat, i: nat)
    requires SourceFrameBytes(channels, format).Some? && Fits(|a|, SourceFrameBytes(channels, format).value, i)
    ensures Fits(|a + b|, SourceFrameBytes(channels, format).value, i)
    ensures ReadFrame(a + b, i, channels, format) == ReadFrame(a, i, channels, format)
  {
    hide ReadFrame, SourceFrameBytes;
    var width := SourceFrameBytes(channels, format).value;
    var at := i * width;
    assert (a + b)[at..at + width] == a[at..at + width];
    SameFrame(a + b, i, a, i, channels, format);
  }

  /** So is a frame of the second one, after the frames of the first. */
  lemma LaterFrame(a: seq<Byte>, b: seq<Byte>, channels: nat, format: nat, n: nat, i: nat)
    requires SourceFrameBytes(channels, format).Some? && Fits(|b|, SourceFrameBytes(channels, format).value, i)
    requires |a| == n * SourceFrameBytes(channels, format).value
    ensures Fits(|a + b|, SourceFrameBytes(channels, format).value, n + i)
    ensures ReadFrame(a + b, n + i, channels, format) == ReadFrame(b, i, channels, format)
  {
    hide ReadFrame, SourceFrameBytes;
    var width := SourceFrameBytes(channels, format).value;
    var at := i * width;
    MulPlus(n, i, width);
    assert (a + b)[|a| + at..|a| + at + width] == b[at..at + width];
    SameFrame(a + b, n + i, b, i, channels, format);
  }

  lemma MulPlus(n: nat, i: nat, width: nat)
    ensures (n + i) * width == n * width + i * width
  {
  }

  /** Decoding whole frames piece by piece. */
  lemma DecodeJoin(a: seq<Byte>, b: seq<Byte>, channels: nat, format: nat)
    requires SourceFrameBytes(channels, format).Some? && |a| % SourceFrameBytes(channels, format).value == 0
    ensures Decode(a + b, channels, format) == Decode(a, channels, format) + Decode(b, channels, format)
  {
    hide ReadFrame, SourceFrameBytes, Fits;
    var width := SourceFrameBytes(channels, format).value;
    FramesJoin(|a|, |b|, width);
    var n := |a| / width;
    var whole, parts := Decode(a + b, channels, format), Decode(a, channels, format) + Decode(b, channels, format);
    forall i: nat | i < |whole| ensures whole[i] == parts[i] {
      if i < n {
        FirstFrame(a, b, channels, format, i);
      } else {
        LaterFrame(a, b, channels, format, n, i - n);
      }
    }
  }

  // ----- the four source formats

  /** The high byte of the 16-bit sample of an 8-bit one: its sign bit is turned. */
  function SignTurned(v: Byte): Byte {
    if v < 128 then v + 128 else v - 128
  }

  /** 8-bit samples written as 16-bit ones. */
  function Widened(input: seq<Byte>): seq<Byte> {
    seq(2 * |input|, j requires 0 <= j < 2 * |input| => if j % 2 == 0 then 0 else SignTurned(input[j / 2]))
  }

  /** Both channels of every frame of a 16-bit mono span. */
  function Doubled(input: seq<Byte>): seq<Byte> {
    seq(4 * (|input| / 2), j requires 0 <= j < 4 * (|input| / 2) => input[2 * (j / 4) + j % 2])
  }

  /** An 8-bit span decodes as the 16-bit span of its widened samples. */
  lemma BytesAreWidened(input: seq<Byte>, channels: nat)
    requires 1 <= channels <= 2
    ensures Decode(input, channels, U8) == Decode(Widened(input), channels, S16LE)
  {
    hide ReadFrame;
    var a, b := Decode(input, channels, U8), Decode(Widened(input), channels, S16LE);
    HalfFrames(|input|, channels);
    forall i: nat | i < |a| ensures a[i] == b[i] {
      WidenedFrame(input, channels, i);
    }
  }

  lemma HalfFrames(n: nat, channels: nat)
    requires 1 <= channels <= 2
    ensures 2 * n / (channels * 2) == n / channels
  {
  }

  lemma WidenedFrame(input: seq<Byte>, channels: nat, i: nat)
    requires 1 <= channels <= 2 && Fits(|input|, channels, i) && Fits(|Widened(input)|, 2 * channels, i)
    ensures ReadFrame(input, i, channels, U8) == ReadFrame(Widened(input), i, channels, S16LE)
  {
    hide Widened, ReadS16, U8ToS16;
    WidenedSample(input, i * channels);
    assert i * (2 * channels) == 2 * (i * channels);
    if channels == 2 { WidenedSample(input, i * channels + 1); }
  }

  lemma WidenedSample(input: seq<Byte>, k: nat)
    requires k < |input|
    ensures |Widened(input)| == 2 * |input|
    ensures ReadS16(Widened(input)[2 * k], Widened(input)[2 * k + 1]) == U8ToS16(input[k])
  {
    var w := Widened(input);
    assert w[2 * k] == 0 && w[2 * k + 1] == SignTurned(input[k]);
    hide Widened;
    HighOnly(input[k]);
  }

  lemma HighOnly(v: Byte)
    ensures ReadS16(0, SignTurned(v)) == U8ToS16(v)
  {
  }

  /** A mono span decodes as the stereo span with both channels alike. */
  lemma MonoIsDoubled(input: seq<Byte>)
    ensures Decode(input, 1, S16LE) == Decode(Doubled(input), 2, S16LE)
  {
    var a, b := Decode(input, 1, S16LE), Decode(Doubled(input), 2, S16LE);
    forall i: nat | i < |a| ensures a[i] == b[i] {
      DoubledFrame(input, i);
    }
  }

  lemma DoubledFrame(input: seq<Byte>, i: nat)
    requires i < |input| / 2
    ensures var d := Doubled(input);
      d[4 * i] == d[4 * i + 2] == input[2 * i] && d[4 * i + 1] == d[4 * i + 3] == input[2 * i + 1]
  {
  }

  // ----- runs on bytes

  /** A chunk of source bytes, and the length of each output buffer it is drained through. */
  datatype ByteChunk = ByteChunk(bytes: seq<Byte>, lengths: seq<nat>)

  predicate Known(fmt: Format) {
    SourceFrameBytes(fmt.channels, fmt.format).Some?
  }

  function DrainBytes(s: Stream, fmt: Format, bytes: seq<Byte>, lengths: seq<nat>): (Stream, seq<Byte>)
    requires Known(fmt)
    decreases |lengths|
  {
    if lengths == [] then (s, [])
    else
      var r := Convert(s, fmt, Decode(bytes, fmt.channels, fmt.format), lengths[0] / FRAME_BYTES);
      var q := DrainBytes(r.0, fmt, bytes, lengths[1..]);
      (q.0, Encode(r.1) + q.1)
  }

  function PlayBytes(s: Stream, fmt: Format, chunks: seq<ByteChunk>): (Stream, seq<Byte>)
    requires Known(fmt)
    decreases |chunks|
  {
    if chunks == [] then (s, [])
    else
      var r := DrainBytes(BeginChunk(s, fmt), fmt, chunks[0].bytes, chunks[0].lengths);
      var q := PlayBytes(r.0, fmt, chunks[1..]);
      (q.0, r.1 + q.1)
  }

  function Caps(lengths: seq<nat>): seq<nat> {
    if lengths == [] then [] else [lengths[0] / FRAME_BYTES] + Caps(lengths[1..])
  }

  /** The chunks as frames. */
  function Decoded(fmt: Format, chunks: seq<ByteChunk>): seq<Chunk>
    requires Known(fmt)
  {
    if chunks == [] then []
    else [Chunk(Decode(chunks[0].bytes, fmt.channels, fmt.format), Caps(chunks[0].lengths))] + Decoded(fmt, chunks[1..])
  }

  function Bytes(chunks: seq<ByteChunk>): seq<Byte> {
    if chunks == [] then [] else chunks[0].bytes + Bytes(chunks[1..])
  }

  /** Every chunk but the last holds whole frames. */
  predicate Aligned(fmt: Format, chunks: seq<ByteChunk>)
    requires Known(fmt)
  {
    |chunks| <= 1 ||
    (|chunks[0].bytes| % SourceFrameBytes(fmt.channels, fmt.format).value == 0 && Aligned(fmt, chunks[1..]))
  }

  lemma {:induction false} DecodedInput(fmt: Format, chunks: seq<ByteChunk>)
    requires Known(fmt) && Aligned(fmt, chunks)
    ensures Input(Decoded(fmt, chunks)) == Decode(Bytes(chunks), fmt.channels, fmt.format)
    decreases |chunks|
  {
    hide Decode;
    if chunks == [] {
      assert Decode([], fmt.channels, fmt.format) == [];
    } else {
      DecodedInput(fmt, chunks[1..]);
      if |chunks| == 1 {
        assert Bytes(chunks) == chunks[0].bytes && Decoded(fmt, chunks[1..]) == [];
      } else {
        DecodeJoin(chunks[0].bytes, Bytes(chunks[1..]), fmt.channels, fmt.format);
      }
    }
  }

  lemma {:induction false} DrainEncodes(s: Stream, fmt: Format, bytes: seq<Byte>, lengths: seq<nat>)
    requires Known(fmt)
    ensures var r := Drain(s, fmt, Decode(bytes, fmt.channels, fmt.format), Caps(lengths));
      DrainBytes(s, fmt, bytes, lengths) == (r.0, Encode(r.1))
    decreases |lengths|
  {
    hide Convert, Decode;
    if lengths != [] {
      var frames := Decode(bytes, fmt.channels, fmt.format);
      var r := Convert(s, fmt, frames, lengths[0] / FRAME_BYTES);
      assert Caps(lengths)[1..] == Caps(lengths[1..]);
      DrainEncodes(r.0, fmt, bytes, lengths[1..]);
      EncodeJoin(r.1, Drain(r.0, fmt, frames, Caps(lengths[1..])).1);
    }
  }

  /** What a run writes is the encoding of what it emits. */
  lemma {:induction false} PlayEncodes(s: Stream, fmt: Format, chunks: seq<ByteChunk>)
    requires Known(fmt)
    ensures var r := Play(s, fmt, Decoded(fmt, chunks)); PlayBytes(s, fmt, chunks) == (r.0, Encode(r.1))
    decreases |chunks|
  {
    hide Drain, DrainBytes, Decode, BeginChunk;
    if chunks != [] {
      var s0, all := BeginChunk(s, fmt), Decoded(fmt, chunks);
      assert all[1..] == Decoded(fmt, chunks[1..]);
      DrainEncodes(s0, fmt, chunks[0].bytes, chunks[0].lengths);
      var r := Drain(s0, fmt, all[0].frames, all[0].caps);
      PlayEncodes(r.0, fmt, chunks[1..]);
      EncodeJoin(r.1, Play(r.0, fmt, all[1..]).1);
    }
  }

  /** Any two ways to cut the same bytes into chunks of whole frames, drained through buffers of any
      length, write the same bytes. */
  lemma ByteChunkingIrrelevant(fmt: Format, chunks: seq<ByteChunk>, others: seq<ByteChunk>)
    requires fmt.rate > 0 && Known(fmt) && Aligned(fmt, chunks) && Aligned(fmt, others)
    requires Bytes(chunks) == Bytes(others)
    requires Drained(Fresh(fmt), fmt, Decoded(fmt, chunks)) && Drained(Fresh(fmt), fmt, Decoded(fmt, others))
    ensures PlayBytes(Fresh(fmt), fmt, chunks).1 == PlayBytes(Fresh(fmt), fmt, others).1
    ensures var input := Decode(Bytes(chunks), fmt.channels, fmt.format);
      PlayBytes(Fresh(fmt), fmt, chunks).1 == Encode(References(input, fmt, 0, Available(fmt, |input|)))
  {
    hide Decode, Play, PlayBytes, Decoded, Drained, References, Available;
    DecodedInput(fmt, chunks);
    DecodedInput(fmt, others);
    ChunkingIrrelevant(fmt, Decoded(fmt, chunks), Decoded(fmt, others));
    PlayEncodes(Fresh(fmt), fmt, chunks);
    PlayEncodes(Fresh(fmt), fmt, others);
  }
}
