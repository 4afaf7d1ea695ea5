/** PCM samples and frames: the byte formats, and linear interpolation between two samples. */
module PcmFormat {
  import opened Common

  type Sample = x: int | -32768 <= x <= 32767

  datatype Frame = Frame(left: Sample, right: Sample)

  const TARGET_RATE: nat := 48000
  const TARGET_CHANNELS: nat := 2
  const S16LE: nat := 1
  const U8: nat := 2
  const FRAME_BYTES: nat := 4
  const ONE: nat := 65536
  const SILENCE := Frame(0, 0)

  /** Bytes of one source frame; none for a format the kernel does not know. */
  function SourceFrameBytes(channels: nat, format: nat): (r: Option<nat>)
    ensures r.Some? ==> 1 <= r.value <= 4
  {
    if channels == 0 || channels > 2 then None
    else if format == S16LE then Some(channels * 2)
    else if format == U8 then Some(channels)
    else None
  }

  function ReadS16(low: Byte, high: Byte): Sample {
    var v := low + 256 * high;
    if v < 32768 then v else v - 65536
  }

  function LowByte(v: Sample): Byte {
    (v % 256)
  }

  function HighByte(v: Sample): Byte {
    ((v / 256) % 256)
  }

  function U8ToS16(v: Byte): Sample {
    (v - 128) * 256
  }

  /** Frame i lies within the span. */
  predicate Fits(bytes: nat, width: nat, i: nat) {
    i * width + width <= bytes
  }

  /** Frame i of a span of source bytes. */
  function ReadFrame(input: seq<Byte>, i: nat, channels: nat, format: nat): Frame
    requires SourceFrameBytes(channels, format).Some?
    requires Fits(|input|, SourceFrameBytes(channels, format).value, i)
  {
    var pos := i * SourceFrameBytes(channels, format).value;
    if format == S16LE then
      var left := ReadS16(input[pos], input[pos + 1]);
      Frame(left, if channels == 2 then ReadS16(input[pos + 2], input[pos + 3]) else left)
    else
      var left := U8ToS16(input[pos]);
      Frame(left, if channels == 2 then U8ToS16(input[pos + 1]) else left)
  }

  lemma FrameFits(bytes: nat, width: nat, i: nat)
    requires width > 0 && i < bytes / width
    ensures Fits(bytes, width, i)
  {
    assert (i + 1) * width <= bytes / width * width;
  }

  lemma FramesFit(bytes: nat, width: nat)
    requires width > 0
    ensures forall i: nat :: i < bytes / width ==> Fits(bytes, width, i)
  {
    forall i: nat | i < bytes / width ensures Fits(bytes, width, i) {
      FrameFits(bytes, width, i);
    }
  }

  /** The whole frames of a span of source bytes. */
  function Decode(input: seq<Byte>, channels: nat, format: nat): (frames: seq<Frame>)
    requires SourceFrameBytes(channels, format).Some?
    ensures |frames| == |input| / SourceFrameBytes(channels, format).value
    ensures forall i: nat :: i < |frames| ==>
              && Fits(|input|, SourceFrameBytes(channels, format).value, i)
              && frames[i] == ReadFrame(input, i, channels, format)
  {
    var width := SourceFrameBytes(channels, format).value;
    FramesFit(|input|, width);
    seq(|input| / width, i requires 0 <= i < |input| / width => ReadFrame(input, i, channels, format))
  }

  function EncodeFrame(f: Frame): (r: seq<Byte>)
    ensures |r| == FRAME_BYTES
  {
    [LowByte(f.left), HighByte(f.left), LowByte(f.right), HighByte(f.right)]
  }

  /** The stereo 16-bit little-endian bytes of a sequence of frames. */
  function Encode(frames: seq<Frame>): (r: seq<Byte>)
    ensures |r| == FRAME_BYTES * |frames|
  {
    if frames == [] then [] else Encode(frames[..|frames| - 1]) + EncodeFrame(frames[|frames| - 1])
  }

  lemma SampleRoundTrip(v: Sample)
    ensures ReadS16(LowByte(v), HighByte(v)) == v
  {
  }

  lemma ByteRoundTrip(low: Byte, high: Byte)
    ensures LowByte(ReadS16(low, high)) == low && HighByte(ReadS16(low, high)) == high
  {
  }

  /** Division that drops the fraction, as on machine integers. */
  function TruncDiv(a: int, d: nat): int
    requires d > 0
  {
    if a >= 0 then a / d else -((-a) / d)
  }

  function Clamp(v: int): Sample {
    if v > 32767 then 32767 else if v < -32768 then -32768 else v
  }

  function Lerp(a: Sample, b: Sample, frac: nat): Sample {
    Clamp(a + TruncDiv((b - a) * frac, ONE))
  }

  function LerpFrame(a: Frame, b: Frame, frac: nat): Frame {
    Frame(Lerp(a.left, b.left, frac), Lerp(a.right, b.right, frac))
  }

  lemma TruncDivBelow(a: nat, frac: nat)
    requires frac < ONE
    ensures 0 <= a * frac / ONE <= a
  {
    assert a * frac <= a * ONE;
  }

  /** Interpolation stays between its two samples, so the clamp never acts; it starts at the first. */
  lemma LerpBetween(a: Sample, b: Sample, frac: nat)
    requires frac < ONE
    ensures Lerp(a, b, frac) == a + TruncDiv((b - a) * frac, ONE)
    ensures a <= b ==> a <= Lerp(a, b, frac) <= b
    ensures b <= a ==> b <= Lerp(a, b, frac) <= a
    ensures frac == 0 || a == b ==> Lerp(a, b, frac) == a
  {
    if a <= b {
      TruncDivBelow(b - a, frac);
    } else {
      TruncDivBelow(a - b, frac);
      assert (b - a) * frac == -((a - b) * frac);
    }
  }

  /** How far the interpolation goes from a towards b: the whole part of (b - a) * frac / 65536. */
  lemma LerpExact(a: Sample, b: Sample, frac: nat)
    requires frac < ONE
    ensures a <= b ==> ONE * (Lerp(a, b, frac) - a) <= (b - a) * frac < ONE * (Lerp(a, b, frac) - a + 1)
    ensures b <= a ==> ONE * (a - Lerp(a, b, frac)) <= (a - b) * frac < ONE * (a - Lerp(a, b, frac) + 1)
  {
    LerpBetween(a, b, frac);
    WholePart((b - a) * frac, ONE);
    assert (a - b) * frac == -((b - a) * frac);
    if a <= b {
      NotNegative(b - a, frac);
    } else {
      NotNegative(a - b, frac);
    }
  }

  lemma NotNegative(a: nat, b: nat)
    ensures a * b >= 0
  {
  }

  /** The quotient of a division on machine integers: rounded towards zero, with the sign of a. */
  lemma WholePart(a: int, d: nat)
    requires d > 0
    ensures a >= 0 ==> 0 <= d * TruncDiv(a, d) <= a < d * (TruncDiv(a, d) + 1)
    ensures a <= 0 ==> d * (TruncDiv(a, d) - 1) < a <= d * TruncDiv(a, d) <= 0
  {
    var n := if a >= 0 then a else -a;
    assert n == d * (n / d) + n % d;
    assert d * (n / d + 1) == d * (n / d) + d;
    assert d * -(n / d) == -(d * (n / d)) && d * (-(n / d) - 1) == d * -(n / d) - d;
    NotNegative(d, n / d);
  }

  /** Clamping takes the nearest sample. */
  lemma ClampNearest(v: int, x: Sample)
    ensures v <= x ==> v <= Clamp(v) <= x
    ensures x <= v ==> x <= Clamp(v) <= v
  {
  }

  /** A sample is the little-endian two's complement value of its bytes. */
  lemma SampleOfBytes(low: Byte, high: Byte)
    ensures (low + 256 * high - ReadS16(low, high)) % 65536 == 0
  {
  }

  lemma LerpFrameStart(a: Frame, b: Frame, frac: nat)
    requires frac < ONE && (frac == 0 || a == b)
    ensures LerpFrame(a, b, frac) == a
  {
    LerpBetween(a.left, b.left, frac);
    LerpBetween(a.right, b.right, frac);
  }
}
