/** Mixing 16-bit sources that are read from byte rings, and the byte rings themselves. */
module Mixer {
  import opened Common
  import opened PcmFormat
  import opened RingWindow
  import opened Bits

  const UNIT: nat := 65536
  const MAX_SOURCES: nat := 8

  datatype Source = Source(ring: seq<Byte>, readPos: nat, volume: nat)

  // ----- what is to be mixed

  /** Byte j of the unread part of a ring. */
  function RingByte(s: Source, j: nat): Byte
    requires s.ring != []
  {
    s.ring[(s.readPos + j) % |s.ring|]
  }

  /** Sample k of a source; a ring too short for a sample is silent. */
  function SampleAt(s: Source, k: nat): Sample {
    if |s.ring| < 2 then 0 else ReadS16(RingByte(s, 2 * k), RingByte(s, 2 * k + 1))
  }

  function Scaled(sample: Sample, volume: nat): int {
    TruncDiv(sample * volume, UNIT)
  }

  /** A scaled sample is the whole part of sample * volume / 65536, with the sign of the sample. */
  lemma ScaledExact(sample: Sample, volume: nat)
    ensures sample >= 0 ==> 0 <= UNIT * Scaled(sample, volume) <= sample * volume < UNIT * (Scaled(sample, volume) + 1)
    ensures sample <= 0 ==> UNIT * (Scaled(sample, volume) - 1) < sample * volume <= UNIT * Scaled(sample, volume) <= 0
  {
    WholePart(sample * volume, UNIT);
    if sample >= 0 {
      NotNegative(sample, volume);
    } else {
      NotNegative(0 - sample, volume);
    }
  }

  /** The sum of the first n sources at sample k. */
  function Total(sources: seq<Source>, n: nat, k: nat): int
    requires n <= |sources|
  {
    if n == 0 then 0 else Total(sources, n - 1, k) + Scaled(SampleAt(sources[n - 1], k), sources[n - 1].volume)
  }

  /** The sum of two groups of sources is the sum of their sums. */
  lemma {:induction false} TotalJoin(a: seq<Source>, b: seq<Source>, k: nat)
    ensures Total(a + b, |a + b|, k) == Total(a, |a|, k) + Total(b, |b|, k)
    decreases |b|
  {
    hide Scaled, SampleAt;
    if b == [] {
      assert a + b == a;
    } else {
      var init := b[..|b| - 1];
      TotalJoin(a, init, k);
      SamePrefix(a + b, a + init, k);
      SamePrefix(b, init, k);
    }
  }

  lemma {:induction false} SamePrefix(a: seq<Source>, b: seq<Source>, k: nat)
    requires b <= a
    ensures Total(a, |b|, k) == Total(b, |b|, k)
  {
    PrefixTotal(a, b, |b|, k);
  }

  lemma {:induction false} PrefixTotal(a: seq<Source>, b: seq<Source>, n: nat, k: nat)
    requires n <= |b| <= |a| && b <= a
    ensures Total(a, n, k) == Total(b, n, k)
  {
    hide Scaled, SampleAt;
    if n > 0 { PrefixTotal(a, b, n - 1, k); }
  }

  /** The mixed sample k: the clamped sum of all scaled samples. */
  function Mixed(sources: seq<Source>, k: nat): Sample {
    Clamp(Total(sources, |sources|, k))
  }

  /** The first n mixed samples as bytes. */
  function MixedBytes(sources: seq<Source>, n: nat): (r: seq<Byte>)
    ensures |r| == 2 * n
  {
    if n == 0 then []
    else MixedBytes(sources, n - 1) + [LowByte(Mixed(sources, n - 1)), HighByte(Mixed(sources, n - 1))]
  }

  // ----- the three paths

  /** ring_read_s16. */
  function RingReadS16(ring: seq<Byte>, readPos: nat, offset: nat): Sample {
    if |ring| < 2 then 0
    else
      var low := (readPos + offset) % |ring|;
      ReadS16(ring[low], ring[(low + 1) % |ring|])
  }

  lemma ModStep(a: nat, n: nat)
    requires n > 0
    ensures (a % n + 1) % n == (a + 1) % n
    ensures (a + 1) % n == if a % n + 1 == n then 0 else a % n + 1
  {
    var q, r := a / n, a % n;
    assert a == q * n + r;
    if r + 1 == n {
      Whole(q, n);
      ModUnique(a + 1, n, q + 1, 0);
      ModUnique(r + 1, n, 1, 0);
    } else {
      ModUnique(a + 1, n, q, r + 1);
      ModUnique(r + 1, n, 0, r + 1);
    }
  }

  lemma Whole(q: nat, n: nat)
    ensures (q + 1) * n == q * n + n
  {
  }

  lemma RingReadIs(s: Source, k: nat)
    ensures RingReadS16(s.ring, s.readPos, 2 * k) == SampleAt(s, k)
  {
    if |s.ring| >= 2 { ModStep(s.readPos + 2 * k, |s.ring|); }
  }

  method WriteSample(output: array<Byte>, k: nat, v: Sample, ghost done: seq<Byte>)
    requires 2 * k + 2 <= output.Length && output[..2 * k] == done
    modifies output
    ensures output[..2 * k + 2] == done + [LowByte(v), HighByte(v)]
  {
    output[2 * k] := LowByte(v);
    output[2 * k + 1] := HighByte(v);
    assert output[..2 * k + 2] == output[..2 * k] + [output[2 * k], output[2 * k + 1]];
  }

  /** More sources than cursors: every sample is found by its index. */
  method MixIndexed(sources: seq<Source>, output: array<Byte>)
    requires output.Length % 2 == 0
    modifies output
    ensures output[..] == MixedBytes(sources, output.Length / 2)
  {
    hide SampleAt, Scaled, TruncDiv, LowByte, HighByte, RingReadS16;
    for k := 0 to output.Length / 2
      invariant output[..2 * k] == MixedBytes(sources, k)
    {
      var total := 0;
      for i := 0 to |sources|
        invariant total == Total(sources, i, k) && output[..2 * k] == MixedBytes(sources, k)
      {
        RingReadIs(sources[i], k);
        total := total + Scaled(RingReadS16(sources[i].ring, sources[i].readPos, 2 * k), sources[i].volume);
      }
      WriteSample(output, k, Clamp(total), MixedBytes(sources, k));
    }
    assert output[..] == output[..2 * (output.Length / 2)];
  }

  /** A cursor starts inside its ring, when there is room for a sample. */
  function CursorStart(s: Source): nat {
    if |s.ring| >= 2 && s.readPos >= |s.ring| then s.readPos % |s.ring| else s.readPos
  }

  /** Where the cursor of a source stands before sample k. */
  predicate CursorAt(s: Source, position: nat, k: nat) {
    |s.ring| >= 2 ==> position == (s.readPos + 2 * k) % |s.ring|
  }

  lemma CursorStarts(s: Source)
    ensures CursorAt(s, CursorStart(s), 0)
  {
    if |s.ring| >= 2 && s.readPos < |s.ring| { ModUnique(s.readPos, |s.ring|, 0, s.readPos); }
  }

  /** One sample through a cursor: two steps around the ring. */
  method CursorSample(s: Source, position: nat, ghost k: nat) returns (v: Sample, next: nat)
    requires CursorAt(s, position, k)
    ensures v == SampleAt(s, k) && CursorAt(s, next, k + 1)
  {
    if |s.ring| < 2 { return 0, position; }
    ModStep(s.readPos + 2 * k, |s.ring|);
    ModStep(s.readPos + 2 * k + 1, |s.ring|);
    var low := position;
    var high := if low + 1 == |s.ring| then 0 else low + 1;
    next := if high + 1 == |s.ring| then 0 else high + 1;
    v := ReadS16(s.ring[low], s.ring[high]);
  }

  /** Up to eight sources: cursors advance through the rings. */
  method MixCursors(sources: seq<Source>, output: array<Byte>)
    requires output.Length % 2 == 0
    modifies output
    ensures output[..] == MixedBytes(sources, output.Length / 2)
  {
    hide SampleAt, Scaled, TruncDiv, LowByte, HighByte, CursorAt;
    var cursors: seq<nat> := [];
    for i := 0 to |sources|
      invariant |cursors| == i && forall j :: 0 <= j < i ==> CursorAt(sources[j], cursors[j], 0)
    {
      CursorStarts(sources[i]);
      cursors := cursors + [CursorStart(sources[i])];
    }
    for k := 0 to output.Length / 2
      invariant output[..2 * k] == MixedBytes(sources, k)
      invariant |cursors| == |sources| && forall j :: 0 <= j < |sources| ==> CursorAt(sources[j], cursors[j], k)
    {
      var total := 0;
      for i := 0 to |sources|
        invariant total == Total(sources, i, k) && |cursors| == |sources| && output[..2 * k] == MixedBytes(sources, k)
        invariant forall j :: 0 <= j < i ==> CursorAt(sources[j], cursors[j], k + 1)
        invariant forall j :: i <= j < |sources| ==> CursorAt(sources[j], cursors[j], k)
      {
        var v, next := CursorSample(sources[i], cursors[i], k);
        cursors := cursors[i := next];
        total := total + Scaled(v, sources[i].volume);
      }
      WriteSample(output, k, Clamp(total), MixedBytes(sources, k));
    }
    assert output[..] == output[..2 * (output.Length / 2)];
  }

  /** The bytes a unit-gain source contributes, as they lie in its ring. */
  function RawBytes(s: Source, n: nat): (r: seq<Byte>)
    requires s.ring != [] || n == 0
    ensures |r| == n
  {
    seq(n, j requires 0 <= j < n => RingByte(s, j))
  }

  /** The span a single copy around the end of the ring can reach. */
  predicate Reaches(s: Source, n: nat) {
    s.readPos <= |s.ring| && n <= 2 * |s.ring| - s.readPos
  }

  /** One source at unit gain: its bytes are copied. */
  method MixDirect(s: Source, output: array<Byte>)
    requires Reaches(s, output.Length)
    modifies output
    ensures s.ring != [] || output.Length == 0
    ensures output[..] == RawBytes(s, output.Length)
  {
    var first := if output.Length < |s.ring| - s.readPos then output.Length else |s.ring| - s.readPos;
    for j := 0 to first
      invariant forall i :: 0 <= i < j ==> output[i] == s.ring[s.readPos + i]
    {
      output[j] := s.ring[s.readPos + j];
    }
    for j := first to output.Length
      invariant forall i :: 0 <= i < first ==> output[i] == s.ring[s.readPos + i]
      invariant forall i :: first <= i < j ==> output[i] == s.ring[i - first]
    {
      output[j] := s.ring[j - first];
    }
    forall j | 0 <= j < output.Length ensures output[j] == RingByte(s, j) {
      RawIndex(s, j);
    }
  }

  lemma RawIndex(s: Source, j: nat)
    requires s.ring != [] && s.readPos <= |s.ring| && j < 2 * |s.ring| - s.readPos
    ensures RingByte(s, j) == if s.readPos + j < |s.ring| then s.ring[s.readPos + j]
      else s.ring[s.readPos + j - |s.ring|]
  {
    var n := |s.ring|;
    if s.readPos + j < n {
      ModUnique(s.readPos + j, n, 0, s.readPos + j);
    } else {
      ModUnique(s.readPos + j, n, 1, s.readPos + j - n);
    }
  }

  lemma UnitScale(v: Sample)
    ensures Clamp(Scaled(v, UNIT)) == v
  {
  }

  lemma {:induction false} RawIsMixed(s: Source, n: nat)
    requires s.volume == UNIT && |s.ring| >= 2
    ensures RawBytes(s, 2 * n) == MixedBytes([s], n)
  {
    hide RingByte, LowByte, HighByte, ReadS16, Scaled;
    if n > 0 {
      RawIsMixed(s, n - 1);
      SingleTotal(s, n - 1);
      UnitScale(SampleAt(s, n - 1));
      ByteRoundTrip(RingByte(s, 2 * (n - 1)), RingByte(s, 2 * (n - 1) + 1));
      assert RawBytes(s, 2 * n) == RawBytes(s, 2 * (n - 1)) + [RingByte(s, 2 * n - 2), RingByte(s, 2 * n - 1)];
    }
  }

  lemma SingleTotal(s: Source, k: nat)
    ensures Total([s], 1, k) == Scaled(SampleAt(s, k), s.volume)
  {
    hide Scaled, SampleAt;
    assert Total([s], 0, k) == 0;
  }

  /** On a ring of one byte the copy repeats that byte, while a mix of it is silence. */
  lemma {:induction false} ShortIsSilent(s: Source, n: nat)
    requires |s.ring| < 2
    ensures forall j :: 0 <= j < 2 * n ==> MixedBytes([s], n)[j] == 0
  {
    if n > 0 {
      ShortIsSilent(s, n - 1);
      SingleTotal(s, n - 1);
      SilentScale(s.volume);
    }
  }

  lemma SilentScale(volume: nat)
    ensures Scaled(0, volume) == 0
  {
  }

  /** The unit-gain copy agrees with the mix exactly on rings that hold a sample, on an empty output,
      and on a single zero byte. */
  lemma DirectAgrees(s: Source, n: nat)
    requires s.volume == UNIT && Reaches(s, 2 * n) && (s.ring != [] || n == 0)
    ensures RawBytes(s, 2 * n) == MixedBytes([s], n) <==> n == 0 || |s.ring| >= 2 || s.ring[0] == 0
  {
    if |s.ring| >= 2 {
      RawIsMixed(s, n);
    } else if n > 0 {
      ShortIsSilent(s, n);
      forall j | 0 <= j < 2 * n ensures RawBytes(s, 2 * n)[j] == s.ring[0] {
        ModUnique(s.readPos + j, 1, s.readPos + j, 0);
      }
      assert s.ring[0] != 0 ==> RawBytes(s, 2 * n)[0] != MixedBytes([s], n)[0];
    }
  }

  /** The one case in which the paths differ. */
  predicate Repeats(sources: seq<Source>, n: nat) {
    |sources| == 1 && sources[0].volume == UNIT && n > 0 && |sources[0].ring| == 1 && sources[0].ring[0] != 0
  }

  /** One source at unit gain is copied. */
  predicate Copied(sources: seq<Source>) {
    |sources| == 1 && sources[0].volume == UNIT
  }

  /** The mixer: whichever path is taken, the output is the clamped sum of the scaled samples,
      unless a single non-zero byte is repeated.  Only the copy can end in half a sample. */
  method Mix(sources: seq<Source>, output: array<Byte>)
    requires if Copied(sources) then Reaches(sources[0], output.Length) else output.Length % 2 == 0
    modifies output
    ensures Copied(sources) ==>
      && (sources[0].ring != [] || output.Length == 0)
      && output[..] == RawBytes(sources[0], output.Length)
    ensures output.Length % 2 == 0 ==>
      (output[..] == MixedBytes(sources, output.Length / 2) <==> !Repeats(sources, output.Length / 2))
    ensures Repeats(sources, output.Length / 2) ==> forall j :: 0 <= j < output.Length ==>
      output[j] == sources[0].ring[0]
  {
    if Copied(sources) {
      MixDirect(sources[0], output);
      forall j | 0 <= j < output.Length && |sources[0].ring| == 1 ensures output[j] == sources[0].ring[0] {
        assert output[j] == output[..][j] == RingByte(sources[0], j);
      }
      if output.Length % 2 == 0 { DirectAgrees(sources[0], output.Length / 2); }
      assert sources == [sources[0]];
    } else if |sources| <= MAX_SOURCES {
      MixCursors(sources, output);
    } else {
      MixIndexed(sources, output);
    }
  }

  // ----- the byte ring of a stream

  /** How far cell j lies behind the write position. */
  function Behind(j: nat, w: nat, n: nat): nat
    requires j < n && w <= n
  {
    if j >= w then j - w else j - w + n
  }

  /** The ring after data was copied to the write position and around the end. */
  function Overwritten(cells: seq<Byte>, w: nat, data: seq<Byte>): (r: seq<Byte>)
    requires w < |cells| && |data| <= |cells|
    ensures |r| == |cells|
    ensures forall j :: 0 <= j < |r| ==>
      r[j] == if Behind(j, w, |cells|) < |data| then data[Behind(j, w, |cells|)] else cells[j]
  {
    seq(|cells|, j requires 0 <= j < |cells| =>
      if Behind(j, w, |cells|) < |data| then data[Behind(j, w, |cells|)] else cells[j])
  }

  /** Writing behind the used part appends to it. */
  lemma OverwriteAppends(cells: seq<Byte>, head: nat, used: nat, data: seq<Byte>)
    requires head < |cells| && used + |data| <= |cells| && data != []
    ensures Window(Overwritten(cells, Cell(head, used, |cells|), data), head, used + |data|) ==
      Window(cells, head, used) + data
  {
    hide Cell;
    var n, w := |cells|, Cell(head, used, |cells|);
    var after := Overwritten(cells, w, data);
    forall i | 0 <= i < used + |data|
      ensures Window(after, head, used + |data|)[i] == (Window(cells, head, used) + data)[i]
    {
      var j := Cell(head, i, n);
      assert i < used ==> Behind(j, w, n) == n - used + i;
      assert i >= used ==> Behind(j, w, n) == i - used;
    }
  }

  class ByteRing {
    const ring: array<Byte>
    var readPos: nat
    var writePos: nat
    var used: nat

    ghost predicate Valid()
      reads this
    {
      && used <= ring.Length
      && (ring.Length == 0 ==> readPos == 0 && writePos == 0)
      && (ring.Length > 0 ==> readPos < ring.Length && writePos == Cell(readPos, used, ring.Length))
    }

    /** The queued bytes, oldest first. */
    function Contents(): seq<Byte>
      requires Valid()
      reads this, ring
    {
      Window(ring[..], readPos, used)
    }

    constructor (capacity: nat)
      ensures Valid() && fresh(ring) && ring.Length == capacity && Contents() == []
    {
      ring := new Byte[capacity](_ => 0);
      readPos, writePos, used := 0, 0, 0;
    }

    /** Appends as much as fits. */
    method Write(data: seq<Byte>) returns (count: nat)
      requires Valid()
      modifies this`writePos, this`used, ring
      ensures Valid() && count == (if |data| < ring.Length - old(used) then |data| else ring.Length - old(used))
      ensures Contents() == old(Contents()) + data[..count]
    {
      if ring.Length == 0 || used >= ring.Length || |data| == 0 { return 0; }
      count := if |data| < ring.Length - used then |data| else ring.Length - used;
      ghost var cells := ring[..];
      OverwriteAppends(cells, readPos, used, data[..count]);
      Copy(data[..count]);
      NextPosition(readPos, used, count, ring.Length);
      writePos := Cell(writePos, count, ring.Length);
      used := used + count;
    }

    /** Copies data to the write position, and what does not fit there to the front. */
    method Copy(data: seq<Byte>)
      requires 0 < ring.Length && |data| <= ring.Length && writePos < ring.Length
      modifies ring
      ensures ring[..] == Overwritten(old(ring[..]), writePos, data)
    {
      var first := if |data| < ring.Length - writePos then |data| else ring.Length - writePos;
      for j := 0 to first
        invariant forall i :: 0 <= i < ring.Length ==>
          ring[i] == if writePos <= i < writePos + j then data[i - writePos] else old(ring[i])
      {
        ring[writePos + j] := data[j];
      }
      for j := 0 to |data| - first
        invariant forall i :: 0 <= i < ring.Length ==>
          ring[i] == if writePos <= i < writePos + first then data[i - writePos]
                     else if i < j then data[first + i] else old(ring[i])
      {
        ring[j] := data[first + j];
      }
    }

    /** Drops the oldest bytes. */
    method Consume(byteCount: nat)
      requires Valid()
      modifies this`readPos, this`used
      ensures Valid() && Contents() == old(Contents())[if byteCount < old(used) then byteCount else old(used)..]
    {
      if ring.Length == 0 || used == 0 { return; }
      var count := if byteCount < used then byteCount else used;
      Skips(ring[..], readPos, used, count);
      NextPosition(readPos, count, used - count, ring.Length);
      readPos := Cell(readPos, count, ring.Length);
      used := used - count;
    }
  }

  lemma NextPosition(head: nat, a: nat, b: nat, n: nat)
    requires head < n && a + b <= n
    ensures Cell(Cell(head, a, n), b, n) == Cell(head, a + b, n)
  {
    hide Cell;
  }
}
