/** The type of an address under a whole register map, and the comparison of two maps by sampling. */
module MtrrCompare {
  import opened Common
  import opened Bits
  import opened MemoryTypes

  datatype Map = Map(
    limit: nat, default: nat, enabled: bool, fixedEnabled: bool, fixed: seq<nat>, ranges: seq<Range>)

  predicate WellFormed(m: Map) {
    |m.fixed| == FIXED_SLOTS && |m.ranges| <= MAX_VARIABLE
  }

  predicate Covers(r: Range, address: nat) {
    r.start <= address < r.end
  }

  /** The kinds of all ranges that cover an address. */
  function Kinds(ranges: seq<Range>, address: nat): set<nat> {
    if ranges == [] then {}
    else
      var last := ranges[|ranges| - 1];
      Kinds(ranges[..|ranges| - 1], address) + (if Covers(last, address) then {last.kind} else {})
  }

  function FixedSlot(address: nat): (slot: nat)
    requires address < MEGABYTE
    ensures slot < FIXED_SLOTS
  {
    if address < 512 * 1024 then address / (64 * 1024)
    else if address < 768 * 1024 then 8 + (address - 512 * 1024) / (16 * 1024)
    else 24 + (address - 768 * 1024) / 4096
  }

  /** Where fixed slot `slot` begins; slot 88 is the end of the last one. */
  function FixedPoint(slot: nat): nat
    requires slot <= FIXED_SLOTS
  {
    if slot <= 8 then slot * 64 * 1024
    else if slot <= 24 then 512 * 1024 + (slot - 8) * 16 * 1024
    else 768 * 1024 + (slot - 24) * 4096
  }

  /** Overlapping ranges: uncached wins, write-through beats write-back, anything else is undefined. */
  ghost function Combine(kinds: set<nat>, default: nat): Option<nat> {
    if UC in kinds then Some(UC)
    else if kinds == {} then Some(default)
    else if |kinds| == 1 then (var k :| k in kinds; Some(k))
    else if kinds == {WB, WT} then Some(WT)
    else None
  }

  ghost function TypeAt(m: Map, address: nat): Option<nat>
    requires WellFormed(m)
  {
    if address >= m.limit then None
    else if !m.enabled then Some(UC)
    else if m.fixedEnabled && address < MEGABYTE then Some(m.fixed[FixedSlot(address)])
    else Combine(Kinds(m.ranges, address), m.default)
  }

  /** Both maps give every address below the limit of the first the same defined type. */
  ghost predicate Alike(m: Map, o: Map)
    requires WellFormed(m) && WellFormed(o)
  {
    && m.limit != 0 && m.limit <= o.limit
    && forall a: nat :: a < m.limit ==> Agree(m, o, a)
  }

  ghost predicate Agree(m: Map, o: Map, address: nat)
    requires WellFormed(m) && WellFormed(o)
  {
    TypeAt(m, address).Some? && TypeAt(m, address) == TypeAt(o, address)
  }

  lemma {:induction false} SingleKind(kinds: set<nat>, k: nat)
    requires |kinds| == 1 && k in kinds
    ensures kinds == {k}
  {
    assert |kinds - {k}| == 0;
  }

  // ----- types change only at sampled points

  /** No end point of a range in (p, a]. */
  ghost predicate RangeQuiet(ranges: seq<Range>, p: nat, a: nat) {
    forall i :: 0 <= i < |ranges| ==> !(p < ranges[i].start <= a) && !(p < ranges[i].end <= a)
  }

  ghost predicate FixedQuiet(p: nat, a: nat) {
    forall slot: nat :: slot <= FIXED_SLOTS ==> !(p < FixedPoint(slot) <= a)
  }

  lemma {:induction false} KindsConstant(ranges: seq<Range>, p: nat, a: nat)
    requires p <= a && RangeQuiet(ranges, p, a)
    ensures Kinds(ranges, p) == Kinds(ranges, a)
    decreases |ranges|
  {
    if ranges != [] {
      var init, last := ranges[..|ranges| - 1], ranges[|ranges| - 1];
      assert forall i :: 0 <= i < |init| ==> init[i] == ranges[i];
      KindsConstant(init, p, a);
      assert Covers(last, p) <==> Covers(last, a);
    }
  }

  /** A fixed slot ends where the next one begins. */
  lemma SlotBounds(p: nat)
    requires p < MEGABYTE
    ensures FixedPoint(FixedSlot(p)) <= p < FixedPoint(FixedSlot(p) + 1)
    ensures FixedPoint(FIXED_SLOTS) == MEGABYTE
  {
  }

  lemma SlotUnique(slot: nat, a: nat)
    requires slot < FIXED_SLOTS && FixedPoint(slot) <= a < FixedPoint(slot + 1)
    ensures a < MEGABYTE && FixedSlot(a) == slot
  {
  }

  lemma SlotConstant(p: nat, a: nat)
    requires p <= a && FixedQuiet(p, a) && p < MEGABYTE
    ensures a < MEGABYTE && FixedSlot(p) == FixedSlot(a)
  {
    SlotBounds(p);
    assert a < FixedPoint(FixedSlot(p) + 1);
    SlotUnique(FixedSlot(p), a);
  }

  ghost predicate Quiet(m: Map, p: nat, a: nat) {
    m.enabled ==> RangeQuiet(m.ranges, p, a) && (m.fixedEnabled ==> FixedQuiet(p, a))
  }

  /** Between two sampled points a map is constant. */
  lemma TypeConstant(m: Map, p: nat, a: nat)
    requires WellFormed(m) && p <= a < m.limit && Quiet(m, p, a)
    ensures TypeAt(m, p) == TypeAt(m, a)
  {
    if m.enabled {
      KindsConstant(m.ranges, p, a);
      if m.fixedEnabled && p < MEGABYTE { SlotConstant(p, a); }
    }
  }

  /** The point buffer holds 0 and every change of either map below the limit. */
  ghost predicate Sampled(points: seq<nat>, m: Map, limit: nat) {
    m.enabled ==>
      && (forall i :: 0 <= i < |m.ranges| ==>
           InPoints(points, m.ranges[i].start, limit) && InPoints(points, m.ranges[i].end, limit))
      && (m.fixedEnabled ==> forall slot: nat :: slot <= FIXED_SLOTS ==> InPoints(points, FixedPoint(slot), limit))
  }

  predicate InPoints(points: seq<nat>, x: nat, limit: nat) {
    x < limit ==> x in points
  }

  /** The last sampled point at or before an address. */
  lemma {:induction false} LastPoint(points: seq<nat>, a: nat, start: nat) returns (p: nat)
    requires start in points && start <= a
    ensures p in points && p <= a && forall q :: q in points && q <= a ==> q <= p
    decreases a - start
  {
    if exists q :: q in points && start < q <= a {
      var q :| q in points && start < q <= a;
      p := LastPoint(points, a, q);
    } else {
      p := start;
    }
  }

  lemma SampleQuiet(points: seq<nat>, m: Map, limit: nat, p: nat, a: nat)
    requires Sampled(points, m, limit) && p <= a < limit
    requires forall q :: q in points && q <= a ==> q <= p
    ensures Quiet(m, p, a)
  {
    if m.enabled {
      forall i | 0 <= i < |m.ranges| ensures !(p < m.ranges[i].start <= a) && !(p < m.ranges[i].end <= a) {
        assert InPoints(points, m.ranges[i].start, limit) && InPoints(points, m.ranges[i].end, limit);
      }
      if m.fixedEnabled {
        forall slot: nat | slot <= FIXED_SLOTS ensures !(p < FixedPoint(slot) <= a) {
          assert InPoints(points, FixedPoint(slot), limit);
        }
      }
    }
  }

  /** Agreement at the sampled points is agreement everywhere below the limit. */
  lemma SamplesSuffice(points: seq<nat>, m: Map, o: Map)
    requires WellFormed(m) && WellFormed(o) && 0 < m.limit <= o.limit && 0 in points
    requires Sampled(points, m, m.limit) && Sampled(points, o, m.limit)
    requires forall q :: q in points && q < m.limit ==> Agree(m, o, q)
    ensures Alike(m, o)
  {
    forall a: nat | a < m.limit ensures Agree(m, o, a) {
      var p := LastPoint(points, a, 0);
      SampleQuiet(points, m, m.limit, p, a);
      SampleQuiet(points, o, m.limit, p, a);
      TypeConstant(m, p, a);
      TypeConstant(o, p, a);
    }
  }

  // ----- the object

  const POINTS: nat := 1200

  class Mtrrs {
    var limit: nat
    var default: nat
    var enabled: bool
    var fixedEnabled: bool
    var fixed: seq<nat>
    const ranges: array<Range>
    var count: nat

    ghost predicate Valid()
      reads this
    {
      Word(limit) && |fixed| == FIXED_SLOTS && ranges.Length == MAX_VARIABLE && count <= MAX_VARIABLE
    }

    function Value(): Map
      requires Valid()
      reads this, ranges
    {
      Map(limit, default, enabled, fixedEnabled, fixed, ranges[..count])
    }

    constructor (limit: nat, default: nat, enabled: bool, fixedEnabled: bool, fixed: seq<nat>)
      requires Word(limit) && |fixed| == FIXED_SLOTS
      ensures Valid() && fresh(ranges) && Value() == Map(limit, default, enabled, fixedEnabled, fixed, [])
    {
      this.limit, this.default, this.enabled, this.fixedEnabled, this.fixed := limit, default, enabled, fixedEnabled,
          fixed;
      ranges := new Range[MAX_VARIABLE](_ => Range(0, 0, UC));
      count := 0;
    }

    /** Adds the range of a register pair; an inactive pair or a disabled map adds nothing. */
    method Append(base: nat, mask: nat) returns (ok: bool)
      requires Valid() && Word(base) && Word(mask)
      requires Active(mask) && enabled && count < MAX_VARIABLE ==> !AppendRange(limit, base, mask).Overflows?
      modifies this`count, ranges
      ensures Valid()
      ensures var m := old(Value());
        if !Active(mask) || !m.enabled then ok && Value() == m
        else if |m.ranges| == MAX_VARIABLE || !AppendRange(m.limit, base, mask).Added? then !ok && Value() == m
        else ok && Value() == m.(ranges := m.ranges + [AppendRange(m.limit, base, mask).range])
    {
      hide And, Pow2, IsPow2;
      if !Active(mask) || !enabled { return true; }
      var kind := base % 256;
      if !ValidType(kind) || kind == UC_MINUS || limit < 4096 || count == MAX_VARIABLE { return false; }
      MaskFits(limit, mask);
      var addressMask := And(limit - 1, Pow2(64) - 1 - 4095);
      var m := And(mask, addressMask);
      var bytes := And(Pow2(64) - 1 - m, addressMask) + 4096;
      var start := And(base, addressMask);
      if !IsPow2(bytes) || And(start, bytes - 1) != 0
         || m != And(addressMask, Pow2(64) - bytes) || start + bytes > limit
      {
        return false;
      }
      ranges[count] := Range(start, start + bytes, kind);
      count := count + 1;
      ok := true;
    }

    /** The type of one address. */
    method At(address: nat) returns (kind: Option<nat>)
      requires Valid()
      ensures kind == TypeAt(Value(), address)
    {
      if address >= limit { return None; }
      if !enabled { return Some(UC); }
      if fixedEnabled && address < MEGABYTE { return Some(fixed[FixedSlot(address)]); }
      var kinds: set<nat> := {};
      for i := 0 to count
        invariant kinds == Kinds(ranges[..i], address)
      {
        assert ranges[..i + 1][..i] == ranges[..i];
        if ranges[i].start <= address < ranges[i].end { kinds := kinds + {ranges[i].kind}; }
      }
      if UC in kinds { return Some(UC); }
      if kinds == {} { return Some(default); }
      if |kinds| == 1 {
        var k :| k in kinds;
        SingleKind(kinds, k);
        return Some(k);
      }
      if kinds == {WB, WT} { return Some(WT); }
      return None;
    }

    /** Writes the change points of this map below `bound` into the buffer. */
    method Sample(points: array<nat>, from: nat, bound: nat) returns (n: nat)
      requires Valid() && points.Length == POINTS && from + 2 * MAX_VARIABLE + FIXED_SLOTS + 1 <= POINTS
      modifies points
      ensures from <= n <= from + 2 * MAX_VARIABLE + FIXED_SLOTS + 1
      ensures points[..from] == old(points[..from])
      ensures Sampled(points[..n], Value(), bound)
    {
      n := from;
      if !enabled { return; }
      n := SampleRanges(points, from, bound);
      if fixedEnabled {
        ghost var before := points[..n];
        ghost var k := n;
        n := SampleFixed(points, n, bound);
        assert points[..k] == before;
        forall x: nat | InPoints(before, x, bound) ensures InPoints(points[..n], x, bound) {
          assert x < bound ==> x in points[..n][..k];
        }
      }
    }

    method SampleRanges(points: array<nat>, from: nat, bound: nat) returns (n: nat)
      requires Valid() && points.Length == POINTS && from + 2 * MAX_VARIABLE <= POINTS
      modifies points
      ensures from <= n <= from + 2 * MAX_VARIABLE
      ensures points[..from] == old(points[..from])
      ensures forall i :: 0 <= i < count ==>
        InPoints(points[..n], ranges[i].start, bound) && InPoints(points[..n], ranges[i].end, bound)
    {
      n := from;
      for i := 0 to count
        invariant from <= n <= from + 2 * i
        invariant points[..from] == old(points[..from])
        invariant forall j :: 0 <= j < i ==>
          InPoints(points[..n], ranges[j].start, bound) && InPoints(points[..n], ranges[j].end, bound)
      {
        n := Put(points, n, ranges[i].start, bound);
        n := Put(points, n, ranges[i].end, bound);
      }
    }

    method SampleFixed(points: array<nat>, from: nat, bound: nat) returns (n: nat)
      requires points.Length == POINTS && from + FIXED_SLOTS + 1 <= POINTS
      modifies points
      ensures from <= n <= from + FIXED_SLOTS + 1
      ensures points[..from] == old(points[..from])
      ensures forall slot: nat :: slot <= FIXED_SLOTS ==> InPoints(points[..n], FixedPoint(slot), bound)
    {
      n := from;
      for slot := 0 to FIXED_SLOTS + 1
        invariant from <= n <= from + slot
        invariant points[..from] == old(points[..from])
        invariant forall j: nat :: j < slot ==> InPoints(points[..n], FixedPoint(j), bound)
      {
        n := Put(points, n, FixedPoint(slot), bound);
      }
    }

    /** Adds one point below the bound. */
    method Put(points: array<nat>, at: nat, point: nat, bound: nat) returns (n: nat)
      requires at < points.Length
      modifies points
      ensures n == if point < bound then at + 1 else at
      ensures points[..at] == old(points[..at])
      ensures InPoints(points[..n], point, bound)
      ensures forall x: nat :: InPoints(old(points[..at]), x, bound) ==> InPoints(points[..n], x, bound)
    {
      n := at;
      if point < bound {
        points[at] := point;
        n := at + 1;
        assert points[..n] == points[..at] + [point];
      }
    }

    /** Sampling decides: true exactly when both maps give every address below this limit the same
        defined type. */
    method Equivalent(other: Mtrrs) returns (same: bool)
      requires Valid() && other.Valid()
      ensures same <==> Alike(Value(), other.Value())
    {
      if limit == 0 || other.limit < limit { return false; }
      var points := new nat[POINTS](_ => 0);
      points[1] := limit;
      var n := Sample(points, 2, limit);
      ghost var k, first := n, points[..n];
      n := other.Sample(points, n, limit);
      assert points[..k] == first;
      ghost var all := points[..n];
      assert Sampled(all, Value(), limit) by {
        forall x: nat | InPoints(first, x, limit) ensures InPoints(all, x, limit) {
          assert x < limit ==> x in all[..k];
        }
      }
      assert 0 in all by { assert all[0] == first[0] == 0; }
      same := CheckAll(other, points, n);
      if same {
        SamplesSuffice(all, Value(), other.Value());
      }
    }

    /** Compares the two maps at every sampled point below the limit. */
    method CheckAll(other: Mtrrs, points: array<nat>, n: nat) returns (same: bool)
      requires Valid() && other.Valid() && n <= points.Length && limit <= other.limit
      ensures same <==> forall q :: q in points[..n] && q < limit ==> Agree(Value(), other.Value(), q)
      ensures !same ==> exists q: nat :: q < limit && !Agree(Value(), other.Value(), q)
    {
      for i := 0 to n
        invariant forall q :: q in points[..i] && q < limit ==> Agree(Value(), other.Value(), q)
      {
        if points[i] < limit {
          var a := At(points[i]);
          var b := other.At(points[i]);
          if a == None || a != b {
            assert points[i] in points[..n] && !Agree(Value(), other.Value(), points[i]);
            return false;
          }
        }
      }
      return true;
    }
  }
}
