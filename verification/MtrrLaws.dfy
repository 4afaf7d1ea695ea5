/** What the type of an address is, whatever the ranges: how overlaps resolve, that their order and
    repetition do not matter, and where the fixed slots lie. */
module MtrrLaws {
  import opened Common
  import opened MemoryTypes
  import opened MtrrCompare

  /** The variable ranges decide the type of this address. */
  predicate Variable(m: Map, address: nat) {
    m.enabled && address < m.limit && !(m.fixedEnabled && address < MEGABYTE)
  }

  ghost predicate Covered(m: Map, address: nat) {
    exists i :: 0 <= i < |m.ranges| && Covers(m.ranges[i], address)
  }

  lemma {:induction false} KindsAre(ranges: seq<Range>, address: nat, kind: nat)
    ensures kind in Kinds(ranges, address) <==>
      exists i :: 0 <= i < |ranges| && Covers(ranges[i], address) && ranges[i].kind == kind
    decreases |ranges|
  {
    if ranges != [] {
      var n := |ranges| - 1;
      KindsAre(ranges[..n], address, kind);
      if i :| 0 <= i < |ranges[..n]| && Covers(ranges[..n][i], address) && ranges[..n][i].kind == kind {
        assert ranges[i].kind == kind;
      }
      if i :| 0 <= i < |ranges| && Covers(ranges[i], address) && ranges[i].kind == kind {
        assert i < n ==> ranges[..n][i].kind == kind;
      }
    }
  }

  /** The type depends on the set of ranges only: not on their order, and not on repetition. */
  lemma OrderIrrelevant(m: Map, o: Map, address: nat)
    requires WellFormed(m) && WellFormed(o) && m == o.(ranges := m.ranges)
    requires forall r :: r in m.ranges <==> r in o.ranges
    ensures TypeAt(m, address) == TypeAt(o, address)
  {
    hide Combine, Kinds;
    assert Kinds(m.ranges, address) == Kinds(o.ranges, address) by {
      forall k: nat ensures k in Kinds(m.ranges, address) <==> k in Kinds(o.ranges, address) {
        SameKind(m.ranges, o.ranges, address, k);
        SameKind(o.ranges, m.ranges, address, k);
      }
    }
  }

  lemma SameKind(a: seq<Range>, b: seq<Range>, address: nat, kind: nat)
    requires forall r :: r in a ==> r in b
    ensures kind in Kinds(a, address) ==> kind in Kinds(b, address)
  {
    hide Kinds;
    KindsAre(a, address, kind);
    KindsAre(b, address, kind);
    if i :| 0 <= i < |a| && Covers(a[i], address) && a[i].kind == kind {
      assert a[i] in b;
    }
  }

  /** An address that no range covers has the default type. */
  lemma DefaultElsewhere(m: Map, address: nat)
    requires WellFormed(m) && Variable(m, address) && !Covered(m, address)
    ensures TypeAt(m, address) == Some(m.default)
  {
    forall k: nat ensures k !in Kinds(m.ranges, address) {
      KindsAre(m.ranges, address, k);
    }
    assert Kinds(m.ranges, address) == {};
  }

  /** When all ranges over an address have one kind, that is its type. */
  lemma OneKind(m: Map, address: nat, kind: nat)
    requires WellFormed(m) && Variable(m, address) && Covered(m, address)
    requires forall i :: 0 <= i < |m.ranges| && Covers(m.ranges[i], address) ==> m.ranges[i].kind == kind
    ensures TypeAt(m, address) == Some(kind)
  {
    forall k: nat ensures k in Kinds(m.ranges, address) <==> k == kind {
      KindsAre(m.ranges, address, k);
    }
    assert Kinds(m.ranges, address) == {kind};
  }

  /** Any uncached range over an address makes it uncached. */
  lemma UncachedWins(m: Map, address: nat, i: nat)
    requires WellFormed(m) && Variable(m, address)
    requires i < |m.ranges| && Covers(m.ranges[i], address) && m.ranges[i].kind == UC
    ensures TypeAt(m, address) == Some(UC)
  {
    KindsAre(m.ranges, address, UC);
  }

  /** Two ranges over an address, in either order: uncached wins, equal kinds agree, write-through
      restricts write-back, and any other pair is undefined. */
  lemma TwoRanges(m: Map, address: nat, a: Range, b: Range)
    requires WellFormed(m) && Variable(m, address) && m.ranges == [a, b]
    requires Covers(a, address) && Covers(b, address)
    ensures a.kind == UC || b.kind == UC ==> TypeAt(m, address) == Some(UC)
    ensures a.kind == b.kind ==> TypeAt(m, address) == Some(a.kind)
    ensures (a.kind == WB && b.kind == WT) || (a.kind == WT && b.kind == WB) ==> TypeAt(m, address) == Some(WT)
    ensures TypeAt(m, address) == None <==>
      a.kind != b.kind && a.kind != UC && b.kind != UC && {a.kind, b.kind} != {WB, WT}
  {
    PairKinds(a, b, address);
    hide Kinds;
    if a.kind == b.kind {
      assert {a.kind, b.kind} == {a.kind};
    } else {
      assert |{a.kind, b.kind}| == 2;
      assert {WT, WB} == {WB, WT};
    }
  }

  lemma PairKinds(a: Range, b: Range, address: nat)
    requires Covers(a, address) && Covers(b, address)
    ensures Kinds([a, b], address) == {a.kind, b.kind}
  {
    assert [a, b][..1] == [a] && [a][..0] == [];
    assert Kinds([a], address) == {a.kind};
  }

  /** One more range over a covered address never grants more: an uncached address stays uncached,
      and nothing but write-back is write-back afterwards. */
  lemma MoreRestricts(m: Map, r: Range, address: nat)
    requires WellFormed(m) && |m.ranges| < MAX_VARIABLE && Variable(m, address) && Covered(m, address)
    requires Covers(r, address)
    ensures var more := m.(ranges := m.ranges + [r]);
      && WellFormed(more)
      && (TypeAt(m, address) == Some(UC) ==> TypeAt(more, address) == Some(UC))
      && (TypeAt(more, address) == Some(WB) ==> TypeAt(m, address) == Some(WB))
      && (TypeAt(more, address).Some? ==> TypeAt(more, address).value in {UC, WT, r.kind})
  {
    var more := m.(ranges := m.ranges + [r]);
    var kinds := Kinds(m.ranges, address);
    assert more.ranges[..|m.ranges|] == m.ranges;
    assert Kinds(more.ranges, address) == kinds + {r.kind};
    var i :| 0 <= i < |m.ranges| && Covers(m.ranges[i], address);
    KindsAre(m.ranges, address, m.ranges[i].kind);
    hide Kinds;
    MoreCombines(kinds, m.default, r.kind);
  }

  lemma MoreCombines(kinds: set<nat>, default: nat, kind: nat)
    requires kinds != {}
    ensures Combine(kinds, default) == Some(UC) ==> Combine(kinds + {kind}, default) == Some(UC)
    ensures Combine(kinds + {kind}, default) == Some(WB) ==> Combine(kinds, default) == Some(WB)
    ensures Combine(kinds + {kind}, default).Some? ==> Combine(kinds + {kind}, default).value in {UC, WT, kind}
  {
    var more := kinds + {kind};
    if UC !in more && |more| == 1 {
      SingleKind(more, kind);
      assert kinds == {kind};
    }
    if UC !in kinds && |kinds| == 1 {
      var k :| k in kinds;
      SingleKind(kinds, k);
    }
  }

  /** The types a variable range may have: 0, 1, 4, 5 and 6 of the architecture. */
  lemma TypeCodes(kind: nat)
    ensures ValidType(kind) && kind != UC_MINUS <==> kind in {0, 1, 4, 5, 6}
    ensures UC == 0 && WT == 4 && WB == 6
  {
  }

  /** The fixed slots: eight of 64 KiB, sixteen of 16 KiB and sixty-four of 4 KiB, without a gap. */
  lemma SlotSizes(slot: nat)
    requires slot < FIXED_SLOTS
    ensures FixedPoint(0) == 0 && FixedPoint(FIXED_SLOTS) == 1024 * 1024
    ensures FixedPoint(slot + 1) - FixedPoint(slot) ==
      if slot < 8 then 64 * 1024 else if slot < 24 then 16 * 1024 else 4 * 1024
  {
  }

  /** Inside the fixed slots the variable ranges do not matter. */
  lemma FixedDecides(m: Map, slot: nat, address: nat)
    requires WellFormed(m) && m.enabled && m.fixedEnabled && slot < FIXED_SLOTS && address < m.limit
    requires FixedPoint(slot) <= address < FixedPoint(slot + 1)
    ensures TypeAt(m, address) == Some(m.fixed[slot])
  {
    SlotUnique(slot, address);
  }

  /** Without MTRRs everything below the limit is uncached, and nothing above it has a type. */
  lemma OutsideTypes(m: Map, address: nat)
    requires WellFormed(m)
    ensures TypeAt(m, address).None? <== address >= m.limit
    ensures !m.enabled && address < m.limit ==> TypeAt(m, address) == Some(UC)
  {
  }
}
