/** Memory type range registers: which addresses a register pair covers, which type an address
    has, and when two processors describe memory alike. */
module MemoryTypes {
  import opened Bits

  const UC: nat := 0
  const WC: nat := 1
  const WT: nat := 4
  const WP: nat := 5
  const WB: nat := 6
  const UC_MINUS: nat := 7
  const MAX_VARIABLE: nat := 255
  const FIXED_SLOTS: nat := 88
  const MEGABYTE: nat := 1024 * 1024

  predicate ValidType(kind: nat) {
    kind == UC || kind == WC || kind == WT || kind == WP || kind == WB || kind == UC_MINUS
  }

  datatype Range = Range(start: nat, end: nat, kind: nat)

  // ----- one variable register pair

  /** What becomes of a register pair; a sum beyond 64 bits stops the kernel. */
  datatype Appended = Refused | Added(range: Range) | Overflows

  /** The page bits of an address below the limit. */
  function AddressMask(limit: nat): nat
    requires limit > 0
  {
    And(limit - 1, Pow2(64) - 1 - 4095)
  }

  /** Bits of a register pair that take part in the comparison of an address. */
  function CompareMask(limit: nat, mask: nat): nat
    requires limit > 0
  {
    And(mask, AddressMask(limit))
  }

  function Bytes(limit: nat, mask: nat): nat
    requires limit > 0
    requires CompareMask(limit, mask) < Pow2(64)
  {
    And(Pow2(64) - 1 - CompareMask(limit, mask), AddressMask(limit)) + 4096
  }

  /** A 64-bit register. */
  predicate Word(x: nat) {
    x < Pow2(64)
  }

  predicate Active(mask: nat) {
    mask / 2048 % 2 == 1
  }

  /** The range of an active register pair of an enabled map with room left. */
  function AppendRange(limit: nat, base: nat, mask: nat): Appended
    requires Word(limit) && Word(base) && Word(mask)
  {
    var kind := base % 256;
    if !ValidType(kind) || kind == UC_MINUS || limit < 4096 then Refused
    else
      MaskFits(limit, mask);
      var m, bytes := CompareMask(limit, mask), Bytes(limit, mask);
      var start := And(base, AddressMask(limit));
      if bytes >= Pow2(64) then Overflows
      else if !IsPow2(bytes) || And(start, bytes - 1) != 0 ||
        m != And(AddressMask(limit), Pow2(64) - bytes) then Refused
      else if start + bytes >= Pow2(64) then Overflows
      else if start + bytes > limit then Refused
      else Added(Range(start, start + bytes, kind))
  }

  /** The address matches the register pair, bit by bit. */
  predicate Matches(limit: nat, base: nat, mask: nat, address: nat)
    requires limit > 0
  {
    And(address, CompareMask(limit, mask)) == And(base, CompareMask(limit, mask))
  }

  /** The page bits below the limit have no gap: so for every limit of the form 2^n. */
  predicate Gapless(limit: nat)
    requires limit > 0
  {
    IsPow2(AddressMask(limit) + 4096)
  }

  lemma PageBits()
    ensures Pow2(12) == 4096
  {
    assert Pow2(4) == 16;
    assert Pow2(8) == 256;
  }

  lemma AddressMaskIs(limit: nat)
    requires Word(limit) && limit > 0
    ensures AddressMask(limit) == limit - 1 - (limit - 1) % 4096
  {
    PageBits();
    hide And, Pow2;
    AndHigh(limit - 1, 12, 64);
    ModUnique(limit - 1, Pow2(64), 0, limit - 1);
  }

  lemma MaskFits(limit: nat, mask: nat)
    requires Word(limit) && Word(mask) && limit > 0
    ensures CompareMask(limit, mask) <= AddressMask(limit) < Pow2(64)
  {
    hide And, Pow2;
    AddressMaskIs(limit);
    AndComplement(mask, AddressMask(limit), 64);
  }

  lemma BytesIs(limit: nat, mask: nat)
    requires Word(limit) && Word(mask) && limit > 0
    ensures CompareMask(limit, mask) < Pow2(64)
    ensures Bytes(limit, mask) == AddressMask(limit) - And(CompareMask(limit, mask), AddressMask(limit)) + 4096
  {
    hide And, Pow2;
    MaskFits(limit, mask);
    AndComplement(CompareMask(limit, mask), AddressMask(limit), 64);
  }

  lemma {:induction false} AndTwice(x: nat, y: nat)
    ensures And(And(x, y), y) == And(x, y)
  {
    if x != 0 && y != 0 {
      AndTwice(x / 2, y / 2);
      var a := And(x, y);
      AndStepBit(x, y);
      AndStepBit(a, y);
      assert a / 2 == And(x / 2, y / 2);
      assert y % 2 == 1 ==> a % 2 == x % 2;
      assert y % 2 == 0 ==> a % 2 == 0;
    }
  }

  /** Soundness of one accepted range, in terms of exponents only. */
  lemma AlignedMatch(b: nat, n: nat, base: nat, address: nat)
    requires 12 <= n <= b && address < Pow2(b)
    requires (base % Pow2(b) - base % Pow2(12)) % Pow2(n) == 0 && base % Pow2(b) >= base % Pow2(12)
    ensures Pow2(n) <= Pow2(b)
    ensures var start, m := base % Pow2(b) - base % Pow2(12), Pow2(b) - Pow2(n);
      And(address, m) == And(base, m) <==> start <= address < start + Pow2(n)
  {
    var start := base % Pow2(b) - base % Pow2(12);
    AndHigh(address, n, b);
    AndHigh(base, n, b);
    ModUnique(address, Pow2(b), 0, address);
    Pow2Grows(12, n);
    Pow2Grows(n, b);
    SameResidue(base, Pow2(12), Pow2(n), Pow2(b));
    AlignedBlock(start, Pow2(n), address);
  }

  /** When the part of x above d is a multiple of e, the residues modulo d and e agree. */
  lemma SameResidue(x: nat, d: nat, e: nat, f: nat)
    requires 0 < d && 0 < e && 0 < f && e % d == 0 && f % e == 0 && d <= e
    requires x % f >= x % d && (x % f - x % d) % e == 0
    ensures x % d == x % e
  {
    var q := (x % f - x % d) / e;
    assert x % f == q * e + x % d;
    var k, c := x / f, f / e;
    assert x == k * f + x % f && f == c * e;
    assert k * f == (k * c) * e by { MulAssoc(k, c, e); }
    assert x == (k * c + q) * e + x % d;
    ModUnique(x, e, k * c + q, x % d);
  }

  lemma MulAssoc(a: nat, b: nat, c: nat)
    ensures a * (b * c) == (a * b) * c
  {
  }

  lemma AlignedBlock(start: nat, size: nat, address: nat)
    requires size > 0 && start % size == 0
    ensures address - address % size == start <==> start <= address < start + size
  {
    if start <= address < start + size {
      assert address == start / size * size + (address - start);
      ModUnique(address, size, start / size, address - start);
    }
  }

  /** What acceptance means with a gapless limit 2^b: the mask has all bits from n to b. */
  lemma AcceptedShape(limit: nat, base: nat, mask: nat) returns (b: nat, n: nat)
    requires Word(limit) && Word(base) && Word(mask) && limit > 0 && Gapless(limit)
    requires AppendRange(limit, base, mask).Added?
    ensures 12 <= n <= b && limit <= Pow2(b) && Pow2(n) <= Pow2(b) && AddressMask(limit) == Pow2(b) - 4096
    ensures CompareMask(limit, mask) == Pow2(b) - Pow2(n)
    ensures AppendRange(limit, base, mask).range ==
      Range(And(base, AddressMask(limit)), And(base, AddressMask(limit)) + Pow2(n), base % 256)
    ensures And(And(base, AddressMask(limit)), Pow2(n) - 1) == 0
  {
    PageBits();
    hide And, IsPow2, Pow2;
    var am, m := AddressMask(limit), CompareMask(limit, mask);
    AddressMaskIs(limit);
    MaskFits(limit, mask);
    BytesIs(limit, mask);
    AndTwice(mask, am);
    var bytes := Bytes(limit, mask);
    b := IsPow2Exponent(am + 4096);
    n := IsPow2Exponent(bytes);
    Ordered(12, n);
    Ordered(n, b);
  }

  /** With a gapless limit, an accepted range is exactly the set of matching addresses. */
  lemma AppendExact(limit: nat, base: nat, mask: nat, address: nat)
    requires Word(limit) && Word(base) && Word(mask) && address < limit && Gapless(limit)
    requires AppendRange(limit, base, mask).Added?
    ensures var r := AppendRange(limit, base, mask).range;
      r.start <= address < r.end <==> Matches(limit, base, mask, address)
  {
    PageBits();
    hide And, Pow2, IsPow2, AppendRange, Gapless, AddressMask, CompareMask;
    var b, n := AcceptedShape(limit, base, mask);
    AndHigh(base, 12, b);
    AndLow(And(base, AddressMask(limit)), n);
    AlignedMatch(b, n, base, address);
  }

  /** The pair describes the block of 2^n bytes at the page address of its base. */
  predicate BlockPair(limit: nat, base: nat, mask: nat, b: nat, n: nat)
    requires 0 < limit
  {
    var start := base % Pow2(b) - base % Pow2(12);
    && CompareMask(limit, mask) == Pow2(b) - Pow2(n) && 0 <= start && start % Pow2(n) == 0
    && start + Pow2(n) <= limit
  }

  lemma AcceptedBlock(limit: nat, base: nat, mask: nat, b: nat) returns (n: nat)
    requires Word(limit) && Word(base) && Word(mask) && 4096 <= limit && 12 <= b < 64
    requires AddressMask(limit) == Pow2(b) - 4096 && AppendRange(limit, base, mask).Added?
    ensures 12 <= n <= b && BlockPair(limit, base, mask, b, n)
    ensures ValidType(base % 256) && base % 256 != UC_MINUS
  {
    PageBits();
    hide And, IsPow2, Pow2;
    AddedFits(limit, base, mask);
    hide AppendRange, AddressMask, CompareMask, ValidType;
    Pow2Is(b);
    var c;
    c, n := AcceptedShape(limit, base, mask);
    SameExponent(b, c);
    AndHigh(base, 12, b);
    AndLow(And(base, AddressMask(limit)), n);
  }

  lemma AddedFits(limit: nat, base: nat, mask: nat)
    requires Word(limit) && Word(base) && Word(mask) && AppendRange(limit, base, mask).Added?
    ensures ValidType(base % 256) && base % 256 != UC_MINUS && AppendRange(limit, base, mask).range.end <= limit
  {
    hide And, IsPow2, Pow2, AddressMask, CompareMask, Bytes;
  }

  /** With a gapless limit 2^b, exactly the naturally aligned power-of-two blocks of pages are accepted:
      the mask has all address bits from n to b, and the base is a multiple of 2^n. */
  lemma AcceptedIff(limit: nat, base: nat, mask: nat, b: nat)
    requires Word(limit) && Word(base) && Word(mask) && 4096 <= limit && 12 <= b < 64
    requires AddressMask(limit) == Pow2(b) - 4096
    ensures AppendRange(limit, base, mask).Added? <==>
      && ValidType(base % 256) && base % 256 != UC_MINUS
      && exists n: nat :: 12 <= n <= b && BlockPair(limit, base, mask, b, n)
  {
    hide *;
    if AppendRange(limit, base, mask).Added? {
      var n := AcceptedBlock(limit, base, mask, b);
    }
    if n: nat :| ValidType(base % 256) && base % 256 != UC_MINUS && 12 <= n <= b && BlockPair(limit, base, mask, b, n) {
      BlockAccepted(limit, base, mask, b, n);
    }
  }

  lemma SameExponent(b: nat, c: nat)
    requires Pow2(b) == Pow2(c)
    ensures b == c
  {
    hide Pow2;
    Ordered(b, c);
    Ordered(c, b);
  }

  lemma BlockAccepted(limit: nat, base: nat, mask: nat, b: nat, n: nat)
    requires Word(limit) && Word(base) && Word(mask) && 4096 <= limit && 12 <= n <= b < 64
    requires AddressMask(limit) == Pow2(b) - 4096 && BlockPair(limit, base, mask, b, n)
    requires ValidType(base % 256) && base % 256 != UC_MINUS
    ensures AppendRange(limit, base, mask).Added?
  {
    PageBits();
    hide And, IsPow2, Pow2;
    var am, m := AddressMask(limit), CompareMask(limit, mask);
    MaskFits(limit, mask);
    BytesIs(limit, mask);
    AndTwice(mask, am);
    assert Bytes(limit, mask) == Pow2(n);
    Pow2Is(n);
    AndHigh(base, 12, b);
    AndLow(And(base, am), n);
    AndHigh(am, n, 64);
    hide AddressMask, CompareMask, Bytes;
    Pow2Grows(b, 63);
    Pow2Grows(n, b);
    Pow2Grows(12, n);
    PagesAbove(am, b, n);
  }

  lemma PagesAbove(am: nat, b: nat, n: nat)
    requires 12 <= n <= b < 64 && am == Pow2(b) - 4096
    ensures am % Pow2(64) - am % Pow2(n) == Pow2(b) - Pow2(n)
  {
    PageBits();
    hide Pow2;
    Pow2Grows(b, 64);
    Pow2Grows(n, b);
    Pow2Grows(12, n);
    ModUnique(am, Pow2(64), 0, am);
    var q := Pow2(b) / Pow2(n);
    assert Pow2(b) == q * Pow2(n) && (q - 1) * Pow2(n) == q * Pow2(n) - Pow2(n);
    ModUnique(am, Pow2(n), q - 1, Pow2(n) - 4096);
  }

  /** A multiple of d that is at most x is at most the last multiple of d up to x. */
  lemma LastMultiple(a: nat, x: nat, d: nat)
    requires d > 0 && a % d == 0 && a <= x
    ensures a <= x - x % d
  {
    var k, q := a / d, x / d;
    assert a == k * d && x == q * d + x % d;
    assert (q + 1) * d == q * d + d;
    MulCancel(k, q + 1, d);
    MulMonotone(k, q, d);
  }

  lemma MulMonotone(x: nat, y: nat, d: nat)
    requires x <= y
    ensures x * d <= y * d
  {
  }

  /** The sums fit for every register pair when the last page of the address space is not below the
      limit. */
  lemma NoOverflow(limit: nat, base: nat, mask: nat)
    requires Word(limit) && Word(base) && Word(mask) && limit <= Pow2(64) - 4096
    ensures !AppendRange(limit, base, mask).Overflows?
  {
    PageBits();
    hide And, IsPow2, Pow2;
    if limit >= 4096 {
      var am, m := AddressMask(limit), CompareMask(limit, mask);
      AddressMaskIs(limit);
      MaskFits(limit, mask);
      BytesIs(limit, mask);
      AndTwice(mask, am);
      var bytes, start := Bytes(limit, mask), And(base, am);
      assert bytes == am - m + 4096;
      LastMultiple(am, limit - 1, 4096);
      if IsPow2(bytes) && bytes < Pow2(64) && And(start, bytes - 1) == 0 && m == And(am, Pow2(64) - bytes) {
        var n := IsPow2Exponent(bytes);
        Exponent(n);
        AndHigh(am, n, 64);
        ModUnique(am, Pow2(64), 0, am);
        AndLow(start, n);
        AndComplement(base, am, 64);
        LastMultiple(start, am, bytes);
      }
    }
  }

  lemma Exponent(n: nat)
    requires Pow2(n) < Pow2(64)
    ensures n < 64
  {
    hide Pow2;
    if n >= 64 {
      Pow2Grows(64, n);
      assert false;
    }
  }

  /** So an active register pair that stops the kernel exists if and only if it is. */
  lemma OverflowIff(limit: nat)
    requires Word(limit)
    ensures (exists base: nat, mask: nat ::
        Word(base) && Word(mask) && Active(mask) && AppendRange(limit, base, mask).Overflows?)
      <==> limit > Pow2(64) - 4096
  {
    hide AppendRange, Pow2;
    if limit > Pow2(64) - 4096 {
      OverflowsThere(limit);
    } else {
      forall base: nat, mask: nat | Word(base) && Word(mask) ensures !AppendRange(limit, base, mask).Overflows? {
        NoOverflow(limit, base, mask);
      }
    }
  }

  /** An active register pair that compares no address bit, and so covers everything. */
  lemma OverflowsThere(limit: nat)
    requires Pow2(64) - 4096 < limit < Pow2(64)
    ensures Word(0) && Word(2048) && Active(2048) && AppendRange(limit, 0, 2048).Overflows?
  {
    PageBits();
    Pow2Grows(13, 64);
    Thirteen();
    hide And, IsPow2, Pow2, AddressMask, CompareMask, Bytes;
    EverythingCovered(limit);
  }

  lemma EverythingCovered(limit: nat)
    requires Pow2(64) - 4096 < limit < Pow2(64) && Word(2048)
    ensures CompareMask(limit, 2048) == 0 && Bytes(limit, 2048) == Pow2(64)
  {
    PageBits();
    hide And, Pow2, AddressMask;
    Pow2Grows(12, 64);
    LastPageMask(limit);
    AddressMaskIs(limit);
    BytesIs(limit, 2048);
    ActiveBitBelow(AddressMask(limit));
    AndZero(AddressMask(limit));
  }

  /** The active bit of a mask is not a page bit. */
  lemma ActiveBitBelow(pages: nat)
    requires pages % 4096 == 0
    ensures And(2048, pages) == 0
  {
    PageBits();
    hide And;
    assert Pow2(11) == 2048;
    AndShift(1, pages / 2048, 11);
    AndStepBit(1, pages / 2048);
    AndZero(pages / 2048 / 2);
  }

  lemma Thirteen()
    ensures Pow2(13) == 8192
  {
    PageBits();
  }

  lemma LastPageMask(limit: nat)
    requires Pow2(64) - 4096 < limit < Pow2(64)
    ensures limit - 1 - (limit - 1) % 4096 == Pow2(64) - 4096
  {
    PageBits();
    hide Pow2;
    Pow2Grows(12, 64);
    var p := Pow2(64) / 4096;
    assert Pow2(64) == p * 4096;
    ModUnique(limit - 1, 4096, p - 1, limit - 1 - (p - 1) * 4096);
  }

  lemma {:induction false} Ordered(m: nat, n: nat)
    requires Pow2(m) <= Pow2(n)
    ensures m <= n
  {
    if m > n {
      Pow2Grows(n + 1, m);
      assert false;
    }
  }

  lemma {:induction false} AndSelf(x: nat)
    ensures And(x, x) == x
  {
    if x > 0 {
      AndSelf(x / 2);
      AndStepBit(x, x);
    }
  }

  /** All bits of a register set: one page, compared on every page bit. */
  lemma OnePage(limit: nat)
    requires Word(limit) && limit >= 4096
    ensures CompareMask(limit, Pow2(64) - 1) == AddressMask(limit) < Pow2(64)
    ensures Bytes(limit, Pow2(64) - 1) == 4096
    ensures And(AddressMask(limit), Pow2(64) - 4096) == AddressMask(limit)
  {
    PageBits();
    hide And, Pow2;
    var am, ones := AddressMask(limit), Pow2(64) - 1;
    AddressMaskIs(limit);
    MaskFits(limit, ones);
    AndComplement(ones, am, 64);
    AndZero(am);
    AndSelf(am);
    BytesIs(limit, ones);
    AndHigh(am, 12, 64);
    ModUnique(am, Pow2(64), 0, am);
    hide AddressMask, Bytes;
  }

  lemma OnePageAdded(limit: nat)
    requires Word(limit) && limit >= 4096
    ensures AppendRange(limit, 0, Pow2(64) - 1) == Added(Range(0, 4096, UC))
  {
    PageBits();
    One();
    hide And, Pow2, IsPow2, Bytes, CompareMask, AddressMask;
    OnePage(limit);
    AndZero(AddressMask(limit));
    AndZero(4095);
    ScaleIsPow2(1, 12);
    Pow2Grows(12, 64);
  }

  lemma GapPage(limit: nat) returns (page: nat)
    requires Word(limit) && limit >= 4096 && !Gapless(limit)
    ensures 0 < page && page * 4096 <= AddressMask(limit) && And(page * 4096, AddressMask(limit)) == 0
  {
    hide And, Pow2, IsPow2, AddressMask;
    AddressMaskIs(limit);
    var p := WholePages(limit);
    if IsPow2(p + 1) {
      PagesGapless(p);
      assert false;
    }
    if p == 0 {
      One();
      assert false;
    }
    page := MissingBit(p);
    MulMonotone(page, p, 4096);
    PageBits();
    AndShift(page, p, 12);
  }

  lemma WholePages(limit: nat) returns (p: nat)
    requires Word(limit) && limit > 0
    ensures AddressMask(limit) == p * 4096
  {
    hide And, Pow2, AddressMask;
    AddressMaskIs(limit);
    p := (limit - 1) / 4096;
  }

  lemma PagesGapless(p: nat)
    requires IsPow2(p + 1)
    ensures IsPow2(p * 4096 + 4096)
  {
    hide IsPow2, Pow2;
    PageBits();
    ScaleIsPow2(p + 1, 12);
    assert (p + 1) * 4096 == p * 4096 + 4096;
  }

  lemma One()
    ensures IsPow2(1)
  {
  }

  lemma OnesActive()
    ensures Active(Pow2(64) - 1)
  {
    PageBits();
    hide Pow2;
    Pow2Grows(12, 64);
  }

  /** With a gap, a one-page register pair is accepted and matches an address outside its range. */
  lemma AppendInexact(limit: nat) returns (address: nat)
    requires Word(limit) && limit >= 4096 && !Gapless(limit)
    ensures Active(Pow2(64) - 1) && AppendRange(limit, 0, Pow2(64) - 1) == Added(Range(0, 4096, UC))
    ensures 4096 <= address < limit && Matches(limit, 0, Pow2(64) - 1, address)
  {
    OnesActive();
    hide Active, Pow2, IsPow2, AppendRange;
    OnePage(limit);
    OnePageAdded(limit);
    AddressMaskIs(limit);
    var page := GapPage(limit);
    assert And(0, AddressMask(limit)) == 0;
    address := page * 4096;
  }

  /** Accepted ranges are exact for every active register pair and address if and only if the limit is
      gapless. */
  lemma AppendExactIff(limit: nat)
    requires Word(limit) && limit >= 4096
    ensures Gapless(limit) <==>
      forall base: nat, mask: nat, address: nat ::
        Word(base) && Word(mask) && Active(mask) && address < limit && AppendRange(limit, base, mask).Added? ==>
          (AppendRange(limit, base, mask).range.start <= address < AppendRange(limit, base, mask).range.end
           <==> Matches(limit, base, mask, address))
  {
    if Gapless(limit) {
      forall base: nat, mask: nat, address: nat |
        Word(base) && Word(mask) && Active(mask) && address < limit && AppendRange(limit, base, mask).Added?
        ensures AppendRange(limit, base, mask).range.start <= address < AppendRange(limit, base, mask).range.end
          <==> Matches(limit, base, mask, address)
      {
        AppendExact(limit, base, mask, address);
      }
    } else {
      var address := AppendInexact(limit);
    }
  }

  /** The limits the kernel reads from the processor are gapless. */
  lemma CapturedGapless(bits: nat)
    requires 32 <= bits <= 52
    ensures Word(Pow2(bits)) && Gapless(Pow2(bits))
  {
    PageBits();
    Pow2Grows(bits, 63);
    AddressMaskIs(Pow2(bits));
    Pow2Grows(12, bits);
    LastPage(Pow2(bits));
    Pow2Is(bits);
  }

  lemma LastPage(x: nat)
    requires x > 0 && x % 4096 == 0
    ensures x - 1 - (x - 1) % 4096 == x - 4096
  {
  }
}
