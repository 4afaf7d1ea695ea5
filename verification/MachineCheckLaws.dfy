/** Which registers a bank scan touches, bit by bit. */
module MachineCheckLaws {
  import opened Common
  import opened Bits
  import opened MachineCheckCapture

  /** Bit n of a register. */
  predicate Bit(value: nat, n: nat) {
    value / Pow2(n) % 2 == 1
  }

  lemma StatusBits()
    ensures VAL == Pow2(63) && MISCV == Pow2(59) && ADDRV == Pow2(58) && SYNDV == Pow2(53) && Pow2(0) == 1
  {
    assert Pow2(8) == 256;
    assert Pow2(16) == 65536;
    assert Pow2(32) == 0x1_0000_0000 by { assert Pow2(24) == 0x100_0000; }
    assert Pow2(40) == 0x100_0000_0000;
    assert Pow2(48) == 0x1_0000_0000_0000;
    assert Pow2(53) == 0x20_0000_0000_0000;
    assert Pow2(58) == 0x400_0000_0000_0000;
  }

  /** The configuration of a scalable bank says that it has an identity register. */
  predicate Scalable(b: Bank) {
    b.smca && b.config.Some? && Bit(b.config.value, 0)
  }

  ghost predicate Rising(s: seq<nat>) {
    forall i, j :: 0 <= i < j < |s| ==> s[i] < s[j]
  }

  /** The parts of a valid row's registers, in their order. */
  lemma ValidRegisters(b: Bank) returns (plain: seq<nat>, extended: seq<nat>)
    requires b.valid && b.status.Some?
    ensures Registers(b) == [b.base + 1] + plain + extended + [b.base + 1]
    ensures plain == PlainRegisters(b.base, b.status.value)
    ensures extended == if b.smca then ExtendedRegisters(b.base, b.status.value, b.config) else []
  {
    plain := PlainRegisters(b.base, b.status.value);
    extended := if b.smca then ExtendedRegisters(b.base, b.status.value, b.config) else [];
  }

  lemma PlainBits(base: nat, status: nat)
    ensures var p := PlainRegisters(base, status);
      && (base + 2 in p <==> Bit(status, 58)) && (base + 3 in p <==> Bit(status, 59))
      && (forall r :: r in p ==> base + 2 <= r <= base + 3)
      && Rising(p)
  {
    StatusBits();
    hide Pow2;
  }

  lemma ExtendedBits(base: nat, status: nat, config: Option<nat>)
    ensures var x := ExtendedRegisters(base, status, config);
      && base + 4 in x && (base + 5 in x <==> config.Some? && Bit(config.value, 0))
      && (base + 6 in x <==> config.Some? && Bit(config.value, 0) && Bit(status, 53))
      && (forall r :: r in x ==> base + 4 <= r <= base + 6)
      && Rising(x)
  {
    StatusBits();
    hide Pow2;
  }

  lemma Joined(first: nat, plain: seq<nat>, extended: seq<nat>, r: nat)
    ensures r in [first] + plain + extended + [first] <==> r == first || r in plain || r in extended
  {
  }

  lemma RisingJoined(a: seq<nat>, b: seq<nat>)
    requires Rising(a) && Rising(b) && forall x, y :: x in a && y in b ==> x < y
    ensures Rising(a + b)
  {
    forall i, j | 0 <= i < j < |a + b| ensures (a + b)[i] < (a + b)[j] {
      if i < |a| <= j {
        assert a[i] in a && b[j - |a|] in b;
      }
    }
  }

  lemma ValidRising(first: nat, plain: seq<nat>, extended: seq<nat>)
    requires Rising(plain) && (forall r :: r in plain ==> first < r <= first + 2)
    requires Rising(extended) && (forall r :: r in extended ==> first + 3 <= r)
    ensures var rs := [first] + plain + extended + [first]; Rising(rs[..|rs| - 1])
  {
    RisingJoined([first], plain);
    RisingJoined([first] + plain, extended);
    var rs := [first] + plain + extended + [first];
    assert rs[..|rs| - 1] == [first] + plain + extended;
  }

  /** The status is read first and, when it is valid, last; every other register is read at most once, in
      rising order, and exactly when the status and the configuration name it. */
  lemma WhichRegisters(b: Bank)
    requires b.valid ==> b.status.Some?
    ensures var rs := Registers(b);
      && rs != [] && rs[0] == b.base + 1 && (b.valid ==> |rs| >= 2 && rs[|rs| - 1] == b.base + 1)
      && (b.base + 2 in rs <==> b.valid && Bit(b.status.value, 58))
      && (b.base + 3 in rs <==> b.valid && Bit(b.status.value, 59))
      && (b.base + 4 in rs <==> b.valid && b.smca)
      && (b.base + 5 in rs <==> b.valid && Scalable(b))
      && (b.base + 6 in rs <==> b.valid && Scalable(b) && Bit(b.status.value, 53))
      && Rising(rs[..|rs| - 1])
  {
    hide Bit, Rising, Registers, PlainRegisters, ExtendedRegisters;
    if b.valid {
      var plain, extended := ValidRegisters(b);
      PlainBits(b.base, b.status.value);
      if b.smca {
        ExtendedBits(b.base, b.status.value, b.config);
      } else {
        EmptyRises();
      }
      ValidRising(b.base + 1, plain, extended);
      for k := 2 to 7
        invariant forall r :: b.base + 2 <= r < b.base + k ==>
          (r in Registers(b) <==> r in plain || r in extended)
      {
        Joined(b.base + 1, plain, extended, b.base + k);
      }
    } else {
      InvalidRegisters(b);
    }
  }

  lemma InvalidRegisters(b: Bank)
    requires !b.valid
    ensures Registers(b) == [b.base + 1] && Rising([])
  {
  }

  lemma EmptyRises()
    ensures Rising([])
  {
  }

  /** A row is valid exactly when bit 63 of its status is set. */
  lemma ValidBit(b: Bank, msr: Msr, at: nat)
    requires HeldAs(b, msr, at)
    ensures b.valid <==> b.status.Some? && Bit(b.status.value, 63)
  {
    StatusBits();
    hide Pow2;
  }

  /** No two banks share a register, and the last one ends inside its register window. */
  lemma BanksApart(profile: nat, i: nat, j: nat)
    requires i < j < LIMIT
    ensures RegisterBase(profile, i) + (if profile == 3 then 16 else 4) <= RegisterBase(profile, j)
    ensures profile != 3 ==> 0x400 <= RegisterBase(profile, i) && RegisterBase(profile, j) + 4 <= 0x500
    ensures profile == 3 ==> 0xc000_2000 <= RegisterBase(profile, i) && RegisterBase(profile, j) + 16 <= 0xc000_2400
    ensures Window(2) == 32 && (profile != 2 ==> Window(profile) == LIMIT)
  {
  }
}
