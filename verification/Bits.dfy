/** Bitwise operations on unbounded natural numbers, and their arithmetic. */
module Bits {

  function And(x: nat, y: nat): nat {
    if x == 0 || y == 0 then 0 else (x % 2) * (y % 2) + 2 * And(x / 2, y / 2)
  }

  function Pow2(n: nat): (r: nat)
    ensures r > 0
  {
    if n == 0 then 1 else 2 * Pow2(n - 1)
  }

  predicate IsPow2(x: nat) {
    x == 1 || (x > 1 && x % 2 == 0 && IsPow2(x / 2))
  }

  lemma {:induction false} Pow2Is(n: nat)
    ensures IsPow2(Pow2(n))
  {
    if n > 0 { Pow2Is(n - 1); }
  }

  lemma {:induction false} IsPow2Exponent(x: nat) returns (n: nat)
    requires IsPow2(x)
    ensures x == Pow2(n)
  {
    if x == 1 {
      n := 0;
    } else {
      n := IsPow2Exponent(x / 2);
      n := n + 1;
    }
  }

  lemma {:induction false} Pow2Grows(m: nat, n: nat)
    requires m <= n
    ensures Pow2(n) % Pow2(m) == 0 && Pow2(m) <= Pow2(n)
    decreases n
  {
    if m > 0 {
      Pow2Grows(m - 1, n - 1);
      ModDouble(Pow2(n - 1), Pow2(m - 1));
    } else if n > 0 {
      Pow2Grows(0, n - 1);
    }
  }

  lemma ModDouble(x: nat, d: nat)
    requires d > 0
    ensures (2 * x) % (2 * d) == 2 * (x % d) && (2 * x + 1) % (2 * d) == 2 * (x % d) + 1
  {
    var q, r := x / d, x % d;
    assert x == q * d + r;
    ModUnique(2 * x, 2 * d, q, 2 * r);
    ModUnique(2 * x + 1, 2 * d, q, 2 * r + 1);
  }

  lemma MulCancel(x: int, y: int, d: nat)
    requires d > 0 && x * d < y * d
    ensures x < y
  {
    assert (y - x) * d > 0;
  }

  lemma ModUnique(a: nat, d: nat, q: int, r: nat)
    requires d > 0 && r < d && a == q * d + r
    ensures a / d == q && a % d == r
  {
    assert a / d * d <= a < (a / d + 1) * d;
    assert (q + 1) * d == q * d + d;
    MulCancel(q, a / d + 1, d);
    MulCancel(a / d, q + 1, d);
  }

  lemma AndZero(y: nat)
    ensures And(0, y) == 0
  {
  }

  lemma AndNothing(x: nat)
    ensures And(x, 0) == 0
  {
  }

  lemma AndStep(x: nat, y: nat)
    ensures And(x, y) == (x % 2) * (y % 2) + 2 * And(x / 2, y / 2)
  {
  }

  lemma AndStepBit(x: nat, y: nat)
    ensures y % 2 == 1 ==> And(x, y) == x % 2 + 2 * And(x / 2, y / 2)
    ensures y % 2 == 0 ==> And(x, y) == 2 * And(x / 2, y / 2)
  {
    AndStep(x, y);
  }

  lemma ModHalf(x: nat, d: nat)
    requires d > 0
    ensures x % (2 * d) == 2 * (x / 2 % d) + x % 2
  {
    ModDouble(x / 2, d);
  }

  /** Masking with ones keeps the low bits. */
  lemma {:induction false} AndLow(x: nat, n: nat)
    ensures And(x, Pow2(n) - 1) == x % Pow2(n)
  {
    hide And;
    AndNothing(x);
    if n > 0 {
      var p := Pow2(n - 1);
      assert Pow2(n) == 2 * p;
      AndLow(x / 2, n - 1);
      AndStepBit(x, 2 * p - 1);
      assert (2 * p - 1) / 2 == p - 1 && (2 * p - 1) % 2 == 1;
      ModHalf(x, p);
    }
  }

  /** Masking with the ones from bit n to bit b - 1 keeps what is between. */
  lemma {:induction false} AndHigh(x: nat, n: nat, b: nat)
    requires n <= b
    ensures Pow2(n) <= Pow2(b) && And(x, Pow2(b) - Pow2(n)) == x % Pow2(b) - x % Pow2(n)
    decreases b
  {
    Pow2Grows(n, b);
    if n == 0 {
      AndLow(x, b);
    } else {
      var p, q := Pow2(b - 1), Pow2(n - 1);
      assert Pow2(b) == 2 * p && Pow2(n) == 2 * q;
      AndHigh(x / 2, n - 1, b - 1);
      AndStepBit(x, 2 * p - 2 * q);
      assert (2 * p - 2 * q) / 2 == p - q && (2 * p - 2 * q) % 2 == 0;
      ModHalf(x, p);
      ModHalf(x, q);
    }
  }

  /** A word and its complement share the bits of a mask between them. */
  lemma {:induction false} AndComplement(x: nat, y: nat, n: nat)
    requires x < Pow2(n) && y < Pow2(n)
    ensures And(x, y) + And(Pow2(n) - 1 - x, y) == y
    ensures And(x, y) <= y
  {
    var z := Pow2(n) - 1 - x;
    AndStep(x, y);
    AndStep(z, y);
    if n > 0 {
      AndComplement(x / 2, y / 2, n - 1);
      assert z / 2 == Pow2(n - 1) - 1 - x / 2 && z % 2 == 1 - x % 2;
      Halves(x % 2, z % 2, y % 2);
    }
  }

  lemma Halves(a: nat, b: nat, y: nat)
    requires a < 2 && b == 1 - a && y < 2
    ensures a * y + b * y == y && a * y <= y
  {
  }

  /** A mask that is not all ones below its top bit misses a bit that another number has. */
  lemma {:induction false} MissingBit(p: nat) returns (w: nat)
    requires p > 0 && !IsPow2(p + 1)
    ensures 0 < w <= p && And(w, p) == 0
  {
    if p % 2 == 0 {
      w := 1;
      AndStep(1, p);
      assert And(0, p / 2) == 0;
    } else {
      w := MissingBit(p / 2);
      AndStep(2 * w, p);
      w := 2 * w;
    }
  }

  lemma AndDouble(a: nat, b: nat)
    ensures And(2 * a, 2 * b) == 2 * And(a, b)
  {
    AndStepBit(2 * a, 2 * b);
  }

  lemma {:induction false} AndShift(x: nat, y: nat, n: nat)
    ensures And(x * Pow2(n), y * Pow2(n)) == And(x, y) * Pow2(n)
  {
    hide And;
    if n > 0 {
      var p := Pow2(n - 1);
      AndShift(x, y, n - 1);
      AndDouble(x * p, y * p);
      MulTwo(x, p);
      MulTwo(y, p);
      MulTwo(And(x, y), p);
    }
  }

  lemma {:induction false} ScaleIsPow2(p: nat, n: nat)
    requires IsPow2(p)
    ensures IsPow2(p * Pow2(n))
  {
    if n > 0 {
      ScaleIsPow2(p, n - 1);
      MulTwo(p, Pow2(n - 1));
      assert IsPow2(2 * (p * Pow2(n - 1)));
    }
  }

  lemma MulTwo(x: nat, p: nat)
    ensures x * (2 * p) == 2 * (x * p)
  {
  }
}
