/**
Python's `&` and `<<` on integers, where negative numbers have infinitely many sign bits: the one
bit and the two-bit field a mask singles out.
*/
module Bits {
  import opened Arithmetic

  function Pow2(n: nat): (p: int)
    ensures p >= 1
  {
    if n == 0 then 1 else 2 * Pow2(n - 1)
  }

  function Magnitude(x: int): nat {
    if x >= 0 then x else -x - 1
  }

  function And(x: int, y: int): int
    decreases Magnitude(x) + Magnitude(y)
  {
    if x == 0 || y == 0 then 0
    else if x == -1 then y
    else if y == -1 then x
    else x % 2 * (y % 2) + 2 * And(x / 2, y / 2)
  }

  predicate Bit(x: int, b: nat) {
    x / Pow2(b) % 2 == 1
  }

  // The two bits of x from position s on.
  function Pair(x: int, s: nat): int {
    x / Pow2(s) % 4
  }

  lemma AndHalves(x: int, y: int)
    ensures And(x, y) == x % 2 * (y % 2) + 2 * And(x / 2, y / 2)
  {
    if x == 0 || y == 0 {
    } else if x == -1 {
      assert And(x / 2, y / 2) == y / 2;
    } else if y == -1 {
      assert And(x / 2, y / 2) == x / 2;
    }
  }

  lemma QuotientOfHalf(x: int, n: nat)
    ensures x / 2 / Pow2(n) == x / Pow2(n + 1)
  {
    var p := Pow2(n);
    var h, q := x / 2, x / 2 / p;
    var r := h % p;
    assert h == q * p + r;
    assert x == 2 * h + x % 2;
    assert x == q * (2 * p) + (2 * r + x % 2);
    DivisionIsUnique(x, 2 * p, q, 2 * r + x % 2);
  }

  lemma DivisionIsUnique(x: int, d: int, q: int, r: int)
    requires d >= 1 && x == q * d + r && 0 <= r < d
    ensures x / d == q && x % d == r
  {
    assert x == x / d * d + x % d;
    assert (q - x / d) * d == x % d - r;
    NonzeroMultiple(d, q - x / d);
  }

  lemma AndEven(x: int, h: int)
    ensures And(x, 2 * h) == 2 * And(x / 2, h)
  {
    AndHalves(x, 2 * h);
  }

  lemma Doubled(v: int, p: int)
    ensures v * (2 * p) == 2 * (v * p)
  {}

  lemma BitOfHalf(x: int, b: nat)
    ensures Bit(x / 2, b) <==> Bit(x, b + 1)
  {
    QuotientOfHalf(x, b);
  }

  /** `x & y` has the bits that both have, for integers of either sign. */
  lemma {:induction false} AndIsBitwise(x: int, y: int, b: nat)
    ensures Bit(And(x, y), b) <==> Bit(x, b) && Bit(y, b)
    decreases b
  {
    AndHalves(x, y);
    if b == 0 {
      assert Pow2(0) == 1;
    } else {
      var a := And(x, y);
      assert a / 2 == And(x / 2, y / 2);
      AndIsBitwise(x / 2, y / 2, b - 1);
      BitOfHalf(a, b - 1);
      BitOfHalf(x, b - 1);
      BitOfHalf(y, b - 1);
    }
  }

  /** An integer is determined by its bits. */
  lemma {:induction false} BitsDetermine(x: int, y: int)
    requires forall b: nat :: Bit(x, b) <==> Bit(y, b)
    ensures x == y
    decreases Magnitude(x) + Magnitude(y)
  {
    assert Pow2(0) == 1;
    assert Bit(x, 0) <==> Bit(y, 0);
    if Magnitude(x) + Magnitude(y) > 0 {
      forall b: nat ensures Bit(x / 2, b) <==> Bit(y / 2, b) {
        BitOfHalf(x, b);
        BitOfHalf(y, b);
        assert Bit(x, b + 1) <==> Bit(y, b + 1);
      }
      BitsDetermine(x / 2, y / 2);
    }
  }

  lemma {:induction false} ZeroHasNoBits(b: nat)
    ensures !Bit(0, b)
  {
    DivisionIsUnique(0, Pow2(b), 0, 0);
  }

  /** `x & y == y` says that x has every bit of y, `x & y == 0` that it has none. */
  lemma MaskedComparisons(x: int, y: int)
    ensures And(x, y) == y <==> forall b: nat :: Bit(y, b) ==> Bit(x, b)
    ensures And(x, y) == 0 <==> forall b: nat :: Bit(y, b) ==> !Bit(x, b)
  {
    forall b: nat ensures (Bit(And(x, y), b) <==> Bit(x, b) && Bit(y, b)) && !Bit(0, b) {
      AndIsBitwise(x, y, b);
      ZeroHasNoBits(b);
    }
    if forall b: nat :: Bit(y, b) ==> Bit(x, b) { BitsDetermine(And(x, y), y); }
    if forall b: nat :: Bit(y, b) ==> !Bit(x, b) { BitsDetermine(And(x, y), 0); }
  }

  // Masking with one value shifted left by n.
  lemma {:induction false} AndShifted(x: int, v: int, n: nat)
    ensures And(x, v * Pow2(n)) == And(x / Pow2(n), v) * Pow2(n)
    decreases n
  {
    if n == 0 {
      assert Pow2(0) == 1;
    } else {
      var p := Pow2(n - 1);
      AndShifted(x / 2, v, n - 1);
      OneMoreShift(x, v, p, x / 2 / p);
      QuotientOfHalf(x, n - 1);
    }
  }

  lemma OneMoreShift(x: int, v: int, p: int, q: int)
    requires And(x / 2, v * p) == And(q, v) * p
    ensures And(x, v * (2 * p)) == And(q, v) * (2 * p)
  {
    AndEven(x, v * p);
    Doubled(v, p);
    Doubled(And(q, v), p);
  }

  lemma AndOne(x: int)
    ensures And(x, 1) == x % 2
  {
    AndHalves(x, 1);
    assert And(x / 2, 0) == 0;
  }

  lemma AndThree(x: int)
    ensures And(x, 3) == x % 4
  {
    AndHalves(x, 3);
    AndOne(x / 2);
  }

  /** `x & (1 << b)` singles out bit b. */
  lemma MaskOfOneBit(x: int, b: nat)
    ensures And(x, Pow2(b)) == if Bit(x, b) then Pow2(b) else 0
  {
    AndShifted(x, 1, b);
    AndOne(x / Pow2(b));
  }

  /** `x & (0b11 << s)` singles out two bits. */
  lemma MaskOfTwoBits(x: int, s: nat)
    ensures And(x, 3 * Pow2(s)) == Pair(x, s) * Pow2(s)
  {
    AndShifted(x, 3, s);
    AndThree(x / Pow2(s));
  }

  const WORD := 0x1_0000_0000

  lemma SmallPowers()
    ensures Pow2(16) == 0x1_0000 && Pow2(31) == 0x8000_0000 && Pow2(32) == WORD
  {
    assert Pow2(8) == 0x100;
    assert Pow2(16) == 0x1_0000;
    assert Pow2(24) == 0x100_0000;
    assert Pow2(31) == 0x8000_0000;
  }

  lemma {:induction false} Monotone(m: nat, n: nat)
    requires m <= n
    ensures Pow2(m) <= Pow2(n)
  {
    if m < n { Monotone(m, n - 1); }
  }

  lemma {:induction false} WordDivides(n: nat)
    requires n >= 32
    ensures Pow2(n) % WORD == 0
  {
    if n == 32 {
      SmallPowers();
    } else {
      WordDivides(n - 1);
      assert Pow2(n) == 2 * Pow2(n - 1);
    }
  }

  /** Masking with n ones keeps the remainder modulo 2^n, for integers of either sign. */
  lemma {:induction false} LowBits(x: int, n: nat)
    ensures And(x, Pow2(n) - 1) == x % Pow2(n)
    decreases n
  {
    if n == 0 {
    } else {
      var p := Pow2(n - 1);
      LowBits(x / 2, n - 1);
      AndHalves(x, 2 * p - 1);
      assert (2 * p - 1) / 2 == p - 1 && (2 * p - 1) % 2 == 1;
      RemainderOfHalf(x, p);
    }
  }

  lemma RemainderOfHalf(x: int, p: int)
    requires p >= 1
    ensures x % (2 * p) == x % 2 + 2 * (x / 2 % p)
  {
    var q, r := x / 2 / p, x / 2 % p;
    assert x / 2 == q * p + r;
    Doubled(q, p);
    DivisionIsUnique(x, 2 * p, q, 2 * r + x % 2);
  }

  /** A shifted value cut to 32 bits is itself while it fits, */
  lemma FitsAWord(v: int, n: nat)
    requires 0 <= v <= 3 && n <= if v <= 1 then 31 else 30
    ensures v * Pow2(n) % WORD == v * Pow2(n)
  {
    SmallPowers();
    Monotone(n, if v <= 1 then 31 else 30);
    assert Pow2(31) == 2 * Pow2(30);
    MulMono(v, if v <= 1 then 1 else 3, Pow2(n));
    MulMono(0, v, Pow2(n));
  }

  /** and nothing once it has been shifted by a word or more. */
  lemma ShiftedOut(v: int, n: nat)
    requires n >= 32
    ensures v * Pow2(n) % WORD == 0
  {
    WordDivides(n);
    var q := Pow2(n) / WORD;
    assert v * (q * WORD) == WORD * (v * q);
    ExactQuotient(v * Pow2(n), WORD, v * q);
  }
}
