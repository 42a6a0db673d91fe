/** Nonlinear facts, over the integers and the reals, that the solvers' proofs are built from. */
module Arithmetic {
  lemma MulMono(a: int, b: int, c: int)
    requires a <= b && c >= 0
    ensures a * c <= b * c
  {
    assert (b - a) * c >= 0;
  }

  lemma MulStrict(a: int, b: int, c: int)
    requires a < b && c > 0
    ensures a * c < b * c
  {
    MulMono(a + 1, b, c);
    assert (a + 1) * c == a * c + c;
  }

  lemma Cancel(a: int, b: int, c: int)
    requires a * c <= b * c && c > 0
    ensures a <= b
  {
    if b < a { MulStrict(b, a, c); }
  }

  lemma CancelStrict(a: int, b: int, c: int)
    requires a * c < b * c && c > 0
    ensures a < b
  {
    if b <= a { MulMono(b, a, c); }
  }

  lemma NonzeroMultiple(d: int, k: int)
    requires d != 0
    ensures k == 0 || d * k >= (if d > 0 then d else -d) || d * k <= (if d > 0 then -d else d)
  {
    if k >= 1 {
      assert d * k == d + d * (k - 1);
      if d > 0 { assert d * (k - 1) >= 0; } else { assert d * (k - 1) <= 0; }
    } else if k <= -1 {
      assert d * k == -d + d * (k + 1);
      if d > 0 { assert d * (k + 1) <= 0; } else { assert d * (k + 1) >= 0; }
    }
  }

  lemma ExactQuotient(x: int, d: int, k: int)
    requires d != 0 && x == d * k
    ensures x % d == 0 && x / d == k
  {
    assert x == d * (x / d) + x % d;
    assert d * (k - x / d) == x % d;
    NonzeroMultiple(d, k - x / d);
  }

  // The ceiling of n / d, as Python writes it.
  function CeilDiv(n: int, d: int): int
    requires d > 0
  {
    -((-n) / d)
  }

  lemma CeilDivIsLeast(n: int, d: int)
    requires d >= 1
    ensures CeilDiv(n, d) * d >= n
    ensures forall p :: p * d >= n ==> CeilDiv(n, d) <= p
  {
    var c := CeilDiv(n, d);
    assert -n == d * ((-n) / d) + (-n) % d;
    assert c * d == n + (-n) % d;
    forall p | p * d >= n ensures c <= p {
      assert (c - 1) * d == c * d - d < n;
      if p <= c - 1 { MulMono(p, c - 1, d); }
    }
  }

  lemma CeilDivAtMost(n: int, d: int, p: int)
    requires d >= 1
    ensures CeilDiv(n, d) <= p <==> n <= p * d
  {
    CeilDivIsLeast(n, d);
    if CeilDiv(n, d) <= p { MulMono(CeilDiv(n, d), p, d); }
  }

  lemma AtMostFloor(n: int, d: int, p: int)
    requires d >= 1
    ensures p <= n / d <==> p * d <= n
  {
    assert n == n / d * d + n % d;
    if p <= n / d { MulMono(p, n / d, d); } else { MulMono(n / d + 1, p, d); }
  }

  // Euclid's algorithm.
  function Gcd(a: nat, b: nat): nat
    decreases b
  {
    if b == 0 then a else Gcd(b, a % b)
  }

  lemma CommonDivisor(a: int, b: int, q: int, r: int, g: int, x: int, y: int)
    requires g > 0 && a == b * q + r && b == g * x && r == g * y
    ensures a % g == 0
  {
    assert b * q == g * (x * q);
    assert a == g * (x * q + y);
    ExactQuotient(a, g, x * q + y);
  }

  lemma {:induction false} GcdDivides(a: nat, b: nat)
    requires a > 0
    ensures Gcd(a, b) > 0 && a % Gcd(a, b) == 0 && b % Gcd(a, b) == 0
    decreases b
  {
    if b == 0 {
      ExactQuotient(a, a, 1);
    } else {
      GcdDivides(b, a % b);
      var g := Gcd(a, b);
      CommonDivisor(a, b, a / b, a % b, g, b / g, a % b / g);
    }
  }

  lemma {:induction false} Bezout(a: nat, b: nat) returns (x: int, y: int)
    requires a > 0
    ensures a * x + b * y == Gcd(a, b)
    decreases b
  {
    if b == 0 {
      x, y := 1, 0;
    } else {
      var u, v := Bezout(b, a % b);
      x, y := v, u - a / b * v;
      var q := a / b;
      assert a % b == a - b * q;
      assert b * u + (a - b * q) * v == a * v + b * (u - q * v);
    }
  }

  lemma CancelEqual(a: int, b: int, c: int)
    requires a * c == b * c && c > 0
    ensures a == b
  {
    Cancel(a, b, c);
    Cancel(b, a, c);
  }

  lemma TimesCombination(m: int, n: int, a: int, b: int, x: int, y: int)
    requires b * m == a * n
    ensures a * (m * x + n * y) == m * (a * x + b * y)
    ensures b * (m * x + n * y) == n * (a * x + b * y)
  {
    assert a * (n * y) == (a * n) * y && m * (b * y) == (b * m) * y;
    assert b * (m * x) == (b * m) * x && n * (a * x) == (a * n) * x;
  }

  // The solutions of b * m == a * n are the common multiples of one pair.
  lemma CommonMultiplier(a: nat, b: nat, m: int, n: int) returns (k: int)
    requires a > 0 && b * m == a * n
    ensures Gcd(a, b) > 0 && m == a / Gcd(a, b) * k && n == b / Gcd(a, b) * k
  {
    var g := Gcd(a, b);
    GcdDivides(a, b);
    var x, y := Bezout(a, b);
    k := m * x + n * y;
    TimesCombination(m, n, a, b, x, y);
    Unscaled(a, g, k, m);
    Unscaled(b, g, k, n);
  }

  lemma Unscaled(a: int, g: int, k: int, m: int)
    requires g > 0 && a % g == 0 && a * k == m * g
    ensures m == a / g * k
  {
    assert a == a / g * g;
    assert (a / g * k) * g == (a / g * g) * k;
    CancelEqual(m, a / g * k, g);
  }

  lemma RealMulMono(a: real, b: real, c: real)
    requires a <= b && c >= 0.0
    ensures a * c <= b * c
  {
    assert (b - a) * c >= 0.0;
  }

  lemma RealMulStrict(a: real, b: real, c: real)
    requires a < b && c > 0.0
    ensures a * c < b * c
  {
    assert (b - a) * c > 0.0;
  }

  lemma RealCancel(a: real, b: real, c: real)
    requires a * c <= b * c && c > 0.0
    ensures a <= b
  {
    if b < a { RealMulStrict(b, a, c); }
  }

  lemma RealCancelStrict(a: real, b: real, c: real)
    requires a * c < b * c && c > 0.0
    ensures a < b
  {
    if b <= a { RealMulMono(b, a, c); }
  }

  lemma Quotient(x: real, y: real)
    requires y != 0.0
    ensures x / y * y == x
  {}

  lemma QuotientAtMost(x: real, y: real, q: real)
    requires y > 0.0
    ensures x <= q * y <==> x / y <= q
    ensures x < q * y <==> x / y < q
  {
    Quotient(x, y);
    if x <= q * y { RealCancel(x / y, q, y); } else { RealCancelStrict(q, x / y, y); }
    if x < q * y { RealCancelStrict(x / y, q, y); } else { RealCancel(q, x / y, y); }
  }
}
