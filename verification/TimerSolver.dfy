/**
The timer divider solver (timer_solver.py): PSC and ARR so that TIMxCLK / ((PSC+1)(ARR+1)) is the
wanted update frequency, exactly if some pair in range does it, else as near as the least
prescaler that can reach it allows, and when that is the nearest of all. Float quotients are exact
rationals here.
*/
module TimerSolver {
  import opened Arithmetic

  // A Python int, a float, or anything else (a bool included).
  datatype Target = IntHz(hz: int) | RealHz(rate: real) | NotANumber

  datatype Code = InvalidTimerClock | InvalidTarget | TargetTooFast | TargetTooSlow

  // `noted`: no exact factorisation within the bounds although the quotient is whole.
  datatype Result = Infeasible(code: Code) | Feasible(psc: nat, arr: nat, achieved: real, exact: bool, noted: bool)

  function Hz(t: Target): real {
    match t
    case IntHz(hz) => hz as real
    case RealHz(rate) => rate
    case NotANumber => 0.0
  }

  function Ceil(x: real): int {
    -((-x).Floor)
  }

  // Python's `round`: ties go to the even neighbour.
  function Round(x: real): int {
    var f := x.Floor;
    var rest := x - f as real;
    if rest < 0.5 || (rest == 0.5 && f % 2 == 0) then f else f + 1
  }

  function AbsReal(x: real): (r: real)
    ensures r >= 0.0
  {
    if x < 0.0 then -x else x
  }

  function Max(a: int, b: int): int {
    if a >= b then a else b
  }

  function Min(a: int, b: int): int {
    if a <= b then a else b
  }

  // (PSC+1) and (ARR+1) within the register widths.
  predicate InRange(p: int, a: int, pscMax: nat, arrMax: nat) {
    1 <= p <= pscMax + 1 && 1 <= a <= arrMax + 1
  }

  predicate ExactPair(clk: int, hz: int, p: int, a: int, pscMax: nat, arrMax: nat) {
    InRange(p, a, pscMax, arrMax) && p * a * hz == clk
  }

  function Achieved(clk: int, p: int, a: int): real
    requires p >= 1 && a >= 1
  {
    clk as real / (p * a) as real
  }

  function RelativeError(clk: int, target: real, p: int, a: int): real
    requires p >= 1 && a >= 1 && target > 0.0
  {
    AbsReal(Achieved(clk, p, a) - target) / target
  }

  // ---------------------------------------------------------------- the exact search

  lemma PairBounds(n: int, p: int, a: int, arr1Max: int)
    requires p >= 1 && 1 <= a <= arr1Max && p * a == n
    ensures Max(1, CeilDiv(n, arr1Max)) <= p <= n && n % p == 0
  {
    MulMono(a, arr1Max, p);
    CeilDivIsLeast(n, arr1Max);
    assert p * arr1Max >= n;
    MulMono(1, a, p);
    ExactQuotient(n, p, a);
  }

  lemma CofactorInRange(n: int, p: int, arr1Max: int)
    requires n >= 1 && arr1Max >= 1 && p >= 1 && p >= CeilDiv(n, arr1Max) && n % p == 0
    ensures 1 <= n / p <= arr1Max && p * (n / p) == n
  {
    CeilDivIsLeast(n, arr1Max);
    MulMono(CeilDiv(n, arr1Max), p, arr1Max);
    var a := n / p;
    assert n == p * a;
    assert a * p <= arr1Max * p;
    Cancel(a, arr1Max, p);
    assert 0 * p < a * p;
    Cancel(0, a, p);
  }

  // The least first factor of a pair in range with product n; 0 when there is none.
  method Factor(n: int, pscMax: nat, arrMax: nat) returns (psc1: int)
    requires n >= 1
    ensures psc1 >= 0
    ensures psc1 == 0 <==> forall p, a :: InRange(p, a, pscMax, arrMax) ==> p * a != n
    ensures psc1 > 0 ==> n % psc1 == 0 && InRange(psc1, n / psc1, pscMax, arrMax) && psc1 * (n / psc1) == n
    ensures psc1 > 0 ==> forall p, a :: InRange(p, a, pscMax, arrMax) && p * a == n ==> psc1 <= p
  {
    var lo := Max(1, CeilDiv(n, arrMax + 1));
    var hi := Min(pscMax + 1, n);
    psc1 := lo;
    forall p, a | InRange(p, a, pscMax, arrMax) && p * a == n ensures lo <= p <= hi && n % p == 0 {
      PairBounds(n, p, a, arrMax + 1);
    }
    while psc1 < hi + 1
      invariant lo <= psc1
      invariant forall k :: lo <= k < psc1 && k <= hi ==> n % k != 0
    {
      if n % psc1 == 0 {
        CofactorInRange(n, psc1, arrMax + 1);
        assert InRange(psc1, n / psc1, pscMax, arrMax);
        return;
      }
      psc1 := psc1 + 1;
    }
    psc1 := 0;
  }

  // ---------------------------------------------------------------- the fallback

  lemma CeilBounds(y: real)
    ensures Ceil(y) as real - 1.0 < y <= Ceil(y) as real
  {}

  // The chosen prescaler reaches the wanted divider x, and the next smaller one does not.
  lemma LeastReachingPrescaler(x: real, A: real, p: int)
    requires A >= 1.0 && p == Max(1, Ceil(x / A))
    ensures x <= p as real * A
    ensures p >= 2 ==> x > (p as real - 1.0) * A
  {
    CeilBounds(x / A);
    QuotientAtMost(x, A, p as real);
    QuotientAtMost(x, A, p as real - 1.0);
  }

  lemma PrescalerInRange(x: real, pscMax: nat, arr1Max: int)
    requires arr1Max >= 1 && x <= ((pscMax + 1) * arr1Max) as real
    ensures Max(1, Ceil(x / arr1Max as real)) <= pscMax + 1
  {
    assert ((pscMax + 1) * arr1Max) as real == (pscMax + 1) as real * arr1Max as real;
    QuotientAtMost(x, arr1Max as real, (pscMax + 1) as real);
    CeilBounds(x / arr1Max as real);
  }

  lemma RoundIsNearest(z: real, k: int)
    ensures AbsReal(z - Round(z) as real) <= 0.5
    ensures AbsReal(z - Round(z) as real) <= AbsReal(z - k as real)
  {
    var f := z.Floor;
    var rest := z - f as real;
    assert 0.0 <= rest < 1.0;
    assert k <= f ==> z - k as real >= rest;
    assert k >= f + 1 ==> k as real - z >= 1.0 - rest;
    if rest < 0.5 || (rest == 0.5 && f % 2 == 0) {
      assert AbsReal(z - Round(z) as real) == rest;
    } else {
      assert AbsReal(z - Round(z) as real) == 1.0 - rest;
    }
  }

  lemma RoundStaysBelow(z: real, k: int)
    requires z <= k as real
    ensures Round(z) <= k
  {
    RoundIsNearest(z, k);
    assert Round(z) > k ==> (Round(z) as real >= k as real + 1.0);
  }

  // A wanted divider above half of what the counter spans rounds to at least half of it.
  lemma RoundOfUpperHalf(z: real, arr1Max: int)
    requires arr1Max >= 1 && 2.0 * z > arr1Max as real
    ensures Round(z) >= 1 && 2 * Round(z) >= arr1Max
  {
    RoundIsNearest(z, 0);
    var a := Round(z);
    assert a as real >= z - 0.5;
    assert (2 * a) as real > arr1Max as real - 1.0;
  }

  lemma Distributes(a: real, b: real, c: real)
    ensures (a + b) * c == a * c + b * c
  {}

  lemma LessThanTwice(P: real, A: real, x: real)
    requires P >= 2.0 && A >= 0.0 && x > (P - 1.0) * A
    ensures P * A < 2.0 * x
  {
    Distributes(P, -1.0, A);
    RealMulMono(2.0, P, A);
    assert (-1.0) * A == -A && 2.0 * A == A + A;
  }

  // How the quotient left to the counter lies: x / p is within its span, and above half of it as
  // soon as the prescaler had to be raised.
  lemma QuotientForCounter(x: real, A: real, p: int)
    requires x >= 1.0 && A >= 1.0 && p == Max(1, Ceil(x / A))
    ensures var z := x / p as real;
            z <= A && (p == 1 ==> z >= 1.0) && (p >= 2 ==> 2.0 * z > A)
  {
    LeastReachingPrescaler(x, A, p);
    var P := p as real;
    QuotientAtMost(x, P, A);
    if p >= 2 {
      LessThanTwice(P, A, x);
      Quotient(x, P);
      var z := x / P;
      assert (2.0 * z) * P == 2.0 * (z * P);
      RealCancelStrict(A, 2.0 * z, P);
    }
  }

  // The period the fallback arrives at needs no clamping.
  lemma PeriodOf(x: real, arr1Max: int, p: int)
    requires x >= 1.0 && arr1Max >= 1 && p == Max(1, Ceil(x / arr1Max as real))
    ensures var a := Round(x / p as real);
            && 1 <= a <= arr1Max && a == Max(1, Min(a, arr1Max))
            && (p >= 2 ==> 2 * a >= arr1Max)
  {
    QuotientForCounter(x, arr1Max as real, p);
    var z := x / p as real;
    RoundStaysBelow(z, arr1Max);
    if p >= 2 {
      RoundOfUpperHalf(z, arr1Max);
    } else {
      RoundIsNearest(z, 1);
    }
  }

  lemma AbsQuotient(u: real, v: real, e: real)
    requires v > 0.0 && u == e * v
    ensures AbsReal(u) / v == AbsReal(e)
  {
    if e >= 0.0 {
      RealMulMono(0.0, e, v);
      assert u / v == e;
    } else {
      RealMulStrict(e, 0.0, v);
      assert AbsReal(u) == (-e) * v;
      assert AbsReal(u) / v == -e;
    }
  }

  lemma ErrorOfPair(clk: int, target: real, p: int, a: int)
    requires target > 0.0 && p >= 1 && a >= 1
    ensures RelativeError(clk, target, p, a) == AbsReal(clk as real / target / p as real - a as real) / a as real
  {
    var c, P, A := clk as real, p as real, a as real;
    var z := c / target / P;
    assert z * P * target == c by { Quotient(c / target, P); Quotient(c, target); }
    assert (p * a) as real == P * A;
    var f := Achieved(clk, p, a);
    assert f * A * P == c by { Quotient(c, P * A); }
    assert f * A == z * target by { assert (f * A - z * target) * P == 0.0; }
    var e := (z - A) / A;
    assert e * A == z - A by { Quotient(z - A, A); }
    assert f - target == e * target by {
      assert (f - target - e * target) * A == f * A - target * A - (e * A) * target;
      assert (f - target - e * target) * A == 0.0;
    }
    AbsQuotient(f - target, target, e);
    AbsQuotient(z - A, A, e);
  }

  lemma HalfOver(e: real, a: int)
    requires 0.0 <= e <= 0.5 && a >= 1
    ensures e / a as real <= 1.0 / (2 * a) as real
  {
    var A := a as real;
    var r := 1.0 / (2 * a) as real;
    assert r * (2.0 * A) == 1.0 by { Quotient(1.0, (2 * a) as real); }
    assert r * A == 0.5;
    QuotientAtMost(e, A, r);
  }

  lemma ReciprocalFalls(m: int, n: int)
    requires 1 <= m <= n
    ensures 1.0 / n as real <= 1.0 / m as real
  {
    var r := 1.0 / m as real;
    Quotient(1.0, m as real);
    QuotientAtMost(1.0, m as real, r);
    RealMulMono(m as real, n as real, r);
    QuotientAtMost(1.0, n as real, r);
  }

  lemma AtLeastOne(clk: int, target: real)
    requires 0.0 < target <= clk as real
    ensures clk as real / target >= 1.0
  {
    QuotientAtMost(clk as real, target, 1.0);
  }

  // The pair the fallback chooses.
  ghost predicate IsFallback(clk: int, target: real, arr1Max: int, p: int, a: int) {
    && 0.0 < target <= clk as real && arr1Max >= 1
    && p == Max(1, Ceil(clk as real / target / arr1Max as real))
    && a == Max(1, Min(Round(clk as real / target / p as real), arr1Max))
  }

  /** The fallback pair's relative frequency error. */
  lemma FallbackError(clk: int, target: real, arr1Max: int, p: int, a: int)
    requires IsFallback(clk, target, arr1Max, p, a)
    ensures RelativeError(clk, target, p, a) <= 1.0 / (2 * a) as real
    ensures p >= 2 ==> RelativeError(clk, target, p, a) <= 1.0 / arr1Max as real
  {
    AtLeastOne(clk, target);
    PeriodOf(clk as real / target, arr1Max, p);
    var z := clk as real / target / p as real;
    RoundIsNearest(z, a);
    ErrorOfPair(clk, target, p, a);
    HalfOver(AbsReal(z - a as real), a);
    if p >= 2 { ReciprocalFalls(arr1Max, 2 * a); }
  }

  /** With the prescaler it has chosen, no other period comes nearer to the wanted divider. */
  lemma FallbackPeriodIsNearest(clk: int, target: real, arr1Max: int, p: int, a: int, other: int)
    requires IsFallback(clk, target, arr1Max, p, a)
    ensures var z := clk as real / target / p as real; AbsReal(z - a as real) <= AbsReal(z - other as real)
  {
    AtLeastOne(clk, target);
    PeriodOf(clk as real / target, arr1Max, p);
    RoundIsNearest(clk as real / target / p as real, other);
  }

  // ---------------------------------------------------------------- which pair is the closest

  // The pair is as near to the wanted divider, or to the wanted frequency, as any within these bounds.
  ghost predicate NearestDivider(clk: int, target: real, p: int, a: int, psc1Max: int, arr1Max: int)
    requires target > 0.0
  {
    forall q, b :: 1 <= q <= psc1Max && 1 <= b <= arr1Max ==>
      AbsReal(clk as real / target - (p * a) as real) <= AbsReal(clk as real / target - (q * b) as real)
  }

  ghost predicate NearestFrequency(clk: int, target: real, p: int, a: int, psc1Max: int, arr1Max: int)
    requires target > 0.0 && p >= 1 && a >= 1
  {
    forall q, b :: 1 <= q <= psc1Max && 1 <= b <= arr1Max ==>
      RelativeError(clk, target, p, a) <= RelativeError(clk, target, q, b)
  }

  // A divider between f and f + 1 that rounds down although f + 1 is nearer in frequency: it lies
  // above the harmonic mean of the two and not above their arithmetic mean.
  predicate RoundedDownTooFar(z: real, arr1Max: int) {
    var f := z.Floor;
    1 <= f < arr1Max && Round(z) == f && z * (2 * f + 1) as real > (2 * f * (f + 1)) as real
  }

  // The relative error of dividing by k where z is wanted.
  function Miss(z: real, k: int): real
    requires k >= 1
  {
    AbsReal(z - k as real) / k as real
  }

  lemma RatioAtMost(u: real, k: int, v: real, m: int)
    requires k >= 1 && m >= 1
    ensures u / k as real <= v / m as real <==> u * m as real <= v * k as real
  {
    var K, M := k as real, m as real;
    var r := v / M;
    Quotient(v, M);
    assert (r * K) * M == v * K;
    QuotientAtMost(u, K, r);
    if u <= r * K { RealMulMono(u, r * K, M); } else { RealMulStrict(r * K, u, M); }
  }

  // From a lower divider the error falls towards z, from a higher one it rises away from it.
  lemma MissFalls(z: real, k: int, m: int)
    requires 1 <= k <= m && m as real <= z
    ensures Miss(z, m) <= Miss(z, k)
  {
    var K, M := k as real, m as real;
    RealMulMono(K, M, z);
    GapTimes(z, M, K);
    GapTimes(z, K, M);
    RatioAtMost(z - M, m, z - K, k);
  }

  lemma MissRises(z: real, k: int, m: int)
    requires 1 <= k <= m && 0.0 <= z <= k as real
    ensures Miss(z, k) <= Miss(z, m)
  {
    RatioRises(z, k, m);
    assert AbsReal(z - k as real) == k as real - z && AbsReal(z - m as real) == m as real - z;
  }

  lemma RatioRises(z: real, k: int, m: int)
    requires 1 <= k <= m && 0.0 <= z
    ensures (k as real - z) / k as real <= (m as real - z) / m as real
  {
    var K, M := k as real, m as real;
    RealMulMono(K, M, z);
    GapTimes(K, z, M);
    GapTimes(M, z, K);
    RatioAtMost(K - z, k, M - z, m);
  }

  lemma GapTimes(a: real, b: real, c: real)
    ensures (a - b) * c == a * c - c * b
  {}

  lemma TwiceTheProduct(f: int)
    ensures (2 * f * (f + 1)) as real == 2.0 * (f as real * f as real + f as real)
  {
    assert 2 * f * (f + 1) == 2 * (f * f + f);
    assert (f * f) as real == f as real * f as real;
  }

  // Between two neighbouring dividers the harmonic mean decides.
  lemma HarmonicMeanDecides(z: real, f: int)
    requires f >= 1 && f as real <= z <= f as real + 1.0
    ensures Miss(z, f) <= Miss(z, f + 1) <==> z * (2 * f + 1) as real <= (2 * f * (f + 1)) as real
  {
    var F := f as real;
    RatioAtMost(AbsReal(z - F), f, AbsReal(z - (f + 1) as real), f + 1);
    assert (z - F) * (F + 1.0) == z * F + z - F * F - F;
    assert (F + 1.0 - z) * F == F * F + F - z * F;
    TwiceTheProduct(f);
    assert z * (2 * f + 1) as real == 2.0 * (z * F) + z;
  }

  lemma AboveTheMiddle(z: real, F: real)
    requires F >= 1.0 && z >= F + 0.5
    ensures z * (2.0 * F + 1.0) > 2.0 * (F * F + F)
  {
    RealMulMono(F + 0.5, z, 2.0 * F + 1.0);
    assert (F + 0.5) * (2.0 * F + 1.0) == 2.0 * (F * F + F) + 0.5;
  }

  lemma RoundedUpIsNearer(z: real, f: int)
    requires f >= 1 && f == z.Floor && Round(z) == f + 1
    ensures Miss(z, f + 1) <= Miss(z, f)
  {
    AboveTheMiddle(z, f as real);
    TwiceTheProduct(f);
    assert (2 * f + 1) as real == 2.0 * f as real + 1.0;
    HarmonicMeanDecides(z, f);
  }

  // Of the periods up to arr1Max, the rounded one has the least error unless it was rounded down too far.
  lemma RoundedPeriodIsNearest(z: real, arr1Max: int, a: int, k: int)
    requires 0.0 <= z <= arr1Max as real && a == Round(z) && 1 <= a && 1 <= k <= arr1Max
    requires !RoundedDownTooFar(z, arr1Max)
    ensures Miss(z, a) <= Miss(z, k)
  {
    var f := z.Floor;
    if a == f {
      if k <= f {
        MissFalls(z, k, f);
      } else {
        HarmonicMeanDecides(z, f);
        MissRises(z, f + 1, k);
      }
    } else if k <= f {
      RoundedUpIsNearer(z, f);
      MissFalls(z, k, f);
    } else {
      MissRises(z, f + 1, k);
    }
  }

  lemma MissOfPair(clk: int, target: real, p: int, a: int)
    requires target > 0.0 && p >= 1 && a >= 1
    ensures RelativeError(clk, target, p, a) == Miss(clk as real / target / p as real, a)
    ensures p * a >= 1 && RelativeError(clk, target, p, a) == Miss(clk as real / target, p * a)
  {
    MulMono(1, p, a);
    ErrorOfPair(clk, target, p, a);
    ErrorOfPair(clk, target, 1, p * a);
    assert 1 * (p * a) == p * a;
  }

  // The quotient left to the counter, as the fallback rounds it.
  lemma FallbackQuotient(clk: int, target: real, arr1Max: int, p: int, a: int)
    requires IsFallback(clk, target, arr1Max, p, a)
    ensures var z := clk as real / target / p as real;
            p >= 1 && 0.0 <= z <= arr1Max as real && a == Round(z) && 1 <= a <= arr1Max
  {
    var x := clk as real / target;
    AtLeastOne(clk, target);
    PeriodOf(x, arr1Max, p);
    QuotientForCounter(x, arr1Max as real, p);
  }

  lemma NextPeriodIsNearer(clk: int, target: real, arr1Max: int, p: int, a: int)
    requires target > 0.0 && p >= 1 && a >= 1
    requires var z := clk as real / target / p as real; a == Round(z) && RoundedDownTooFar(z, arr1Max)
    ensures a < arr1Max && RelativeError(clk, target, p, a + 1) < RelativeError(clk, target, p, a)
  {
    HarmonicMeanDecides(clk as real / target / p as real, a);
    MissOfPair(clk, target, p, a);
    MissOfPair(clk, target, p, a + 1);
  }

  lemma NoPeriodIsNearer(clk: int, target: real, arr1Max: int, p: int, a: int, b: int)
    requires target > 0.0 && p >= 1 && a >= 1 && 1 <= b <= arr1Max
    requires var z := clk as real / target / p as real;
             0.0 <= z <= arr1Max as real && a == Round(z) && !RoundedDownTooFar(z, arr1Max)
    ensures RelativeError(clk, target, p, a) <= RelativeError(clk, target, p, b)
  {
    RoundedPeriodIsNearest(clk as real / target / p as real, arr1Max, a, b);
    MissOfPair(clk, target, p, a);
    MissOfPair(clk, target, p, b);
  }

  /** Which periods are nearest in frequency: with the prescaler it has chosen, no other period in
      range gives a frequency nearer to the target, unless the quotient was rounded down too far, and
      then the next period does. */
  lemma FallbackFrequencyIsNearestIff(clk: int, target: real, arr1Max: int, p: int, a: int)
    requires IsFallback(clk, target, arr1Max, p, a)
    ensures (forall b :: 1 <= b <= arr1Max ==> RelativeError(clk, target, p, a) <= RelativeError(clk, target, p, b)) <==>
            !RoundedDownTooFar(clk as real / target / p as real, arr1Max)
    ensures RoundedDownTooFar(clk as real / target / p as real, arr1Max) ==>
              a < arr1Max && RelativeError(clk, target, p, a + 1) < RelativeError(clk, target, p, a)
  {
    FallbackQuotient(clk, target, arr1Max, p, a);
    if RoundedDownTooFar(clk as real / target / p as real, arr1Max) {
      NextPeriodIsNearer(clk, target, arr1Max, p, a);
    } else {
      forall b | 1 <= b <= arr1Max ensures RelativeError(clk, target, p, a) <= RelativeError(clk, target, p, b) {
        NoPeriodIsNearer(clk, target, arr1Max, p, a, b);
      }
    }
  }

  // No rounding of x itself is beaten by any whole divider, in or out of range.
  lemma UnscaledIsNearest(x: real, arr1Max: int, n: int)
    requires 1.0 <= x <= arr1Max as real && n >= 1 && !RoundedDownTooFar(x, arr1Max)
    ensures Round(x) >= 1 && Miss(x, Round(x)) <= Miss(x, n)
  {
    RoundIsNearest(x, 1);
    RoundStaysBelow(x, arr1Max);
    RoundedPeriodIsNearest(x, arr1Max, Round(x), if n <= arr1Max then n else arr1Max);
    if n > arr1Max { MissRises(x, arr1Max, n); }
  }

  lemma OneReachesIff(x: real, A: real, p: int)
    requires A >= 1.0 && p == Max(1, Ceil(x / A))
    ensures p == 1 <==> x <= A
  {
    CeilBounds(x / A);
    QuotientAtMost(x, A, 1.0);
  }

  lemma UnscaledDividerIsNearest(clk: int, target: real, psc1Max: int, arr1Max: int, a: int)
    requires target > 0.0 && a == Round(clk as real / target)
    ensures NearestDivider(clk, target, 1, a, psc1Max, arr1Max)
  {
    forall q, b | 1 <= q <= psc1Max && 1 <= b <= arr1Max
      ensures AbsReal(clk as real / target - (1 * a) as real) <= AbsReal(clk as real / target - (q * b) as real)
    {
      RoundIsNearest(clk as real / target, q * b);
    }
  }

  lemma UnscaledFrequencyIsMissed(clk: int, target: real, psc1Max: int, arr1Max: int, a: int)
    requires target > 0.0 && a >= 1 && psc1Max >= 1
    requires a == Round(clk as real / target) && RoundedDownTooFar(clk as real / target, arr1Max)
    ensures !NearestFrequency(clk, target, 1, a, psc1Max, arr1Max)
  {
    assert clk as real / target / 1.0 == clk as real / target;
    NextPeriodIsNearer(clk, target, arr1Max, 1, a);
  }

  /** When the counter alone can span the wanted divider, the fallback leaves PSC at 0 and is the
      closest pair of all: always in the divider, and in frequency, as the documentation promises it,
      exactly unless the divider was rounded down too far. */
  lemma UnscaledFallbackIsClosestIff(clk: int, target: real, psc1Max: int, arr1Max: int, p: int, a: int)
    requires IsFallback(clk, target, arr1Max, p, a) && psc1Max >= 1
    ensures p == 1 <==> clk as real / target <= arr1Max as real
    ensures p == 1 ==> NearestDivider(clk, target, p, a, psc1Max, arr1Max)
    ensures p == 1 ==> (NearestFrequency(clk, target, p, a, psc1Max, arr1Max) <==>
                        !RoundedDownTooFar(clk as real / target, arr1Max))
  {
    FallbackQuotient(clk, target, arr1Max, p, a);
    OneReachesIff(clk as real / target, arr1Max as real, p);
    if p == 1 {
      assert clk as real / target / 1.0 == clk as real / target;
      AtLeastOne(clk, target);
      UnscaledDividerIsNearest(clk, target, psc1Max, arr1Max, a);
      if RoundedDownTooFar(clk as real / target, arr1Max) {
        UnscaledFrequencyIsMissed(clk, target, psc1Max, arr1Max, a);
      } else {
        UnscaledFrequencyIsNearest(clk, target, psc1Max, arr1Max, a);
      }
    }
  }

  lemma UnscaledFrequencyIsNearest(clk: int, target: real, psc1Max: int, arr1Max: int, a: int)
    requires target > 0.0 && 1.0 <= clk as real / target <= arr1Max as real
    requires a == Round(clk as real / target) && a >= 1 && !RoundedDownTooFar(clk as real / target, arr1Max)
    ensures NearestFrequency(clk, target, 1, a, psc1Max, arr1Max)
  {
    MissOfPair(clk, target, 1, a);
    forall q, b | 1 <= q <= psc1Max && 1 <= b <= arr1Max
      ensures RelativeError(clk, target, 1, a) <= RelativeError(clk, target, q, b)
    {
      MissOfPair(clk, target, q, b);
      UnscaledIsNearest(clk as real / target, arr1Max, q * b);
    }
  }

  // n has a factor pair within the bounds: what a trial division from the least prescaler finds out.
  predicate Factors(n: int, psc1Max: int, arr1Max: int)
    requires arr1Max >= 1
  {
    exists d :: Max(1, CeilDiv(n, arr1Max)) <= d <= psc1Max && n % d == 0
  }

  lemma FactorsIff(n: int, psc1Max: int, arr1Max: int)
    requires n >= 1 && arr1Max >= 1
    ensures Factors(n, psc1Max, arr1Max) <==> exists q, b :: 1 <= q <= psc1Max && 1 <= b <= arr1Max && q * b == n
  {
    if d :| Max(1, CeilDiv(n, arr1Max)) <= d <= psc1Max && n % d == 0 {
      CofactorInRange(n, d, arr1Max);
      assert 1 <= d <= psc1Max && 1 <= n / d <= arr1Max && d * (n / d) == n;
    }
    if q, b :| 1 <= q <= psc1Max && 1 <= b <= arr1Max && q * b == n {
      PairBounds(n, q, b, arr1Max);
    }
  }

  /** When the prescaler had to be raised, the fallback is the closest pair exactly when none of the
      whole dividers nearer than its own has a factor pair in range; all of those lie within half
      the prescaler of the wanted divider. */
  lemma ScaledFallbackIsClosestIff(clk: int, target: real, psc1Max: int, arr1Max: int, p: int, a: int)
    requires IsFallback(clk, target, arr1Max, p, a)
    ensures var x := clk as real / target;
            NearestDivider(clk, target, p, a, psc1Max, arr1Max) <==>
            forall n :: n >= 1 && AbsReal(x - n as real) < AbsReal(x - (p * a) as real) ==> !Factors(n, psc1Max, arr1Max)
    ensures AbsReal(clk as real / target - (p * a) as real) <= 0.5 * p as real
  {
    var x := clk as real / target;
    OffByHalfThePrescaler(clk, target, arr1Max, p, a);
    if NearestDivider(clk, target, p, a, psc1Max, arr1Max) {
      forall n | n >= 1 && AbsReal(x - n as real) < AbsReal(x - (p * a) as real) ensures !Factors(n, psc1Max, arr1Max) {
        FactorsIff(n, psc1Max, arr1Max);
      }
    } else {
      var q, b :| 1 <= q <= psc1Max && 1 <= b <= arr1Max && AbsReal(x - (q * b) as real) < AbsReal(x - (p * a) as real);
      MulMono(1, q, b);
      FactorsIff(q * b, psc1Max, arr1Max);
      assert Factors(q * b, psc1Max, arr1Max);
    }
  }

  lemma OffByHalfThePrescaler(clk: int, target: real, arr1Max: int, p: int, a: int)
    requires IsFallback(clk, target, arr1Max, p, a)
    ensures AbsReal(clk as real / target - (p * a) as real) <= 0.5 * p as real
  {
    FallbackQuotient(clk, target, arr1Max, p, a);
    RoundIsNearest(clk as real / target / p as real, a);
    HalfScaled(clk as real / target, p, a);
  }

  lemma HalfScaled(x: real, p: int, a: int)
    requires p >= 1 && AbsReal(x / p as real - a as real) <= 0.5
    ensures AbsReal(x - (p * a) as real) <= 0.5 * p as real
  {
    var P, A := p as real, a as real;
    Quotient(x, P);
    assert (p * a) as real == A * P;
    RealMulMono(x / P, A + 0.5, P);
    RealMulMono(A - 0.5, x / P, P);
    Distributes(A, 0.5, P);
    Distributes(A, -0.5, P);
  }

  /** And the same in frequency. */
  lemma ScaledFrequencyIsClosestIff(clk: int, target: real, psc1Max: int, arr1Max: int, p: int, a: int)
    requires IsFallback(clk, target, arr1Max, p, a)
    ensures NearestFrequency(clk, target, p, a, psc1Max, arr1Max) <==>
            forall n :: n >= 1 && Miss(clk as real / target, n) < RelativeError(clk, target, p, a) ==>
              !Factors(n, psc1Max, arr1Max)
  {
    var x := clk as real / target;
    if NearestFrequency(clk, target, p, a, psc1Max, arr1Max) {
      forall n | n >= 1 && Miss(x, n) < RelativeError(clk, target, p, a) ensures !Factors(n, psc1Max, arr1Max) {
        FactorsIff(n, psc1Max, arr1Max);
        if q, b :| 1 <= q <= psc1Max && 1 <= b <= arr1Max && q * b == n { MissOfPair(clk, target, q, b); }
      }
    } else {
      var q, b :| 1 <= q <= psc1Max && 1 <= b <= arr1Max &&
                  RelativeError(clk, target, q, b) < RelativeError(clk, target, p, a);
      MissOfPair(clk, target, q, b);
      FactorsIff(q * b, psc1Max, arr1Max);
      assert Factors(q * b, psc1Max, arr1Max);
    }
  }

  // ---------------------------------------------------------------- the solver

  predicate Positive(t: Target) {
    !t.NotANumber? && Hz(t) > 0.0
  }

  function Refusal(clk: int, t: Target, pscMax: nat, arrMax: nat): Result
    requires clk <= 0 || !Positive(t) || Hz(t) > clk as real || clk as real / Hz(t) > ((pscMax + 1) * (arrMax + 1)) as real
  {
    Infeasible(if clk <= 0 then InvalidTimerClock else if !Positive(t) then InvalidTarget
               else if Hz(t) > clk as real then TargetTooFast else TargetTooSlow)
  }

  predicate Reachable(clk: int, t: Target, pscMax: nat, arrMax: nat) {
    clk > 0 && Positive(t) && Hz(t) <= clk as real && clk as real / Hz(t) <= ((pscMax + 1) * (arrMax + 1)) as real
  }

  // The pair reaches the integer target with no error, and no smaller PSC does.
  ghost predicate BestExact(clk: int, t: Target, r: Result, pscMax: nat, arrMax: nat)
    requires r.Feasible?
  {
    && t.IntHz? && ExactPair(clk, t.hz, r.psc + 1, r.arr + 1, pscMax, arrMax)
    && r.achieved == t.hz as real
    && forall p, a :: ExactPair(clk, t.hz, p, a, pscMax, arrMax) ==> r.psc + 1 <= p
  }

  ghost predicate GoodFallback(clk: int, t: Target, r: Result, pscMax: nat, arrMax: nat)
    requires r.Feasible? && Positive(t)
  {
    && InRange(r.psc + 1, r.arr + 1, pscMax, arrMax)
    && r.achieved == Achieved(clk, r.psc + 1, r.arr + 1)
    && RelativeError(clk, Hz(t), r.psc + 1, r.arr + 1) <= 1.0 / (2 * (r.arr + 1)) as real
    && (r.psc > 0 ==> RelativeError(clk, Hz(t), r.psc + 1, r.arr + 1) <= 1.0 / (arrMax + 1) as real)
  }

  // With PSC at 0: the nearest divider there is, and the nearest frequency unless it was rounded down
  // too far.
  ghost predicate ClosestUnlessRoundedDown(clk: int, t: Target, r: Result, pscMax: nat, arrMax: nat)
    requires r.Feasible? && Positive(t)
  {
    && NearestDivider(clk, Hz(t), r.psc + 1, r.arr + 1, pscMax + 1, arrMax + 1)
    && (NearestFrequency(clk, Hz(t), r.psc + 1, r.arr + 1, pscMax + 1, arrMax + 1) <==>
        !RoundedDownTooFar(clk as real / Hz(t), arrMax + 1))
  }

  method SolveTimerDividers(clk: int, t: Target, pscMax: nat, arrMax: nat) returns (r: Result)
    ensures r.Infeasible? <==> !Reachable(clk, t, pscMax, arrMax)
    ensures r.Infeasible? ==> r == Refusal(clk, t, pscMax, arrMax)
    ensures r.Feasible? && r.exact ==> BestExact(clk, t, r, pscMax, arrMax)
    ensures r.Feasible? && !r.exact ==> GoodFallback(clk, t, r, pscMax, arrMax)
    ensures r.Feasible? && !r.exact ==> IsFallback(clk, Hz(t), arrMax + 1, r.psc + 1, r.arr + 1)
    ensures r.Feasible? && !r.exact && r.psc == 0 ==> ClosestUnlessRoundedDown(clk, t, r, pscMax, arrMax)
    ensures (r.Feasible? && r.exact) <==>
            clk > 0 && t.IntHz? && t.hz > 0 && exists p, a :: ExactPair(clk, t.hz, p, a, pscMax, arrMax)
    ensures InPlainTerms(clk, t, pscMax, arrMax, r)
  {
    r := Divided(clk, t, pscMax, arrMax);
    AnswersInPlainTerms(clk, t, pscMax, arrMax, r);
  }

  // Which refusal applies, when a note is left, and that what is reported as achieved is what the
  // registers make of the clock.
  ghost predicate InPlainTerms(clk: int, t: Target, pscMax: nat, arrMax: nat, r: Result) {
    && RefusedInPlainTerms(clk, t, r) && (r.Feasible? ==> DividesTheClock(clk, t, pscMax, arrMax, r))
    && TooSlowInPlainTerms(clk, t, (pscMax + 1) * (arrMax + 1), r)
  }

  ghost predicate RefusedInPlainTerms(clk: int, t: Target, r: Result) {
    && (r == Infeasible(InvalidTimerClock) <==> clk <= 0)
    && (r == Infeasible(InvalidTarget) <==>
          clk > 0 && (t.NotANumber? || (t.IntHz? && t.hz <= 0) || (t.RealHz? && t.rate <= 0.0)))
    && (r == Infeasible(TargetTooFast) <==> clk > 0 && ((t.IntHz? && t.hz > clk) || (t.RealHz? && t.rate > clk as real)))
  }

  ghost predicate DividesTheClock(clk: int, t: Target, pscMax: nat, arrMax: nat, r: Result)
    requires r.Feasible?
  {
    && r.psc <= pscMax && r.arr <= arrMax
    && r.achieved * ((r.psc + 1) * (r.arr + 1)) as real == clk as real
    && (r.noted <==> !r.exact && t.IntHz? && t.hz > 0 && clk % t.hz == 0)
  }

  // `span` is the largest divider of the registers.
  ghost predicate TooSlowInPlainTerms(clk: int, t: Target, span: int, r: Result) {
    r == Infeasible(TargetTooSlow) <==> Sensible(clk, t) && clk as real > span as real * Hz(t)
  }

  predicate Sensible(clk: int, t: Target) {
    clk > 0 && Positive(t) && Hz(t) <= clk as real
  }

  lemma RefusalsInPlainTerms(clk: int, t: Target, r: Result)
    requires !Sensible(clk, t) ==> r == Infeasible(if clk <= 0 then InvalidTimerClock else if !Positive(t) then InvalidTarget
                                                   else TargetTooFast)
    requires Sensible(clk, t) ==> r.Feasible? || r.code == TargetTooSlow
    ensures RefusedInPlainTerms(clk, t, r)
  {}

  lemma FeasibleDividesTheClock(clk: int, t: Target, pscMax: nat, arrMax: nat, r: Result)
    requires r.Feasible? && Positive(t)
    requires r.exact ==> BestExact(clk, t, r, pscMax, arrMax)
    requires !r.exact ==> GoodFallback(clk, t, r, pscMax, arrMax)
    requires r.noted <==> !r.exact && t.IntHz? && t.hz > 0 && clk % t.hz == 0
    ensures DividesTheClock(clk, t, pscMax, arrMax, r)
  {
    var n := (r.psc + 1) * (r.arr + 1);
    if r.exact {
      assert n * t.hz == clk;
      ProductOfReals(n, t.hz);
    } else {
      MulMono(1, r.psc + 1, r.arr + 1);
      Quotient(clk as real, n as real);
    }
  }

  lemma SlownessInPlainTerms(clk: int, t: Target, span: int, r: Result)
    requires r.Infeasible? <==> !(Sensible(clk, t) && clk as real / Hz(t) <= span as real)
    requires r.Infeasible? ==> (r.code == TargetTooSlow <==> Sensible(clk, t))
    ensures TooSlowInPlainTerms(clk, t, span, r)
  {
    if Sensible(clk, t) { QuotientAtMost(clk as real, Hz(t), span as real); }
  }

  lemma AnswersInPlainTerms(clk: int, t: Target, pscMax: nat, arrMax: nat, r: Result)
    requires r.Infeasible? <==> !Reachable(clk, t, pscMax, arrMax)
    requires r.Infeasible? ==> r == Refusal(clk, t, pscMax, arrMax)
    requires r.Feasible? && r.exact ==> BestExact(clk, t, r, pscMax, arrMax)
    requires r.Feasible? && !r.exact ==> GoodFallback(clk, t, r, pscMax, arrMax)
    requires r.Feasible? ==> (r.noted <==> !r.exact && t.IntHz? && t.hz > 0 && clk % t.hz == 0)
    ensures InPlainTerms(clk, t, pscMax, arrMax, r)
  {
    RefusalsInPlainTerms(clk, t, r);
    SlownessInPlainTerms(clk, t, (pscMax + 1) * (arrMax + 1), r);
    if r.Feasible? { FeasibleDividesTheClock(clk, t, pscMax, arrMax, r); }
  }

  lemma ProductOfReals(a: int, b: int)
    ensures (a * b) as real == b as real * a as real
  {}

  // The search and, failing that, the fallback.
  method Divided(clk: int, t: Target, pscMax: nat, arrMax: nat) returns (r: Result)
    ensures r.Infeasible? <==> !Reachable(clk, t, pscMax, arrMax)
    ensures r.Infeasible? ==> r == Refusal(clk, t, pscMax, arrMax)
    ensures r.Feasible? && r.exact ==> BestExact(clk, t, r, pscMax, arrMax)
    ensures r.Feasible? && !r.exact ==> GoodFallback(clk, t, r, pscMax, arrMax)
    ensures r.Feasible? && !r.exact ==> IsFallback(clk, Hz(t), arrMax + 1, r.psc + 1, r.arr + 1)
    ensures r.Feasible? && !r.exact && r.psc == 0 ==> ClosestUnlessRoundedDown(clk, t, r, pscMax, arrMax)
    ensures (r.Feasible? && r.exact) <==>
            clk > 0 && t.IntHz? && t.hz > 0 && exists p, a :: ExactPair(clk, t.hz, p, a, pscMax, arrMax)
    ensures r.Feasible? ==> (r.noted <==> !r.exact && t.IntHz? && t.hz > 0 && clk % t.hz == 0)
  {
    forall p, a | clk > 0 && t.IntHz? && t.hz > 0 && ExactPair(clk, t.hz, p, a, pscMax, arrMax)
      ensures Reachable(clk, t, pscMax, arrMax) && clk % t.hz == 0 && clk / t.hz == p * a
    {
      ExactPairIsReachable(clk, t, p, a, pscMax, arrMax);
    }
    if clk <= 0 || !Positive(t) || Hz(t) > clk as real {
      return Refusal(clk, t, pscMax, arrMax);
    }
    var wanted := clk as real / Hz(t);
    if wanted > ((pscMax + 1) * (arrMax + 1)) as real {
      return Refusal(clk, t, pscMax, arrMax);
    }
    var noted := false;
    if t.IntHz? && clk % t.hz == 0 {
      var n := clk / t.hz;
      assert clk == n * t.hz;
      Cancel(1, n, t.hz);
      var psc1 := Factor(n, pscMax, arrMax);
      if psc1 > 0 {
        var arr1 := n / psc1;
        assert psc1 * arr1 * t.hz == clk;
        assert ExactPair(clk, t.hz, psc1, arr1, pscMax, arrMax);
        ExactIsExact(clk, t.hz, psc1, arr1);
        return Feasible(psc1 - 1, arr1 - 1, Achieved(clk, psc1, arr1), true, false);
      }
      noted := true;
    }
    AtLeastOne(clk, Hz(t));
    PrescalerInRange(wanted, pscMax, arrMax + 1);
    var psc1 := Max(1, Ceil(wanted / (arrMax + 1) as real));
    PeriodOf(wanted, arrMax + 1, psc1);
    var arr1 := Max(1, Min(Round(wanted / psc1 as real), arrMax + 1));
    FallbackError(clk, Hz(t), arrMax + 1, psc1, arr1);
    UnscaledFallbackIsClosestIff(clk, Hz(t), pscMax + 1, arrMax + 1, psc1, arr1);
    return Feasible(psc1 - 1, arr1 - 1, Achieved(clk, psc1, arr1), false, noted);
  }

  lemma ExactIsExact(clk: int, hz: int, p: int, a: int)
    requires p >= 1 && a >= 1 && p * a * hz == clk
    ensures p * a >= 1 && Achieved(clk, p, a) == hz as real
  {
    MulMono(1, p, a);
    var n := p * a;
    assert clk as real == hz as real * n as real;
    Quotient(clk as real, n as real);
    assert (Achieved(clk, p, a) - hz as real) * n as real == 0.0;
  }

  lemma ExactPairIsReachable(clk: int, t: Target, p: int, a: int, pscMax: nat, arrMax: nat)
    requires clk > 0 && t.IntHz? && t.hz > 0 && ExactPair(clk, t.hz, p, a, pscMax, arrMax)
    ensures Reachable(clk, t, pscMax, arrMax) && clk % t.hz == 0 && clk / t.hz == p * a
  {
    var n := p * a;
    MulMono(1, p, a);
    MulMono(p, pscMax + 1, a);
    MulMono(a, arrMax + 1, pscMax + 1);
    assert 1 <= n <= (pscMax + 1) * (arrMax + 1);
    ExactQuotient(clk, t.hz, n);
    MulMono(1, n, t.hz);
    assert clk as real == n as real * Hz(t);
    QuotientAtMost(clk as real, Hz(t), n as real);
  }

  /** The fallback is not always the closest pair. At 262149 Hz a 2 Hz update on a 16-bit timer gets
      PSC+1 = 3 and ARR+1 = 43692, off by 1.5 from the wanted divider, where 25 and 5243 are off by
      0.5. */
  lemma ScaledFallbackMissesTheClosest()
    ensures IsFallback(262149, 2.0, 65536, 3, 43692) && InRange(25, 5243, 65535, 65535)
    ensures RelativeError(262149, 2.0, 25, 5243) < RelativeError(262149, 2.0, 3, 43692)
    ensures !NearestDivider(262149, 2.0, 3, 43692, 65536, 65536)
  {
    assert 262149.0 / 2.0 == 131074.5;
    assert 2.0 < 131074.5 / 65536.0 <= 3.0 && Ceil(131074.5 / 65536.0) == 3;
    assert 131074.5 / 3.0 == 43691.5 && Round(43691.5) == 43692;
    assert AbsReal(131074.5 - (25 * 5243) as real) == 0.5;
  }

  /** Nor, without a prescaler, the closest in frequency: for a divider of 2.45 it divides by 2, where
      dividing by 3 is nearer to the target. */
  lemma UnscaledFallbackMissesTheClosest()
    ensures IsFallback(245, 100.0, 65536, 1, 2)
    ensures RelativeError(245, 100.0, 1, 3) < RelativeError(245, 100.0, 1, 2)
    ensures RoundedDownTooFar(2.45, 65536)
  {
    assert 245.0 / 100.0 == 2.45;
    assert 0.0 < 2.45 / 65536.0 <= 1.0 && Ceil(2.45 / 65536.0) == 1;
    assert 2.45 / 1.0 == 2.45 && Round(2.45) == 2;
  }
}
