/**
Which M the PLL search settles on (clock_solver.py, _search_pll), worked out from the greatest common
divisor of the source and the VCO output instead of by search; and from that, when M divides the
source frequency, as the comment in the search says it must.
*/
module PllChoice {
  import opened Arithmetic
  import opened Options
  import opened ClockSolver

  // Frequencies and VCO limits are positive.
  predicate Positive(p: Pll, fIn: int) {
    p.m.lo >= 1 && p.vcoOut.lo >= 1 && fIn >= 1
  }

  // ---------------------------------------------------------------- the M of one divider

  // For a VCO output of T: the M and N that give it from fIn are s * k and t * k, and the VCO input is
  // then g / k. `low` and `high` bound k.
  datatype Window = Window(g: int, s: int, t: int, low: int, high: int)

  function WindowOf(p: Pll, fIn: int, T: int): (w: Window)
    requires Positive(p, fIn) && T >= 1 && p.vcoIn.hi >= 1
    ensures w.g >= 1 && w.s >= 1 && w.t >= 1 && w.low >= 1 && w.s * w.g == fIn && w.t * w.g == T && w.g == Gcd(fIn, T)
  {
    var g := Gcd(fIn, T);
    Parts(fIn, T);
    var s, t := fIn / g, T / g;
    CeilDivIsLeast(p.m.lo, s);
    var top := Least(p.m.hi / s, p.n.hi / t);
    Window(g, s, t,
           Greatest(CeilDiv(p.m.lo, s), Greatest(CeilDiv(p.n.lo, t), CeilDiv(g, p.vcoIn.hi))),
           if p.vcoIn.lo >= 1 then Least(top, g / p.vcoIn.lo) else top)
  }

  function Greatest(a: int, b: int): int { if a >= b then a else b }

  function Least(a: int, b: int): int { if a <= b then a else b }

  lemma Part(a: int, g: int)
    requires a >= 1 && g >= 1 && a % g == 0
    ensures a / g >= 1 && a / g * g == a
  {
    CancelStrict(0, a / g, g);
  }

  lemma Parts(a: int, b: int)
    requires a >= 1 && b >= 1
    ensures var g := Gcd(a, b); g >= 1 && a / g >= 1 && b / g >= 1 && a / g * g == a && b / g * g == b
  {
    GcdDivides(a, b);
    Part(a, Gcd(a, b));
    Part(b, Gcd(a, b));
  }

  lemma VcoInIs(fIn: int, s: int, g: int, k: int)
    requires s >= 1 && k >= 1 && s * g == fIn
    ensures s * k >= 1 && VcoIn(fIn, s * k) == g as real / k as real
  {
    MulMono(1, s, k);
    var r := g as real / k as real;
    Quotient(g as real, k as real);
    assert (s * k) as real == s as real * k as real && fIn as real == s as real * g as real;
    assert r * (s * k) as real == fIn as real;
    Quotient(fIn as real, (s * k) as real);
    QuotientAtMost(fIn as real, (s * k) as real, r);
    assert VcoIn(fIn, s * k) * (s * k) as real == r * (s * k) as real;
    RealCancel(VcoIn(fIn, s * k), r, (s * k) as real);
    RealCancel(r, VcoIn(fIn, s * k), (s * k) as real);
  }

  lemma SlowEnoughIff(g: int, k: int, hi: int)
    requires g >= 1 && k >= 1 && hi >= 1
    ensures g as real / k as real <= hi as real <==> CeilDiv(g, hi) <= k
  {
    QuotientAtMost(g as real, k as real, hi as real);
    CeilDivAtMost(g, hi, k);
    assert hi as real * k as real == (k * hi) as real;
  }

  lemma FastEnoughIff(g: int, k: int, lo: int)
    requires g >= 1 && k >= 1
    ensures lo as real <= g as real / k as real <==> (lo >= 1 ==> k <= g / lo)
  {
    QuotientAtMost(g as real, k as real, lo as real);
    assert lo as real * k as real == (k * lo) as real;
    if lo >= 1 {
      AtMostFloor(g, lo, k);
    } else {
      MulMono(lo, 0, k);
    }
  }

  lemma InWindowIff(p: Pll, fIn: int, T: int, k: int)
    requires Positive(p, fIn) && T >= 1 && p.vcoIn.hi >= 1 && k >= 1
    ensures var w := WindowOf(p, fIn, T);
            w.low <= k <= w.high <==>
            && p.m.Has(w.s * k) && p.n.Has(w.t * k)
            && p.vcoIn.lo as real <= w.g as real / k as real <= p.vcoIn.hi as real
  {
    var w := WindowOf(p, fIn, T);
    CeilDivAtMost(p.m.lo, w.s, k);
    CeilDivAtMost(p.n.lo, w.t, k);
    AtMostFloor(p.m.hi, w.s, k);
    AtMostFloor(p.n.hi, w.t, k);
    SlowEnoughIff(w.g, k, p.vcoIn.hi);
    FastEnoughIff(w.g, k, p.vcoIn.lo);
  }

  /** The triples of a SYSCLK divider that fit are exactly the multiples of one pair in one window: M a
      multiple of f_in / gcd(f_in, vco_out), with the multiplier between two bounds. */
  lemma FitsIff(p: Pll, fIn: int, target: int, m: int, n: int, d: int)
    requires Positive(p, fIn) && d in p.divs && p.vcoOut.Has(target * d)
    ensures Fits(p, fIn, target, m, n, d) <==>
            p.vcoIn.hi >= 1 &&
            var w := WindowOf(p, fIn, target * d);
            exists k :: w.low <= k <= w.high && m == w.s * k && n == w.t * k
  {
    if Fits(p, fIn, target, m, n, d) {
      var k := FitIsMultiple(p, fIn, target, m, n, d);
    }
    if p.vcoIn.hi >= 1 {
      var w := WindowOf(p, fIn, target * d);
      if k :| w.low <= k <= w.high && m == w.s * k && n == w.t * k {
        MultipleFits(p, fIn, target, k, d);
      }
    }
  }

  lemma FitIsMultiple(p: Pll, fIn: int, target: int, m: int, n: int, d: int) returns (k: int)
    requires Positive(p, fIn) && Fits(p, fIn, target, m, n, d)
    ensures p.vcoIn.hi >= 1
    ensures var w := WindowOf(p, fIn, target * d); w.low <= k <= w.high && m == w.s * k && n == w.t * k
  {
    QuotientAtMost(fIn as real, m as real, 0.0);
    k := CommonMultiplier(fIn, target * d, m, n);
    var w := WindowOf(p, fIn, target * d);
    assert 0 * w.s < k * w.s;
    CancelStrict(0, k, w.s);
    VcoInIs(fIn, w.s, w.g, k);
    InWindowIff(p, fIn, target * d, k);
  }

  lemma MultipleFits(p: Pll, fIn: int, target: int, k: int, d: int)
    requires Positive(p, fIn) && d in p.divs && p.vcoOut.Has(target * d) && p.vcoIn.hi >= 1
    requires var w := WindowOf(p, fIn, target * d); w.low <= k <= w.high
    ensures var w := WindowOf(p, fIn, target * d); Fits(p, fIn, target, w.s * k, w.t * k, d)
  {
    var T := target * d;
    var w := WindowOf(p, fIn, T);
    InWindowIff(p, fIn, T, k);
    VcoInIs(fIn, w.s, w.g, k);
    SameProduct(w.s, w.t, w.g, k);
  }

  lemma SameProduct(s: int, t: int, g: int, k: int)
    ensures (t * g) * (s * k) == (s * g) * (t * k)
  {}

  // ---------------------------------------------------------------- the nearest VCO input

  function Off(g: int, ideal: int, k: int): real
    requires k >= 1
  {
    Abs(g as real / k as real - ideal as real)
  }

  // The multiplier in [low, high] whose VCO input g / k is nearest to the ideal; the smaller of two.
  function NearestK(g: int, ideal: int, low: int, high: int): int
    requires g >= 1 && 1 <= low <= high
  {
    if ideal <= 0 then high
    else
      var q := g / ideal;
      if high <= q then high
      else if q < low then low
      else if Off(g, ideal, q) <= Off(g, ideal, q + 1) then q
      else q + 1
  }

  lemma QuotientFalls(g: int, k: int, m: int)
    requires g >= 1 && 1 <= k < m
    ensures g as real / m as real < g as real / k as real
  {
    var r := g as real / k as real;
    Quotient(g as real, k as real);
    QuotientAtMost(g as real, k as real, 0.0);
    assert r > 0.0;
    RealMulStrict(k as real, m as real, r);
    QuotientAtMost(g as real, m as real, r);
  }

  lemma OffFalls(g: int, ideal: int, k: int, m: int)
    requires g >= 1 && 1 <= k < m && m * ideal <= g
    ensures Off(g, ideal, m) < Off(g, ideal, k)
  {
    QuotientFalls(g, k, m);
    assert (m * ideal) as real == ideal as real * m as real;
    QuotientAtMost(g as real, m as real, ideal as real);
  }

  lemma OffRises(g: int, ideal: int, k: int, m: int)
    requires g >= 1 && 1 <= k < m && k * ideal >= g
    ensures Off(g, ideal, k) < Off(g, ideal, m)
  {
    QuotientFalls(g, k, m);
    assert (k * ideal) as real == ideal as real * k as real;
    QuotientAtMost(g as real, k as real, ideal as real);
  }

  // Up to the multiplier q the input is too fast, from q + 1 on too slow.
  lemma NearestKIsNearest(g: int, ideal: int, low: int, high: int, k: int)
    requires g >= 1 && 1 <= low <= k <= high
    ensures var b := NearestK(g, ideal, low, high);
            && low <= b <= high && Off(g, ideal, b) <= Off(g, ideal, k)
            && (Off(g, ideal, b) == Off(g, ideal, k) ==> b <= k)
  {
    if ideal <= 0 {
      MulMono(ideal, 0, high);
      if k < high { OffFalls(g, ideal, k, high); }
    } else {
      var q := g / ideal;
      AtMostFloor(g, ideal, q);
      AtMostFloor(g, ideal, q + 1);
      AtMostFloor(g, ideal, high);
      AtMostFloor(g, ideal, low);
      if high <= q {
        if k < high { OffFalls(g, ideal, k, high); }
      } else if q < low {
        if low < k { OffRises(g, ideal, low, k); }
      } else if k < q {
        OffFalls(g, ideal, k, q);
      } else if k > q + 1 {
        OffRises(g, ideal, q + 1, k);
      }
    }
  }

  /** With an ideal at or above the fastest input allowed, the slowest multiplier is the nearest. */
  lemma HighIdealIsLow(g: int, ideal: int, hi: int, low: int, high: int)
    requires g >= 1 && ideal >= hi >= 1 && 1 <= low <= high && CeilDiv(g, hi) <= low
    ensures NearestK(g, ideal, low, high) == low
  {
    CeilDivAtMost(g, hi, low);
    MulMono(hi, ideal, low);
    var q := g / ideal;
    AtMostFloor(g, ideal, low);
    AtMostFloor(g, ideal, q);
    NearestKIsNearest(g, ideal, low, high, low);
    var b := NearestK(g, ideal, low, high);
    if low < b { OffRises(g, ideal, low, b); }
  }

  // ---------------------------------------------------------------- the winner among the dividers

  // The M a divider would have, if it has any.
  function Nominee(p: Pll, fIn: int, target: int, d: int): Option<int>
    requires Positive(p, fIn)
  {
    if !p.vcoOut.Has(target * d) || p.vcoIn.hi < 1 then None
    else
      var w := WindowOf(p, fIn, target * d);
      if w.low > w.high then None else Some(w.s * NearestK(w.g, p.ideal, w.low, w.high))
  }

  function Distance(p: Pll, fIn: int, m: int): real
    requires m != 0
  {
    Abs(VcoIn(fIn, m) - p.ideal as real)
  }

  // M is at least as good as the other by the search's score: nearer input first, then the smaller.
  predicate NoWorse(p: Pll, fIn: int, m: int, other: int) {
    m >= 1 && other >= 1 &&
    (Distance(p, fIn, m) < Distance(p, fIn, other) || (Distance(p, fIn, m) == Distance(p, fIn, other) && m <= other))
  }

  lemma NomineeIsBest(p: Pll, fIn: int, target: int, d: int)
    requires Positive(p, fIn) && d in p.divs
    ensures Nominee(p, fIn, target, d).None? ==> forall m, n :: !Fits(p, fIn, target, m, n, d)
    ensures Nominee(p, fIn, target, d).Some? ==> exists n :: Fits(p, fIn, target, Nominee(p, fIn, target, d).value, n, d)
    ensures forall m, n :: Fits(p, fIn, target, m, n, d) ==> NoWorse(p, fIn, Nominee(p, fIn, target, d).value, m)
  {
    var nominee := Nominee(p, fIn, target, d);
    forall m, n | Fits(p, fIn, target, m, n, d) ensures nominee.Some? && NoWorse(p, fIn, nominee.value, m) {
      FitIsNoBetter(p, fIn, target, m, n, d);
    }
    if nominee.Some? {
      var w := WindowOf(p, fIn, target * d);
      NearestKIsNearest(w.g, p.ideal, w.low, w.high, w.low);
      MultipleFits(p, fIn, target, NearestK(w.g, p.ideal, w.low, w.high), d);
    }
  }

  lemma NearestIsNoWorse(p: Pll, fIn: int, s: int, g: int, low: int, high: int, k: int)
    requires s >= 1 && g >= 1 && s * g == fIn && 1 <= low <= k <= high
    ensures NoWorse(p, fIn, s * NearestK(g, p.ideal, low, high), s * k)
  {
    var b := NearestK(g, p.ideal, low, high);
    NearestKIsNearest(g, p.ideal, low, high, k);
    VcoInIs(fIn, s, g, k);
    VcoInIs(fIn, s, g, b);
    if b <= k { MulMono(b, k, s); }
  }

  lemma FitIsNoBetter(p: Pll, fIn: int, target: int, m: int, n: int, d: int)
    requires Positive(p, fIn) && Fits(p, fIn, target, m, n, d)
    ensures Nominee(p, fIn, target, d).Some? && NoWorse(p, fIn, Nominee(p, fIn, target, d).value, m)
  {
    var k := FitIsMultiple(p, fIn, target, m, n, d);
    var w := WindowOf(p, fIn, target * d);
    NearestIsNoWorse(p, fIn, w.s, w.g, w.low, w.high, k);
  }

  // With `usb`, only the dividers whose VCO output gives 48 MHz stand.
  predicate Stands(p: Pll, target: int, d: int, usb: bool) {
    usb ==> UsbDivider(target * d, p.q).Some?
  }

  function Better(p: Pll, fIn: int, a: Option<int>, b: Option<int>): Option<int> {
    if a.None? then b else if b.None? || NoWorse(p, fIn, a.value, b.value) then a else b
  }

  // The best nominee of these dividers: what the closed form answers.
  function Winner(p: Pll, fIn: int, target: int, divs: seq<int>, usb: bool): Option<int>
    requires Positive(p, fIn)
  {
    if divs == [] then None
    else
      var d := divs[|divs| - 1];
      Better(p, fIn, Winner(p, fIn, target, divs[..|divs| - 1], usb),
             if Stands(p, target, d, usb) then Nominee(p, fIn, target, d) else None)
  }

  lemma NomineeIsPositive(p: Pll, fIn: int, target: int, d: int)
    requires Positive(p, fIn)
    ensures Nominee(p, fIn, target, d).Some? ==> Nominee(p, fIn, target, d).value >= 1
  {
    if Nominee(p, fIn, target, d).Some? {
      var w := WindowOf(p, fIn, target * d);
      NearestKIsNearest(w.g, p.ideal, w.low, w.high, w.low);
      MulMono(1, w.s, NearestK(w.g, p.ideal, w.low, w.high));
    }
  }

  lemma {:induction false} WinnerIsBest(p: Pll, fIn: int, target: int, divs: seq<int>, usb: bool)
    requires Positive(p, fIn)
    ensures var w := Winner(p, fIn, target, divs, usb);
            && (w.Some? ==> w.value >= 1 && exists d :: d in divs && Stands(p, target, d, usb) && Nominee(p, fIn, target, d) == w)
            && forall d :: d in divs && Stands(p, target, d, usb) && Nominee(p, fIn, target, d).Some? ==>
                 w.Some? && NoWorse(p, fIn, w.value, Nominee(p, fIn, target, d).value)
  {
    if divs != [] {
      var n := |divs| - 1;
      WinnerIsBest(p, fIn, target, divs[..n], usb);
      NomineeIsPositive(p, fIn, target, divs[n]);
      assert divs == divs[..n] + [divs[n]];
    }
  }

  /** The search finds something exactly when some divider's window is not empty. */
  lemma ReachableIff(p: Pll, fIn: int, target: int)
    requires Positive(p, fIn)
    ensures (exists m, n, d :: Fits(p, fIn, target, m, n, d)) <==> Winner(p, fIn, target, p.divs, false).Some?
  {
    WinnerIsBest(p, fIn, target, p.divs, false);
    if m, n, d :| Fits(p, fIn, target, m, n, d) { NomineeIsBest(p, fIn, target, d); }
    if Winner(p, fIn, target, p.divs, false).Some? {
      var d :| d in p.divs && Nominee(p, fIn, target, d) == Winner(p, fIn, target, p.divs, false);
      NomineeIsBest(p, fIn, target, d);
      var n :| Fits(p, fIn, target, Nominee(p, fIn, target, d).value, n, d);
    }
  }

  // Whether only dividers that give 48 MHz stand: it was asked for and one of those fits.
  predicate UsbOnly(p: Pll, fIn: int, target: int, need48: bool)
    requires Positive(p, fIn)
  {
    need48 && Winner(p, fIn, target, p.divs, true).Some?
  }

  // The M the search settles on.
  function ChosenM(p: Pll, fIn: int, target: int, need48: bool): Option<int>
    requires Positive(p, fIn)
  {
    Winner(p, fIn, target, p.divs, UsbOnly(p, fIn, target, need48))
  }

  lemma BestStands(p: Pll, fIn: int, target: int, need48: bool, c: Core)
    requires Positive(p, fIn) && IsBest(p, fIn, target, need48, c)
    ensures Stands(p, target, c.div, UsbOnly(p, fIn, target, need48))
    ensures need48 && !UsbOnly(p, fIn, target, need48) ==>
              forall m, n, d :: Fits(p, fIn, target, m, n, d) ==> UsbDivider(target * d, p.q).None?
  {
    WinnerIsBest(p, fIn, target, p.divs, true);
    if UsbOnly(p, fIn, target, need48) {
      var d :| d in p.divs && Stands(p, target, d, true) && Nominee(p, fIn, target, d) == Winner(p, fIn, target, p.divs, true);
      NomineeIsBest(p, fIn, target, d);
      var n :| Fits(p, fIn, target, Nominee(p, fIn, target, d).value, n, d);
      UsbIsPreferred(p, fIn, target, c, Nominee(p, fIn, target, d).value, n, d);
    } else if need48 {
      forall m, n, d | Fits(p, fIn, target, m, n, d) ensures UsbDivider(target * d, p.q).None? {
        NomineeIsBest(p, fIn, target, d);
      }
    }
  }

  // Among those that stand, only the input's distance, M and N are left to decide.
  lemma BestIsNoWorse(p: Pll, fIn: int, target: int, need48: bool, c: Core, m: int, n: int, d: int)
    requires Positive(p, fIn) && IsBest(p, fIn, target, need48, c)
    requires Fits(p, fIn, target, m, n, d) && Stands(p, target, d, UsbOnly(p, fIn, target, need48))
    ensures NoWorse(p, fIn, c.m, m)
  {
    BestStands(p, fIn, target, need48, c);
    assert !Less(ScoreOf(p, fIn, target, need48, m, n, d), ScoreOf(p, fIn, target, need48, c.m, c.n, c.div));
  }

  /** The search in closed form: for every device and positive source, the M it settles on is the best
      of one nominee per divider. */
  lemma SearchChoosesTheWinner(p: Pll, fIn: int, target: int, need48: bool, c: Core)
    requires Positive(p, fIn) && IsBest(p, fIn, target, need48, c)
    ensures ChosenM(p, fIn, target, need48) == Some(c.m)
  {
    var usb := UsbOnly(p, fIn, target, need48);
    BestStands(p, fIn, target, need48, c);
    WinnerIsBest(p, fIn, target, p.divs, usb);
    NomineeIsBest(p, fIn, target, c.div);
    var w := ChosenM(p, fIn, target, need48);
    assert NoWorse(p, fIn, Nominee(p, fIn, target, c.div).value, c.m);
    var d :| d in p.divs && Stands(p, target, d, usb) && Nominee(p, fIn, target, d) == w;
    NomineeIsBest(p, fIn, target, d);
    var n :| Fits(p, fIn, target, w.value, n, d);
    BestIsNoWorse(p, fIn, target, need48, c, w.value, n, d);
  }

  lemma NoWorseIsNoGreater(p: Pll, fIn: int, a: int, b: int)
    requires fIn >= 1 && NoWorse(p, fIn, a, b) && VcoIn(fIn, a) <= p.ideal as real && VcoIn(fIn, b) <= p.ideal as real
    ensures a <= b
  {
    if b < a { QuotientFalls(fIn, b, a); }
  }

  lemma LowestIsNominated(p: Pll, fIn: int, target: int, m: int, n: int, d: int)
    requires Positive(p, fIn) && Fits(p, fIn, target, m, n, d) && p.ideal >= p.vcoIn.hi
    ensures p.vcoIn.hi >= 1
    ensures var w := WindowOf(p, fIn, target * d); Nominee(p, fIn, target, d) == Some(w.s * w.low) && w.s * w.low <= m
  {
    var k := FitIsMultiple(p, fIn, target, m, n, d);
    var w := WindowOf(p, fIn, target * d);
    HighIdealIsLow(w.g, p.ideal, p.vcoIn.hi, w.low, w.high);
    MulMono(w.low, k, w.s);
  }

  /** Where the ideal is at or above the fastest input allowed, as on the built-in devices, a divider's
      nominee is its least M, and the chosen one is the least of all that fit and stand. */
  lemma HighIdealChoosesTheLeast(p: Pll, fIn: int, target: int, need48: bool, c: Core, m: int, n: int, d: int)
    requires Positive(p, fIn) && IsBest(p, fIn, target, need48, c) && p.ideal >= p.vcoIn.hi
    requires Fits(p, fIn, target, m, n, d) && Stands(p, target, d, UsbOnly(p, fIn, target, need48))
    ensures c.m <= m
    ensures var w := WindowOf(p, fIn, target * d); Nominee(p, fIn, target, d) == Some(w.s * w.low) && w.s * w.low <= m
  {
    BestIsNoWorse(p, fIn, target, need48, c, m, n, d);
    NoWorseIsNoGreater(p, fIn, c.m, m);
    LowestIsNominated(p, fIn, target, m, n, d);
  }

  // ---------------------------------------------------------------- when M divides the source

  /** The quotient reported as the VCO input is cut towards zero, on either side of it. */
  lemma TruncatedTowardsZero(x: real)
    ensures Truncated(-x) == -Truncated(x)
    ensures x >= 0.0 ==> 0 <= Truncated(x) && Truncated(x) as real <= x < Truncated(x) as real + 1.0
  {}

  lemma TruncatedIsExactIff(fIn: int, m: int)
    requires fIn >= 1 && m >= 1
    ensures Truncated(VcoIn(fIn, m)) * m == fIn <==> fIn % m == 0
  {
    var q := fIn / m;
    assert fIn == q * m + fIn % m;
    assert fIn as real == q as real * m as real + (fIn % m) as real;
    QuotientAtMost(fIn as real, m as real, (q + 1) as real);
    QuotientAtMost(fIn as real, m as real, q as real);
    assert (q + 1) as real * m as real == q as real * m as real + m as real;
    assert VcoIn(fIn, m) >= q as real;
    AtMostFloor(fIn, m, 0);
    assert VcoIn(fIn, m).Floor == q;
  }

  lemma DividesIff(s: int, g: int, k: int)
    requires s >= 1 && g >= 1 && k >= 1
    ensures s * k >= 1 && ((s * g) % (s * k) == 0 <==> g % k == 0)
  {
    MulMono(1, s, k);
    if g % k == 0 {
      var q := g / k;
      assert g == k * q;
      assert s * g == (s * k) * q;
      ExactQuotient(s * g, s * k, q);
    }
    if (s * g) % (s * k) == 0 {
      var q := s * g / (s * k);
      assert s * g == (s * k) * q;
      assert g * s == (k * q) * s;
      CancelEqual(g, k * q, s);
      ExactQuotient(g, k, q);
    }
  }

  /** When the comment in the search is right: the chosen M divides the source frequency, and so the VCO
      input that is reported is exact, precisely when the closed form's M does; which is when its
      multiplier divides gcd(f_in, vco_out). */
  lemma ChosenMDividesIff(p: Pll, fIn: int, target: int, need48: bool, c: Core)
    requires Positive(p, fIn) && IsBest(p, fIn, target, need48, c)
    ensures ChosenM(p, fIn, target, need48).Some? && ChosenM(p, fIn, target, need48).value >= 1
    ensures c.vcoIn * c.m == fIn <==> fIn % ChosenM(p, fIn, target, need48).value == 0
    ensures p.vcoIn.hi >= 1
    ensures var w := WindowOf(p, fIn, target * c.div);
            && c.m % w.s == 0 && c.m / w.s >= 1
            && (c.vcoIn * c.m == fIn <==> w.g % (c.m / w.s) == 0)
  {
    SearchChoosesTheWinner(p, fIn, target, need48, c);
    TruncatedIsExactIff(fIn, c.m);
    var k := FitIsMultiple(p, fIn, target, c.m, c.n, c.div);
    var w := WindowOf(p, fIn, target * c.div);
    ExactQuotient(c.m, w.s, k);
    DividesIff(w.s, w.g, k);
  }

  const HSE_HZ := 25 * MHZ
  const UNEVEN := Core(13, 104, 2, None, 1923076, 200 * MHZ)

  lemma SlowEnough(m: int)
    requires m >= 1 && VcoIn(HSE_HZ, m) <= (2 * MHZ) as real
    ensures m >= 13
  {
    QuotientAtMost(HSE_HZ as real, m as real, (2 * MHZ) as real);
  }

  /** And it can be wrong: an STM32F411 with a 25 MHz crystal and a 100 MHz target gets M = 13, which
      does not divide 25 MHz, and a truncated VCO input; M = 25 fits and divides it. */
  lemma ChosenMNeedNotDivide()
    ensures IsBest(F411.pll, HSE_HZ, 100 * MHZ, false, UNEVEN)
    ensures HSE_HZ % UNEVEN.m == 12 && UNEVEN.vcoIn * UNEVEN.m != HSE_HZ
    ensures Fits(F411.pll, HSE_HZ, 100 * MHZ, 25, 200, 2) && HSE_HZ % 25 == 0
    ensures ChosenM(F411.pll, HSE_HZ, 100 * MHZ, false) == Some(13)
  {
    var p, target := F411.pll, 100 * MHZ;
    assert Fits(p, HSE_HZ, target, 13, 104, 2);
    forall m, n, d | Fits(p, HSE_HZ, target, m, n, d)
      ensures !Less(ScoreOf(p, HSE_HZ, target, false, m, n, d), ScoreOf(p, HSE_HZ, target, false, 13, 104, 2))
    {
      SlowEnough(m);
      if m > 13 { QuotientFalls(HSE_HZ, 13, m); }
    }
    SearchChoosesTheWinner(p, HSE_HZ, target, false, UNEVEN);
  }
}
