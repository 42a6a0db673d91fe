/**
The clock-tree solver (clock_solver.py): an exhaustive PLL search with a lexicographic score,
greedy bus prescalers and flash latency. Frequencies are integers in hertz; the quotient
f_in / M, a float in the source, is the exact rational here.
*/
module ClockSolver {
  import opened Arithmetic
  import opened Options

  const MHZ := 1_000_000
  const USB_HZ := 48 * MHZ
  const AHB_DIVS := [1, 2, 4, 8, 16, 64, 128, 256, 512]
  const APB_DIVS := [1, 2, 4, 8, 16]

  datatype Range = Range(lo: int, hi: int) {
    predicate Has(x: int) { lo <= x <= hi }
  }

  // `q`: no Q divider when empty, an inclusive range when it has two elements, a set of values
  // otherwise.
  datatype Pll = Pll(m: Range, n: Range, vcoIn: Range, vcoOut: Range, ideal: int, divs: seq<int>, q: seq<int>)

  datatype Row = Row(maxHclk: int, waitStates: int)

  datatype Profile = Profile(pll: Pll, hsi: Option<int>, maxSysclk: int, maxHclk: int,
                             maxPclk1: int, maxPclk2: int, flash: seq<Row>)

  predicate WellFormed(p: Profile) {
    p.pll.m.lo >= 1 && p.flash != []
  }

  // ---------------------------------------------------------------- the 48 MHz divider

  predicate QAllowed(spec: seq<int>, q: int) {
    spec != [] && if |spec| == 2 then spec[0] <= q <= spec[1] else q in spec
  }

  /** The Q that gives exactly 48 MHz, if the device has it. There is at most one. */
  function UsbDivider(vcoOut: int, spec: seq<int>): Option<int> {
    if vcoOut != 0 && vcoOut % USB_HZ == 0 && QAllowed(spec, vcoOut / USB_HZ) then Some(vcoOut / USB_HZ) else None
  }

  predicate Gives48(vcoOut: int, q: int) {
    q != 0 && vcoOut % q == 0 && vcoOut / q == USB_HZ
  }

  lemma Gives48Iff(vcoOut: int, q: int)
    ensures Gives48(vcoOut, q) <==> q != 0 && vcoOut == q * USB_HZ
    ensures Gives48(vcoOut, q) <==> vcoOut != 0 && vcoOut % USB_HZ == 0 && q == vcoOut / USB_HZ
  {
    if q != 0 {
      if vcoOut == q * USB_HZ {
        ExactQuotient(vcoOut, q, USB_HZ);
      }
    }
  }

  lemma UsbDividerIff(vcoOut: int, spec: seq<int>)
    ensures forall k :: UsbDivider(vcoOut, spec) == Some(k) <==>
              k != 0 && vcoOut == k * 48_000_000 && if |spec| == 2 then spec[0] <= k <= spec[1] else k in spec
  {}

  method BestQ(vcoOut: int, spec: seq<int>) returns (q: Option<int>)
    ensures q == UsbDivider(vcoOut, spec)
    ensures forall k :: q == Some(k) <==>
              k != 0 && vcoOut == k * 48_000_000 && if |spec| == 2 then spec[0] <= k <= spec[1] else k in spec
  {
    UsbDividerIff(vcoOut, spec);
    if spec == [] {
      return None;
    }
    if |spec| == 2 {
      var c := spec[0];
      while c < spec[1] + 1
        invariant forall k :: spec[0] <= k < c ==> !Gives48(vcoOut, k)
      {
        Gives48Iff(vcoOut, c);
        if Gives48(vcoOut, c) {
          return Some(c);
        }
        c := c + 1;
      }
    } else {
      for i := 0 to |spec|
        invariant forall k :: 0 <= k < i ==> !Gives48(vcoOut, spec[k])
      {
        Gives48Iff(vcoOut, spec[i]);
        if Gives48(vcoOut, spec[i]) {
          return Some(spec[i]);
        }
      }
    }
    Gives48Iff(vcoOut, vcoOut / USB_HZ);
    return None;
  }

  // ---------------------------------------------------------------- the search

  datatype Score = Score(penalty: int, dist: real, m: int, n: int)

  predicate Less(a: Score, b: Score) {
    || a.penalty < b.penalty
    || (a.penalty == b.penalty &&
        (a.dist < b.dist || (a.dist == b.dist && (a.m < b.m || (a.m == b.m && a.n < b.n)))))
  }

  datatype Core = Core(m: int, n: int, div: int, q: Option<int>, vcoIn: int, vcoOut: int)

  function VcoIn(fIn: int, m: int): real
    requires m != 0
  {
    fIn as real / m as real
  }

  function Truncated(x: real): int {
    if x >= 0.0 then x.Floor else -((-x).Floor)
  }

  function Abs(x: real): real {
    if x < 0.0 then -x else x
  }

  /** A divider triple that reaches the target exactly within the device's ranges. */
  predicate Fits(p: Pll, fIn: int, target: int, m: int, n: int, d: int)
    requires p.m.lo >= 1
  {
    && d in p.divs && p.m.Has(m) && p.n.Has(n)
    && target * d * m == fIn * n
    && p.vcoOut.Has(target * d)
    && p.vcoIn.lo as real <= VcoIn(fIn, m) <= p.vcoIn.hi as real
  }

  function ScoreOf(p: Pll, fIn: int, target: int, need48: bool, m: int, n: int, d: int): Score
    requires m != 0
  {
    Score(if UsbDivider(target * d, p.q).Some? || !need48 then 0 else 1, Abs(VcoIn(fIn, m) - p.ideal as real), m, n)
  }

  function CoreOf(p: Pll, fIn: int, target: int, m: int, n: int, d: int): Core
    requires m != 0
  {
    Core(m, n, d, UsbDivider(target * d, p.q), Truncated(VcoIn(fIn, m)), target * d)
  }

  /** What the search is for. */
  ghost predicate IsBest(p: Pll, fIn: int, target: int, need48: bool, c: Core)
    requires p.m.lo >= 1
  {
    && Fits(p, fIn, target, c.m, c.n, c.div)
    && c == CoreOf(p, fIn, target, c.m, c.n, c.div)
    && forall m, n, d :: Fits(p, fIn, target, m, n, d) ==>
         !Less(ScoreOf(p, fIn, target, need48, m, n, d), ScoreOf(p, fIn, target, need48, c.m, c.n, c.div))
  }

  // The triple an iteration of the two loops arrives at.
  lemma TripleOf(fIn: int, target: int, m: int, n: int, d: int)
    requires fIn != 0
    ensures target * d * m == fIn * n <==> (target * d * m) % fIn == 0 && n == target * d * m / fIn
  {
    if target * d * m == fIn * n { ExactQuotient(target * d * m, fIn, n); }
  }

  // No triple of (d, m) is better than what has been found.
  ghost predicate Beaten(p: Pll, fIn: int, target: int, need48: bool, best: Option<Core>, d: int, m: int)
    requires p.m.lo >= 1 && (best.Some? ==> best.value.m != 0)
  {
    forall n :: Fits(p, fIn, target, m, n, d) ==>
      best.Some? && !Less(ScoreOf(p, fIn, target, need48, m, n, d),
                          ScoreOf(p, fIn, target, need48, best.value.m, best.value.n, best.value.div))
  }

  method SearchPll(p: Pll, fIn: int, target: int, need48: bool) returns (best: Option<Core>)
    requires p.m.lo >= 1 && fIn != 0
    ensures best.None? <==> forall m, n, d :: !Fits(p, fIn, target, m, n, d)
    ensures best.Some? ==> IsBest(p, fIn, target, need48, best.value)
  {
    best := None;
    for i := 0 to |p.divs|
      invariant best.Some? ==> Fits(p, fIn, target, best.value.m, best.value.n, best.value.div)
      invariant best.Some? ==> best.value == CoreOf(p, fIn, target, best.value.m, best.value.n, best.value.div)
      invariant forall k, m :: 0 <= k < i ==> Beaten(p, fIn, target, need48, best, p.divs[k], m)
    {
      var d := p.divs[i];
      var vcoOut := target * d;
      if p.vcoOut.Has(vcoOut) {
        var m := p.m.lo;
        while m < p.m.hi + 1
          invariant m >= p.m.lo
          invariant best.Some? ==> Fits(p, fIn, target, best.value.m, best.value.n, best.value.div)
          invariant best.Some? ==> best.value == CoreOf(p, fIn, target, best.value.m, best.value.n, best.value.div)
          invariant forall k, o :: 0 <= k < i ==> Beaten(p, fIn, target, need48, best, p.divs[k], o)
          invariant forall o :: o < m ==> Beaten(p, fIn, target, need48, best, d, o)
        {
          ghost var before := best;
          best := Tried(p, fIn, target, need48, best, d, m);
          m := m + 1;
        }
      }
    }
    if fit: (int, int, int) :| Fits(p, fIn, target, fit.0, fit.1, fit.2) {
      var k :| 0 <= k < |p.divs| && p.divs[k] == fit.2;
      assert Beaten(p, fIn, target, need48, best, p.divs[k], fit.0);
    }
    forall m, n, d | Fits(p, fIn, target, m, n, d)
      ensures best.Some? && !Less(ScoreOf(p, fIn, target, need48, m, n, d),
                                  ScoreOf(p, fIn, target, need48, best.value.m, best.value.n, best.value.div))
    {
      var k :| 0 <= k < |p.divs| && p.divs[k] == d;
      assert Beaten(p, fIn, target, need48, best, p.divs[k], m);
    }
  }

  // The body of the inner loop.
  method Tried(p: Pll, fIn: int, target: int, need48: bool, best: Option<Core>, d: int, m: int)
    returns (better: Option<Core>)
    requires p.m.Has(m) && p.m.lo >= 1 && fIn != 0 && d in p.divs && p.vcoOut.Has(target * d)
    requires best.Some? ==> best.value.m != 0
    requires best.Some? ==> best.value == CoreOf(p, fIn, target, best.value.m, best.value.n, best.value.div)
    ensures better == best || (better.Some? && Fits(p, fIn, target, better.value.m, better.value.n, better.value.div) &&
                               better.value == CoreOf(p, fIn, target, better.value.m, better.value.n, better.value.div))
    ensures Beaten(p, fIn, target, need48, better, d, m)
    ensures forall e, o :: Beaten(p, fIn, target, need48, best, e, o) ==> Beaten(p, fIn, target, need48, better, e, o)
  {
    better := best;
    if fIn % m != 0 {
      if VcoIn(fIn, m) < p.vcoIn.lo as real || VcoIn(fIn, m) > p.vcoIn.hi as real {
        return;
      }
    }
    var vcoIn := VcoIn(fIn, m);
    if !(p.vcoIn.lo as real <= vcoIn <= p.vcoIn.hi as real) {
      return;
    }
    var num := target * d * m;
    forall n ensures target * d * m == fIn * n <==> num % fIn == 0 && n == num / fIn { TripleOf(fIn, target, m, n, d); }
    if num % fIn != 0 {
      return;
    }
    var n := num / fIn;
    if !p.n.Has(n) {
      return;
    }
    var q := BestQ(target * d, p.q);
    var score := Score(if q.Some? || !need48 then 0 else 1, Abs(vcoIn - p.ideal as real), m, n);
    var candidate := Core(m, n, d, q, Truncated(vcoIn), target * d);
    if best.None? || Less(score, ScoreOf(p, fIn, target, need48, best.value.m, best.value.n, best.value.div)) {
      better := Some(candidate);
    }
  }

  /** Distinct triples that reach a nonzero target have distinct scores. */
  lemma ScoresAreDistinct(p: Pll, fIn: int, target: int, need48: bool, m: int, n: int, d: int, m': int,
                          n': int, d': int)
    requires p.m.lo >= 1 && target != 0
    requires Fits(p, fIn, target, m, n, d) && Fits(p, fIn, target, m', n', d')
    requires ScoreOf(p, fIn, target, need48, m, n, d) == ScoreOf(p, fIn, target, need48, m', n', d')
    ensures m == m' && n == n' && d == d'
  {
    assert target * d * m == target * d' * m;
    assert (target * m) * (d - d') == 0;
  }

  // The same device with its SYSCLK dividers enumerated differently.
  ghost predicate SameButForOrder(p: Pll, p': Pll) {
    p' == p.(divs := p'.divs) && forall d :: d in p.divs <==> d in p'.divs
  }

  /** So the best triple is unique, and neither the order in which the dividers are tried nor
      repetitions among them change the answer. */
  lemma AnswerIsUnique(p: Pll, p': Pll, fIn: int, target: int, need48: bool, c: Core, c': Core)
    requires p.m.lo >= 1 && target != 0 && SameButForOrder(p, p')
    requires IsBest(p, fIn, target, need48, c) && IsBest(p', fIn, target, need48, c')
    ensures c == c'
  {
    assert Fits(p, fIn, target, c'.m, c'.n, c'.div) && Fits(p', fIn, target, c.m, c.n, c.div);
    ScoresAreDistinct(p, fIn, target, need48, c.m, c.n, c.div, c'.m, c'.n, c'.div);
  }

  /** 48 MHz wins over everything else: if it is asked for and any fitting triple allows it, the
      answer has it. */
  lemma UsbIsPreferred(p: Pll, fIn: int, target: int, c: Core, m: int, n: int, d: int)
    requires p.m.lo >= 1 && IsBest(p, fIn, target, true, c)
    requires Fits(p, fIn, target, m, n, d) && UsbDivider(target * d, p.q).Some?
    ensures c.q.Some? && c.vcoOut == c.q.value * USB_HZ
  {
    assert !Less(ScoreOf(p, fIn, target, true, m, n, d), ScoreOf(p, fIn, target, true, c.m, c.n, c.div));
  }

  // ---------------------------------------------------------------- prescalers and latency

  predicate Divides(clock: int, max: int, div: int)
    requires div != 0
  {
    clock % div == 0 && clock / div <= max
  }

  method BusPrescaler(clock: int, max: int, divs: seq<int>) returns (r: Option<int>)
    requires forall k :: 0 <= k < |divs| ==> divs[k] > 0
    ensures r.None? <==> forall k :: 0 <= k < |divs| ==> !Divides(clock, max, divs[k])
    ensures r.Some? ==> r.value in divs && r.value > 0 && Divides(clock, max, r.value)
    ensures r.Some? && Ascending(divs) ==> forall k :: 0 <= k < |divs| && Divides(clock, max, divs[k]) ==> r.value <= divs[k]
  {
    for i := 0 to |divs|
      invariant forall k :: 0 <= k < i ==> !Divides(clock, max, divs[k])
    {
      if clock % divs[i] == 0 && clock / divs[i] <= max {
        return Some(divs[i]);
      }
    }
    return None;
  }

  predicate Ascending(s: seq<int>) {
    forall i, j :: 0 <= i < j < |s| ==> s[i] <= s[j]
  }

  method FlashLatency(hclk: int, table: seq<Row>) returns (ws: int)
    requires table != []
    ensures IsLatency(hclk, table, ws)
  {
    for i := 0 to |table|
      invariant forall k :: 0 <= k < i ==> hclk > table[k].maxHclk
    {
      if hclk <= table[i].maxHclk {
        return table[i].waitStates;
      }
    }
    return table[|table| - 1].waitStates;
  }

  // The first row that covers, or the last one.
  ghost predicate IsLatency(hclk: int, table: seq<Row>, ws: int)
    requires table != []
  {
    exists i :: 0 <= i < |table| && ws == table[i].waitStates && (forall k :: 0 <= k < i ==> hclk > table[k].maxHclk) &&
                (hclk <= table[i].maxHclk || i == |table| - 1)
  }

  ghost predicate SortedTable(table: seq<Row>) {
    forall i, j :: 0 <= i < j < |table| ==> table[i].maxHclk <= table[j].maxHclk && table[i].waitStates <= table[j].waitStates
  }

  /** For a sorted table whose last row covers HCLK the wait states are adequate and the least that are. */
  lemma LatencyIsLeastAdequate(hclk: int, table: seq<Row>, ws: int)
    requires table != [] && SortedTable(table) && hclk <= table[|table| - 1].maxHclk && IsLatency(hclk, table, ws)
    ensures exists i :: 0 <= i < |table| && ws == table[i].waitStates && hclk <= table[i].maxHclk
    ensures forall k :: 0 <= k < |table| && hclk <= table[k].maxHclk ==> ws <= table[k].waitStates
  {}

  /** Past the last row the code still answers, with wait states no row grants for that HCLK. */
  lemma PastTheTableNothingCovers(hclk: int, table: seq<Row>, ws: int)
    requires table != [] && SortedTable(table) && IsLatency(hclk, table, ws)
    ensures (exists i :: 0 <= i < |table| && hclk <= table[i].maxHclk && ws == table[i].waitStates) <==>
            hclk <= table[|table| - 1].maxHclk
  {
    if hclk <= table[|table| - 1].maxHclk { LatencyIsLeastAdequate(hclk, table, ws); }
  }

  // ---------------------------------------------------------------- the whole tree

  datatype Source = HSI | HSE | OtherSource

  datatype Request = Request(source: Source, sourceHz: Option<int>, target: Option<int>, need48: bool)

  datatype Code = TargetMissing | HseUnknown | UnsupportedSource | TargetTooHigh | NoPll | NoAhb | NoApb

  datatype Solution = Solution(fIn: int, pll: Option<Core>, sysclk: int, hclk: int, pclk1: int, pclk2: int,
                               ahb: int, apb1: int, apb2: int, latency: int, clk48: Option<int>, usbOk: bool)

  datatype Tree = Infeasible(code: Code) | Feasible(solution: Solution)

  function Truthy(hz: Option<int>): bool {
    hz.Some? && hz.value != 0
  }

  function SourceHz(p: Profile, r: Request): Option<int> {
    match r.source
    case HSI => Some(if Truthy(p.hsi) then p.hsi.value else 16 * MHZ)
    case HSE => if Truthy(r.sourceHz) then r.sourceHz else None
    case OtherSource => None
  }

  ghost predicate PllReaches(p: Profile, fIn: int, target: int)
    requires WellFormed(p)
  {
    exists m, n, d :: Fits(p.pll, fIn, target, m, n, d)
  }

  ghost predicate Divisible(clock: int, max: int, divs: seq<int>)
    requires forall k :: 0 <= k < |divs| ==> divs[k] > 0
  {
    exists k :: 0 <= k < |divs| && Divides(clock, max, divs[k])
  }

  // The least of these prescalers that works.
  ghost predicate LeastPrescaler(clock: int, max: int, divs: seq<int>, div: int, slower: int)
    requires forall k :: 0 <= k < |divs| ==> divs[k] > 0
  {
    && div in divs && slower * div == clock && slower <= max
    && forall k :: 0 <= k < |divs| && Divides(clock, max, divs[k]) ==> div <= divs[k]
  }

  // SYSCLK is the source itself, or f_in * N / (M * D) with the best triple; 48 MHz is exact.
  ghost predicate PllExact(p: Profile, need48: bool, s: Solution)
    requires WellFormed(p)
  {
    match s.pll
    case None => s.sysclk == s.fIn && !s.usbOk && s.clk48.None?
    case Some(core) =>
      && s.sysclk != s.fIn
      && IsBest(p.pll, s.fIn, s.sysclk, need48, core)
      && s.sysclk * core.div * core.m == s.fIn * core.n
      && s.usbOk == core.q.Some?
      && s.clk48 == (if s.usbOk then Some(USB_HZ) else None)
      && (s.usbOk ==> USB_HZ * core.q.value == s.sysclk * core.div)
  }

  // Every bus clock is an exact quotient within its limit, by the least prescaler that does it.
  ghost predicate BusesExact(p: Profile, s: Solution) {
    && LeastPrescaler(s.sysclk, p.maxHclk, AHB_DIVS, s.ahb, s.hclk)
    && LeastPrescaler(s.hclk, p.maxPclk1, APB_DIVS, s.apb1, s.pclk1)
    && LeastPrescaler(s.hclk, p.maxPclk2, APB_DIVS, s.apb2, s.pclk2)
  }

  /** What a feasible answer promises, clock by clock. */
  ghost predicate Exact(p: Profile, r: Request, s: Solution)
    requires WellFormed(p)
  {
    && SourceHz(p, r) == Some(s.fIn) && r.target == Some(s.sysclk) && s.sysclk <= p.maxSysclk
    && PllExact(p, r.need48, s) && BusesExact(p, s) && IsLatency(s.hclk, p.flash, s.latency)
  }

  /** Each refusal, exactly when it is given. `hclk` is the clock the greedy AHB choice leaves. */
  ghost predicate Refused(p: Profile, r: Request, code: Code)
    requires WellFormed(p)
  {
    if !Truthy(r.target) then code == TargetMissing
    else if SourceHz(p, r).None? then code == if r.source.HSE? then HseUnknown else UnsupportedSource
    else
      var target, fIn := r.target.value, SourceHz(p, r).value;
      if target > p.maxSysclk then code == TargetTooHigh
      else if target != fIn && !PllReaches(p, fIn, target) then code == NoPll
      else if !Divisible(target, p.maxHclk, AHB_DIVS) then code == NoAhb
      else code == NoApb && exists ahb, hclk :: ApbFails(p, target, ahb, hclk)
  }

  method LeastOf(clock: int, max: int, divs: seq<int>) returns (r: Option<int>)
    requires (forall k :: 0 <= k < |divs| ==> divs[k] > 0) && Ascending(divs)
    ensures r.None? <==> !Divisible(clock, max, divs)
    ensures r.Some? ==> r.value > 0 && LeastPrescaler(clock, max, divs, r.value, clock / r.value)
  {
    r := BusPrescaler(clock, max, divs);
    if r.Some? {
      assert clock == r.value * (clock / r.value) + clock % r.value;
    }
  }

  // What the buses make of a SYSCLK.
  datatype Buses = NoAhbDivider | NoApbDivider | Buses(ahb: int, hclk: int, apb1: int, pclk1: int, apb2: int, pclk2: int)

  ghost predicate BusesOk(p: Profile, target: int, b: Buses) {
    match b
    case NoAhbDivider => !Divisible(target, p.maxHclk, AHB_DIVS)
    case NoApbDivider =>
      && Divisible(target, p.maxHclk, AHB_DIVS)
      && exists ahb, hclk :: ApbFails(p, target, ahb, hclk)
    case Buses(ahb, hclk, apb1, pclk1, apb2, pclk2) =>
      && LeastPrescaler(target, p.maxHclk, AHB_DIVS, ahb, hclk)
      && LeastPrescaler(hclk, p.maxPclk1, APB_DIVS, apb1, pclk1)
      && LeastPrescaler(hclk, p.maxPclk2, APB_DIVS, apb2, pclk2)
  }

  ghost predicate ApbFails(p: Profile, target: int, ahb: int, hclk: int) {
    LeastPrescaler(target, p.maxHclk, AHB_DIVS, ahb, hclk) &&
    !(Divisible(hclk, p.maxPclk1, APB_DIVS) && Divisible(hclk, p.maxPclk2, APB_DIVS))
  }

  method SolveBuses(p: Profile, target: int) returns (b: Buses)
    ensures BusesOk(p, target, b)
  {
    var ahb := LeastOf(target, p.maxHclk, AHB_DIVS);
    if ahb.None? {
      return NoAhbDivider;
    }
    var hclk := target / ahb.value;
    assert ahb.value in AHB_DIVS;
    var apb1 := LeastOf(hclk, p.maxPclk1, APB_DIVS);
    var apb2 := LeastOf(hclk, p.maxPclk2, APB_DIVS);
    if apb1.None? || apb2.None? {
      assert ApbFails(p, target, ahb.value, hclk);
      return NoApbDivider;
    }
    return Buses(ahb.value, hclk, apb1.value, hclk / apb1.value, apb2.value, hclk / apb2.value);
  }

  // ---------------------------------------------------------------- when greedy is enough

  // Some prescalers, greedy or not, put every bus within its limit.
  ghost predicate TreeWith(p: Profile, target: int, a: int)
    requires a != 0
  {
    && Divides(target, p.maxHclk, a)
    && Divisible(target / a, p.maxPclk1, APB_DIVS) && Divisible(target / a, p.maxPclk2, APB_DIVS)
  }

  ghost predicate HasTree(p: Profile, target: int) {
    exists k :: 0 <= k < |AHB_DIVS| && TreeWith(p, target, AHB_DIVS[k])
  }

  ghost predicate GreedyFails(p: Profile, target: int) {
    exists ahb, hclk :: ApbFails(p, target, ahb, hclk)
  }

  // What AHB divider a is to a smaller one.
  const RATIOS := [1, 2, 4, 8, 16, 32, 64, 128, 256, 512]

  // What an AHB and an APB divider come to together: every power of two up to 2^13.
  const TREE_DIVS := [1, 2, 4, 8, 16, 32, 64, 128, 256, 512, 1024, 2048, 4096, 8192]

  lemma AhbRatio(g: int, a: int) returns (c: int)
    requires g in AHB_DIVS && a in AHB_DIVS && g <= a
    ensures c in RATIOS && a == g * c
  {
    c := if g == 1 then a else if g == 2 then a / 2 else if g == 4 then a / 4 else if g == 8 then a / 8
         else if g == 16 then a / 16 else if g == 64 then a / 64 else if g == 128 then a / 128
         else if g == 256 then a / 256 else a / 512;
  }

  lemma ApbTimesRatio(b: int, c: int)
    requires b in APB_DIVS && c in RATIOS
    ensures b * c in APB_DIVS || (b * c) % 16 == 0
  {
    if b == 1 {} else if b == 2 {} else if b == 4 {} else if b == 8 {} else {}
  }

  lemma MultipleOfMultiple(x: int, n: int, k: int)
    requires x == n * k && n % 16 == 0
    ensures x % 16 == 0
  {
    var m := n / 16;
    assert n == 16 * m;
    assert x == 16 * (m * k);
    ExactQuotient(x, 16, m * k);
  }

  lemma DividesAsApb(clock: int, b: int, k: int, max: int)
    requires b in APB_DIVS && clock == b * k && k <= max
    ensures Divisible(clock, max, APB_DIVS)
  {
    ExactQuotient(clock, b, k);
    var j :| 0 <= j < |APB_DIVS| && APB_DIVS[j] == b;
    assert Divides(clock, max, APB_DIVS[j]);
  }

  lemma ApbQuotient(clock: int, max: int) returns (b: int, k: int)
    requires Divisible(clock, max, APB_DIVS)
    ensures b in APB_DIVS && b > 0 && clock == b * k && k <= max
  {
    var i :| 0 <= i < |APB_DIVS| && Divides(clock, max, APB_DIVS[i]);
    b := APB_DIVS[i];
    k := clock / b;
    assert clock == b * k + clock % b;
  }

  // A clock that 16 does not divide loses nothing by being c times as fast.
  lemma FasterStillDivides(hclk: int, slow: int, c: int, max: int)
    requires c in RATIOS && hclk == slow * c && hclk % 16 != 0 && Divisible(slow, max, APB_DIVS)
    ensures Divisible(hclk, max, APB_DIVS)
  {
    var b, k := ApbQuotient(slow, max);
    assert hclk == (b * c) * k by { Regroup(b, k, c); }
    ApbTimesRatio(b, c);
    if b * c in APB_DIVS {
      DividesAsApb(hclk, b * c, k, max);
    } else {
      MultipleOfMultiple(hclk, b * c, k);
    }
  }

  lemma Regroup(b: int, k: int, c: int)
    ensures (b * k) * c == (b * c) * k
  {}

  // The least AHB divider and any other, for one SYSCLK.
  lemma GreedyIsFaster(p: Profile, target: int, ahb: int, hclk: int, a: int) returns (c: int)
    requires LeastPrescaler(target, p.maxHclk, AHB_DIVS, ahb, hclk) && a in AHB_DIVS && Divides(target, p.maxHclk, a)
    ensures ahb <= a && c in RATIOS && a == ahb * c && hclk == (target / a) * c
  {
    var i :| 0 <= i < |AHB_DIVS| && AHB_DIVS[i] == a;
    assert Divides(target, p.maxHclk, AHB_DIVS[i]);
    c := AhbRatio(ahb, a);
    var slow := target / a;
    assert target == a * slow;
    assert ahb * (slow * c) == ahb * hclk;
    Cancel(slow * c, hclk, ahb);
    Cancel(hclk, slow * c, ahb);
  }

  /** Greedy can only go wrong on an HCLK that 16 divides and that 16 does not bring within a limit:
      whatever other AHB divider works, the greedy one then works too. */
  lemma GreedyKeepsTrees(p: Profile, target: int, ahb: int, hclk: int)
    requires LeastPrescaler(target, p.maxHclk, AHB_DIVS, ahb, hclk) && HasTree(p, target)
    requires hclk % 16 != 0 || (hclk <= 16 * p.maxPclk1 && hclk <= 16 * p.maxPclk2)
    ensures !ApbFails(p, target, ahb, hclk)
  {
    if hclk % 16 != 0 {
      var k :| 0 <= k < |AHB_DIVS| && TreeWith(p, target, AHB_DIVS[k]);
      var c := GreedyIsFaster(p, target, ahb, hclk, AHB_DIVS[k]);
      FasterStillDivides(hclk, target / AHB_DIVS[k], c, p.maxPclk1);
      FasterStillDivides(hclk, target / AHB_DIVS[k], c, p.maxPclk2);
    } else {
      assert APB_DIVS[4] == 16;
      assert Divides(hclk, p.maxPclk1, APB_DIVS[4]) && Divides(hclk, p.maxPclk2, APB_DIVS[4]);
    }
  }

  predicate WithinSixteen(p: Profile) {
    p.maxHclk <= 16 * p.maxPclk1 && p.maxHclk <= 16 * p.maxPclk2
  }

  /** On a device whose HCLK limit is at most sixteen times each PCLK limit, choosing the AHB divider
      greedily never loses a tree. */
  lemma GreedyIsCompleteWithinSixteen(p: Profile, target: int)
    requires WithinSixteen(p) && HasTree(p, target)
    ensures !GreedyFails(p, target)
  {
    forall ahb, hclk ensures !ApbFails(p, target, ahb, hclk) {
      if LeastPrescaler(target, p.maxHclk, AHB_DIVS, ahb, hclk) { GreedyKeepsTrees(p, target, ahb, hclk); }
    }
  }

  // The divider of a tree, AHB and APB together.
  predicate CombinedDivider(p: Profile, target: int, d: int)
    requires d != 0
  {
    target % d == 0 && target / d <= p.maxPclk1 && target / d <= p.maxPclk2
  }

  lemma AhbTimesApb(a: int, b: int)
    requires a in AHB_DIVS && b in APB_DIVS
    ensures a * b in TREE_DIVS
  {
    if b == 1 {} else if b == 2 {} else if b == 4 {} else if b == 8 {} else {}
  }

  lemma TreeHasDivider(p: Profile, target: int)
    requires HasTree(p, target) && target > 0
    ensures exists k :: 0 <= k < |TREE_DIVS| && CombinedDivider(p, target, TREE_DIVS[k])
  {
    var k :| 0 <= k < |AHB_DIVS| && TreeWith(p, target, AHB_DIVS[k]);
    var a := AHB_DIVS[k];
    var slow := target / a;
    assert target == a * slow + target % a;
    CancelStrict(0, slow, a);
    var b, k1 := ApbQuotient(slow, p.maxPclk1);
    var c, k2 := ApbQuotient(slow, p.maxPclk2);
    if b >= c {
      SlowerQuotient(slow, c, k2, b, k1);
      CombinesInto(p, target, a, b, k1);
    } else {
      SlowerQuotient(slow, b, k1, c, k2);
      CombinesInto(p, target, a, c, k2);
    }
  }

  lemma CombinesInto(p: Profile, target: int, a: int, b: int, q: int)
    requires a in AHB_DIVS && b in APB_DIVS && target == a * (b * q) && q <= p.maxPclk1 && q <= p.maxPclk2
    ensures exists k :: 0 <= k < |TREE_DIVS| && CombinedDivider(p, target, TREE_DIVS[k])
  {
    AhbTimesApb(a, b);
    assert target == (a * b) * q;
    ExactQuotient(target, a * b, q);
    var n :| 0 <= n < |TREE_DIVS| && TREE_DIVS[n] == a * b;
    assert CombinedDivider(p, target, TREE_DIVS[n]);
  }

  // The bigger divider leaves the slower clock.
  lemma SlowerQuotient(clock: int, b: int, q: int, c: int, r: int)
    requires clock > 0 && 0 < b <= c && clock == b * q && clock == c * r
    ensures r <= q
  {
    CancelStrict(0, r, c);
    MulMono(b, c, r);
    Cancel(r, q, b);
  }

  // No APB divider is slower than 16.
  lemma SixteenIsSlowest(clock: int, max: int)
    requires clock >= 0 && Divisible(clock, max, APB_DIVS)
    ensures clock <= 16 * max
  {
    var b, k := ApbQuotient(clock, max);
    if clock > 0 {
      CancelStrict(0, k, b);
      MulMono(b, 16, k);
    } else {
      Cancel(0, k, b);
    }
  }

  // How a combined divider above 16 * g is made of an AHB divider above g and an APB one.
  lemma SplitDivider(d: int, g: int) returns (a: int, b: int)
    requires d in TREE_DIVS && g in AHB_DIVS && d > 16 * g
    ensures a in AHB_DIVS && b in APB_DIVS && d == a * b && a > g
  {
    b := if d == 512 then 8 else 16;
    a := if d == 512 then 64 else if d == 32 then 2 else if d == 64 then 4 else if d == 128 then 8
         else if d == 256 then 16 else if d == 1024 then 64 else if d == 2048 then 128
         else if d == 4096 then 256 else 512;
  }

  lemma DividerMakesATree(p: Profile, target: int, g: int, hclk: int, d: int)
    requires target > 0 && LeastPrescaler(target, p.maxHclk, AHB_DIVS, g, hclk)
    requires d in TREE_DIVS && d > 16 * g && CombinedDivider(p, target, d)
    ensures HasTree(p, target)
  {
    var a, b := SplitDivider(d, g);
    var q := target / d;
    assert target == a * (b * q);
    ExactQuotient(target, a, b * q);
    SlowerQuotient(target, g, hclk, a, b * q);
    DividesAsApb(b * q, b, q, p.maxPclk1);
    DividesAsApb(b * q, b, q, p.maxPclk2);
    var k :| 0 <= k < |AHB_DIVS| && AHB_DIVS[k] == a;
    assert TreeWith(p, target, AHB_DIVS[k]);
  }

  // The greedy HCLK is too fast even for the slowest APB divider, which divides it.
  predicate TooFastBySixteen(p: Profile, hclk: int) {
    hclk % 16 == 0 && (hclk > 16 * p.maxPclk1 || hclk > 16 * p.maxPclk2)
  }

  lemma TooFastFails(p: Profile, target: int, ahb: int, hclk: int)
    requires LeastPrescaler(target, p.maxHclk, AHB_DIVS, ahb, hclk) && TooFastBySixteen(p, hclk) && hclk >= 0
    ensures ApbFails(p, target, ahb, hclk)
  {
    if Divisible(hclk, p.maxPclk1, APB_DIVS) { SixteenIsSlowest(hclk, p.maxPclk1); }
    if Divisible(hclk, p.maxPclk2, APB_DIVS) { SixteenIsSlowest(hclk, p.maxPclk2); }
  }

  // No such divider is as small as sixteen times the greedy one.
  lemma DividerIsBeyondGreedy(p: Profile, target: int, ahb: int, hclk: int, d: int)
    requires target > 0 && ahb > 0 && hclk * ahb == target && TooFastBySixteen(p, hclk)
    requires d > 0 && CombinedDivider(p, target, d)
    ensures d > 16 * ahb
  {
    var q := target / d;
    assert target == q * d;
    CancelStrict(0, q, d);
    assert 16 * q < hclk;
    MulStrict(16 * q, hclk, ahb);
    assert (16 * ahb) * q == (16 * q) * ahb by { Regroup(16, q, ahb); }
    CancelStrict(16 * ahb, d, q);
  }

  /** And past that bound, exactly when it does: the greedy HCLK is a multiple of 16 and more than
      sixteen times a PCLK limit, while some power of two up to 2^13, the product of two dividers,
      brings SYSCLK down to both limits. */
  lemma GreedyLosesATreeIff(p: Profile, target: int, ahb: int, hclk: int)
    requires target > 0 && LeastPrescaler(target, p.maxHclk, AHB_DIVS, ahb, hclk)
    ensures GreedyFails(p, target) && HasTree(p, target) <==>
            TooFastBySixteen(p, hclk) && exists k :: 0 <= k < |TREE_DIVS| && CombinedDivider(p, target, TREE_DIVS[k])
  {
    CancelStrict(0, hclk, ahb);
    if GreedyFails(p, target) && HasTree(p, target) {
      var a, h :| ApbFails(p, target, a, h);
      PrescalerIsUnique(target, p.maxHclk, AHB_DIVS, ahb, hclk, a, h);
      if !TooFastBySixteen(p, hclk) { GreedyKeepsTrees(p, target, ahb, hclk); }
      TreeHasDivider(p, target);
    }
    if TooFastBySixteen(p, hclk) {
      if k :| 0 <= k < |TREE_DIVS| && CombinedDivider(p, target, TREE_DIVS[k]) {
        DividerIsBeyondGreedy(p, target, ahb, hclk, TREE_DIVS[k]);
        DividerMakesATree(p, target, ahb, hclk, TREE_DIVS[k]);
        TooFastFails(p, target, ahb, hclk);
      }
    }
  }

  /** A SYSCLK that is not positive meets every limit undivided, so nothing is lost there either. */
  lemma NothingIsLostBelowZero(p: Profile, target: int)
    requires target <= 0 && p.maxHclk >= 0 && p.maxPclk1 >= 0 && p.maxPclk2 >= 0
    ensures HasTree(p, target) && !GreedyFails(p, target)
  {
    assert AHB_DIVS[0] == 1 && APB_DIVS[0] == 1;
    assert Divides(target, p.maxPclk1, APB_DIVS[0]) && Divides(target, p.maxPclk2, APB_DIVS[0]);
    assert TreeWith(p, target, AHB_DIVS[0]);
    forall ahb, hclk ensures !ApbFails(p, target, ahb, hclk) {
      if LeastPrescaler(target, p.maxHclk, AHB_DIVS, ahb, hclk) {
        assert Divides(target, p.maxHclk, AHB_DIVS[0]);
        assert ahb == 1 && hclk == target;
      }
    }
  }

  // Everything but the bus stage lets the request through, and the buses have a tree.
  ghost predicate Solvable(p: Profile, r: Request)
    requires WellFormed(p)
  {
    && Truthy(r.target) && SourceHz(p, r).Some? && r.target.value <= p.maxSysclk
    && (r.target.value != SourceHz(p, r).value ==> PllReaches(p, SourceHz(p, r).value, r.target.value))
    && HasTree(p, r.target.value)
  }

  lemma ExactBusesAreATree(p: Profile, s: Solution)
    requires BusesExact(p, s)
    ensures HasTree(p, s.sysclk)
  {
    PrescalerIsUnique(s.sysclk, p.maxHclk, AHB_DIVS, s.ahb, s.hclk, s.ahb, s.hclk);
    PrescalerIsUnique(s.hclk, p.maxPclk1, APB_DIVS, s.apb1, s.pclk1, s.apb1, s.pclk1);
    PrescalerIsUnique(s.hclk, p.maxPclk2, APB_DIVS, s.apb2, s.pclk2, s.apb2, s.pclk2);
    ExactQuotient(s.sysclk, s.ahb, s.hclk);
    var k :| 0 <= k < |AHB_DIVS| && AHB_DIVS[k] == s.ahb;
    assert TreeWith(p, s.sysclk, AHB_DIVS[k]);
  }

  lemma ExactIsSolvable(p: Profile, r: Request, s: Solution)
    requires WellFormed(p) && Truthy(r.target) && Exact(p, r, s)
    ensures Solvable(p, r)
  {
    ExactBusesAreATree(p, s);
    if s.pll.Some? {
      assert Fits(p.pll, s.fIn, s.sysclk, s.pll.value.m, s.pll.value.n, s.pll.value.div);
    }
  }

  // A request with a tree is refused for want of an APB divider or not at all.
  lemma SolvableRefusal(p: Profile, r: Request, code: Code)
    requires WellFormed(p) && Solvable(p, r) && Refused(p, r, code)
    ensures code == NoApb && GreedyFails(p, r.target.value) && !WithinSixteen(p)
  {
    var target := r.target.value;
    var k :| 0 <= k < |AHB_DIVS| && TreeWith(p, target, AHB_DIVS[k]);
    assert Divides(target, p.maxHclk, AHB_DIVS[k]);
    if WithinSixteen(p) { GreedyIsCompleteWithinSixteen(p, target); }
  }

  // A request has one kind of answer: an exact solution or the one refusal that applies.
  ghost predicate Answers(p: Profile, r: Request, tree: Tree)
    requires WellFormed(p)
  {
    match tree
    case Infeasible(code) => Refused(p, r, code)
    case Feasible(s) => Truthy(r.target) && Exact(p, r, s)
  }

  lemma AnswerIsDetermined(p: Profile, r: Request, tree: Tree)
    requires WellFormed(p) && Answers(p, r, tree)
    ensures tree.Feasible? ==> Solvable(p, r) && forall code :: !Refused(p, r, code)
    ensures !Truthy(r.target) ==> tree == Infeasible(TargetMissing)
    ensures Solvable(p, r) && tree.Infeasible? ==> tree.code == NoApb && GreedyFails(p, r.target.value)
    ensures WithinSixteen(p) ==> (tree.Feasible? <==> Solvable(p, r))
  {
    match tree {
      case Infeasible(code) => if Solvable(p, r) { SolvableRefusal(p, r, code); }
      case Feasible(s) =>
        ExactIsSolvable(p, r, s);
        forall code ensures !Refused(p, r, code) {
          if Refused(p, r, code) { RefusalMeansNoAnswer(p, r, code, s); }
        }
    }
  }

  method SolveClockTree(p: Profile, r: Request) returns (tree: Tree)
    requires WellFormed(p)
    ensures tree.Infeasible? ==> Refused(p, r, tree.code)
    ensures tree.Feasible? ==> Truthy(r.target) && Exact(p, r, tree.solution) && forall code :: !Refused(p, r, code)
    ensures !Truthy(r.target) ==> tree == Infeasible(TargetMissing)
    ensures tree.Feasible? ==> Solvable(p, r)
    ensures Solvable(p, r) && tree.Infeasible? ==> tree.code == NoApb && GreedyFails(p, r.target.value)
    ensures WithinSixteen(p) ==> (tree.Feasible? <==> Solvable(p, r))
    ensures tree.Feasible? ==> RunsFromItsSource(p, r, tree.solution)
    ensures tree == Infeasible(TargetMissing) <==> r.target.None? || r.target.value == 0
    ensures r.target.Some? && r.target.value != 0 ==>
              && (tree == Infeasible(HseUnknown) <==> r.source.HSE? && (r.sourceHz.None? || r.sourceHz.value == 0))
              && (tree == Infeasible(UnsupportedSource) <==> r.source.OtherSource?)
  {
    tree := Solved(p, r);
    AnswerIsDetermined(p, r, tree);
  }

  // The crystal the request gives, or the device's own oscillator, 16 MHz where the profile has none; and
  // the SYSCLK that was asked for is that frequency or, to the hertz, what the PLL makes of it.
  ghost predicate RunsFromItsSource(p: Profile, r: Request, s: Solution) {
    && !r.source.OtherSource?
    && (r.source.HSE? ==> r.sourceHz == Some(s.fIn) && s.fIn != 0)
    && (r.source.HSI? && p.hsi.Some? && p.hsi.value != 0 ==> s.fIn == p.hsi.value)
    && (r.source.HSI? && (p.hsi.None? || p.hsi.value == 0) ==> s.fIn == 16_000_000)
    && r.target == Some(s.sysclk)
    && (s.pll.None? ==> s.sysclk == s.fIn)
    && (s.pll.Some? ==> s.sysclk * s.pll.value.div * s.pll.value.m == s.fIn * s.pll.value.n)
  }

  // The stages, with a refusal after each.
  method Solved(p: Profile, r: Request) returns (tree: Tree)
    requires WellFormed(p)
    ensures Answers(p, r, tree)
  {
    if !Truthy(r.target) {
      return Infeasible(TargetMissing);
    }
    var target := r.target.value;
    var source := SourceHz(p, r);
    if source.None? {
      return Infeasible(if r.source.HSE? then HseUnknown else UnsupportedSource);
    }
    var fIn := source.value;
    if target > p.maxSysclk {
      return Infeasible(TargetTooHigh);
    }
    var core: Option<Core> := None;
    if target != fIn {
      core := SearchPll(p.pll, fIn, target, r.need48);
      if core.None? {
        return Infeasible(NoPll);
      }
      assert Fits(p.pll, fIn, target, core.value.m, core.value.n, core.value.div);
    }
    var b := SolveBuses(p, target);
    if b.NoAhbDivider? {
      return Infeasible(NoAhb);
    }
    if b.NoApbDivider? {
      return Infeasible(NoApb);
    }
    var latency := FlashLatency(b.hclk, p.flash);
    var clk48: Option<int> := None;
    var usbOk := core.Some? && core.value.q.Some?;
    if usbOk && core.value.q.value != 0 {
      Gives48Iff(core.value.vcoOut, core.value.q.value);
      clk48 := Some(core.value.vcoOut / core.value.q.value);
    }
    return Feasible(Solution(fIn, core, target, b.hclk, b.pclk1, b.pclk2, b.ahb, b.apb1, b.apb2, latency, clk48, usbOk));
  }

  lemma PrescalerIsUnique(clock: int, max: int, divs: seq<int>, d: int, c: int, d': int, c': int)
    requires forall k :: 0 <= k < |divs| ==> divs[k] > 0
    requires LeastPrescaler(clock, max, divs, d, c) && LeastPrescaler(clock, max, divs, d', c')
    ensures d == d' && c == c' && Divisible(clock, max, divs)
  {
    ExactQuotient(clock, d, c);
    ExactQuotient(clock, d', c');
    var i :| 0 <= i < |divs| && divs[i] == d;
    var j :| 0 <= j < |divs| && divs[j] == d';
    assert Divides(clock, max, divs[i]) && Divides(clock, max, divs[j]);
  }

  lemma BusesAreUnique(p: Profile, s: Solution, s': Solution)
    requires BusesExact(p, s) && BusesExact(p, s') && s.sysclk == s'.sysclk
    ensures s.ahb == s'.ahb && s.hclk == s'.hclk && s.apb1 == s'.apb1 && s.pclk1 == s'.pclk1
    ensures s.apb2 == s'.apb2 && s.pclk2 == s'.pclk2
  {
    PrescalerIsUnique(s.sysclk, p.maxHclk, AHB_DIVS, s.ahb, s.hclk, s'.ahb, s'.hclk);
    PrescalerIsUnique(s.hclk, p.maxPclk1, APB_DIVS, s.apb1, s.pclk1, s'.apb1, s'.pclk1);
    PrescalerIsUnique(s.hclk, p.maxPclk2, APB_DIVS, s.apb2, s.pclk2, s'.apb2, s'.pclk2);
  }

  lemma PllIsUnique(p: Profile, need48: bool, s: Solution, s': Solution)
    requires WellFormed(p) && s.sysclk != 0 && s.sysclk == s'.sysclk && s.fIn == s'.fIn
    requires PllExact(p, need48, s) && PllExact(p, need48, s')
    ensures s.pll == s'.pll && s.clk48 == s'.clk48 && s.usbOk == s'.usbOk
  {
    if s.pll.Some? {
      AnswerIsUnique(p.pll, p.pll, s.fIn, s.sysclk, need48, s.pll.value, s'.pll.value);
    }
  }

  lemma LatencyIsUnique(hclk: int, table: seq<Row>, ws: int, ws': int)
    requires table != [] && IsLatency(hclk, table, ws) && IsLatency(hclk, table, ws')
    ensures ws == ws'
  {}

  /** The promise leaves no freedom: a request has at most one feasible answer. */
  lemma FeasibleAnswerIsUnique(p: Profile, r: Request, s: Solution, s': Solution)
    requires WellFormed(p) && Truthy(r.target) && Exact(p, r, s) && Exact(p, r, s')
    ensures s == s'
  {
    PllIsUnique(p, r.need48, s, s');
    BusesAreUnique(p, s, s');
    LatencyIsUnique(s.hclk, p.flash, s.latency, s'.latency);
  }

  lemma DivisibleBuses(p: Profile, s: Solution)
    requires BusesExact(p, s)
    ensures Divisible(s.sysclk, p.maxHclk, AHB_DIVS)
    ensures forall ahb, hclk :: !ApbFails(p, s.sysclk, ahb, hclk)
  {
    PrescalerIsUnique(s.sysclk, p.maxHclk, AHB_DIVS, s.ahb, s.hclk, s.ahb, s.hclk);
    PrescalerIsUnique(s.hclk, p.maxPclk1, APB_DIVS, s.apb1, s.pclk1, s.apb1, s.pclk1);
    PrescalerIsUnique(s.hclk, p.maxPclk2, APB_DIVS, s.apb2, s.pclk2, s.apb2, s.pclk2);
    forall ahb, hclk ensures !ApbFails(p, s.sysclk, ahb, hclk) {
      if LeastPrescaler(s.sysclk, p.maxHclk, AHB_DIVS, ahb, hclk) {
        PrescalerIsUnique(s.sysclk, p.maxHclk, AHB_DIVS, s.ahb, s.hclk, ahb, hclk);
      }
    }
  }

  /** And a refusal is never wrong about that: no exact answer with greedy prescalers exists. */
  lemma RefusalMeansNoAnswer(p: Profile, r: Request, code: Code, s: Solution)
    requires WellFormed(p) && Refused(p, r, code) && code != TargetMissing
    ensures !Exact(p, r, s)
  {
    if BusesExact(p, s) { DivisibleBuses(p, s); }
  }

  // ---------------------------------------------------------------- the built-in devices

  const F407 := F4Profile(168 * MHZ, 42 * MHZ, 84 * MHZ,
                          [Row(30 * MHZ, 0), Row(60 * MHZ, 1), Row(90 * MHZ, 2), Row(120 * MHZ, 3), Row(150 * MHZ, 4),
                           Row(168 * MHZ, 5)])
  const F401 := F4Profile(84 * MHZ, 42 * MHZ, 84 * MHZ, [Row(30 * MHZ, 0), Row(60 * MHZ, 1), Row(84 * MHZ, 2)])
  const F411 := F4Profile(100 * MHZ, 50 * MHZ, 100 * MHZ,
                          [Row(30 * MHZ, 0), Row(64 * MHZ, 1), Row(90 * MHZ, 2), Row(100 * MHZ, 3)])
  const L4 := Profile(Pll(Range(1, 8), Range(8, 86), Range(4 * MHZ, 16 * MHZ), Range(64 * MHZ, 344 * MHZ), 16 * MHZ,
                          [2, 4, 6, 8], [2, 4, 6, 8]),
                      Some(16 * MHZ), 80 * MHZ, 80 * MHZ, 80 * MHZ, 80 * MHZ,
                      [Row(16 * MHZ, 0), Row(32 * MHZ, 1), Row(48 * MHZ, 2), Row(64 * MHZ, 3), Row(80 * MHZ, 4)])

  function F4Profile(sysclk: int, pclk1: int, pclk2: int, flash: seq<Row>): Profile {
    Profile(Pll(Range(2, 63), Range(50, 432), Range(1 * MHZ, 2 * MHZ), Range(100 * MHZ, 432 * MHZ), 2 * MHZ,
                [2, 4, 6, 8], [2, 15]),
            Some(16 * MHZ), sysclk, sysclk, pclk1, pclk2, flash)
  }

  /** The built-in profiles keep the premises of the theorems above: greedy is complete on them, and their
      flash tables are sorted and cover every HCLK they allow. */
  lemma BuiltInsAreCovered(p: Profile)
    requires p in {F407, F401, F411, L4}
    ensures WellFormed(p) && WithinSixteen(p) && SortedTable(p.flash) && p.maxHclk <= p.flash[|p.flash| - 1].maxHclk
    ensures p.pll.m.lo >= 1 && p.pll.vcoOut.lo >= 1 && p.pll.ideal >= p.pll.vcoIn.hi
  {}

  const TIGHT := Profile(Pll(Range(1, 1), Range(1, 1), Range(0, 0), Range(0, 0), 0, [], []),
                         Some(512), 512, 512, 16, 16, [Row(512, 0)])

  /** The bound is needed: on a device whose PCLK limits are 1/32 of its HCLK limit, this request is refused
      for want of an APB divider although a slower AHB leaves both buses within their limits. */
  lemma GreedyAhbLosesATree()
    ensures Refused(TIGHT, Request(HSI, None, Some(512), false), NoApb)
    ensures Solvable(TIGHT, Request(HSI, None, Some(512), false))
  {
    assert LeastPrescaler(512, 512, AHB_DIVS, 1, 512) by {
      assert AHB_DIVS[0] == 1;
    }
    assert Divides(512, 512, AHB_DIVS[0]);
    assert TREE_DIVS[9] == 512 && CombinedDivider(TIGHT, 512, TREE_DIVS[9]);
    GreedyLosesATreeIff(TIGHT, 512, 1, 512);
  }
}
