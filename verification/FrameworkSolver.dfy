/**
Decisions the plan makes before it is rendered: how a pin's name is read and which peripheral owns a
DMA stream (framework_solver.py), and which vectors serve a peripheral's interrupt
(interrupt_solver.py).
*/
module FrameworkSolver {
  import opened Options
  import opened InitCode
  import M = SourceMap
  import S = AcceptanceSynth
  import Sexpr

  // ---------------------------------------------------------------- port-pins

  // `str.upper` on ASCII.
  function UpperChar(c: char): char {
    if 'a' <= c <= 'z' then ('A' as int + (c as int - 'a' as int)) as char else c
  }

  function Upper(s: string): string {
    seq(|s|, k requires 0 <= k < |s| => UpperChar(s[k]))
  }

  function StripEnd(s: string): string {
    if s == "" || !Sexpr.IsSpace(s[|s| - 1]) then s else StripEnd(s[..|s| - 1])
  }

  function Strip(s: string): string {
    StripEnd(M.SkipSpaces(s))
  }

  function Decimal(s: string): int
    requires forall k :: 0 <= k < |s| ==> M.IsDigit(s[k])
  {
    if s == "" then 0 else 10 * Decimal(s[..|s| - 1]) + (s[|s| - 1] as int - '0' as int)
  }

  // `parse_port_pin`
  function ParsePortPin(portPin: string): Option<(string, int)> {
    var t := Upper(Strip(portPin));
    if M.IsCanonical(t) && |t| <= 4 && Decimal(t[2..]) <= 15 then Some(([t[1]], Decimal(t[2..]))) else None
  }

  lemma {:induction false} StripEndIs(s: string)
    ensures StripEnd(s) <= s && forall k :: |StripEnd(s)| <= k < |s| ==> Sexpr.IsSpace(s[k])
    ensures StripEnd(s) != "" ==> !Sexpr.IsSpace(StripEnd(s)[|StripEnd(s)| - 1])
  {
    if s != "" && Sexpr.IsSpace(s[|s| - 1]) { StripEndIs(s[..|s| - 1]); }
  }

  ghost predicate Padded(s: string, a: string, r: string, b: string) {
    s == a + r + b && M.Blank(a) && M.Blank(b)
  }

  /** Stripping takes the spaces off both ends and nothing else. */
  lemma StripIs(s: string)
    ensures exists a, b :: Padded(s, a, Strip(s), b)
    ensures var r := Strip(s); r != "" ==> !Sexpr.IsSpace(r[0]) && !Sexpr.IsSpace(r[|r| - 1])
  {
    var t, r := M.SkipSpaces(s), Strip(s);
    M.SkipSpacesIs(s);
    StripEndIs(t);
    var a, b := s[..|s| - |t|], t[|r|..];
    assert t == r + b && a + (r + b) == a + r + b;
    assert Padded(s, a, r, b);
  }

  lemma UpperKeepsDigits(s: string, k: nat)
    requires k < |s|
    ensures M.IsDigit(Upper(s)[k]) <==> M.IsDigit(s[k])
    ensures M.IsDigit(s[k]) ==> Upper(s)[k] == s[k]
  {}

  /** A pin's name that the plan can read is captured from its header comment, if at all, as what the plan
      has read: without the spaces, in capitals. So a name is captured as it stands exactly when it is
      written that way. */
  lemma HeaderOfParsed(p: string)
    requires ParsePortPin(p).Some?
    ensures M.HeaderKey(p).Some? ==> M.HeaderKey(p) == Some(Upper(Strip(p)))
    ensures M.IsCanonical(p) <==> p == Upper(Strip(p))
  {
    var t, s := M.SkipSpaces(p), Strip(p);
    StripEndIs(t);
    forall k: nat | k < |s| ensures (M.IsDigit(Upper(s)[k]) <==> M.IsDigit(s[k])) && (M.IsDigit(s[k]) ==> Upper(s)[k] == s[k]) {
      UpperKeepsDigits(s, k);
    }
    if M.HeaderKey(p).Some? {
      assert t[..|s|] == s;
      M.DigitsEndAt(t[2..], |s| - 2);
      assert Upper(s) == s;
    }
    if M.IsCanonical(p) {
      M.HeaderKeysAreCanonical(p, p);
    }
  }

  lemma StripOfSolid(s: string)
    requires s != [] && !Sexpr.IsSpace(s[0]) && !Sexpr.IsSpace(s[|s| - 1])
    ensures Strip(s) == s
  {}

  lemma DecimalOfDigits(n: int)
    requires 0 <= n <= 15
    ensures var d := S.Digits(n); 1 <= |d| <= 2 && (forall k :: 0 <= k < |d| ==> M.IsDigit(d[k])) && Decimal(d) == n
    ensures 0 <= n <= 9 ==> |S.Digits(n)| == 1 && Decimal("0" + S.Digits(n)) == n
  {
    var d := S.Digits(n);
    if n < 10 {
      assert d == [('0' as int + n) as char] && d[..0] == "";
      assert ("0" + d)[..1] == "0" && "0"[..0] == "";
    } else {
      assert d == S.Digits(1) + [('0' as int + n - 10) as char] && d[..1] == "1" && "1"[..0] == "";
    }
  }

  lemma ReadsAs(p: string, letter: char, d: string)
    requires p != "" && !Sexpr.IsSpace(p[0]) && !Sexpr.IsSpace(p[|p| - 1])
    requires Upper(p) == "P" + [letter] + d && 'A' <= letter <= 'K'
    requires 1 <= |d| <= 2 && (forall k :: 0 <= k < |d| ==> M.IsDigit(d[k])) && Decimal(d) <= 15
    ensures ParsePortPin(p) == Some(([letter], Decimal(d)))
  {
    StripOfSolid(p);
    assert ("P" + [letter] + d)[2..] == d;
  }

  /** Reading a pin's name undoes writing it: "P", the port's letter and the number, in either case, give
      back that port and number, for every port A to K and number up to 15. */
  lemma PortPinsReadBack(letter: char, n: int)
    requires 'A' <= letter <= 'K' && 0 <= n <= 15
    ensures ParsePortPin("P" + [letter] + S.Digits(n)) == Some(([letter], n))
    ensures ParsePortPin("p" + [(letter as int + 32) as char] + S.Digits(n)) == Some(([letter], n))
  {
    var d := S.Digits(n);
    DecimalOfDigits(n);
    ReadsAs("P" + [letter] + d, letter, d);
    ReadsAs("p" + [(letter as int + 32) as char] + d, letter, d);
  }

  /** And nothing else is read: whatever is, is such a name but for its case, spaces around it and one
      leading zero. */
  lemma ReadPortPinsAreNames(p: string)
    requires ParsePortPin(p).Some?
    ensures var (port, n) := ParsePortPin(p).value;
            && |port| == 1 && 'A' <= port[0] <= 'K' && 0 <= n <= 15
            && (Upper(Strip(p)) == "P" + port + S.Digits(n) || Upper(Strip(p)) == "P" + port + "0" + S.Digits(n))
  {
    var t := Upper(Strip(p));
    var d := t[2..];
    assert t == "P" + [t[1]] + d;
    if |d| == 1 {
      assert d[..0] == "" && d == [d[0]];
    } else {
      assert d == [d[0], d[1]] && d[..1] == [d[0]] && [d[0]][..0] == "";
      assert Decimal([d[0]]) == d[0] as int - '0' as int;
      if d[0] == '0' { assert d == "0" + [d[1]]; assert "P" + [t[1]] + d == "P" + [t[1]] + "0" + [d[1]]; }
    }
  }

  // ---------------------------------------------------------------- DMA stream ownership

  class DmaStream {
    const instance: string
    var conflict: bool

    constructor (instance: string)
      ensures this.instance == instance && !conflict
    {
      this.instance, conflict := instance, false;
    }
  }

  // The earliest stream on its instance.
  ghost predicate IsFirst(streams: seq<DmaStream>, k: nat)
    requires k < |streams|
  {
    forall j :: 0 <= j < k ==> streams[j].instance != streams[k].instance
  }

  /** The first stream on an instance owns it: all later ones are marked, so that no instance is left to
      two and none that is asked for is left without an owner. */
  method MarkConflicts(streams: seq<DmaStream>)
    requires forall i, j :: 0 <= i < j < |streams| ==> streams[i] != streams[j]
    requires forall k :: 0 <= k < |streams| ==> !streams[k].conflict
    modifies set k | 0 <= k < |streams| :: streams[k]
    ensures forall k :: 0 <= k < |streams| ==> (streams[k].conflict <==> !IsFirst(streams, k))
    ensures forall i, j :: 0 <= i < j < |streams| && !streams[i].conflict && !streams[j].conflict ==>
              streams[i].instance != streams[j].instance
  {
    var seen: set<string> := {};
    for i := 0 to |streams|
      invariant forall x :: x in seen <==> exists k :: 0 <= k < i && streams[k].instance == x
      invariant forall k :: 0 <= k < |streams| ==> (streams[k].conflict <==> k < i && !IsFirst(streams, k))
    {
      var instance := streams[i].instance;
      assert instance in seen <==> !IsFirst(streams, i);
      if instance in seen {
        streams[i].conflict := true;
      } else {
        seen := seen + {instance};
      }
    }
  }

  // The plan's streams, flagged as that method flags them.
  ghost predicate OwnersMarked(streams: seq<Stream>) {
    forall k :: 0 <= k < |streams| ==>
      (streams[k].conflict <==> exists j :: 0 <= j < k && streams[j].instance == streams[k].instance)
  }

  ghost predicate Disjoint(streams: seq<Stream>) {
    forall i, j :: 0 <= i < j < |streams| ==> streams[i].instance != streams[j].instance
  }

  lemma {:induction false} LiveAre(streams: seq<Stream>)
    ensures forall s :: s in Live(streams) <==> s in streams && !s.conflict
  {
    if streams != [] {
      LiveAre(streams[1..]);
      assert streams == [streams[0]] + streams[1..];
    }
  }

  lemma {:induction false} LiveFrom(streams: seq<Stream>, n: nat)
    requires n <= |streams| && OwnersMarked(streams)
    ensures Disjoint(Live(streams[n..]))
    decreases |streams| - n
  {
    if n < |streams| {
      var rest := streams[n..];
      assert rest[0] == streams[n] && rest[1..] == streams[n + 1..];
      LiveFrom(streams, n + 1);
      if !streams[n].conflict {
        LiveAre(streams[n + 1..]);
        var tail := Live(streams[n + 1..]);
        forall j | 0 <= j < |tail| ensures tail[j].instance != streams[n].instance {
          assert tail[j] in tail;
          var k :| 0 <= k < |streams[n + 1..]| && streams[n + 1..][k] == tail[j];
          assert streams[n + 1 + k] == tail[j];
        }
      }
    }
  }

  lemma LiveAreDisjoint(streams: seq<Stream>)
    requires OwnersMarked(streams)
    ensures Disjoint(Live(streams))
  {
    LiveFrom(streams, 0);
    assert streams[0..] == streams;
  }

  function Asked(b: Block): seq<Stream> {
    if b.streams.None? then [] else b.streams.value
  }

  // Every stream of the plan, in the order in which they are marked.
  function AllStreams(blocks: seq<Block>): seq<Stream> {
    if blocks == [] then [] else AllStreams(blocks[..|blocks| - 1]) + Asked(blocks[|blocks| - 1])
  }

  // The streams whose init code is in the file: those not marked, of the blocks with a HAL init call.
  function RenderedStreams(blocks: seq<Block>): seq<Stream> {
    if blocks == [] then []
    else RenderedStreams(blocks[..|blocks| - 1]) + if blocks[|blocks| - 1].halInit then StreamsOf(blocks[|blocks| - 1]) else []
  }

  // The plan as MarkConflicts leaves it: `marked` are its streams.
  ghost predicate MarkedPlan(blocks: seq<Block>, marked: seq<DmaStream>)
    reads marked
  {
    var all := AllStreams(blocks);
    && |marked| == |all|
    && forall k :: 0 <= k < |all| ==>
         && marked[k].instance == all[k].instance && marked[k].conflict == all[k].conflict
         && (marked[k].conflict <==> !IsFirst(marked, k))
  }

  lemma MarkedMeansOwners(blocks: seq<Block>, marked: seq<DmaStream>)
    requires MarkedPlan(blocks, marked)
    ensures OwnersMarked(AllStreams(blocks))
  {}

  lemma {:induction false} LiveConcat(a: seq<Stream>, b: seq<Stream>)
    ensures Live(a + b) == Live(a) + Live(b)
  {
    if a == [] {
      assert a + b == b;
    } else {
      assert (a + b)[0] == a[0] && (a + b)[1..] == a[1..] + b;
      LiveConcat(a[1..], b);
    }
  }

  lemma {:induction false} RenderedAreDisjoint(blocks: seq<Block>)
    requires Disjoint(Live(AllStreams(blocks)))
    ensures Disjoint(RenderedStreams(blocks))
    ensures forall s :: s in RenderedStreams(blocks) ==> s in Live(AllStreams(blocks))
  {
    if blocks != [] {
      var init, b := blocks[..|blocks| - 1], blocks[|blocks| - 1];
      var before, own := Live(AllStreams(init)), Live(Asked(b));
      LiveConcat(AllStreams(init), Asked(b));
      forall i, j | 0 <= i < j < |before| ensures before[i].instance != before[j].instance {
        assert (before + own)[i] == before[i] && (before + own)[j] == before[j];
      }
      RenderedAreDisjoint(init);
      Joined(before, own, RenderedStreams(init), if b.halInit then own else []);
    }
  }

  lemma Joined(before: seq<Stream>, own: seq<Stream>, some: seq<Stream>, last: seq<Stream>)
    requires Disjoint(before + own) && Disjoint(some) && (forall s :: s in some ==> s in before) && (last == own || last == [])
    ensures Disjoint(some + last) && forall s :: s in some + last ==> s in before + own
  {
    forall i, j | 0 <= i < |some| && 0 <= j < |last| ensures some[i].instance != last[j].instance {
      assert some[i] in some;
      var k :| 0 <= k < |before| && before[k] == some[i];
      assert (before + own)[k] == some[i] && (before + own)[|before| + j] == last[j];
    }
    forall i, j | 0 <= i < j < |last| ensures last[i].instance != last[j].instance {
      assert (before + own)[|before| + i] == last[i] && (before + own)[|before| + j] == last[j];
    }
  }

  ghost predicate OnInstance(streams: seq<Stream>, instance: string) {
    exists k :: 0 <= k < |streams| && streams[k].instance == instance
  }

  ghost predicate AsksFor(b: Block, instance: string) {
    OnInstance(Asked(b), instance)
  }

  ghost predicate SomeoneAsks(blocks: seq<Block>, instance: string) {
    exists j :: 0 <= j < |blocks| && AsksFor(blocks[j], instance)
  }

  // The first block that asks for the instance.
  ghost predicate FirstAsker(blocks: seq<Block>, instance: string, k: nat) {
    k < |blocks| && AsksFor(blocks[k], instance) && forall j :: 0 <= j < k ==> !AsksFor(blocks[j], instance)
  }

  ghost predicate Initialises(streams: seq<Stream>, instance: string) {
    exists s :: s in streams && s.instance == instance
  }

  lemma OnEither(a: seq<Stream>, b: seq<Stream>, instance: string)
    ensures OnInstance(a + b, instance) <==> OnInstance(a, instance) || OnInstance(b, instance)
  {
    if k :| 0 <= k < |a| && a[k].instance == instance { assert (a + b)[k] == a[k]; }
    if k :| 0 <= k < |b| && b[k].instance == instance { assert (a + b)[|a| + k] == b[k]; }
    if k :| 0 <= k < |a + b| && (a + b)[k].instance == instance {
      if k >= |a| { assert b[k - |a|].instance == instance; }
    }
  }

  lemma {:induction false} AllStreamsAreAsked(blocks: seq<Block>, instance: string)
    ensures OnInstance(AllStreams(blocks), instance) <==> SomeoneAsks(blocks, instance)
  {
    if blocks != [] {
      var n := |blocks| - 1;
      AllStreamsAreAsked(blocks[..n], instance);
      OnEither(AllStreams(blocks[..n]), Asked(blocks[n]), instance);
      if j :| 0 <= j < n && AsksFor(blocks[j], instance) { assert AsksFor(blocks[..n][j], instance); }
      if j :| 0 <= j < n && AsksFor(blocks[..n][j], instance) { assert AsksFor(blocks[j], instance); }
    }
  }

  // The last block's unmarked stream on the instance, if any, means that no block before it asks.
  lemma OwnerIsFirst(before: seq<Stream>, own: seq<Stream>, instance: string)
    requires OwnersMarked(before + own)
    ensures Initialises(Live(own), instance) <==>
            OnInstance(own, instance) && !OnInstance(before, instance)
  {
    LiveAre(own);
    var all := before + own;
    if s :| s in Live(own) && s.instance == instance {
      var k :| 0 <= k < |own| && own[k] == s;
      assert all[|before| + k] == s;
      forall j | 0 <= j < |before| ensures before[j].instance != instance { assert all[j] == before[j]; }
    }
    if OnInstance(own, instance) && !OnInstance(before, instance) {
      var k :| 0 <= k < |own| && own[k].instance == instance;
      EarliestIsLive(before, own, instance, k);
    }
  }

  lemma {:induction false} EarliestIsLive(before: seq<Stream>, own: seq<Stream>, instance: string, k: nat)
    requires OwnersMarked(before + own) && k < |own| && own[k].instance == instance
    requires forall j :: 0 <= j < |before| ==> before[j].instance != instance
    ensures Initialises(Live(own), instance)
    decreases k
  {
    if own[k].conflict {
      var all := before + own;
      assert all[|before| + k] == own[k];
      var j :| 0 <= j < |before| + k && all[j].instance == instance;
      assert forall i :: 0 <= i < |before| ==> all[i] == before[i];
      assert all[j] == own[j - |before|];
      EarliestIsLive(before, own, instance, j - |before|);
    } else {
      LiveAre(own);
      assert own[k] in Live(own);
    }
  }

  lemma PrefixIsMarked(before: seq<Stream>, own: seq<Stream>)
    requires OwnersMarked(before + own)
    ensures OwnersMarked(before)
  {
    forall k | 0 <= k < |before|
      ensures before[k].conflict <==> exists j :: 0 <= j < k && before[j].instance == before[k].instance
    {
      assert (before + own)[k] == before[k];
      if j :| 0 <= j < k && (before + own)[j].instance == before[k].instance { assert before[j].instance == before[k].instance; }
      if j :| 0 <= j < k && before[j].instance == before[k].instance { assert (before + own)[j] == before[j]; }
    }
  }

  ghost predicate RenderedByFirst(blocks: seq<Block>, instance: string) {
    exists k :: 0 <= k < |blocks| && FirstAsker(blocks, instance, k) && blocks[k].halInit
  }

  lemma FirstOfMore(blocks: seq<Block>, instance: string)
    requires blocks != []
    ensures var n := |blocks| - 1;
            RenderedByFirst(blocks, instance) <==> RenderedByFirst(blocks[..n], instance) || (FirstAsker(blocks, instance, n) && blocks[n].halInit)
  {
    var n := |blocks| - 1;
    if k :| 0 <= k < n && FirstAsker(blocks, instance, k) && blocks[k].halInit { assert FirstAsker(blocks[..n], instance, k); }
    if k :| 0 <= k < n && FirstAsker(blocks[..n], instance, k) && blocks[..n][k].halInit {
      forall j | 0 <= j < k ensures !AsksFor(blocks[j], instance) { assert !AsksFor(blocks[..n][j], instance); }
      assert FirstAsker(blocks, instance, k);
    }
  }

  lemma InitialisesEither(a: seq<Stream>, b: seq<Stream>, instance: string)
    ensures Initialises(a + b, instance) <==> Initialises(a, instance) || Initialises(b, instance)
  {}

  lemma LastIsFirstAsker(blocks: seq<Block>, instance: string)
    requires blocks != []
    ensures var n := |blocks| - 1;
            FirstAsker(blocks, instance, n) <==> AsksFor(blocks[n], instance) && !SomeoneAsks(blocks[..n], instance)
  {
    var n := |blocks| - 1;
    if j :| 0 <= j < n && AsksFor(blocks[j], instance) { assert AsksFor(blocks[..n][j], instance); }
  }

  lemma OneMoreBlock(blocks: seq<Block>, instance: string)
    requires blocks != [] && OwnersMarked(AllStreams(blocks))
    ensures var n := |blocks| - 1;
            && OwnersMarked(AllStreams(blocks[..n]))
            && (Initialises(RenderedStreams(blocks), instance) <==>
                Initialises(RenderedStreams(blocks[..n]), instance) || (FirstAsker(blocks, instance, n) && blocks[n].halInit))
  {
    var n := |blocks| - 1;
    var init, b := blocks[..n], blocks[n];
    PrefixIsMarked(AllStreams(init), Asked(b));
    OwnerIsFirst(AllStreams(init), Asked(b), instance);
    AllStreamsAreAsked(init, instance);
    LastIsFirstAsker(blocks, instance);
    InitialisesEither(RenderedStreams(init), if b.halInit then StreamsOf(b) else [], instance);
  }

  lemma {:induction false} InitialisedIff(blocks: seq<Block>, instance: string)
    requires OwnersMarked(AllStreams(blocks))
    ensures Initialises(RenderedStreams(blocks), instance) <==> RenderedByFirst(blocks, instance)
  {
    if blocks != [] {
      OneMoreBlock(blocks, instance);
      InitialisedIff(blocks[..|blocks| - 1], instance);
      FirstOfMore(blocks, instance);
    }
  }

  /** What MarkConflicts is for: over the whole plan, the streams whose init code is rendered are on
      different DMA instances; and an instance is initialised exactly when the first block that asks for
      it is one that has a HAL init call. */
  lemma OneInitPerInstance(blocks: seq<Block>, marked: seq<DmaStream>, instance: string)
    requires MarkedPlan(blocks, marked)
    ensures Disjoint(RenderedStreams(blocks))
    ensures Initialises(RenderedStreams(blocks), instance) <==> RenderedByFirst(blocks, instance)
  {
    MarkedMeansOwners(blocks, marked);
    LiveAreDisjoint(AllStreams(blocks));
    RenderedAreDisjoint(blocks);
    InitialisedIff(blocks, instance);
  }

  // ---------------------------------------------------------------- interrupt vectors

  datatype Peripheral = Uart | Spi | I2c | Timer | Adc | Dac | OtherKind

  // `error`: an I2C vector whose name says so.
  function HandlerFor(kind: Peripheral, error: bool): Option<string> {
    match kind
    case Uart => Some("HAL_UART_IRQHandler")
    case Spi => Some("HAL_SPI_IRQHandler")
    case I2c => Some(if error then "HAL_I2C_ER_IRQHandler" else "HAL_I2C_EV_IRQHandler")
    case Timer => Some("HAL_TIM_IRQHandler")
    case Adc => Some("HAL_ADC_IRQHandler")
    case Dac => Some("HAL_DAC_IRQHandler")
    case OtherKind => None
  }

  // `irqn.replace("_IRQn", "_IRQHandler")`
  function IsrName(irq: string): string {
    if irq == "" then ""
    else if "_IRQn" <= irq then "_IRQHandler" + IsrName(irq[5..])
    else [irq[0]] + IsrName(irq[1..])
  }

  function VectorOf(kind: Peripheral, irq: string, error: bool): Vector {
    Vector(irq, IsrName(irq), HandlerFor(kind, error))
  }

  // `isError`: the role the name of an override has.
  function Overridden(kind: Peripheral, irqs: seq<string>, isError: string -> bool): seq<Vector> {
    if irqs == [] then []
    else
      var rest := Overridden(kind, irqs[1..], isError);
      if irqs[0] == "" then rest else [VectorOf(kind, irqs[0], isError(irqs[0]))] + rest
  }

  // `override`: the names given as `irqn`; `dual`: a family with separate I2C event and error
  // vectors; `table`: the family's vectors for this peripheral.
  function ResolveVectors(name: string, kind: Peripheral, given: Option<seq<string>>, isError: string -> bool,
                          dual: bool, table: seq<string>): seq<Vector> {
    if given.Some? && given.value != [] then Overridden(kind, given.value, isError)
    else if kind.Uart? || kind.Spi? then [VectorOf(kind, name + "_IRQn", false)]
    else if kind.I2c? then
      if dual then [VectorOf(kind, name + "_EV_IRQn", false), VectorOf(kind, name + "_ER_IRQn", true)] else []
    else seq(|table|, k requires 0 <= k < |table| => VectorOf(kind, table[k], false))
  }

  lemma {:induction false} OverriddenHandlers(kind: Peripheral, irqs: seq<string>, isError: string -> bool)
    ensures forall k :: 0 <= k < |Overridden(kind, irqs, isError)| ==>
              (Overridden(kind, irqs, isError)[k].handler.Some? <==> !kind.OtherKind?)
  {
    if irqs != [] { OverriddenHandlers(kind, irqs[1..], isError); }
  }

  /** The routine of every vector resolved for a peripheral calls a HAL handler exactly when the
      peripheral's kind has one; for the other kinds a vector given by hand gets a routine that calls
      none. */
  lemma VectorsHaveHandlersIff(name: string, kind: Peripheral, given: Option<seq<string>>, isError: string -> bool,
                               dual: bool, table: seq<string>)
    ensures var vs := ResolveVectors(name, kind, given, isError, dual, table);
            (forall k :: 0 <= k < |vs| ==> vs[k].handler.Some?) <==> !kind.OtherKind? || vs == []
  {
    var vs := ResolveVectors(name, kind, given, isError, dual, table);
    if given.Some? && given.value != [] { OverriddenHandlers(kind, given.value, isError); }
    assert kind.OtherKind? && vs != [] ==> vs[0].handler.None?;
  }

  // No "_IRQn" begins in this text, whatever follows it.
  predicate PlainName(s: string) {
    forall k :: 0 <= k < |s| ==> s[k] != '_'
  }

  lemma {:induction false} RoutineOfPlainName(name: string, rest: string)
    requires PlainName(name)
    ensures IsrName(name + rest) == name + IsrName(rest)
    decreases |name|
  {
    if name == "" {
      assert name + rest == rest;
    } else {
      var all := name + rest;
      assert all[0] == name[0] && !("_IRQn" <= all);
      assert all[1..] == name[1..] + rest;
      RoutineOfPlainName(name[1..], rest);
      assert [name[0]] + (name[1..] + IsrName(rest)) == name + IsrName(rest);
    }
  }

  lemma RoutineOfVector(name: string)
    requires PlainName(name)
    ensures IsrName(name + "_IRQn") == name + "_IRQHandler"
  {
    RoutineOfPlainName(name, "_IRQn");
    assert "_IRQn"[5..] == "" && "_IRQHandler" + "" == "_IRQHandler";
  }

  lemma RoutineOfPart(name: string, part: string)
    requires PlainName(name) && part in {"_EV", "_ER"}
    ensures IsrName(name + (part + "_IRQn")) == name + (part + "_IRQHandler")
  {
    RoutineOfPlainName(name, part + "_IRQn");
    var all := part + "_IRQn";
    assert all[0] == '_' && all[1] == 'E' && !("_IRQn" <= all);
    assert all[1..] == part[1..] + "_IRQn";
    RoutineOfPlainName(part[1..], "_IRQn");
    assert IsrName("_IRQn") == "_IRQHandler" by { assert "_IRQn"[5..] == "" && "_IRQHandler" + "" == "_IRQHandler"; }
    assert [part[0]] + (part[1..] + "_IRQHandler") == part + "_IRQHandler";
  }

  lemma PartVector(name: string, part: string, error: bool)
    requires PlainName(name) && part in {"_EV", "_ER"}
    ensures VectorOf(I2c, name + part + "_IRQn", error) ==
            Vector(name + part + "_IRQn", name + part + "_IRQHandler",
                   Some(if error then "HAL_I2C_ER_IRQHandler" else "HAL_I2C_EV_IRQHandler"))
  {
    RoutineOfPart(name, part);
    assert name + part + "_IRQn" == name + (part + "_IRQn");
    assert name + part + "_IRQHandler" == name + (part + "_IRQHandler");
  }

  lemma EvAndEr(name: string, tail: string)
    ensures name + ("_EV" + tail) == name + "_EV" + tail && name + ("_ER" + tail) == name + "_ER" + tail
  {}

  /** The vectors with a universal name: a UART or SPI peripheral has the one called after it, whose routine
      calls that driver's handler; an I2C peripheral, where events and errors have vectors of their own, has
      the two, each with its own routine and handler. */
  lemma SingleVectors(name: string, isError: string -> bool, dual: bool, table: seq<string>)
    requires PlainName(name)
    ensures ResolveVectors(name, Uart, None, isError, dual, table) ==
            [Vector(name + "_IRQn", name + "_IRQHandler", Some("HAL_UART_IRQHandler"))]
    ensures ResolveVectors(name, Spi, None, isError, dual, table) ==
            [Vector(name + "_IRQn", name + "_IRQHandler", Some("HAL_SPI_IRQHandler"))]
  {
    RoutineOfVector(name);
  }

  lemma DualVectors(name: string, isError: string -> bool, dual: bool, table: seq<string>)
    requires PlainName(name)
    ensures ResolveVectors(name, I2c, None, isError, dual, table) ==
            if dual then [Vector(name + "_EV" + "_IRQn", name + "_EV" + "_IRQHandler", Some("HAL_I2C_EV_IRQHandler")),
                          Vector(name + "_ER" + "_IRQn", name + "_ER" + "_IRQHandler", Some("HAL_I2C_ER_IRQHandler"))] else []
  {
    PartVector(name, "_EV", false);
    PartVector(name, "_ER", true);
    EvAndEr(name, "_IRQn");
    assert "_EV" + "_IRQn" == "_EV_IRQn" && "_ER" + "_IRQn" == "_ER_IRQn";
  }

  /** A timer, an ADC or a DAC has the vectors of its family's table, in that order, under that driver's
      handler; names given by hand replace all of these, less the empty ones. */
  lemma {:induction false} TableVectors(name: string, kind: Peripheral, isError: string -> bool, dual: bool,
                                        table: seq<string>)
    requires kind in {Timer, Adc, Dac}
    ensures var vs := ResolveVectors(name, kind, None, isError, dual, table);
            |vs| == |table| && forall k :: 0 <= k < |vs| ==>
              vs[k].irq == table[k] && vs[k].isr == IsrName(table[k]) &&
              vs[k].handler == Some(if kind.Timer? then "HAL_TIM_IRQHandler" else if kind.Adc? then "HAL_ADC_IRQHandler"
                                    else "HAL_DAC_IRQHandler")
  {}

  lemma {:induction false} OverriddenAre(kind: Peripheral, irqs: seq<string>, isError: string -> bool, v: Vector)
    ensures v in Overridden(kind, irqs, isError) <==> v.irq != "" && v.irq in irqs && v == VectorOf(kind, v.irq, isError(v.irq))
  {
    if irqs != [] {
      OverriddenAre(kind, irqs[1..], isError, v);
      assert irqs == [irqs[0]] + irqs[1..];
    }
  }

  lemma GivenVectors(name: string, kind: Peripheral, irqs: seq<string>, isError: string -> bool, dual: bool,
                     table: seq<string>, v: Vector)
    ensures irqs != [] ==> (v in ResolveVectors(name, kind, Some(irqs), isError, dual, table) <==>
              v.irq != "" && v.irq in irqs && v == VectorOf(kind, v.irq, isError(v.irq)))
    ensures irqs == [] ==>
              ResolveVectors(name, kind, Some(irqs), isError, dual, table) == ResolveVectors(name, kind, None, isError, dual, table)
  {
    OverriddenAre(kind, irqs, isError, v);
  }
}
