/**
The generated bsp_init.c (framework_render.py) as the lines it consists of, function by function,
and the parts of the plan it is rendered from. A line that no scanner looks at is `Plain`.
*/
module InitCode {
  import opened Options

  datatype Line =
    | Head(name: string)
    | Open
    | Close
    | ClockCall(clock: string)      // __HAL_RCC_<clock>_CLK_ENABLE();
    | EnableCall(irq: string)       // HAL_NVIC_EnableIRQ(<irq>);
    | PinHeader(portPin: string)    // /* <portPin>  <peripheral>_<signal> */
    | GpioInit
    | HandlerCall(call: Call)
    | Plain

  // `handler(&handle);`, where a missing handler prints as "None".
  datatype Call = Call(handler: Option<string>, handle: string)

  // ---------------------------------------------------------------- the plan

  datatype Vector = Vector(irq: string, isr: string, handler: Option<string>)

  datatype Stream = Stream(instance: string, conflict: bool, clock: string, handle: string, vector: Vector)

  // `vectors`: None when no interrupt was asked for, empty when none could be resolved. `streams`
  // likewise for DMA. The counts are of lines nobody scans.
  datatype Block = Block(initFn: string, clock: string, halInit: bool, handle: string, plain: nat,
                         vectors: Option<seq<Vector>>, streams: Option<seq<Stream>>, misses: nat)

  datatype Pin = Pin(portPin: string, plain: nat)

  datatype Plan = Plan(lead: nat, calls: nat, clockLines: nat, portClocks: seq<string>, pins: seq<Pin>, blocks: seq<Block>)

  // A function definition with the plain lines before it.
  datatype Function = Function(lead: nat, name: string, body: seq<Line>)

  // ---------------------------------------------------------------- rendering

  function Plains(n: nat): seq<Line> {
    seq(n, _ => Plain)
  }

  function ClockCalls(clocks: seq<string>): seq<Line> {
    seq(|clocks|, k requires 0 <= k < |clocks| => ClockCall(clocks[k]))
  }

  function PinLines(pins: seq<Pin>): seq<Line> {
    if pins == [] then []
    else [PinHeader(pins[0].portPin)] + Plains(pins[0].plain) + [GpioInit, Plain] + PinLines(pins[1..])
  }

  // The lines of MX_GPIO_Init before its pins.
  function BeforePins(plan: Plan): seq<Line> {
    Plains(2) + if plan.portClocks == [] then [] else [Plain] + ClockCalls(plan.portClocks) + [Plain]
  }

  function GpioBody(plan: Plan): seq<Line> {
    BeforePins(plan) + PinLines(plan.pins)
  }

  function Live(streams: seq<Stream>): seq<Stream> {
    if streams == [] then []
    else if streams[0].conflict then Live(streams[1..])
    else [streams[0]] + Live(streams[1..])
  }

  function StreamsOf(b: Block): seq<Stream> {
    if b.streams.None? then [] else Live(b.streams.value)
  }

  function VectorsOf(b: Block): seq<Vector> {
    if b.vectors.None? then [] else b.vectors.value
  }

  // Each clock once, where it first occurs.
  function FirstClocks(streams: seq<Stream>, seen: set<string>): seq<string> {
    if streams == [] then []
    else if streams[0].clock in seen then FirstClocks(streams[1..], seen)
    else [streams[0].clock] + FirstClocks(streams[1..], seen + {streams[0].clock})
  }

  function StreamLines(streams: seq<Stream>): seq<Line> {
    if streams == [] then []
    else Plains(15) + [EnableCall(streams[0].vector.irq)] + StreamLines(streams[1..])
  }

  function DmaLines(b: Block): seq<Line> {
    var live := StreamsOf(b);
    if b.streams.None? then []
    else Plains(b.misses) +
         if live == [] then [] else [Plain] + ClockCalls(FirstClocks(live, {})) + StreamLines(live)
  }

  function VectorLines(vectors: seq<Vector>): seq<Line> {
    if vectors == [] then [] else [Plain, EnableCall(vectors[0].irq)] + VectorLines(vectors[1..])
  }

  function NvicLines(b: Block): seq<Line> {
    if b.vectors.None? then [] else [Plain] + VectorLines(b.vectors.value)
  }

  lemma {:induction false} FirstClocksHave(streams: seq<Stream>, seen: set<string>, c: string)
    ensures c in FirstClocks(streams, seen) <==> c !in seen && exists k :: 0 <= k < |streams| && streams[k].clock == c
  {
    if streams != [] {
      var first, rest := streams[0].clock, streams[1..];
      FirstClocksHave(rest, if first in seen then seen else seen + {first}, c);
      if k :| 0 <= k < |rest| && rest[k].clock == c { assert streams[k + 1].clock == c; }
      if k :| 0 < k < |streams| && streams[k].clock == c { assert rest[k - 1].clock == c; }
    }
  }

  lemma {:induction false} FirstClocksAreDistinct(streams: seq<Stream>, seen: set<string>)
    ensures var cs := FirstClocks(streams, seen); forall i, j :: 0 <= i < j < |cs| ==> cs[i] != cs[j]
  {
    if streams != [] {
      var first, rest := streams[0].clock, streams[1..];
      if first in seen {
        FirstClocksAreDistinct(rest, seen);
        assert FirstClocks(streams, seen) == FirstClocks(rest, seen);
      } else {
        FirstClocksAreDistinct(rest, seen + {first});
        FirstClocksHave(rest, seen + {first}, first);
      }
    }
  }

  lemma ClockCallsAre(clocks: seq<string>)
    ensures |ClockCalls(clocks)| == |clocks| && forall k :: 0 <= k < |clocks| ==> ClockCalls(clocks)[k] == ClockCall(clocks[k])
  {}

  /** The clock of every stream that is initialised is switched on before any stream's code, and no clock
      twice. */
  lemma DmaClocksComeFirst(b: Block)
    requires b.streams.Some? && StreamsOf(b) != []
    ensures var cs := FirstClocks(StreamsOf(b), {});
            && DmaLines(b) == Plains(b.misses) + [Plain] + ClockCalls(cs) + StreamLines(StreamsOf(b))
            && (forall s :: s in StreamsOf(b) ==> ClockCall(s.clock) in ClockCalls(cs))
            && (forall i, j :: 0 <= i < j < |ClockCalls(cs)| ==> ClockCalls(cs)[i] != ClockCalls(cs)[j])
  {
    var live := StreamsOf(b);
    var cs := FirstClocks(live, {});
    FirstClocksAreDistinct(live, {});
    ClockCallsAre(cs);
    forall s | s in live ensures ClockCall(s.clock) in ClockCalls(cs) {
      FirstClocksHave(live, {}, s.clock);
      var k :| 0 <= k < |cs| && cs[k] == s.clock;
      assert ClockCalls(cs)[k] == ClockCall(s.clock);
    }
  }

  // Without a HAL driver template nothing but the clock is emitted.
  function BlockBody(b: Block): seq<Line> {
    [ClockCall(b.clock)] + if !b.halInit then [Plain] else Plains(b.plain) + DmaLines(b) + NvicLines(b)
  }

  function BlockFunctions(blocks: seq<Block>): seq<Function> {
    seq(|blocks|, k requires 0 <= k < |blocks| => Function(0, blocks[k].initFn, BlockBody(blocks[k])))
  }

  // ---------------------------------------------------------------- interrupt service routines

  datatype Entry = Entry(isr: string, call: Call)

  function StreamEntries(streams: seq<Stream>): seq<Entry> {
    if streams == [] then []
    else [Entry(streams[0].vector.isr, Call(streams[0].vector.handler, streams[0].handle))] + StreamEntries(streams[1..])
  }

  function VectorEntries(vectors: seq<Vector>, handle: string): seq<Entry> {
    if vectors == [] then []
    else [Entry(vectors[0].isr, Call(vectors[0].handler, handle))] + VectorEntries(vectors[1..], handle)
  }

  function BlockEntries(b: Block): seq<Entry> {
    VectorEntries(VectorsOf(b), b.handle) + StreamEntries(StreamsOf(b))
  }

  // What `_add` is called with, in order.
  function Entries(blocks: seq<Block>): seq<Entry> {
    if blocks == [] then []
    else Entries(blocks[..|blocks| - 1]) + BlockEntries(blocks[|blocks| - 1])
  }

  // `by_isr` in the order of `order`.
  datatype Isr = Isr(name: string, calls: seq<Call>)

  function Added(isrs: seq<Isr>, e: Entry): seq<Isr> {
    if isrs == [] then [Isr(e.isr, [e.call])]
    else if isrs[0].name == e.isr then
      [if e.call in isrs[0].calls then isrs[0] else Isr(e.isr, isrs[0].calls + [e.call])] + isrs[1..]
    else [isrs[0]] + Added(isrs[1..], e)
  }

  function Isrs(entries: seq<Entry>): seq<Isr> {
    if entries == [] then [] else Added(Isrs(entries[..|entries| - 1]), entries[|entries| - 1])
  }

  function HandlerCalls(calls: seq<Call>): seq<Line> {
    seq(|calls|, k requires 0 <= k < |calls| => HandlerCall(calls[k]))
  }

  function IsrFunctions(isrs: seq<Isr>): seq<Function> {
    seq(|isrs|, k requires 0 <= k < |isrs| => Function(if k == 0 then 1 else 0, isrs[k].name, HandlerCalls(isrs[k].calls)))
  }

  function Functions(plan: Plan): seq<Function> {
    [Function(plan.lead, "BSP_Init", Plains(plan.calls)),
     Function(0, "SystemClock_Config", Plains(plan.clockLines)),
     Function(0, "MX_GPIO_Init", GpioBody(plan))] +
    BlockFunctions(plan.blocks) + IsrFunctions(Isrs(Entries(plan.blocks)))
  }

  function FunctionLines(f: Function): seq<Line> {
    Plains(f.lead) + [Head(f.name), Open] + f.body + [Close, Plain]
  }

  function Lines(fs: seq<Function>): seq<Line> {
    if fs == [] then [] else FunctionLines(fs[0]) + Lines(fs[1..])
  }

  // ---------------------------------------------------------------- one routine per vector

  ghost predicate DistinctIsrs(isrs: seq<Isr>) {
    forall i, j :: 0 <= i < j < |isrs| ==> isrs[i].name != isrs[j].name
  }

  ghost predicate Dispatches(isrs: seq<Isr>, isr: string, call: Call) {
    exists k :: 0 <= k < |isrs| && isrs[k].name == isr && call in isrs[k].calls
  }

  ghost predicate Defines(isrs: seq<Isr>, isr: string) {
    exists k :: 0 <= k < |isrs| && isrs[k].name == isr
  }

  lemma {:induction false} AddingOne(isrs: seq<Isr>, e: Entry)
    requires DistinctIsrs(isrs)
    ensures DistinctIsrs(Added(isrs, e))
    ensures forall isr :: Defines(Added(isrs, e), isr) <==> Defines(isrs, isr) || isr == e.isr
    ensures forall isr, call :: Dispatches(Added(isrs, e), isr, call) <==> Dispatches(isrs, isr, call) || Entry(isr, call) == e
  {
    var r := Added(isrs, e);
    if isrs == [] {
      assert r[0].name == e.isr && e.call in r[0].calls;
    } else {
      var rest := isrs[1..];
      assert isrs == [isrs[0]] + rest;
      forall isr ensures Defines(isrs, isr) <==> isrs[0].name == isr || Defines(rest, isr) { DefinesCons(isrs[0], rest, isr); }
      forall isr, call ensures Dispatches(isrs, isr, call) <==> (isrs[0].name == isr && call in isrs[0].calls) || Dispatches(rest, isr, call) {
        DispatchesCons(isrs[0], rest, isr, call);
      }
      var tail := if isrs[0].name == e.isr then rest else Added(rest, e);
      if isrs[0].name != e.isr { AddingOne(rest, e); }
      assert r == [r[0]] + tail;
      forall isr ensures Defines(r, isr) <==> r[0].name == isr || Defines(tail, isr) { DefinesCons(r[0], tail, isr); }
      forall isr, call ensures Dispatches(r, isr, call) <==> (r[0].name == isr && call in r[0].calls) || Dispatches(tail, isr, call) {
        DispatchesCons(r[0], tail, isr, call);
      }
      DistinctCons(r[0], tail);
    }
  }

  lemma DefinesCons(first: Isr, rest: seq<Isr>, isr: string)
    ensures Defines([first] + rest, isr) <==> first.name == isr || Defines(rest, isr)
  {
    var all := [first] + rest;
    if first.name == isr { assert all[0].name == isr; }
    if k :| 0 <= k < |rest| && rest[k].name == isr { assert all[k + 1].name == isr; }
  }

  lemma DispatchesCons(first: Isr, rest: seq<Isr>, isr: string, call: Call)
    ensures Dispatches([first] + rest, isr, call) <==> (first.name == isr && call in first.calls) || Dispatches(rest, isr, call)
  {
    var all := [first] + rest;
    if first.name == isr && call in first.calls { assert all[0].name == isr && call in all[0].calls; }
    if k :| 0 <= k < |rest| && rest[k].name == isr && call in rest[k].calls { assert all[k + 1].name == isr && call in all[k + 1].calls; }
  }

  lemma DistinctCons(first: Isr, rest: seq<Isr>)
    requires DistinctIsrs(rest) && !Defines(rest, first.name)
    ensures DistinctIsrs([first] + rest)
  {}

  /** One routine per name, calling exactly what was added under it. */
  lemma {:induction false} RoutinesAreThoseAdded(entries: seq<Entry>)
    ensures DistinctIsrs(Isrs(entries))
    ensures forall isr, call :: Dispatches(Isrs(entries), isr, call) <==> Entry(isr, call) in entries
  {
    if entries != [] {
      var n := |entries| - 1;
      RoutinesAreThoseAdded(entries[..n]);
      AddingOne(Isrs(entries[..n]), entries[n]);
      assert entries == entries[..n] + [entries[n]];
    }
  }

  // A vector the block enables, with the handle its routine must be called on.
  ghost predicate Enables(b: Block, v: Vector, handle: string) {
    (v in VectorsOf(b) && handle == b.handle) || (exists s :: s in StreamsOf(b) && v == s.vector && handle == s.handle)
  }

  lemma {:induction false} VectorEntriesAre(vectors: seq<Vector>, handle: string, v: Vector)
    requires v in vectors
    ensures Entry(v.isr, Call(v.handler, handle)) in VectorEntries(vectors, handle)
  {
    if v != vectors[0] { VectorEntriesAre(vectors[1..], handle, v); }
  }

  lemma {:induction false} StreamEntriesAre(streams: seq<Stream>, s: Stream)
    requires s in streams
    ensures Entry(s.vector.isr, Call(s.vector.handler, s.handle)) in StreamEntries(streams)
  {
    if s != streams[0] { StreamEntriesAre(streams[1..], s); }
  }

  lemma {:induction false} EnabledIsAdded(blocks: seq<Block>, b: Block, v: Vector, handle: string)
    requires b in blocks && Enables(b, v, handle)
    ensures Entry(v.isr, Call(v.handler, handle)) in Entries(blocks)
  {
    var n := |blocks| - 1;
    assert blocks == blocks[..n] + [blocks[n]];
    if b in blocks[..n] {
      EnabledIsAdded(blocks[..n], b, v, handle);
    } else if v in VectorsOf(b) && handle == b.handle {
      VectorEntriesAre(VectorsOf(b), handle, v);
    } else {
      var s :| s in StreamsOf(b) && v == s.vector && handle == s.handle;
      StreamEntriesAre(StreamsOf(b), s);
    }
  }

  // The one routine of this name, with this call in it.
  ghost predicate IsTheRoutine(isrs: seq<Isr>, k: nat, isr: string, call: Call) {
    && k < |isrs| && isrs[k].name == isr && call in isrs[k].calls
    && forall j :: 0 <= j < |isrs| && isrs[j].name == isr ==> j == k
  }

  ghost predicate Served(blocks: seq<Block>, v: Vector, handle: string) {
    exists k :: IsTheRoutine(Isrs(Entries(blocks)), k, v.isr, Call(v.handler, handle))
  }

  /** Every interrupt the init code enables has one service routine, shared vectors included, and that
      routine calls the vector's handler on this block's, or this stream's, handle. */
  lemma EveryEnabledInterruptIsServed(blocks: seq<Block>, b: Block, v: Vector, handle: string)
    requires b in blocks && Enables(b, v, handle)
    ensures Served(blocks, v, handle)
  {
    EnabledIsAdded(blocks, b, v, handle);
    RoutinesAreThoseAdded(Entries(blocks));
    var isrs := Isrs(Entries(blocks));
    assert Dispatches(isrs, v.isr, Call(v.handler, handle));
    var k :| 0 <= k < |isrs| && isrs[k].name == v.isr && Call(v.handler, handle) in isrs[k].calls;
    forall j | 0 <= j < |isrs| && isrs[j].name == v.isr ensures j == k {}
    assert IsTheRoutine(isrs, k, v.isr, Call(v.handler, handle));
  }

  // ---------------------------------------------------------------- which enables are emitted

  lemma {:induction false} VectorEnables(vectors: seq<Vector>, irq: string)
    ensures EnableCall(irq) in VectorLines(vectors) <==> exists v :: v in vectors && v.irq == irq
  {
    if vectors != [] {
      var first, rest := [Plain, EnableCall(vectors[0].irq)], VectorLines(vectors[1..]);
      VectorEnables(vectors[1..], irq);
      assert EnableCall(irq) in first + rest <==> EnableCall(irq) in first || EnableCall(irq) in rest;
      assert first[1] in first;
      if v :| v in vectors && v.irq == irq { assert v == vectors[0] || v in vectors[1..]; }
    }
  }

  lemma {:induction false} StreamEnables(streams: seq<Stream>, irq: string)
    ensures EnableCall(irq) in StreamLines(streams) <==> exists s :: s in streams && s.vector.irq == irq
  {
    if streams != [] {
      var first, rest := Plains(15) + [EnableCall(streams[0].vector.irq)], StreamLines(streams[1..]);
      StreamEnables(streams[1..], irq);
      assert EnableCall(irq) in first + rest <==> EnableCall(irq) in first || EnableCall(irq) in rest;
      assert first[15] in first;
      if s :| s in streams && s.vector.irq == irq { assert s == streams[0] || s in streams[1..]; }
    }
  }

  ghost predicate Emits(b: Block, irq: string) {
    b.halInit && ((exists v :: v in VectorsOf(b) && v.irq == irq) || (exists s :: s in StreamsOf(b) && s.vector.irq == irq))
  }

  lemma InConcat(l: Line, a: seq<Line>, b: seq<Line>)
    ensures l in a + b <==> l in a || l in b
  {}

  lemma DmaEnables(b: Block, irq: string)
    ensures EnableCall(irq) in DmaLines(b) <==> exists s :: s in StreamsOf(b) && s.vector.irq == irq
  {
    var live := StreamsOf(b);
    if b.streams.Some? && live != [] {
      var l := EnableCall(irq);
      var clocks := [Plain] + ClockCalls(FirstClocks(live, {}));
      StreamEnables(live, irq);
      InConcat(l, clocks, StreamLines(live));
      InConcat(l, Plains(b.misses), clocks + StreamLines(live));
    }
  }

  lemma NvicEnables(b: Block, irq: string)
    ensures EnableCall(irq) in NvicLines(b) <==> exists v :: v in VectorsOf(b) && v.irq == irq
  {
    if b.vectors.Some? {
      VectorEnables(b.vectors.value, irq);
      InConcat(EnableCall(irq), [Plain], VectorLines(b.vectors.value));
    }
  }

  /** A block's init function enables exactly its vectors and its live streams' vectors, and none when
      the block has no HAL driver template. */
  lemma BlockEnables(b: Block, irq: string)
    ensures EnableCall(irq) in BlockBody(b) <==> Emits(b, irq)
  {
    var l, clock := EnableCall(irq), [ClockCall(b.clock)];
    if b.halInit {
      DmaEnables(b, irq);
      NvicEnables(b, irq);
      InConcat(l, Plains(b.plain), DmaLines(b));
      InConcat(l, Plains(b.plain) + DmaLines(b), NvicLines(b));
      InConcat(l, clock, Plains(b.plain) + DmaLines(b) + NvicLines(b));
    }
  }

  /** Every emitted HAL_NVIC_EnableIRQ(X) has its routine. */
  lemma EveryEmittedEnableIsServed(blocks: seq<Block>, b: Block, irq: string)
    requires b in blocks && EnableCall(irq) in BlockBody(b)
    ensures exists v: Vector, handle: string :: v.irq == irq && Enables(b, v, handle) && Served(blocks, v, handle)
  {
    BlockEnables(b, irq);
    if v :| v in VectorsOf(b) && v.irq == irq {
      EveryEnabledInterruptIsServed(blocks, b, v, b.handle);
      assert Enables(b, v, b.handle);
    } else {
      var s :| s in StreamsOf(b) && s.vector.irq == irq;
      assert Enables(b, s.vector, s.handle);
      EveryEnabledInterruptIsServed(blocks, b, s.vector, s.handle);
    }
  }

  // ---------------------------------------------------------------- the table of routines

  function Listed(order: seq<string>, byIsr: map<string, seq<Call>>): seq<Isr>
    requires forall name :: name in order ==> name in byIsr
  {
    seq(|order|, k requires 0 <= k < |order| => Isr(order[k], byIsr[order[k]]))
  }

  ghost predicate Distinct(names: seq<string>) {
    forall i, j :: 0 <= i < j < |names| ==> names[i] != names[j]
  }

  lemma {:induction false} AddedIs(isrs: seq<Isr>, e: Entry, k: nat)
    requires k <= |isrs| && (forall j :: 0 <= j < k ==> isrs[j].name != e.isr) && (k < |isrs| ==> isrs[k].name == e.isr)
    ensures Added(isrs, e) ==
              if k == |isrs| then isrs + [Isr(e.isr, [e.call])]
              else isrs[k := if e.call in isrs[k].calls then isrs[k] else Isr(e.isr, isrs[k].calls + [e.call])]
  {
    if k > 0 { AddedIs(isrs[1..], e, k - 1); }
  }

  lemma ListedWithNew(order: seq<string>, byIsr: map<string, seq<Call>>, e: Entry)
    requires (forall name :: name in order <==> name in byIsr) && e.isr !in byIsr
    ensures Listed(order + [e.isr], byIsr[e.isr := [e.call]]) == Added(Listed(order, byIsr), e)
  {
    var isrs := Listed(order, byIsr);
    forall j | 0 <= j < |isrs| ensures isrs[j].name != e.isr {
      assert order[j] in order;
    }
    AddedIs(isrs, e, |isrs|);
  }

  lemma ListedWithMore(order: seq<string>, byIsr: map<string, seq<Call>>, e: Entry)
    requires Distinct(order) && (forall name :: name in order <==> name in byIsr) && e.isr in byIsr
    ensures var calls := if e.call in byIsr[e.isr] then byIsr[e.isr] else byIsr[e.isr] + [e.call];
            Listed(order, byIsr[e.isr := calls]) == Added(Listed(order, byIsr), e)
  {
    var k :| 0 <= k < |order| && order[k] == e.isr;
    AddedIs(Listed(order, byIsr), e, k);
  }

  class IsrTable {
    var order: seq<string>
    var byIsr: map<string, seq<Call>>
    ghost var added: seq<Entry>

    // The table holds what has been added to it.
    ghost predicate Valid()
      reads this
    {
      && Distinct(order) && (forall name :: name in order <==> name in byIsr)
      && Listed(order, byIsr) == Isrs(added)
    }

    constructor ()
      ensures Valid() && added == []
    {
      order, byIsr, added := [], map[], [];
    }

    // `_add`
    method Add(e: Entry)
      requires Valid()
      modifies this
      ensures Valid() && added == old(added) + [e]
    {
      OneMoreEntry(added, e);
      added := added + [e];
      if e.isr !in byIsr {
        ListedWithNew(order, byIsr, e);
        order := order + [e.isr];
        byIsr := byIsr[e.isr := [e.call]];
      } else {
        ListedWithMore(order, byIsr, e);
        if e.call !in byIsr[e.isr] {
          byIsr := byIsr[e.isr := byIsr[e.isr] + [e.call]];
        } else {
          assert byIsr[e.isr := byIsr[e.isr]] == byIsr;
        }
      }
    }

    method Routines() returns (isrs: seq<Isr>)
      requires Valid()
      ensures isrs == Isrs(added)
    {
      isrs := Listed(order, byIsr);
    }

    // The loops of `_render_isrs` over one block.
    method AddBlock(b: Block)
      requires Valid()
      modifies this
      ensures Valid() && added == old(added) + BlockEntries(b)
    {
      var entries := BlockEntries(b);
      var i := 0;
      while i < |entries|
        invariant 0 <= i <= |entries| && Valid() && added == old(added) + entries[..i]
      {
        Add(entries[i]);
        i := i + 1;
      }
    }
  }

  lemma OneMoreEntry(entries: seq<Entry>, e: Entry)
    ensures Isrs(entries + [e]) == Added(Isrs(entries), e)
  {
    assert (entries + [e])[..|entries|] == entries;
  }

  lemma OneMoreBlock(blocks: seq<Block>, i: nat)
    requires i < |blocks|
    ensures Entries(blocks[..i + 1]) == Entries(blocks[..i]) + BlockEntries(blocks[i])
  {
    assert blocks[..i + 1][..i] == blocks[..i];
  }

  method RenderIsrs(blocks: seq<Block>) returns (isrs: seq<Isr>)
    ensures isrs == Isrs(Entries(blocks))
  {
    var table := new IsrTable();
    for i := 0 to |blocks|
      invariant table.Valid() && fresh(table) && table.added == Entries(blocks[..i])
    {
      OneMoreBlock(blocks, i);
      table.AddBlock(blocks[i]);
    }
    assert blocks[..|blocks|] == blocks;
    isrs := table.Routines();
  }
}
