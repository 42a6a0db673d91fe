/**
One plan, seen by both its readers: the renderer turns it into bsp_init.c (framework_render.py), and
the acceptance derivation into checks (acceptance_synth.py). What is proved of each is joined here:
where in the generated file the check of a plan element is located (provenance.py).
*/
module Pipeline {
  import opened Options
  import C = InitCode
  import S = AcceptanceSynth
  import I = AcceptanceIds
  import M = SourceMap
  import F = FrameworkSolver

  datatype Device = Device(name: string, code: C.Block)
  datatype Wire = Wire(role: S.Role, port: string, pin: int, code: C.Pin)
  datatype Design = Design(isF1: bool, lead: nat, calls: nat, clockLines: nat,
                           ports: seq<string>, devices: seq<Device>, wires: seq<Wire>)

  // As the plan is built: a device's clock macro is its name in upper case, and a pin's port and number
  // are what its name was read as.
  ghost predicate WellBuilt(d: Design) {
    && (forall k :: 0 <= k < |d.devices| ==> d.devices[k].code.clock == F.Upper(d.devices[k].name))
    && (forall k :: 0 <= k < |d.wires| ==> F.ParsePortPin(d.wires[k].code.portPin) == Some((d.wires[k].port, d.wires[k].pin)))
  }

  function Codes(ds: seq<Device>): seq<C.Block> {
    seq(|ds|, k requires 0 <= k < |ds| => ds[k].code)
  }

  function ToInit(d: Design): C.Plan {
    C.Plan(d.lead, d.calls, d.clockLines,
           seq(|d.ports|, k requires 0 <= k < |d.ports| => F.Upper("GPIO" + d.ports[k])),
           seq(|d.wires|, k requires 0 <= k < |d.wires| => d.wires[k].code),
           Codes(d.devices))
  }

  function Vectors(b: C.Block): seq<Option<string>> {
    var vs := C.VectorsOf(b);
    seq(|vs|, k requires 0 <= k < |vs| => Some(vs[k].irq))
  }

  function Streams(b: C.Block): seq<S.Stream> {
    if b.streams.None? then []
    else
      var ss := b.streams.value;
      seq(|ss|, k requires 0 <= k < |ss| => S.Stream(ss[k].conflict, Some(ss[k].vector.irq)))
  }

  function Blocks(ds: seq<Device>): seq<S.Block> {
    seq(|ds|, k requires 0 <= k < |ds| => S.Block(Vectors(ds[k].code), Streams(ds[k].code)))
  }

  function PinOf(w: Wire): S.Pin {
    S.Pin(w.role, Some(w.port), Some(w.pin), Some(w.code.portPin))
  }

  function Pins(ws: seq<Wire>): seq<S.Pin> {
    seq(|ws|, k requires 0 <= k < |ws| => PinOf(ws[k]))
  }

  function ToAcceptance(d: Design): S.FrameworkPlan {
    S.FrameworkPlan(d.isF1,
      seq(|d.ports|, k requires 0 <= k < |d.ports| => S.GpioPort(d.ports[k])) +
      seq(|d.devices|, k requires 0 <= k < |d.devices| => S.Peripheral(d.devices[k].name)),
      Blocks(d.devices),
      Pins(d.wires))
  }

  // ---------------------------------------------------------------- clocks

  predicate NamesClock(c: S.Clock, name: string) {
    match c
    case GpioPort(port) => name == "GPIO" + port
    case Peripheral(n) => name == n
    case OtherClock => false
  }

  lemma {:induction false} ClockTargetsAre(cs: seq<S.Clock>, name: string)
    ensures name in S.ClockTargets(cs) <==> exists k :: 0 <= k < |cs| && NamesClock(cs[k], name)
  {
    if cs != [] {
      var n := |cs| - 1;
      ClockTargetsAre(cs[..n], name);
      if k :| 0 <= k < |cs| && NamesClock(cs[k], name) {
        if k < n { assert NamesClock(cs[..n][k], name); }
      }
      if k :| 0 <= k < n && NamesClock(cs[..n][k], name) { assert NamesClock(cs[k], name); }
      assert name in S.ClockTargets(cs) <==> name in S.ClockTargets(cs[..n]) || NamesClock(cs[n], name);
    }
  }

  /** Every clock check of a design points at the line of bsp_init.c that enables that clock. */
  lemma ClockChecksPointAtTheirEnable(d: Design, name: string)
    requires WellBuilt(d) && name in S.ClockTargets(ToAcceptance(d).clocks)
    ensures var fs := C.Functions(ToInit(d)); var hit := M.Resolve(fs, M.ClockEnable, F.Upper(name));
            && (hit.Some? <==> M.OfWordCharacters(F.Upper(name)))
            && (hit.Some? ==> exists k: nat, j: nat :: M.FoundAt(fs, hit.value, k, j) && fs[k].body[j] == C.ClockCall(F.Upper(name)))
  {
    var cs, plan := ToAcceptance(d).clocks, ToInit(d);
    ClockTargetsAre(cs, name);
    var k :| 0 <= k < |cs| && NamesClock(cs[k], name);
    if k < |d.ports| {
      assert plan.portClocks[k] == F.Upper(name);
      assert F.Upper(name) in plan.portClocks;
    } else {
      var b := plan.blocks[k - |d.ports|];
      assert b in plan.blocks && b.clock == F.Upper(name);
    }
    M.EveryClockCheckIsLocated(plan, F.Upper(name));
  }

  // ---------------------------------------------------------------- interrupts

  // The block asks for the interrupt, whether or not its code is emitted.
  ghost predicate Wants(b: C.Block, irq: string) {
    (exists v :: v in C.VectorsOf(b) && v.irq == irq) || (exists s :: s in C.StreamsOf(b) && s.vector.irq == irq)
  }

  lemma {:induction false} NamedAre(irqs: seq<Option<string>>, irq: string)
    ensures irq in S.Named(irqs) <==> irq != "" && Some(irq) in irqs
  {
    if irqs != [] {
      var n := |irqs| - 1;
      NamedAre(irqs[..n], irq);
      assert irqs == irqs[..n] + [irqs[n]];
    }
  }

  lemma {:induction false} StreamIrqsAre(ss: seq<S.Stream>, irq: Option<string>)
    ensures irq in S.StreamIrqs(ss) <==> S.Stream(false, irq) in ss
  {
    if ss != [] {
      var n := |ss| - 1;
      StreamIrqsAre(ss[..n], irq);
      assert ss == ss[..n] + [ss[n]];
    }
  }

  lemma {:induction false} LiveAre(ss: seq<C.Stream>, s: C.Stream)
    ensures s in C.Live(ss) <==> s in ss && !s.conflict
  {
    if ss != [] {
      LiveAre(ss[1..], s);
      assert ss == [ss[0]] + ss[1..];
    }
  }

  lemma BlockIrqsAre(b: C.Block, irq: string)
    ensures irq in S.Named(Vectors(b)) || irq in S.Named(S.StreamIrqs(Streams(b))) <==> irq != "" && Wants(b, irq)
  {
    NamedAre(Vectors(b), irq);
    NamedAre(S.StreamIrqs(Streams(b)), irq);
    StreamIrqsAre(Streams(b), Some(irq));
    VectorsAre(b, irq);
    StreamsAre(b, irq);
  }

  lemma VectorsAre(b: C.Block, irq: string)
    ensures Some(irq) in Vectors(b) <==> exists v :: v in C.VectorsOf(b) && v.irq == irq
  {
    var vs := C.VectorsOf(b);
    if v :| v in vs && v.irq == irq {
      var k :| 0 <= k < |vs| && vs[k] == v;
      assert Vectors(b)[k] == Some(irq);
    }
  }

  lemma StreamsAre(b: C.Block, irq: string)
    ensures S.Stream(false, Some(irq)) in Streams(b) <==> exists s :: s in C.StreamsOf(b) && s.vector.irq == irq
  {
    if b.streams.Some? {
      var ss := b.streams.value;
      if s :| s in C.StreamsOf(b) && s.vector.irq == irq {
        LiveAre(ss, s);
        var k :| 0 <= k < |ss| && ss[k] == s;
        assert Streams(b)[k] == S.Stream(false, Some(irq));
      }
      if S.Stream(false, Some(irq)) in Streams(b) {
        var k :| 0 <= k < |ss| && Streams(b)[k] == S.Stream(false, Some(irq));
        LiveAre(ss, ss[k]);
      }
    }
  }

  lemma OneMoreDevice(ds: seq<Device>, irq: string)
    requires ds != []
    ensures var n := |ds| - 1;
            irq in S.EnabledIrqs(Blocks(ds)) <==>
            irq in S.EnabledIrqs(Blocks(ds[..n])) || (irq != "" && Wants(ds[n].code, irq))
  {
    var n := |ds| - 1;
    BlockIrqsAre(ds[n].code, irq);
    assert Blocks(ds)[..n] == Blocks(ds[..n]);
    var a, b, c := S.EnabledIrqs(Blocks(ds[..n])), S.Named(Vectors(ds[n].code)), S.Named(S.StreamIrqs(Streams(ds[n].code)));
    assert S.EnabledIrqs(Blocks(ds)) == a + b + c;
  }

  ghost predicate SomeoneWants(ds: seq<Device>, irq: string) {
    exists k :: 0 <= k < |ds| && Wants(ds[k].code, irq)
  }

  lemma SomeoneOfMore(ds: seq<Device>, irq: string)
    requires ds != []
    ensures SomeoneWants(ds, irq) <==> SomeoneWants(ds[..|ds| - 1], irq) || Wants(ds[|ds| - 1].code, irq)
  {
    var n := |ds| - 1;
    if k :| 0 <= k < n && Wants(ds[k].code, irq) { assert Wants(ds[..n][k].code, irq); }
    if k :| 0 <= k < n && Wants(ds[..n][k].code, irq) { assert Wants(ds[k].code, irq); }
  }

  lemma {:induction false} EnabledIrqsAre(ds: seq<Device>, irq: string)
    ensures irq in S.EnabledIrqs(Blocks(ds)) <==> irq != "" && SomeoneWants(ds, irq)
  {
    if ds != [] {
      EnabledIrqsAre(ds[..|ds| - 1], irq);
      OneMoreDevice(ds, irq);
      SomeoneOfMore(ds, irq);
    }
  }

  ghost predicate SomeoneEmits(ds: seq<Device>, irq: string) {
    exists k :: 0 <= k < |ds| && ds[k].code.halInit && Wants(ds[k].code, irq)
  }

  lemma EmittersAre(ds: seq<Device>, irq: string)
    ensures SomeoneEmits(ds, irq) <==> exists b :: b in Codes(ds) && C.Emits(b, irq)
  {
    var blocks := Codes(ds);
    if b :| b in blocks && C.Emits(b, irq) {
      var k :| 0 <= k < |blocks| && blocks[k] == b;
      assert ds[k].code.halInit && Wants(ds[k].code, irq);
    }
    if k :| 0 <= k < |ds| && ds[k].code.halInit && Wants(ds[k].code, irq) {
      assert blocks[k] in blocks && C.Emits(blocks[k], irq);
    }
  }

  /** An interrupt check of a design points at the line that enables the interrupt, exactly when some
      device that asks for it has a HAL init call to be emitted in. */
  lemma InterruptChecksPointAtTheirEnable(d: Design, irq: string)
    requires irq in S.NvicTargets(ToAcceptance(d))
    ensures var fs := C.Functions(ToInit(d)); var hit := M.Resolve(fs, M.NvicEnable, irq);
            && (hit.Some? <==> M.IsWord(irq) && SomeoneEmits(d.devices, irq))
            && (hit.Some? ==> exists k: nat, j: nat :: M.FoundAt(fs, hit.value, k, j) && fs[k].body[j] == C.EnableCall(irq))
  {
    M.InterruptCheckIsLocatedIff(ToInit(d), irq);
    EmittersAre(d.devices, irq);
  }

  /** So when every device that asks for an interrupt has one, every interrupt check is located. */
  lemma AllInterruptChecksAreLocated(d: Design, irq: string)
    requires irq in S.NvicTargets(ToAcceptance(d)) && M.IsWord(irq)
    requires forall k, other :: 0 <= k < |d.devices| && Wants(d.devices[k].code, other) ==> d.devices[k].code.halInit
    ensures M.Resolve(C.Functions(ToInit(d)), M.NvicEnable, irq).Some?
  {
    InterruptChecksPointAtTheirEnable(d, irq);
    I.FirstOnesAreDistinct(S.EnabledIrqs(Blocks(d.devices)));
    EnabledIrqsAre(d.devices, irq);
    var k :| 0 <= k < |d.devices| && Wants(d.devices[k].code, irq);
  }

  // ---------------------------------------------------------------- pins

  // The wire behind a pin check.
  ghost predicate ChecksWire(t: S.PinTarget, w: Wire) {
    S.ModeOf(w.role) == Some(t.mode) && t.port == w.port && t.pin == w.pin && t.portPin == w.code.portPin
  }

  lemma OneMoreWire(ws: seq<Wire>, t: S.PinTarget)
    requires ws != [] && ws[|ws| - 1].code.portPin != ""
    ensures t in S.GpioTargets(Pins(ws)) <==> t in S.GpioTargets(Pins(ws[..|ws| - 1])) || ChecksWire(t, ws[|ws| - 1])
  {
    assert Pins(ws)[..|ws| - 1] == Pins(ws[..|ws| - 1]);
  }

  ghost predicate ChecksSome(t: S.PinTarget, ws: seq<Wire>) {
    exists k :: 0 <= k < |ws| && ChecksWire(t, ws[k])
  }

  lemma SomeOfMoreWires(ws: seq<Wire>, t: S.PinTarget)
    requires ws != []
    ensures ChecksSome(t, ws) <==> ChecksSome(t, ws[..|ws| - 1]) || ChecksWire(t, ws[|ws| - 1])
  {
    var n := |ws| - 1;
    if k :| 0 <= k < n && ChecksWire(t, ws[k]) { assert ChecksWire(t, ws[..n][k]); }
    if k :| 0 <= k < n && ChecksWire(t, ws[..n][k]) { assert ChecksWire(t, ws[k]); }
  }

  lemma {:induction false} GpioTargetsAre(ws: seq<Wire>, t: S.PinTarget)
    requires forall k :: 0 <= k < |ws| ==> ws[k].code.portPin != ""
    ensures t in S.GpioTargets(Pins(ws)) <==> ChecksSome(t, ws)
  {
    if ws != [] {
      GpioTargetsAre(ws[..|ws| - 1], t);
      OneMoreWire(ws, t);
      SomeOfMoreWires(ws, t);
    }
  }

  lemma WiresAreNamed(d: Design)
    requires WellBuilt(d)
    ensures forall k :: 0 <= k < |d.wires| ==> d.wires[k].code.portPin != ""
  {
    assert F.ParsePortPin("").None?;
  }

  // The mode-setting call of the m-th pin: its line, that line, and the header it stands under.
  ghost predicate IsCallOf(plan: C.Plan, m: nat, c: M.Construct) {
    var fs := C.Functions(plan);
    && m < |plan.pins| && |fs| > 2
    && c.line == M.PinsStart(plan, fs) + M.PinOffset(plan.pins, m) && c.fn == Some(M.GPIO_INIT)
    && 2 + plan.pins[m].plain <= c.line <= |C.Lines(fs)| && C.Lines(fs)[c.line - 1] == C.GpioInit
    && C.Lines(fs)[c.line - 2 - plan.pins[m].plain] == C.PinHeader(plan.pins[m].portPin)
  }

  lemma OfPinIsCall(plan: C.Plan, n: nat, c: M.Construct)
    requires |C.Functions(plan)| > 2
    requires M.OfPin(plan.pins, Some(M.GPIO_INIT), M.PinsStart(plan, C.Functions(plan)), n, c)
    ensures IsCallOf(plan, n, c)
  {
    M.FunctionsAreRendered(plan);
    M.LocatedPinLine(plan, C.Functions(plan), n, c);
  }

  // The located call is the first one under that name.
  lemma LocatedCall(plan: C.Plan, m: nat, n: nat, p: string, c: M.Construct)
    requires m < |plan.pins| && |C.Functions(plan)| > 2 && M.HeaderKey(plan.pins[m].portPin) == Some(p)
    requires M.FirstPinWith(plan.pins, n, p)
    requires M.OfPin(plan.pins, Some(M.GPIO_INIT), M.PinsStart(plan, C.Functions(plan)), n, c)
    ensures IsCallOf(plan, n, c) && n <= m
    ensures IsCallOf(plan, m, c) <==> M.FirstPinWith(plan.pins, m, p)
  {
    OfPinIsCall(plan, n, c);
    M.LaterPinsAreLower(plan.pins, n, m);
  }

  // A name tells the port and the pin.
  lemma SameNameSamePin(a: string, b: string)
    requires F.ParsePortPin(a).Some? && F.ParsePortPin(b).Some?
    requires M.HeaderKey(a).Some? && M.HeaderKey(a) == M.HeaderKey(b)
    ensures F.ParsePortPin(a) == F.ParsePortPin(b)
  {
    F.HeaderOfParsed(a);
    F.HeaderOfParsed(b);
  }

  /** A pin check of a design points at a HAL_GPIO_Init call of bsp_init.c exactly when the netlist writes
      the pin without spaces and in capitals. The call is always one for that very port and pin; and it is
      the one of the wire the check was derived from unless an earlier wire carries the same name. */
  lemma PinChecksPointAtTheirCall(d: Design, t: S.PinTarget, m: nat)
    requires WellBuilt(d) && m < |d.wires| && ChecksWire(t, d.wires[m])
    ensures var plan := ToInit(d); var hit := M.Resolve(C.Functions(plan), M.GpioMode, t.portPin);
            && (hit.Some? <==> t.portPin == F.Upper(F.Strip(t.portPin)))
            && (hit.Some? ==> exists n: nat :: IsCallOf(plan, n, hit.value) && SamePin(d, n, t))
            && (hit.Some? ==> (IsCallOf(plan, m, hit.value) <==> M.FirstPinWith(plan.pins, m, t.portPin)))
  {
    var plan := ToInit(d);
    var fs := C.Functions(plan);
    assert plan.pins[m] == d.wires[m].code;
    M.PinCheckIsLocatedIff(plan, m);
    F.HeaderOfParsed(t.portPin);
    var hit := M.Resolve(fs, M.GpioMode, t.portPin);
    if hit.Some? {
      M.FunctionsAreRendered(plan);
      var n: nat :| M.FirstPinWith(plan.pins, n, t.portPin) && M.OfPin(plan.pins, Some(M.GPIO_INIT), M.PinsStart(plan, fs), n, hit.value);
      M.HeaderKeysAreCanonical(t.portPin, t.portPin);
      LocatedCall(plan, m, n, t.portPin, hit.value);
      assert plan.pins[n] == d.wires[n].code;
      SameNameSamePin(d.wires[n].code.portPin, t.portPin);
      assert SamePin(d, n, t);
    }
  }

  ghost predicate SamePin(d: Design, n: nat, t: S.PinTarget) {
    n < |d.wires| && d.wires[n].port == t.port && d.wires[n].pin == t.pin
  }

  /** And the pin checks of a design are exactly those of its wires whose role has mode bits. */
  lemma PinChecksAreTheWires(d: Design, t: S.PinTarget)
    requires WellBuilt(d)
    ensures t in S.GpioTargets(ToAcceptance(d).gpio) <==> ChecksSome(t, d.wires)
  {
    WiresAreNamed(d);
    GpioTargetsAre(d.wires, t);
  }
}
