/**
The derivation as a whole (acceptance_synth.py, derive_acceptance_spec): the spec it builds
validates, and what a verdict on it says about the silicon, in the plan's own terms.
*/
module AcceptanceDerive {
  import opened Options
  import opened Bits
  import opened LoopControl
  import opened AcceptanceEval
  import opened AcceptanceSynth

  function Ask<T>(f: Option<string -> Option<T>>, name: string): Option<T> {
    match f
    case None => None
    case Some(g) => g(name)
  }

  // The targets a resolver places, with their places, and those it does not.
  function Resolved<T>(names: seq<string>, f: Option<string -> Option<T>>): seq<(string, T)> {
    if names == [] then []
    else
      var init := Resolved(names[..|names| - 1], f);
      var last := names[|names| - 1];
      match Ask(f, last)
      case None => init
      case Some(place) => init + [(last, place)]
  }

  function MissingClocks(names: seq<string>, f: Option<string -> Option<Placement>>): seq<Unresolved> {
    if names == [] then []
    else
      var init := MissingClocks(names[..|names| - 1], f);
      if Ask(f, names[|names| - 1]).None? then init + [ClockUnknown(names[|names| - 1])] else init
  }

  // Without a resolver the interrupts and the pins are skipped with a note, not reported.
  function MissingIrqs(names: seq<string>, f: Option<string -> Option<int>>): seq<Unresolved> {
    if names == [] then []
    else
      var init := MissingIrqs(names[..|names| - 1], f);
      if f.Some? && Ask(f, names[|names| - 1]).None? then init + [IrqUnknown(names[|names| - 1])] else init
  }

  function ResolvedPins(ts: seq<PinTarget>, f: Option<string -> Option<int>>): seq<(PinTarget, int)> {
    if ts == [] then []
    else
      var init := ResolvedPins(ts[..|ts| - 1], f);
      var last := ts[|ts| - 1];
      match Ask(f, last.port)
      case None => init
      case Some(base) => init + [(last, base)]
  }

  function MissingPins(ts: seq<PinTarget>, f: Option<string -> Option<int>>): seq<Unresolved> {
    if ts == [] then []
    else
      var init := MissingPins(ts[..|ts| - 1], f);
      if f.Some? && Ask(f, ts[|ts| - 1].port).None? then init + [GpioUnknown(ts[|ts| - 1].port)] else init
  }

  predicate ShiftsOk(cs: seq<(string, Placement)>, ps: seq<(PinTarget, int)>) {
    && (forall k :: 0 <= k < |cs| ==> cs[k].1.bit >= 0)
    && (forall k :: 0 <= k < |ps| ==> ps[k].0.pin >= 0)
  }

  function ClockRules(cs: seq<(string, Placement)>): seq<Rule>
    requires ShiftsOk(cs, [])
  {
    seq(|cs|, k requires 0 <= k < |cs| => ClockRule(cs[k].0, cs[k].1))
  }

  function NvicRules(ns: seq<(string, int)>): seq<Rule> {
    seq(|ns|, k requires 0 <= k < |ns| => NvicRule(ns[k].0, ns[k].1))
  }

  function GpioRules(ps: seq<(PinTarget, int)>): seq<Rule>
    requires ShiftsOk([], ps)
  {
    seq(|ps|, k requires 0 <= k < |ps| => GpioRule(ps[k].0, ps[k].1))
  }

  function Clocks(plan: FrameworkPlan, res: Resolvers): seq<(string, Placement)> {
    Resolved(ClockTargets(plan.clocks), res.clock)
  }

  function Irqs(plan: FrameworkPlan, choices: Choices, res: Resolvers): seq<(string, int)> {
    if choices.nvic then Resolved(NvicTargets(plan), res.irq) else []
  }

  function Pins(plan: FrameworkPlan, choices: Choices, res: Resolvers): seq<(PinTarget, int)> {
    if choices.gpio && !plan.isF1 then ResolvedPins(GpioTargets(plan.gpio), res.gpio) else []
  }

  function Rules(plan: FrameworkPlan, choices: Choices, res: Resolvers): seq<Rule>
    requires ShiftsOk(Clocks(plan, res), Pins(plan, choices, res))
  {
    Opening(choices) + ClockRules(Clocks(plan, res)) + NvicRules(Irqs(plan, choices, res)) + GpioRules(Pins(plan, choices, res))
  }

  function Reports(plan: FrameworkPlan, choices: Choices, res: Resolvers): seq<Unresolved> {
    var pins := GpioTargets(plan.gpio);
    MissingClocks(ClockTargets(plan.clocks), res.clock) +
    (if choices.nvic then MissingIrqs(NvicTargets(plan), res.irq) else []) +
    (if !choices.gpio || pins == [] then [] else if plan.isF1 then [ModerUnsupported(|pins|)] else MissingPins(pins, res.gpio))
  }

  function Derive(plan: FrameworkPlan, choices: Choices, res: Resolvers): Derived {
    if ShiftsOk(Clocks(plan, res), Pins(plan, choices, res))
    then Derived(Rules(plan, choices, res), Reports(plan, choices, res)) else Raised
  }

  // ---------------------------------------------------------------- the loops

  lemma OneMoreClock(cs: seq<(string, Placement)>, name: string, place: Placement)
    ensures ShiftsOk(cs + [(name, place)], []) <==> ShiftsOk(cs, []) && place.bit >= 0
    ensures ShiftsOk(cs, []) && place.bit >= 0 ==> ClockRules(cs + [(name, place)]) == ClockRules(cs) + [ClockRule(name, place)]
  {
    var all := cs + [(name, place)];
    assert all[|cs|].1 == place;
    assert forall k :: 0 <= k < |cs| ==> all[k] == cs[k];
  }

  method DeriveClocks(names: seq<string>, f: Option<string -> Option<Placement>>)
    returns (rules: seq<Rule>, unresolved: seq<Unresolved>, raised: bool)
    ensures raised <==> !ShiftsOk(Resolved(names, f), [])
    ensures !raised ==> rules == ClockRules(Resolved(names, f)) && unresolved == MissingClocks(names, f)
  {
    rules, unresolved, raised := [], [], false;
    var i := 0;
    while i < |names| && !raised
      invariant 0 <= i <= |names|
      invariant raised <==> !ShiftsOk(Resolved(names[..i], f), [])
      invariant !raised ==> rules == ClockRules(Resolved(names[..i], f)) && unresolved == MissingClocks(names[..i], f)
    {
      assert names[..i + 1][..i] == names[..i];
      match Ask(f, names[i]) {
        case None =>
          unresolved := unresolved + [ClockUnknown(names[i])];
        case Some(place) =>
          OneMoreClock(Resolved(names[..i], f), names[i], place);
          if place.bit < 0 {
            raised := true;
          } else {
            rules := rules + [ClockRule(names[i], place)];
          }
      }
      i := i + 1;
    }
    assert names[..|names|] == names;
    if raised { StillBadClocks(names, f, i); }
  }

  lemma {:induction false} StillBadClocks(names: seq<string>, f: Option<string -> Option<Placement>>, i: nat)
    requires i <= |names| && !ShiftsOk(Resolved(names[..i], f), [])
    ensures !ShiftsOk(Resolved(names, f), [])
  {
    if i == |names| {
      assert names[..i] == names;
    } else {
      var n := |names| - 1;
      assert names[..n][..i] == names[..i];
      StillBadClocks(names[..n], f, i);
      if Ask(f, names[n]).Some? { OneMoreClock(Resolved(names[..n], f), names[n], Ask(f, names[n]).value); }
    }
  }

  method DeriveNvic(names: seq<string>, f: Option<string -> Option<int>>)
    returns (rules: seq<Rule>, unresolved: seq<Unresolved>)
    ensures rules == NvicRules(Resolved(names, f)) && unresolved == MissingIrqs(names, f)
  {
    rules, unresolved := [], [];
    for i := 0 to |names|
      invariant rules == NvicRules(Resolved(names[..i], f)) && unresolved == MissingIrqs(names[..i], f)
    {
      assert names[..i + 1][..i] == names[..i];
      match Ask(f, names[i]) {
        case None =>
          if f.Some? {
            unresolved := unresolved + [IrqUnknown(names[i])];
          }
        case Some(number) =>
          rules := rules + [NvicRule(names[i], number)];
      }
    }
    assert names[..|names|] == names;
  }

  lemma OneMorePin(ps: seq<(PinTarget, int)>, t: PinTarget, base: int)
    ensures ShiftsOk([], ps + [(t, base)]) <==> ShiftsOk([], ps) && t.pin >= 0
    ensures ShiftsOk([], ps) && t.pin >= 0 ==> GpioRules(ps + [(t, base)]) == GpioRules(ps) + [GpioRule(t, base)]
  {
    var all := ps + [(t, base)];
    assert all[|ps|].0 == t;
    assert forall k :: 0 <= k < |ps| ==> all[k] == ps[k];
  }

  method DeriveGpio(ts: seq<PinTarget>, f: Option<string -> Option<int>>)
    returns (rules: seq<Rule>, unresolved: seq<Unresolved>, raised: bool)
    ensures raised <==> !ShiftsOk([], ResolvedPins(ts, f))
    ensures !raised ==> rules == GpioRules(ResolvedPins(ts, f)) && unresolved == MissingPins(ts, f)
  {
    rules, unresolved, raised := [], [], false;
    var i := 0;
    while i < |ts| && !raised
      invariant 0 <= i <= |ts|
      invariant raised <==> !ShiftsOk([], ResolvedPins(ts[..i], f))
      invariant !raised ==> rules == GpioRules(ResolvedPins(ts[..i], f)) && unresolved == MissingPins(ts[..i], f)
    {
      assert ts[..i + 1][..i] == ts[..i];
      match Ask(f, ts[i].port) {
        case None =>
          if f.Some? {
            unresolved := unresolved + [GpioUnknown(ts[i].port)];
          }
        case Some(base) =>
          OneMorePin(ResolvedPins(ts[..i], f), ts[i], base);
          if ts[i].pin < 0 {
            raised := true;
          } else {
            rules := rules + [GpioRule(ts[i], base)];
          }
      }
      i := i + 1;
    }
    assert ts[..|ts|] == ts;
    if raised { StillBadPins(ts, f, i); }
  }

  lemma {:induction false} StillBadPins(ts: seq<PinTarget>, f: Option<string -> Option<int>>, i: nat)
    requires i <= |ts| && !ShiftsOk([], ResolvedPins(ts[..i], f))
    ensures !ShiftsOk([], ResolvedPins(ts, f))
  {
    if i == |ts| {
      assert ts[..i] == ts;
    } else {
      var n := |ts| - 1;
      assert ts[..n][..i] == ts[..i];
      StillBadPins(ts[..n], f, i);
      if Ask(f, ts[n].port).Some? { OneMorePin(ResolvedPins(ts[..n], f), ts[n], Ask(f, ts[n].port).value); }
    }
  }

  method DeriveAcceptanceSpec(plan: FrameworkPlan, choices: Choices, res: Resolvers) returns (d: Derived)
    ensures d == Derive(plan, choices, res)
  {
    var rules := Opening(choices);
    var clockRules, unresolved, raised := DeriveClocks(ClockTargets(plan.clocks), res.clock);
    if raised {
      return Raised;
    }
    rules := rules + clockRules;
    var nvicRules, missing: seq<Unresolved> := [], [];
    if choices.nvic {
      nvicRules, missing := DeriveNvic(NvicTargets(plan), res.irq);
    }
    rules, unresolved := rules + nvicRules, unresolved + missing;
    var gpioRules: seq<Rule> := [];
    missing := [];
    if choices.gpio {
      var targets := GpioTargets(plan.gpio);
      if targets != [] && plan.isF1 {
        missing := [ModerUnsupported(|targets|)];
      } else if targets != [] {
        gpioRules, missing, raised := DeriveGpio(targets, res.gpio);
        if raised {
          return Raised;
        }
      }
    }
    return Derived(rules + gpioRules, unresolved + missing);
  }

  // ---------------------------------------------------------------- the verdict

  lemma {:induction false} ResolvedAre<T>(names: seq<string>, f: Option<string -> Option<T>>)
    ensures forall name, place :: (name, place) in Resolved(names, f) <==> name in names && Ask(f, name) == Some(place)
  {
    if names != [] {
      var n := |names| - 1;
      ResolvedAre(names[..n], f);
      assert names == names[..n] + [names[n]];
    }
  }

  lemma {:induction false} ResolvedPinsAre(ts: seq<PinTarget>, f: Option<string -> Option<int>>)
    ensures forall t, base :: (t, base) in ResolvedPins(ts, f) <==> t in ts && Ask(f, t.port) == Some(base)
  {
    if ts != [] {
      var n := |ts| - 1;
      ResolvedPinsAre(ts[..n], f);
      assert ts == ts[..n] + [ts[n]];
    }
  }

  lemma {:induction false} ModesAreTwoBits(gpio: seq<Pin>)
    ensures forall t :: t in GpioTargets(gpio) ==> 2 <= t.mode <= 3
  {
    if gpio != [] { ModesAreTwoBits(gpio[..|gpio| - 1]); }
  }

  ghost predicate ClockOn(p: Placement, r: Reader)
    requires p.bit >= 0
  {
    var word := r.word(p.address % WORD);
    word.Some? && (p.bit >= 32 || Bit(word.value, p.bit))
  }

  ghost predicate IrqOn(number: int, r: Reader) {
    var word := r.word(IserAddress(number));
    word.Some? && Bit(word.value, number % 32)
  }

  ghost predicate PinInMode(t: PinTarget, base: int, r: Reader)
    requires t.pin >= 0
  {
    var word := r.word(base % WORD);
    word.Some? && (t.pin >= 16 || Pair(word.value, 2 * t.pin) == t.mode)
  }

  ghost predicate OpeningHolds(choices: Choices, r: Reader) {
    && (choices.noFault ==> r.faults.Some? && NoFaultActive(r.faults.value.0, r.faults.value.1))
    && (choices.stoppedAt != "" ==>
          && r.register("pc").Some? && r.symbol(r.register("pc").value) == Some(choices.stoppedAt))
  }

  ghost predicate ClocksHold(cs: seq<(string, Placement)>, r: Reader)
    requires ShiftsOk(cs, [])
  {
    forall k :: 0 <= k < |cs| ==> ClockOn(cs[k].1, r)
  }

  ghost predicate IrqsHold(ns: seq<(string, int)>, r: Reader) {
    forall k :: 0 <= k < |ns| ==> IrqOn(ns[k].1, r)
  }

  ghost predicate PinsHold(ps: seq<(PinTarget, int)>, r: Reader)
    requires ShiftsOk([], ps)
  {
    forall k :: 0 <= k < |ps| ==> PinInMode(ps[k].0, ps[k].1, r)
  }

  lemma AllPassConcat(a: seq<Rule>, b: seq<Rule>, r: Reader)
    ensures AllPass(a + b, r) <==> AllPass(a, r) && AllPass(b, r)
  {
    assert forall k :: 0 <= k < |a| ==> (a + b)[k] == a[k];
    assert forall k :: 0 <= k < |b| ==> (a + b)[|a| + k] == b[k];
  }

  lemma OpeningMeans(choices: Choices, r: Reader)
    ensures AllPass(Opening(choices), r) <==> OpeningHolds(choices, r)
  {
    var a := if choices.noFault then [NO_FAULT] else [];
    var b := if choices.stoppedAt != "" then [Rule("stopped_at_entry", StoppedAt(choices.stoppedAt))] else [];
    AllPassConcat(a, b, r);
    assert choices.noFault ==> a[0] == NO_FAULT;
    assert choices.stoppedAt != "" ==> b[0].kind == StoppedAt(choices.stoppedAt);
  }

  lemma ClockRulesMean(cs: seq<(string, Placement)>, r: Reader)
    requires ShiftsOk(cs, [])
    ensures AllPass(ClockRules(cs), r) <==> ClocksHold(cs, r)
  {
    forall k | 0 <= k < |cs| ensures MarkOf(ClockRules(cs)[k].kind, r).Pass? <==> ClockOn(cs[k].1, r) {
      ClockRuleMeans(cs[k].0, cs[k].1, r);
    }
  }

  lemma NvicRulesMean(ns: seq<(string, int)>, r: Reader)
    ensures AllPass(NvicRules(ns), r) <==> IrqsHold(ns, r)
  {
    forall k | 0 <= k < |ns| ensures MarkOf(NvicRules(ns)[k].kind, r).Pass? <==> IrqOn(ns[k].1, r) {
      NvicRuleMeans(ns[k].0, ns[k].1, r);
    }
  }

  lemma GpioRulesMean(ps: seq<(PinTarget, int)>, r: Reader)
    requires ShiftsOk([], ps) && forall k :: 0 <= k < |ps| ==> 0 <= ps[k].0.mode <= 3
    ensures AllPass(GpioRules(ps), r) <==> PinsHold(ps, r)
  {
    forall k | 0 <= k < |ps| ensures MarkOf(GpioRules(ps)[k].kind, r).Pass? <==> PinInMode(ps[k].0, ps[k].1, r) {
      GpioRuleMeans(ps[k].0, ps[k].1, r);
    }
  }

  lemma PinModes(plan: FrameworkPlan, choices: Choices, res: Resolvers)
    ensures forall k :: 0 <= k < |Pins(plan, choices, res)| ==> 0 <= Pins(plan, choices, res)[k].0.mode <= 3
  {
    var ps := Pins(plan, choices, res);
    ResolvedPinsAre(GpioTargets(plan.gpio), res.gpio);
    ModesAreTwoBits(plan.gpio);
    forall k | 0 <= k < |ps| ensures 0 <= ps[k].0.mode <= 3 {
      var t, base := ps[k].0, ps[k].1;
      assert ps[k] == (t, base);
      assert (t, base) in ResolvedPins(GpioTargets(plan.gpio), res.gpio);
    }
  }

  lemma RulesMean(plan: FrameworkPlan, choices: Choices, res: Resolvers, r: Reader)
    requires ShiftsOk(Clocks(plan, res), Pins(plan, choices, res))
    ensures AllPass(Rules(plan, choices, res), r) <==>
              && OpeningHolds(choices, r) && ClocksHold(Clocks(plan, res), r)
              && IrqsHold(Irqs(plan, choices, res), r) && PinsHold(Pins(plan, choices, res), r)
  {
    var a, b := Opening(choices), ClockRules(Clocks(plan, res));
    var c, d := NvicRules(Irqs(plan, choices, res)), GpioRules(Pins(plan, choices, res));
    PinModes(plan, choices, res);
    OpeningMeans(choices, r);
    ClockRulesMean(Clocks(plan, res), r);
    NvicRulesMean(Irqs(plan, choices, res), r);
    GpioRulesMean(Pins(plan, choices, res), r);
    AllPassConcat(a, b, r);
    AllPassConcat(a + b, c, r);
    AllPassConcat(a + b + c, d, r);
  }

  // The silicon is as the plan said, as far as it can be placed.
  ghost predicate AsPlanned(plan: FrameworkPlan, choices: Choices, res: Resolvers, r: Reader)
    requires ShiftsOk(Clocks(plan, res), Pins(plan, choices, res))
  {
    && OpeningHolds(choices, r)
    && (forall name, p :: name in ClockTargets(plan.clocks) && Ask(res.clock, name) == Some(p) ==> p.bit >= 0 && ClockOn(p, r))
    && (choices.nvic ==> forall irq, n :: irq in NvicTargets(plan) && Ask(res.irq, irq) == Some(n) ==> IrqOn(n, r))
    && (choices.gpio && !plan.isF1 ==>
          forall t, base :: t in GpioTargets(plan.gpio) && Ask(res.gpio, t.port) == Some(base) ==> t.pin >= 0 && PinInMode(t, base, r))
  }

  lemma HoldsMeansPlanned(plan: FrameworkPlan, choices: Choices, res: Resolvers, r: Reader)
    requires ShiftsOk(Clocks(plan, res), Pins(plan, choices, res))
    ensures (&& OpeningHolds(choices, r) && ClocksHold(Clocks(plan, res), r)
             && IrqsHold(Irqs(plan, choices, res), r) && PinsHold(Pins(plan, choices, res), r)) <==> AsPlanned(plan, choices, res, r)
  {
    var cs, ns, ps := Clocks(plan, res), Irqs(plan, choices, res), Pins(plan, choices, res);
    ResolvedAre(ClockTargets(plan.clocks), res.clock);
    ResolvedAre(NvicTargets(plan), res.irq);
    ResolvedPinsAre(GpioTargets(plan.gpio), res.gpio);
    assert ClocksHold(cs, r) <==> forall name, p :: (name, p) in cs ==> p.bit >= 0 && ClockOn(p, r) by {
      assert forall k :: 0 <= k < |cs| ==> (cs[k].0, cs[k].1) in cs;
    }
    assert IrqsHold(ns, r) <==> forall irq, n :: (irq, n) in ns ==> IrqOn(n, r) by {
      assert forall k :: 0 <= k < |ns| ==> (ns[k].0, ns[k].1) in ns;
    }
    assert PinsHold(ps, r) <==> forall t, base :: (t, base) in ps ==> t.pin >= 0 && PinInMode(t, base, r) by {
      assert forall k :: 0 <= k < |ps| ==> (ps[k].0, ps[k].1) in ps;
    }
  }

  /** Derive, then evaluate: the verdict is ok exactly when every clock and interrupt the resolvers
      place is on, every pin they place is in its role's mode, and no fault class is active, whatever
      the other bits hold. */
  lemma VerdictIsThePlan(plan: FrameworkPlan, choices: Choices, res: Resolvers, r: Reader)
    requires Derive(plan, choices, res).Derived?
    ensures AllPass(Derive(plan, choices, res).rules, r) <==> AsPlanned(plan, choices, res, r)
  {
    RulesMean(plan, choices, res, r);
    HoldsMeansPlanned(plan, choices, res, r);
  }

  lemma {:induction false} ClocksAreCheckedOrReported(names: seq<string>,
                                                      f: Option<string -> Option<Placement>>, u: Unresolved)
    ensures u in MissingClocks(names, f) <==> u.ClockUnknown? && u.name in names && Ask(f, u.name).None?
    ensures |Resolved(names, f)| + |MissingClocks(names, f)| == |names|
  {
    if names != [] {
      var n := |names| - 1;
      ClocksAreCheckedOrReported(names[..n], f, u);
      assert names == names[..n] + [names[n]];
    }
  }

  lemma {:induction false} InterruptsAreCheckedOrReported(names: seq<string>, f: Option<string -> Option<int>>, u: Unresolved)
    ensures u in MissingIrqs(names, f) <==> u.IrqUnknown? && f.Some? && u.irq in names && Ask(f, u.irq).None?
    ensures |Resolved(names, f)| + |MissingIrqs(names, f)| == if f.Some? then |names| else 0
  {
    if names != [] {
      var n := |names| - 1;
      InterruptsAreCheckedOrReported(names[..n], f, u);
      assert names == names[..n] + [names[n]];
    }
  }

  lemma {:induction false} PinsAreCheckedOrReported(ts: seq<PinTarget>, f: Option<string -> Option<int>>, u: Unresolved)
    ensures u in MissingPins(ts, f) <==>
              u.GpioUnknown? && f.Some? && Ask(f, u.port).None? && exists t :: t in ts && t.port == u.port
    ensures |ResolvedPins(ts, f)| + |MissingPins(ts, f)| == if f.Some? then |ts| else 0
  {
    if ts != [] {
      var n := |ts| - 1;
      PinsAreCheckedOrReported(ts[..n], f, u);
      assert ts == ts[..n] + [ts[n]];
    }
  }

  lemma ShiftsOkIff(cs: seq<(string, Placement)>, ps: seq<(PinTarget, int)>)
    ensures ShiftsOk(cs, []) <==> forall name, p :: (name, p) in cs ==> p.bit >= 0
    ensures ShiftsOk([], ps) <==> forall t, base :: (t, base) in ps ==> t.pin >= 0
    ensures ShiftsOk(cs, ps) <==> ShiftsOk(cs, []) && ShiftsOk([], ps)
  {
    if forall name, p :: (name, p) in cs ==> p.bit >= 0 {
      forall k | 0 <= k < |cs| ensures cs[k].1.bit >= 0 { assert (cs[k].0, cs[k].1) in cs; }
    }
    if forall t, base :: (t, base) in ps ==> t.pin >= 0 {
      forall k | 0 <= k < |ps| ensures ps[k].0.pin >= 0 { assert (ps[k].0, ps[k].1) in ps; }
    }
  }

  /** A derivation raises exactly when a placed clock has a negative bit, or a placed pin it checks a negative
      number. */
  lemma RaisedIff(plan: FrameworkPlan, choices: Choices, res: Resolvers)
    ensures Derive(plan, choices, res).Raised? <==>
              || (exists name, p :: name in ClockTargets(plan.clocks) && Ask(res.clock, name) == Some(p) && p.bit < 0)
              || (choices.gpio && !plan.isF1 &&
                  exists t, base :: t in GpioTargets(plan.gpio) && Ask(res.gpio, t.port) == Some(base) && t.pin < 0)
  {
    ResolvedAre(ClockTargets(plan.clocks), res.clock);
    ResolvedPinsAre(GpioTargets(plan.gpio), res.gpio);
    ShiftsOkIff(Clocks(plan, res), Pins(plan, choices, res));
  }

  // What a derivation has to report.
  ghost predicate ToReport(plan: FrameworkPlan, choices: Choices, res: Resolvers, u: Unresolved) {
    match u
    case ClockUnknown(name) => name in ClockTargets(plan.clocks) && Ask(res.clock, name).None?
    case IrqUnknown(irq) => choices.nvic && res.irq.Some? && irq in NvicTargets(plan) && Ask(res.irq, irq).None?
    case GpioUnknown(port) =>
      && choices.gpio && !plan.isF1 && res.gpio.Some? && Ask(res.gpio, port).None?
      && exists t :: t in GpioTargets(plan.gpio) && t.port == port
    case ModerUnsupported(pins) => choices.gpio && plan.isF1 && pins == |GpioTargets(plan.gpio)| > 0
  }

  /** Nothing is guessed and nothing is dropped in silence: what has no place is reported under its name,
      and nothing else is; and where every kind is asked for and has its resolver, the checks after the
      opening ones and the reports are together as many as the targets. */
  lemma NothingIsDroppedInSilence(plan: FrameworkPlan, choices: Choices, res: Resolvers, u: Unresolved)
    requires Derive(plan, choices, res).Derived?
    ensures var d := Derive(plan, choices, res);
            && (u in d.unresolved <==> ToReport(plan, choices, res, u))
            && (choices.nvic && choices.gpio && res.irq.Some? && res.gpio.Some? && !plan.isF1 ==>
                 |d.rules| - |Opening(choices)| + |d.unresolved| ==
                 |ClockTargets(plan.clocks)| + |NvicTargets(plan)| + |GpioTargets(plan.gpio)|)
  {
    ClocksAreCheckedOrReported(ClockTargets(plan.clocks), res.clock, u);
    InterruptsAreCheckedOrReported(NvicTargets(plan), res.irq, u);
    PinsAreCheckedOrReported(GpioTargets(plan.gpio), res.gpio, u);
  }
}
