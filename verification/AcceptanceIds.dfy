/**
The ids of derived checks (acceptance_synth.py): when a derived spec passes the validation of
acceptance_model.py.
*/
module AcceptanceIds {
  import opened Options
  import opened LoopControl
  import opened AcceptanceEval
  import opened AcceptanceSynth
  import opened AcceptanceDerive

  ghost predicate AllDifferent(s: seq<string>) {
    forall i, j :: 0 <= i < j < |s| ==> s[i] != s[j]
  }

  // Between a common prefix and a common suffix, texts differ exactly when the middles do.
  lemma Framed(prefix: string, a: string, b: string, suffix: string)
    ensures prefix + a + suffix == prefix + b + suffix <==> a == b
  {
    var x, y := prefix + a + suffix, prefix + b + suffix;
    if x == y {
      assert |a| == |b|;
      assert a == x[|prefix|..|prefix| + |a|];
      assert b == y[|prefix|..|prefix| + |b|];
    }
  }

  // ---------------------------------------------------------------- decimals

  lemma DigitAt(n: int)
    requires 0 <= n <= 9
    ensures ('0' as int + n) as char as int == '0' as int + n
  {}

  /** Decimal notation is injective. */
  lemma {:induction false} DigitsAreInjective(m: int, n: int)
    requires Digits(m) == Digits(n)
    ensures m == n
    decreases if m < 0 then 1 - m else m
  {
    LeadingSign(m);
    LeadingSign(n);
    if m < 0 {
      assert Digits(m)[1..] == Digits(-m) && Digits(n)[1..] == Digits(-n);
      DigitsAreInjective(-m, -n);
    } else {
      LastDigit(m);
      LastDigit(n);
      LongerWhenMore(m);
      LongerWhenMore(n);
      if m >= 10 {
        assert Digits(m)[..|Digits(m)| - 1] == Digits(m / 10);
        assert Digits(n)[..|Digits(n)| - 1] == Digits(n / 10);
        DigitsAreInjective(m / 10, n / 10);
      }
    }
  }

  lemma {:induction false} LeadingSign(n: int)
    ensures Digits(n) != [] && (Digits(n)[0] == '-' <==> n < 0)
    decreases if n < 0 then 1 - n else n
  {
    if 0 <= n < 10 {
      DigitAt(n);
    } else if n >= 10 {
      LeadingSign(n / 10);
    }
  }

  lemma LastDigit(n: int)
    requires n >= 0
    ensures Digits(n) != [] && Digits(n)[|Digits(n)| - 1] as int == '0' as int + n % 10
  {
    DigitAt(n % 10);
  }

  lemma LongerWhenMore(n: int)
    requires n >= 0
    ensures |Digits(n)| == 1 <==> n < 10
  {
    if n >= 10 { LeadingSign(n / 10); }
  }

  // ---------------------------------------------------------------- ids

  ghost predicate DistinctNames<T>(rs: seq<(string, T)>) {
    forall i, j :: 0 <= i < j < |rs| ==> rs[i].0 != rs[j].0
  }

  ghost predicate DistinctPins(ps: seq<(PinTarget, int)>) {
    forall i, j :: 0 <= i < j < |ps| ==> PinName(ps[i].0) != PinName(ps[j].0)
  }

  lemma ClockIdsDistinct(cs: seq<(string, Placement)>)
    requires ShiftsOk(cs, [])
    ensures DistinctIds(ClockRules(cs)) <==> DistinctNames(cs)
  {
    var rules := ClockRules(cs);
    forall i, j | 0 <= i < j < |cs| ensures rules[i].id == rules[j].id <==> cs[i].0 == cs[j].0 {
      Framed("clk_", cs[i].0, cs[j].0, "_enabled");
    }
  }

  lemma NvicIdsDistinct(ns: seq<(string, int)>)
    requires DistinctNames(ns)
    ensures DistinctIds(NvicRules(ns))
  {
    var rules := NvicRules(ns);
    forall i, j | 0 <= i < j < |ns| ensures rules[i].id != rules[j].id {
      Framed("nvic_", ns[i].0, ns[j].0, "_enabled");
    }
  }

  lemma GpioIdsDistinct(ps: seq<(PinTarget, int)>)
    requires ShiftsOk([], ps)
    ensures DistinctIds(GpioRules(ps)) <==> DistinctPins(ps)
  {
    var rules := GpioRules(ps);
    forall i, j | 0 <= i < j < |ps| ensures rules[i].id == rules[j].id <==> PinName(ps[i].0) == PinName(ps[j].0) {
      Framed("gpio_P", PinName(ps[i].0), PinName(ps[j].0), "_mode");
    }
  }

  // The first two characters tell the sections apart.
  ghost predicate Tagged(rules: seq<Rule>, a: char, b: char) {
    forall k :: 0 <= k < |rules| ==> |rules[k].id| > 1 && rules[k].id[0] == a && rules[k].id[1] == b
  }

  lemma DistinctConcat(a: seq<Rule>, b: seq<Rule>)
    requires forall i, j :: 0 <= i < |a| && 0 <= j < |b| ==> a[i].id != b[j].id
    ensures DistinctIds(a + b) <==> DistinctIds(a) && DistinctIds(b)
  {
    var c := a + b;
    assert forall i :: 0 <= i < |a| ==> c[i] == a[i];
    assert forall j :: 0 <= j < |b| ==> c[|a| + j] == b[j];
    if DistinctIds(c) {
      forall i, j | 0 <= i < j < |b| ensures b[i].id != b[j].id {
        assert c[|a| + i] == b[i] && c[|a| + j] == b[j];
      }
    }
    if DistinctIds(a) && DistinctIds(b) {
      forall i, j | 0 <= i < j < |c| ensures c[i].id != c[j].id {
        if i >= |a| { assert c[i] == b[i - |a|] && c[j] == b[j - |a|]; }
      }
    }
  }

  lemma {:induction false} FirstOnesAreDistinct(s: seq<string>)
    ensures AllDifferent(FirstOnes(s)) && forall x :: x in FirstOnes(s) <==> x in s
  {
    if s != [] {
      var n := |s| - 1;
      FirstOnesAreDistinct(s[..n]);
      assert s == s[..n] + [s[n]];
    }
  }

  lemma {:induction false} ResolvedAreNamed(names: seq<string>, f: Option<string -> Option<int>>)
    ensures forall k :: 0 <= k < |Resolved(names, f)| ==> Resolved(names, f)[k].0 in names
  {
    if names != [] {
      var n := |names| - 1;
      var init, rs := Resolved(names[..n], f), Resolved(names, f);
      ResolvedAreNamed(names[..n], f);
      forall k | 0 <= k < |rs| ensures rs[k].0 in names {
        if k < |init| {
          assert rs[k] == init[k] && init[k].0 in names[..n];
        } else {
          assert rs[k].0 == names[n];
        }
      }
    }
  }

  lemma {:induction false} ResolvedKeepDistinct(names: seq<string>, f: Option<string -> Option<int>>)
    requires AllDifferent(names)
    ensures DistinctNames(Resolved(names, f))
  {
    if names != [] {
      var n := |names| - 1;
      var init, rs := Resolved(names[..n], f), Resolved(names, f);
      ResolvedKeepDistinct(names[..n], f);
      ResolvedAreNamed(names[..n], f);
      forall i, j | 0 <= i < j < |rs| ensures rs[i].0 != rs[j].0 {
        assert rs[i] == init[i] && init[i].0 in names[..n];
        if j < |init| {
          assert rs[j] == init[j];
        } else {
          assert rs[j].0 == names[n];
        }
      }
    }
  }

  lemma SectionsAreTagged(plan: FrameworkPlan, choices: Choices, res: Resolvers)
    requires ShiftsOk(Clocks(plan, res), Pins(plan, choices, res))
    ensures Tagged(ClockRules(Clocks(plan, res)), 'c', 'l')
    ensures Tagged(NvicRules(Irqs(plan, choices, res)), 'n', 'v')
    ensures Tagged(GpioRules(Pins(plan, choices, res)), 'g', 'p')
    ensures OpeningTagged(Opening(choices)) && DistinctIds(Opening(choices))
  {
    var cs, ns, ps := Clocks(plan, res), Irqs(plan, choices, res), Pins(plan, choices, res);
    forall k | 0 <= k < |cs| ensures ClockId(cs[k].0)[0] == 'c' && ClockId(cs[k].0)[1] == 'l' {}
    forall k | 0 <= k < |ns| ensures NvicId(ns[k].0)[0] == 'n' && NvicId(ns[k].0)[1] == 'v' {}
    forall k | 0 <= k < |ps| ensures GpioId(ps[k].0)[0] == 'g' && GpioId(ps[k].0)[1] == 'p' {}
    assert NO_FAULT.id[0] == 'n' && NO_FAULT.id[1] == 'o' && "stopped_at_entry"[0] == 's' && "stopped_at_entry"[1] == 't';
  }

  // The first characters of the opening checks' ids.
  ghost predicate OpeningTagged(rules: seq<Rule>) {
    forall k :: 0 <= k < |rules| ==>
      |rules[k].id| > 1 && ((rules[k].id[0] == 'n' && rules[k].id[1] == 'o') || (rules[k].id[0] == 's' && rules[k].id[1] == 't'))
  }

  lemma FourSections(a: seq<Rule>, b: seq<Rule>, c: seq<Rule>, d: seq<Rule>)
    requires OpeningTagged(a) && Tagged(b, 'c', 'l') && Tagged(c, 'n', 'v') && Tagged(d, 'g', 'p')
    ensures DistinctIds(a + b + c + d) <==> DistinctIds(a) && DistinctIds(b) && DistinctIds(c) && DistinctIds(d)
  {
    DistinctConcat(a, b);
    DistinctConcat(a + b, c);
    DistinctConcat(a + b + c, d);
  }

  lemma RuleIdsDistinct(plan: FrameworkPlan, choices: Choices, res: Resolvers)
    requires ShiftsOk(Clocks(plan, res), Pins(plan, choices, res))
    ensures DistinctIds(Rules(plan, choices, res)) <==> DistinctNames(Clocks(plan, res)) && DistinctPins(Pins(plan, choices, res))
  {
    SectionsAreTagged(plan, choices, res);
    FourSections(Opening(choices), ClockRules(Clocks(plan, res)),
                 NvicRules(Irqs(plan, choices, res)), GpioRules(Pins(plan, choices, res)));
    ClockIdsDistinct(Clocks(plan, res));
    GpioIdsDistinct(Pins(plan, choices, res));
    FirstOnesAreDistinct(EnabledIrqs(plan.blocks));
    ResolvedKeepDistinct(NvicTargets(plan), res.irq);
    NvicIdsDistinct(Irqs(plan, choices, res));
  }

  /** A derived spec passes validation exactly when it has a check at all and no two placed clocks share
      a name and no two placed pins a port-pin; interrupts are never duplicated. */
  lemma DerivedSpecValidatesIff(plan: FrameworkPlan, choices: Choices, res: Resolvers)
    requires Derive(plan, choices, res).Derived?
    ensures var rules := Derive(plan, choices, res).rules;
            rules != [] && DistinctIds(rules) <==>
              && (choices.noFault || choices.stoppedAt != "" || Clocks(plan, res) != []
                  || Irqs(plan, choices, res) != [] || Pins(plan, choices, res) != [])
              && DistinctNames(Clocks(plan, res)) && DistinctPins(Pins(plan, choices, res))
  {
    RuleIdsDistinct(plan, choices, res);
    assert Clocks(plan, res) != [] ==> ClockRules(Clocks(plan, res)) != [];
    assert Irqs(plan, choices, res) != [] ==> NvicRules(Irqs(plan, choices, res)) != [];
    assert Pins(plan, choices, res) != [] ==> GpioRules(Pins(plan, choices, res)) != [];
  }

  /** For ports of one letter, as the plan's own parser gives them, different (port, pin) pairs never
      collide. */
  lemma PortPinsAreNames(s: PinTarget, t: PinTarget)
    requires |s.port| == 1 && |t.port| == 1
    ensures PinName(s) == PinName(t) <==> s.port == t.port && s.pin == t.pin
  {
    if PinName(s) == PinName(t) {
      assert s.port == PinName(s)[..1] && t.port == PinName(t)[..1];
      assert Digits(s.pin) == PinName(s)[1..] && Digits(t.pin) == PinName(t)[1..];
      DigitsAreInjective(s.pin, t.pin);
    }
  }
}
