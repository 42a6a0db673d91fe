/**
Derivation of the acceptance spec from the plan the init code was generated from
(acceptance_synth.py): one check per clock, interrupt and pin whose register a resolver can place.
*/
module AcceptanceSynth {
  import opened Options
  import opened Bits
  import opened Arithmetic
  import opened LoopControl
  import opened AcceptanceEval

  datatype Role = AfPp | AfOd | Analog | OtherRole

  datatype Clock = GpioPort(port: string) | Peripheral(name: string) | OtherClock
  datatype Stream = Stream(conflict: bool, irq: Option<string>)
  datatype Block = Block(vectors: seq<Option<string>>, streams: seq<Stream>)
  datatype Pin = Pin(role: Role, port: Option<string>, pin: Option<int>, portPin: Option<string>)

  // `isF1`: GPIO without MODER.
  datatype FrameworkPlan = FrameworkPlan(isF1: bool, clocks: seq<Clock>, blocks: seq<Block>, gpio: seq<Pin>)

  datatype Choices = Choices(noFault: bool, nvic: bool, gpio: bool, stoppedAt: string)

  datatype Placement = Placement(address: int, bit: int)
  datatype Resolvers = Resolvers(clock: Option<string -> Option<Placement>>, irq: Option<string -> Option<int>>,
                                 gpio: Option<string -> Option<int>>)

  datatype Unresolved = ClockUnknown(name: string) | IrqUnknown(irq: string) | ModerUnsupported(pins: nat) | GpioUnknown(port: string)

  // `Raised`: a negative shift.
  datatype Derived = Raised | Derived(rules: seq<Rule>, unresolved: seq<Unresolved>)

  // ---------------------------------------------------------------- targets

  function ClockTargets(clocks: seq<Clock>): seq<string> {
    if clocks == [] then []
    else
      var init := ClockTargets(clocks[..|clocks| - 1]);
      match clocks[|clocks| - 1]
      case GpioPort(port) => init + ["GPIO" + port]
      case Peripheral(name) => init + [name]
      case OtherClock => init
  }

  function Named(irqs: seq<Option<string>>): seq<string> {
    if irqs == [] then []
    else
      var init := Named(irqs[..|irqs| - 1]);
      var last := irqs[|irqs| - 1];
      if last.Some? && last.value != "" then init + [last.value] else init
  }

  function StreamIrqs(streams: seq<Stream>): seq<Option<string>> {
    if streams == [] then []
    else
      var init := StreamIrqs(streams[..|streams| - 1]);
      if streams[|streams| - 1].conflict then init else init + [streams[|streams| - 1].irq]
  }

  // The interrupts the blocks enable, in the order the source meets them.
  function EnabledIrqs(blocks: seq<Block>): seq<string> {
    if blocks == [] then []
    else
      var b := blocks[|blocks| - 1];
      EnabledIrqs(blocks[..|blocks| - 1]) + Named(b.vectors) + Named(StreamIrqs(b.streams))
  }

  function FirstOnes(s: seq<string>): seq<string> {
    if s == [] then []
    else
      var init := FirstOnes(s[..|s| - 1]);
      if s[|s| - 1] in init then init else init + [s[|s| - 1]]
  }

  function NvicTargets(plan: FrameworkPlan): seq<string> {
    FirstOnes(EnabledIrqs(plan.blocks))
  }

  // `portPin`: how the plan writes the pin, which the check's provenance keeps.
  datatype PinTarget = PinTarget(mode: int, port: string, pin: int, portPin: string)

  // MODER's two bits per role.
  function ModeOf(role: Role): Option<int> {
    match role
    case AfPp => Some(2)
    case AfOd => Some(2)
    case Analog => Some(3)
    case OtherRole => None
  }

  function Written(portPin: Option<string>, port: string, pin: int): string {
    if portPin.Some? && portPin.value != "" then portPin.value else "P" + port + Digits(pin)
  }

  function GpioTargets(gpio: seq<Pin>): seq<PinTarget> {
    if gpio == [] then []
    else
      var init := GpioTargets(gpio[..|gpio| - 1]);
      var p := gpio[|gpio| - 1];
      if ModeOf(p.role).Some? && p.port.Some? && p.pin.Some?
      then init + [PinTarget(ModeOf(p.role).value, p.port.value, p.pin.value, Written(p.portPin, p.port.value, p.pin.value))]
      else init
  }

  // The check a configured pin gives rise to: alternate functions are mode 0b10, analog is 0b11, and a pin
  // is named as the plan writes it or else by port and number.
  ghost predicate PinAsks(p: Pin, t: PinTarget) {
    && p.port == Some(t.port) && p.pin == Some(t.pin)
    && (((p.role.AfPp? || p.role.AfOd?) && t.mode == 2) || (p.role.Analog? && t.mode == 3))
    && (p.portPin.Some? && p.portPin.value != "" ==> t.portPin == p.portPin.value)
    && (p.portPin.None? || p.portPin.value == "" ==> t.portPin == "P" + t.port + Digits(t.pin))
  }

  lemma OneMorePinAsks(gpio: seq<Pin>, t: PinTarget)
    requires gpio != []
    ensures var n := |gpio| - 1; t in GpioTargets(gpio) <==> t in GpioTargets(gpio[..n]) || PinAsks(gpio[n], t)
  {}

  /** The pins to check are those of the roles whose mode is known, each with its role's mode. */
  lemma {:induction false} PinTargetsAre(gpio: seq<Pin>, t: PinTarget)
    ensures t in GpioTargets(gpio) <==> exists k :: 0 <= k < |gpio| && PinAsks(gpio[k], t)
  {
    if gpio != [] {
      var n := |gpio| - 1;
      PinTargetsAre(gpio[..n], t);
      OneMorePinAsks(gpio, t);
      if k :| 0 <= k < n && PinAsks(gpio[k], t) { assert PinAsks(gpio[..n][k], t); }
      if k :| 0 <= k < n && PinAsks(gpio[..n][k], t) { assert PinAsks(gpio[k], t); }
    }
  }

  // ---------------------------------------------------------------- checks

  // A Python int in decimal.
  function Digits(n: int): string
    decreases if n < 0 then 1 - n else n
  {
    if n < 0 then "-" + Digits(-n)
    else if n < 10 then [('0' as int + n) as char]
    else Digits(n / 10) + [('0' as int + n % 10) as char]
  }

  const ISER0 := 0xE000E100

  function ClockId(name: string): Id { "clk_" + name + "_enabled" }
  function NvicId(irq: string): Id { "nvic_" + irq + "_enabled" }
  function PinName(t: PinTarget): string { t.port + Digits(t.pin) }
  function GpioId(t: PinTarget): Id { "gpio_P" + PinName(t) + "_mode" }

  function ClockRule(name: string, p: Placement): Rule
    requires p.bit >= 0
  {
    Rule(ClockId(name), MemoryU32(p.address % WORD, None, Pow2(p.bit) % WORD, BitsSet))
  }

  function IserAddress(number: int): int {
    (ISER0 + 4 * (number / 32)) % WORD
  }

  function NvicRule(irq: string, number: int): Rule {
    Rule(NvicId(irq), MemoryU32(IserAddress(number), None, Pow2(number % 32) % WORD, BitsSet))
  }

  function GpioRule(t: PinTarget, base: int): Rule
    requires t.pin >= 0
  {
    var s := 2 * t.pin;
    Rule(GpioId(t), MemoryU32(base % WORD, Some(3 * Pow2(s) % WORD), t.mode * Pow2(s) % WORD, Eq))
  }

  const NO_FAULT := Rule("no_fault_after_init", NoFault)

  function Opening(choices: Choices): seq<Rule> {
    (if choices.noFault then [NO_FAULT] else []) +
    (if choices.stoppedAt != "" then [Rule("stopped_at_entry", StoppedAt(choices.stoppedAt))] else [])
  }

  // ---------------------------------------------------------------- what each check means

  lemma SetBitMeans(w: int, b: nat)
    ensures Compare(w, Pow2(b) % WORD, BitsSet) <==> b >= 32 || Bit(w, b)
  {
    var e := Pow2(b) % WORD;
    if b >= 32 {
      ShiftedOut(1, b);
      assert e == 0;
    } else {
      FitsAWord(1, b);
      assert e == Pow2(b) >= 1;
      MaskOfOneBit(w, b);
    }
  }

  lemma FieldMeans(w: int, mode: int, s: nat)
    requires 0 <= mode <= 3 && (s <= 30 || s >= 32)
    ensures Compare(And(w, 3 * Pow2(s) % WORD), mode * Pow2(s) % WORD, Eq) <==> s >= 32 || Pair(w, s) == mode
  {
    if s >= 32 {
      ShiftedOut(3, s);
      ShiftedOut(mode, s);
    } else {
      FitsAWord(3, s);
      FitsAWord(mode, s);
      MaskOfTwoBits(w, s);
      if Pair(w, s) * Pow2(s) == mode * Pow2(s) {
        Cancel(Pair(w, s), mode, Pow2(s));
        Cancel(mode, Pair(w, s), Pow2(s));
      }
    }
  }

  /** A clock check passes exactly when the word can be read and the bit is set, whatever the other
      bits hold; beyond bit 31 nothing is left of the check. */
  lemma ClockRuleMeans(name: string, p: Placement, r: Reader)
    requires p.bit >= 0
    ensures MarkOf(ClockRule(name, p).kind, r).Pass? <==>
            r.word(p.address % WORD).Some? && (p.bit >= 32 || Bit(r.word(p.address % WORD).value, p.bit))
  {
    var word := r.word(p.address % WORD);
    if word.Some? { SetBitMeans(word.value, p.bit); }
  }

  lemma NvicRuleMeans(irq: string, number: int, r: Reader)
    ensures MarkOf(NvicRule(irq, number).kind, r).Pass? <==>
            r.word(IserAddress(number)).Some? && Bit(r.word(IserAddress(number)).value, number % 32)
  {
    var word := r.word(IserAddress(number));
    if word.Some? { SetBitMeans(word.value, number % 32); }
  }

  lemma GpioRuleMeans(t: PinTarget, base: int, r: Reader)
    requires t.pin >= 0 && 0 <= t.mode <= 3
    ensures MarkOf(GpioRule(t, base).kind, r).Pass? <==>
            r.word(base % WORD).Some? && (t.pin >= 16 || Pair(r.word(base % WORD).value, 2 * t.pin) == t.mode)
  {
    var word := r.word(base % WORD);
    if word.Some? { FieldMeans(word.value, t.mode, 2 * t.pin); }
  }

  lemma SameResidue(x: int, y: int, w: int)
    requires w >= 1
    ensures x % w == y % w <==> (x - y) % w == 0
  {
    var q := x / w - y / w;
    assert x == w * (x / w) + x % w && y == w * (y / w) + y % w;
    assert x - y == q * w + (x % w - y % w);
    if x % w >= y % w {
      DivisionIsUnique(x - y, w, q, x % w - y % w);
    } else {
      assert x - y == (q - 1) * w + (w + x % w - y % w);
      DivisionIsUnique(x - y, w, q - 1, w + x % w - y % w);
    }
  }

  lemma Scaled(c: int, k: int, w: int)
    requires c >= 1 && w >= 1
    ensures c * w >= 1 && (c * k % (c * w) == 0 <==> k % w == 0)
  {
    var q, r := k / w, k % w;
    assert k == w * q + r;
    assert c * k == q * (c * w) + c * r;
    MulMono(0, r, c);
    MulStrict(r, w, c);
    DivisionIsUnique(c * k, c * w, q, c * r);
    if c * r == 0 { Cancel(r, 0, c); }
  }

  /** Two interrupts share an (address, bit) place exactly when their numbers agree modulo 2^35: never
      for two different numbers the architecture allows. */
  lemma IserPlacesAreDistinct(n: int, m: int)
    ensures IserAddress(n) == IserAddress(m) && n % 32 == m % 32 <==> (n - m) % (8 * WORD) == 0
    ensures 0 <= n < 8 * WORD && 0 <= m < 8 * WORD && IserAddress(n) == IserAddress(m) && n % 32 == m % 32 ==> n == m
  {
    var k := n / 32 - m / 32;
    SameAddress(n / 32, m / 32);
    Scaled(32, k, WORD / 4);
    SameResidue(n, m, 32);
    if n % 32 == m % 32 {
      assert n - m == 32 * k;
    } else {
      NotAMultiple(n - m);
    }
  }

  lemma SameAddress(a: int, b: int)
    ensures (ISER0 + 4 * a) % WORD == (ISER0 + 4 * b) % WORD <==> (a - b) % (WORD / 4) == 0
  {
    SameResidue(ISER0 + 4 * a, ISER0 + 4 * b, WORD);
    Scaled(4, a - b, WORD / 4);
  }

  lemma NotAMultiple(x: int)
    requires x % 32 != 0
    ensures x % (8 * WORD) != 0
  {
    var q := x / (8 * WORD);
    assert x == 8 * WORD * q + x % (8 * WORD);
  }
}
