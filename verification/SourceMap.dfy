/**
The source map of the generated init code (provenance.py): a scan of the rendered lines into
functions and tagged constructs, and the join of a check's key to the first construct that has it.
*/
module SourceMap {
  import opened Options
  import opened InitCode
  import Sexpr

  // ---------------------------------------------------------------- what the patterns match

  predicate IsDigit(c: char) {
    '0' <= c <= '9'
  }

  predicate IsWordChar(c: char) {
    IsDigit(c) || 'a' <= c <= 'z' || 'A' <= c <= 'Z' || c == '_'
  }

  predicate IsWord(s: string) {
    s != "" && forall k :: 0 <= k < |s| ==> IsWordChar(s[k])
  }

  function SkipSpaces(s: string): string {
    if s == "" || !Sexpr.IsSpace(s[0]) then s else SkipSpaces(s[1..])
  }

  function CountDigits(s: string): (n: nat)
    ensures n <= |s| && (forall k :: 0 <= k < n ==> IsDigit(s[k])) && (n < |s| ==> !IsDigit(s[n]))
  {
    if s == "" || !IsDigit(s[0]) then 0 else 1 + CountDigits(s[1..])
  }

  // What the pin header pattern captures of a port-pin text.
  function HeaderKey(p: string): Option<string> {
    var t := SkipSpaces(p);
    if |t| < 3 || t[0] != 'P' || !('A' <= t[1] <= 'K') then None
    else
      var n := 2 + CountDigits(t[2..]);
      if n > 2 && (n == |t| || !IsWordChar(t[n])) then Some(t[..n]) else None
  }

  predicate IsCanonical(p: string) {
    |p| >= 3 && p[0] == 'P' && 'A' <= p[1] <= 'K' && forall k :: 2 <= k < |p| ==> IsDigit(p[k])
  }

  // At least one, and only letters, digits and underscores.
  ghost predicate OfWordCharacters(s: string) {
    s != "" && forall c :: c in s ==> c == '_' || '0' <= c <= '9' || 'A' <= c <= 'Z' || 'a' <= c <= 'z'
  }

  lemma WordsAre(s: string)
    ensures IsWord(s) <==> OfWordCharacters(s)
  {
    if OfWordCharacters(s) { assert forall k :: 0 <= k < |s| ==> s[k] in s; }
  }

  predicate Blank(s: string) {
    forall k :: 0 <= k < |s| ==> Sexpr.IsSpace(s[k])
  }

  lemma {:induction false} SpacesAreSkipped(blank: string, t: string)
    requires Blank(blank) && (t != "" ==> !Sexpr.IsSpace(t[0]))
    ensures SkipSpaces(blank + t) == t
  {
    if blank == "" {
      assert blank + t == t;
    } else {
      assert (blank + t)[1..] == blank[1..] + t;
      SpacesAreSkipped(blank[1..], t);
    }
  }

  lemma {:induction false} SkipSpacesIs(s: string)
    ensures var t := SkipSpaces(s);
            (t != "" ==> !Sexpr.IsSpace(t[0])) && |t| <= |s| && s == s[..|s| - |t|] + t && Blank(s[..|s| - |t|])
  {
    if s != "" && Sexpr.IsSpace(s[0]) {
      SkipSpacesIs(s[1..]);
      var n := |s| - |SkipSpaces(s)|;
      assert s[..n] == [s[0]] + s[1..][..n - 1];
    } else {
      assert s[..0] == "";
    }
  }

  lemma {:induction false} DigitsEndAt(s: string, n: nat)
    requires n <= |s| && (forall k :: 0 <= k < n ==> IsDigit(s[k])) && (n < |s| ==> !IsDigit(s[n]))
    ensures CountDigits(s) == n
  {}

  // q is what p has between some spaces and a rest that no word character begins.
  ghost predicate Captured(p: string, blank: string, q: string, rest: string) {
    p == blank + q + rest && Blank(blank) && IsCanonical(q) && (rest != "" ==> !IsWordChar(rest[0]))
  }

  lemma CapturedIsRead(blank: string, q: string, rest: string)
    requires Blank(blank) && IsCanonical(q) && (rest != "" ==> !IsWordChar(rest[0]))
    ensures HeaderKey(blank + (q + rest)) == Some(q)
  {
    var t := q + rest;
    SpacesAreSkipped(blank, t);
    assert t[2..] == q[2..] + rest;
    DigitsEndAt(t[2..], |q| - 2);
    assert t[..|q|] == q;
  }

  lemma PiecesAreCaptured(p: string, blank: string, t: string, q: string)
    requires p == blank + t && Blank(blank) && q <= t && IsCanonical(q)
    requires t[|q|..] != "" ==> !IsWordChar(t[|q|..][0])
    ensures Captured(p, blank, q, t[|q|..])
  {
    assert t == q + t[|q|..] && blank + (q + t[|q|..]) == blank + q + t[|q|..];
  }

  lemma KeyIsPrefix(p: string, t: string, q: string)
    requires t == SkipSpaces(p) && HeaderKey(p) == Some(q)
    ensures q <= t && IsCanonical(q) && (t[|q|..] != "" ==> !IsWordChar(t[|q|..][0]))
  {}

  lemma ReadIsCaptured(p: string, t: string, q: string, blank: string)
    requires t == SkipSpaces(p) && HeaderKey(p) == Some(q) && p == blank + t && Blank(blank)
    ensures q <= t && Captured(p, blank, q, t[|q|..])
  {
    KeyIsPrefix(p, t, q);
    PiecesAreCaptured(p, blank, t, q);
  }

  lemma ReadsCaptured(p: string, blank: string, q: string, rest: string)
    requires Captured(p, blank, q, rest)
    ensures HeaderKey(p) == Some(q)
  {
    CapturedIsRead(blank, q, rest);
    assert blank + (q + rest) == p;
  }

  /** What a header comment captures of a port-pin: the canonical name it begins with, after any spaces, as
      long as no word character follows. */
  lemma CapturedIff(p: string, q: string)
    ensures HeaderKey(p) == Some(q) <==> exists blank, rest :: Captured(p, blank, q, rest)
  {
    if HeaderKey(p) == Some(q) {
      var t := SkipSpaces(p);
      SkipSpacesIs(p);
      ReadIsCaptured(p, t, q, p[..|p| - |t|]);
    }
    if blank, rest :| Captured(p, blank, q, rest) { ReadsCaptured(p, blank, q, rest); }
  }

  lemma {:induction false} AllDigits(s: string)
    requires forall k :: 0 <= k < |s| ==> IsDigit(s[k])
    ensures CountDigits(s) == |s|
  {
    if s != "" { AllDigits(s[1..]); }
  }

  /** A port-pin is captured as itself exactly when it is canonical, and only canonical ones are ever
      captured. */
  lemma HeaderKeysAreCanonical(p: string, q: string)
    ensures HeaderKey(p) == Some(q) ==> IsCanonical(q)
    ensures IsCanonical(p) ==> HeaderKey(p) == Some(p)
  {
    if IsCanonical(p) {
      assert !Sexpr.IsSpace('P');
      assert SkipSpaces(p) == p;
      AllDigits(p[2..]);
      assert p[..|p|] == p;
    }
  }

  // ---------------------------------------------------------------- the scan

  datatype Tag = ClockEnable | NvicEnable | GpioMode
  datatype Construct = Construct(tag: Tag, key: string, line: nat, fn: Option<string>)
  datatype Span = Span(name: string, first: nat, last: nat)

  datatype Scan = Scan(fn: Option<string>, start: nat, pin: Option<string>, functions: seq<Span>, constructs: seq<Construct>)

  const BLANK := Scan(None, 0, None, [], [])

  function Found(s: Scan, tag: Tag, key: string, index: nat): Scan {
    s.(constructs := s.constructs + [Construct(tag, key, index, s.fn)])
  }

  function StepLine(s: Scan, l: Line, index: nat): Scan {
    match l
    case Head(name) => if IsWord(name) then s.(fn := Some(name), start := index, pin := None) else s
    case Close =>
      if s.fn.Some? then s.(functions := s.functions + [Span(s.fn.value, s.start, index)], fn := None, pin := None) else s
    case ClockCall(clock) => if IsWord(clock) then Found(s, ClockEnable, clock, index) else s
    case EnableCall(irq) => if IsWord(irq) then Found(s, NvicEnable, irq, index) else s
    case PinHeader(p) => if HeaderKey(p).Some? then s.(pin := HeaderKey(p)) else s
    case GpioInit => if s.pin.Some? then Found(s, GpioMode, s.pin.value, index).(pin := None) else s
    case _ => s
  }

  function ScanFrom(s: Scan, lines: seq<Line>, index: nat): Scan
    decreases |lines|
  {
    if lines == [] then s else ScanFrom(StepLine(s, lines[0], index), lines[1..], index + 1)
  }

  method BuildSourceMap(lines: seq<Line>) returns (functions: seq<Span>, constructs: seq<Construct>)
    ensures var s := ScanFrom(BLANK, lines, 1); functions == s.functions && constructs == s.constructs
  {
    functions, constructs := [], [];
    var fn, start, pin: Option<string> := None, 0, None;
    var i := 0;
    assert lines[0..] == lines;
    while i < |lines|
      invariant 0 <= i <= |lines|
      invariant ScanFrom(BLANK, lines, 1) == ScanFrom(Scan(fn, start, pin, functions, constructs), lines[i..], i + 1)
    {
      ghost var before := Scan(fn, start, pin, functions, constructs);
      assert lines[i..][0] == lines[i] && lines[i..][1..] == lines[i + 1..];
      var index := i + 1;
      match lines[i] {
        case Head(name) =>
          if IsWord(name) {
            fn, start, pin := Some(name), index, None;
          }
        case Close =>
          if fn.Some? {
            functions := functions + [Span(fn.value, start, index)];
            fn, pin := None, None;
          }
        case ClockCall(clock) =>
          if IsWord(clock) {
            constructs := constructs + [Construct(ClockEnable, clock, index, fn)];
          }
        case EnableCall(irq) =>
          if IsWord(irq) {
            constructs := constructs + [Construct(NvicEnable, irq, index, fn)];
          }
        case PinHeader(p) =>
          if HeaderKey(p).Some? {
            pin := HeaderKey(p);
          }
        case GpioInit =>
          if pin.Some? {
            constructs := constructs + [Construct(GpioMode, pin.value, index, fn)];
            pin := None;
          }
        case _ =>
      }
      assert Scan(fn, start, pin, functions, constructs) == StepLine(before, lines[i], index);
      i := i + 1;
    }
  }

  // No pattern takes this line for anything.
  predicate Unread(l: Line) {
    match l
    case Head(name) => !IsWord(name)
    case ClockCall(clock) => !IsWord(clock)
    case EnableCall(irq) => !IsWord(irq)
    case PinHeader(p) => HeaderKey(p).None?
    case _ => false
  }

  /** A line with a name no pattern takes is a line like any other, wherever it stands: in particular a header
      that names no pin leaves the pin before it in force. */
  lemma UnreadLinesAreIgnored(s: Scan, a: seq<Line>, l: Line, b: seq<Line>, index: nat)
    requires Unread(l)
    ensures ScanFrom(s, a + ([l] + b), index) == ScanFrom(s, a + ([Plain] + b), index)
  {
    ScanConcat(s, a, [l] + b, index);
    ScanConcat(s, a, [Plain] + b, index);
    assert ([l] + b)[1..] == b && ([Plain] + b)[1..] == b;
  }

  lemma {:induction false} ScanConcat(s: Scan, a: seq<Line>, b: seq<Line>, index: nat)
    ensures ScanFrom(s, a + b, index) == ScanFrom(ScanFrom(s, a, index), b, index + |a|)
    decreases |a|
  {
    if a == [] {
      assert a + b == b;
    } else {
      assert (a + b)[0] == a[0] && (a + b)[1..] == a[1..] + b;
      ScanConcat(StepLine(s, a[0], index), a[1..], b, index + 1);
    }
  }

  // ---------------------------------------------------------------- one function

  predicate InBody(l: Line) {
    !l.Head? && !l.Close?
  }

  // The constructs of a function body, and the pin still open at its end.
  function BodyScan(fn: Option<string>, body: seq<Line>, index: nat, pin: Option<string>): (seq<Construct>,
                    Option<string>)
    decreases |body|
  {
    if body == [] then ([], pin)
    else
      var s := StepLine(Scan(fn, 0, pin, [], []), body[0], index);
      var rest := BodyScan(fn, body[1..], index + 1, s.pin);
      (s.constructs + rest.0, rest.1)
  }

  lemma {:induction false} BodyScans(s: Scan, body: seq<Line>, index: nat)
    requires forall k :: 0 <= k < |body| ==> InBody(body[k])
    ensures var b := BodyScan(s.fn, body, index, s.pin);
            ScanFrom(s, body, index) == s.(constructs := s.constructs + b.0, pin := b.1)
    decreases |body|
  {
    if body == [] {
      assert s.constructs + [] == s.constructs;
    } else {
      var s' := StepLine(s, body[0], index);
      var one := StepLine(Scan(s.fn, 0, s.pin, [], []), body[0], index);
      assert InBody(body[0]);
      assert s' == s.(constructs := s.constructs + one.constructs, pin := one.pin);
      BodyScans(s', body[1..], index + 1);
      var rest := BodyScan(s.fn, body[1..], index + 1, one.pin);
      assert s.constructs + one.constructs + rest.0 == s.constructs + (one.constructs + rest.0);
    }
  }

  function NameOf(f: Function): Option<string> {
    if IsWord(f.name) then Some(f.name) else None
  }

  predicate NoPins(body: seq<Line>) {
    forall k :: 0 <= k < |body| ==> !body[k].PinHeader?
  }

  lemma {:induction false} NoPinsNoGpio(fn: Option<string>, body: seq<Line>, index: nat)
    requires NoPins(body) && forall k :: 0 <= k < |body| ==> InBody(body[k])
    ensures var b := BodyScan(fn, body, index, None); b.1.None? && forall c :: c in b.0 ==> !c.tag.GpioMode?
    decreases |body|
  {
    if body != [] {
      assert !body[0].PinHeader? && InBody(body[0]);
      NoPinsNoGpio(fn, body[1..], index + 1);
    }
  }

  // The scanner can follow the function: nothing in its body looks like a boundary, and a pin is
  // not left open where no boundary would close it.
  predicate Scannable(f: Function) {
    (forall k :: 0 <= k < |f.body| ==> InBody(f.body[k])) && (NoPins(f.body) || IsWord(f.name))
  }

  lemma {:induction false} PlainsScan(s: Scan, n: nat, index: nat)
    ensures ScanFrom(s, Plains(n), index) == s
    decreases n
  {
    if n > 0 {
      assert Plains(n)[0] == Plain && Plains(n)[1..] == Plains(n - 1);
      PlainsScan(s, n - 1, index + 1);
    }
  }

  lemma HeadScans(s: Scan, f: Function, index: nat)
    requires s.fn.None? && s.pin.None?
    ensures var s' := ScanFrom(s, Plains(f.lead) + [Head(f.name), Open], index);
            s' == if IsWord(f.name) then s.(fn := NameOf(f), start := index + f.lead) else s
  {
    var head := [Head(f.name), Open];
    ScanConcat(s, Plains(f.lead), head, index);
    PlainsScan(s, f.lead, index);
    assert head[1..] == [Open] && [Open][1..] == [];
  }

  lemma TailScans(s: Scan, index: nat)
    ensures ScanFrom(s, [Close, Plain], index) == StepLine(s, Close, index)
  {
    var tail := [Close, Plain];
    assert tail[1..] == [Plain] && [Plain][1..] == [];
  }

  lemma FunctionScans(s: Scan, f: Function, index: nat)
    requires s.fn.None? && s.pin.None? && Scannable(f)
    ensures var s' := ScanFrom(s, FunctionLines(f), index);
            && s'.fn.None? && s'.pin.None?
            && s'.constructs == s.constructs + BodyScan(NameOf(f), f.body, index + f.lead + 2, None).0
            && s'.functions == s.functions + if IsWord(f.name) then [Span(f.name, index + f.lead, index + f.lead + |f.body| + 2)] else []
  {
    var head, tail := Plains(f.lead) + [Head(f.name), Open], [Close, Plain];
    var i := index + f.lead + 2;
    assert FunctionLines(f) == head + (f.body + tail);
    ScanConcat(s, head, f.body + tail, index);
    HeadScans(s, f, index);
    var s1 := ScanFrom(s, head, index);
    ScanConcat(s1, f.body, tail, i);
    BodyScans(s1, f.body, i);
    if NoPins(f.body) { NoPinsNoGpio(NameOf(f), f.body, i); }
    TailScans(ScanFrom(s1, f.body, i), i + |f.body|);
  }

  // ---------------------------------------------------------------- a whole file

  function Constructs(fs: seq<Function>, index: nat): seq<Construct> {
    if fs == [] then []
    else BodyScan(NameOf(fs[0]), fs[0].body, index + fs[0].lead + 2, None).0 +
         Constructs(fs[1..], index + |FunctionLines(fs[0])|)
  }

  ghost predicate AllScannable(fs: seq<Function>) {
    forall k :: 0 <= k < |fs| ==> Scannable(fs[k])
  }

  lemma Append3(a: seq<Construct>, b: seq<Construct>, c: seq<Construct>)
    ensures a + (b + c) == a + b + c
  {}

  lemma FileSplits(s: Scan, fs: seq<Function>, index: nat)
    requires fs != []
    ensures var first := FunctionLines(fs[0]);
            ScanFrom(s, Lines(fs), index) == ScanFrom(ScanFrom(s, first, index), Lines(fs[1..]), index + |first|)
  {
    ScanConcat(s, FunctionLines(fs[0]), Lines(fs[1..]), index);
  }

  lemma RestScans(s: Scan, fs: seq<Function>, index: nat, s1: Scan)
    requires fs != [] && s1 == ScanFrom(s, FunctionLines(fs[0]), index)
    requires s1.constructs == s.constructs + BodyScan(NameOf(fs[0]), fs[0].body, index + fs[0].lead + 2, None).0
    requires var next := index + |FunctionLines(fs[0])|;
             ScanFrom(s1, Lines(fs[1..]), next).constructs == s1.constructs + Constructs(fs[1..], next)
    ensures ScanFrom(s, Lines(fs), index).constructs == s.constructs + Constructs(fs, index)
  {
    FileSplits(s, fs, index);
    Append3(s.constructs, BodyScan(NameOf(fs[0]), fs[0].body, index + fs[0].lead + 2, None).0,
            Constructs(fs[1..], index + |FunctionLines(fs[0])|));
  }

  lemma {:induction false} FileScans(s: Scan, fs: seq<Function>, index: nat)
    requires s.fn.None? && s.pin.None? && AllScannable(fs)
    ensures ScanFrom(s, Lines(fs), index).constructs == s.constructs + Constructs(fs, index)
    decreases |fs|
  {
    if fs == [] {
      assert s.constructs + [] == s.constructs;
    } else {
      FunctionScans(s, fs[0], index);
      var next := index + |FunctionLines(fs[0])|;
      var s1 := ScanFrom(s, FunctionLines(fs[0]), index);
      FileScans(s1, fs[1..], next);
      RestScans(s, fs, index, s1);
    }
  }

  // The line of a file on which the body of its k-th function starts.
  function BodyStart(fs: seq<Function>, k: nat, index: nat): nat
    requires k < |fs|
  {
    if k == 0 then index + fs[0].lead + 2 else BodyStart(fs[1..], k - 1, index + |FunctionLines(fs[0])|)
  }

  lemma {:induction false} BodyIsThere(fs: seq<Function>, k: nat, j: nat, index: nat)
    requires k < |fs| && j < |fs[k].body|
    ensures index <= BodyStart(fs, k, index) + j < index + |Lines(fs)|
    ensures Lines(fs)[BodyStart(fs, k, index) + j - index] == fs[k].body[j]
    decreases k
  {
    var first, rest := FunctionLines(fs[0]), Lines(fs[1..]);
    assert Lines(fs) == first + rest;
    if k == 0 {
      assert first[fs[0].lead + 2 + j] == fs[0].body[j];
    } else {
      BodyIsThere(fs[1..], k - 1, j, index + |first|);
    }
  }

  // c was found on line j of the k-th function.
  ghost predicate FoundAt(fs: seq<Function>, c: Construct, k: nat, j: nat) {
    k < |fs| && j < |fs[k].body| && c.line == BodyStart(fs, k, 1) + j && c.fn == NameOf(fs[k])
  }

  ghost predicate InFunction(fs: seq<Function>, index: nat, k: nat, c: Construct) {
    k < |fs| && c in BodyScan(NameOf(fs[k]), fs[k].body, BodyStart(fs, k, index), None).0
  }

  lemma LaterFunction(fs: seq<Function>, index: nat, k: nat, c: Construct)
    requires fs != []
    ensures InFunction(fs, index, k + 1, c) <==> InFunction(fs[1..], index + |FunctionLines(fs[0])|, k, c)
  {
    if k + 1 < |fs| { assert fs[1..][k] == fs[k + 1]; }
  }

  lemma FirstOrLater(fs: seq<Function>, index: nat, c: Construct)
    requires fs != []
    ensures c in Constructs(fs, index) <==>
              InFunction(fs, index, 0, c) || c in Constructs(fs[1..], index + |FunctionLines(fs[0])|)
  {}

  lemma {:induction false} ConstructsByFunction(fs: seq<Function>, index: nat, c: Construct)
    requires c in Constructs(fs, index)
    ensures exists k: nat :: InFunction(fs, index, k, c)
    decreases |fs|
  {
    FirstOrLater(fs, index, c);
    if !InFunction(fs, index, 0, c) {
      var next := index + |FunctionLines(fs[0])|;
      ConstructsByFunction(fs[1..], next, c);
      var k: nat :| InFunction(fs[1..], next, k, c);
      LaterFunction(fs, index, k, c);
    }
  }

  lemma {:induction false} FunctionsAreScanned(fs: seq<Function>, index: nat, k: nat, c: Construct)
    requires InFunction(fs, index, k, c)
    ensures c in Constructs(fs, index)
    decreases k
  {
    FirstOrLater(fs, index, c);
    if k > 0 {
      LaterFunction(fs, index, k - 1, c);
      FunctionsAreScanned(fs[1..], index + |FunctionLines(fs[0])|, k - 1, c);
    }
  }

  // What a body's clock and interrupt constructs are.
  lemma {:induction false} BodyCalls(fn: Option<string>, body: seq<Line>, index: nat, pin: Option<string>, c: Construct)
    requires (forall k :: 0 <= k < |body| ==> InBody(body[k])) && !c.tag.GpioMode?
    ensures c in BodyScan(fn, body, index, pin).0 <==>
            && c.fn == fn && IsWord(c.key) && index <= c.line < index + |body|
            && body[c.line - index] == (if c.tag.ClockEnable? then ClockCall(c.key) else EnableCall(c.key))
    decreases |body|
  {
    if body != [] {
      var s := StepLine(Scan(fn, 0, pin, [], []), body[0], index);
      assert InBody(body[0]);
      BodyCalls(fn, body[1..], index + 1, s.pin, c);
    }
  }

  // ---------------------------------------------------------------- the index

  function FirstWith(cs: seq<Construct>, tag: Tag, key: string): Option<Construct> {
    if cs == [] then None
    else if cs[0].tag == tag && cs[0].key == key then Some(cs[0])
    else FirstWith(cs[1..], tag, key)
  }

  lemma {:induction false} FirstWithIs(cs: seq<Construct>, tag: Tag, key: string)
    ensures var hit := FirstWith(cs, tag, key);
            && (hit.Some? ==> hit.value in cs && hit.value.tag == tag && hit.value.key == key)
            && (hit.None? ==> forall c :: c in cs ==> c.tag != tag || c.key != key)
  {
    if cs != [] {
      FirstWithIs(cs[1..], tag, key);
      assert cs == [cs[0]] + cs[1..];
    }
  }

  ghost predicate InLineOrder(cs: seq<Construct>) {
    forall i, j :: 0 <= i < j < |cs| ==> cs[i].line < cs[j].line
  }

  lemma {:induction false} FirstIsEarliest(cs: seq<Construct>, tag: Tag, key: string, c: Construct)
    requires InLineOrder(cs) && c in cs && c.tag == tag && c.key == key
    ensures FirstWith(cs, tag, key).Some? && FirstWith(cs, tag, key).value.line <= c.line
  {
    if c != cs[0] {
      assert cs == [cs[0]] + cs[1..];
      FirstIsEarliest(cs[1..], tag, key, c);
      FirstWithIs(cs[1..], tag, key);
    }
  }

  // A line adds one construct at most, with its own number.
  lemma {:induction false} ScanIsInLineOrder(s: Scan, lines: seq<Line>, index: nat)
    requires InLineOrder(s.constructs) && forall c :: c in s.constructs ==> c.line < index
    ensures InLineOrder(ScanFrom(s, lines, index).constructs)
    decreases |lines|
  {
    if lines != [] {
      ScanIsInLineOrder(StepLine(s, lines[0], index), lines[1..], index + 1);
    }
  }

  lemma {:induction false} FirstOfAppended(cs: seq<Construct>, c: Construct, tag: Tag, key: string)
    ensures FirstWith(cs + [c], tag, key) ==
              if FirstWith(cs, tag, key).Some? then FirstWith(cs, tag, key)
              else if c.tag == tag && c.key == key then Some(c) else None
  {
    if cs != [] {
      assert (cs + [c])[0] == cs[0] && (cs + [c])[1..] == cs[1..] + [c];
      FirstOfAppended(cs[1..], c, tag, key);
    }
  }

  // `_index`: the first construct with a key keeps it.
  method Index(cs: seq<Construct>) returns (byKey: map<(Tag, string), Construct>)
    ensures forall tag, key :: (tag, key) in byKey <==> FirstWith(cs, tag, key).Some?
    ensures forall tag, key :: (tag, key) in byKey ==> FirstWith(cs, tag, key) == Some(byKey[(tag, key)])
  {
    byKey := map[];
    for i := 0 to |cs|
      invariant forall tag, key :: (tag, key) in byKey <==> FirstWith(cs[..i], tag, key).Some?
      invariant forall tag, key :: (tag, key) in byKey ==> FirstWith(cs[..i], tag, key) == Some(byKey[(tag, key)])
    {
      assert cs[..i + 1] == cs[..i] + [cs[i]];
      forall tag, key ensures FirstWith(cs[..i + 1], tag, key) ==
        (if FirstWith(cs[..i], tag, key).Some? then FirstWith(cs[..i], tag, key)
         else if cs[i].tag == tag && cs[i].key == key then Some(cs[i]) else None)
      {
        FirstOfAppended(cs[..i], cs[i], tag, key);
      }
      var k := (cs[i].tag, cs[i].key);
      if k !in byKey {
        byKey := byKey[k := cs[i]];
      }
    }
    assert cs[..|cs|] == cs;
  }

  // The join of a check's key with the scanned file.
  function Resolve(fs: seq<Function>, tag: Tag, key: string): Option<Construct> {
    FirstWith(ScanFrom(BLANK, Lines(fs), 1).constructs, tag, key)
  }

  function CallOf(tag: Tag, key: string): Line
    requires !tag.GpioMode?
  {
    if tag.ClockEnable? then ClockCall(key) else EnableCall(key)
  }

  ghost predicate Emitted(fs: seq<Function>, l: Line) {
    exists k :: 0 <= k < |fs| && l in fs[k].body
  }

  lemma ScannedAre(fs: seq<Function>, c: Construct)
    requires AllScannable(fs)
    ensures c in ScanFrom(BLANK, Lines(fs), 1).constructs <==> exists k: nat :: InFunction(fs, 1, k, c)
  {
    FileScans(BLANK, fs, 1);
    assert BLANK.constructs + Constructs(fs, 1) == Constructs(fs, 1);
    if c in Constructs(fs, 1) { ConstructsByFunction(fs, 1, c); }
    if k: nat :| InFunction(fs, 1, k, c) { FunctionsAreScanned(fs, 1, k, c); }
  }

  lemma EmittedIsInBody(fs: seq<Function>, tag: Tag, key: string, k: nat, j: nat, c: Construct)
    requires k < |fs| && Scannable(fs[k]) && !tag.GpioMode? && IsWord(key)
    requires j < |fs[k].body| && fs[k].body[j] == CallOf(tag, key)
    requires c == Construct(tag, key, BodyStart(fs, k, 1) + j, NameOf(fs[k]))
    ensures InFunction(fs, 1, k, c)
  {
    BodyCalls(NameOf(fs[k]), fs[k].body, BodyStart(fs, k, 1), None, c);
  }

  lemma FoundInFunction(fs: seq<Function>, k: nat, c: Construct)
    requires AllScannable(fs) && InFunction(fs, 1, k, c)
    ensures c in ScanFrom(BLANK, Lines(fs), 1).constructs
  {
    ScannedAre(fs, c);
  }

  lemma EmittedIsFound(fs: seq<Function>, tag: Tag, key: string, k: nat, j: nat, c: Construct)
    requires AllScannable(fs) && !tag.GpioMode? && IsWord(key)
    requires k < |fs| && j < |fs[k].body| && fs[k].body[j] == CallOf(tag, key)
    requires c == Construct(tag, key, BodyStart(fs, k, 1) + j, NameOf(fs[k]))
    ensures c in ScanFrom(BLANK, Lines(fs), 1).constructs
  {
    EmittedIsInBody(fs, tag, key, k, j, c);
    FoundInFunction(fs, k, c);
  }

  /** A clock or interrupt key is located exactly when the rendered file enables it, under a name the
      patterns take for one; and then at a line that does so, in the function that line is in. */
  lemma CallLocatedIff(fs: seq<Function>, tag: Tag, key: string)
    requires AllScannable(fs) && !tag.GpioMode?
    ensures var hit := Resolve(fs, tag, key);
            && (hit.Some? <==> IsWord(key) && Emitted(fs, CallOf(tag, key)))
            && (hit.Some? ==> exists k: nat, j: nat :: FoundAt(fs, hit.value, k, j) && fs[k].body[j] == CallOf(tag, key))
  {
    var cs := ScanFrom(BLANK, Lines(fs), 1).constructs;
    FirstWithIs(cs, tag, key);
    var hit := Resolve(fs, tag, key);
    if hit.Some? {
      ScannedAre(fs, hit.value);
      var k: nat :| InFunction(fs, 1, k, hit.value);
      assert Scannable(fs[k]);
      BodyCalls(NameOf(fs[k]), fs[k].body, BodyStart(fs, k, 1), None, hit.value);
      var j := hit.value.line - BodyStart(fs, k, 1);
      assert FoundAt(fs, hit.value, k, j) && fs[k].body[j] == CallOf(tag, key);
    } else if IsWord(key) {
      forall k | 0 <= k < |fs| ensures CallOf(tag, key) !in fs[k].body {
        forall j | 0 <= j < |fs[k].body| ensures fs[k].body[j] != CallOf(tag, key) {
          if fs[k].body[j] == CallOf(tag, key) { EmittedIsFound(fs, tag, key, k, j, Construct(tag, key, BodyStart(fs, k, 1) + j, NameOf(fs[k]))); }
        }
      }
    }
  }

  // ---------------------------------------------------------------- the rendered plan

  predicate OnlyCalls(body: seq<Line>) {
    forall k :: 0 <= k < |body| ==> body[k].Plain? || body[k].ClockCall? || body[k].EnableCall? || body[k].HandlerCall?
  }

  lemma {:induction false} VectorLinesAreCalls(vectors: seq<Vector>)
    ensures OnlyCalls(VectorLines(vectors))
  {
    if vectors != [] { VectorLinesAreCalls(vectors[1..]); }
  }

  lemma {:induction false} StreamLinesAreCalls(streams: seq<Stream>)
    ensures OnlyCalls(StreamLines(streams))
  {
    if streams != [] { StreamLinesAreCalls(streams[1..]); }
  }

  lemma BlockBodyIsCalls(b: Block)
    ensures OnlyCalls(BlockBody(b))
  {
    StreamLinesAreCalls(StreamsOf(b));
    VectorLinesAreCalls(VectorsOf(b));
    assert OnlyCalls(DmaLines(b)) && OnlyCalls(NvicLines(b));
  }

  lemma {:induction false} PinLinesStayInside(pins: seq<Pin>)
    ensures forall k :: 0 <= k < |PinLines(pins)| ==> InBody(PinLines(pins)[k])
  {
    if pins != [] {
      PinLinesStayInside(pins[1..]);
      var first := [PinHeader(pins[0].portPin)] + Plains(pins[0].plain) + [GpioInit, Plain];
      assert PinLines(pins) == first + PinLines(pins[1..]);
    }
  }

  const GPIO_INIT := "MX_GPIO_Init"

  predicate OnlyHandlers(body: seq<Line>) {
    forall k :: 0 <= k < |body| ==> body[k].HandlerCall?
  }

  // What the functions of a rendered plan are, one by one.
  ghost predicate Rendered(plan: Plan, fs: seq<Function>) {
    && |fs| >= 3 + |plan.blocks|
    && fs[0].body == Plains(plan.calls) && fs[1].body == Plains(plan.clockLines)
    && fs[2] == Function(0, GPIO_INIT, BeforePins(plan) + PinLines(plan.pins))
    && (forall k :: 3 <= k < 3 + |plan.blocks| ==> fs[k].body == BlockBody(plan.blocks[k - 3]))
    && (forall k :: 3 + |plan.blocks| <= k < |fs| ==> OnlyHandlers(fs[k].body))
  }

  lemma Assembled(first: seq<Function>, blocks: seq<Function>, isrs: seq<Function>)
    requires |first| == 3
    ensures var fs := first + blocks + isrs;
            && |fs| == 3 + |blocks| + |isrs| && fs[0] == first[0] && fs[1] == first[1] && fs[2] == first[2]
            && (forall k :: 3 <= k < 3 + |blocks| ==> fs[k] == blocks[k - 3])
            && (forall k :: 3 + |blocks| <= k < |fs| ==> fs[k] == isrs[k - 3 - |blocks|])
  {}

  lemma IsrBodies(isrs: seq<Isr>)
    ensures var fs := IsrFunctions(isrs); forall k :: 0 <= k < |fs| ==> OnlyHandlers(fs[k].body)
  {}

  lemma FunctionsAreRendered(plan: Plan)
    ensures Rendered(plan, Functions(plan))
  {
    var first := [Function(plan.lead, "BSP_Init", Plains(plan.calls)),
                  Function(0, "SystemClock_Config", Plains(plan.clockLines)),
                  Function(0, GPIO_INIT, GpioBody(plan))];
    var isrs := Isrs(Entries(plan.blocks));
    IsrBodies(isrs);
    RenderedParts(plan, first, IsrFunctions(isrs));
  }

  lemma RenderedParts(plan: Plan, first: seq<Function>, isrs: seq<Function>)
    requires |first| == 3 && first[0].body == Plains(plan.calls) && first[1].body == Plains(plan.clockLines)
    requires first[2] == Function(0, GPIO_INIT, BeforePins(plan) + PinLines(plan.pins))
    requires forall k :: 0 <= k < |isrs| ==> OnlyHandlers(isrs[k].body)
    ensures Rendered(plan, first + BlockFunctions(plan.blocks) + isrs)
  {
    Assembled(first, BlockFunctions(plan.blocks), isrs);
  }

  lemma OtherBodiesAreCalls(plan: Plan, fs: seq<Function>, k: nat)
    requires Rendered(plan, fs) && k < |fs| && k != 2
    ensures OnlyCalls(fs[k].body)
  {
    if 3 <= k < 3 + |plan.blocks| { BlockBodyIsCalls(plan.blocks[k - 3]); }
  }

  lemma RenderedIsScannable(plan: Plan, fs: seq<Function>)
    requires Rendered(plan, fs)
    ensures AllScannable(fs) && IsWord(GPIO_INIT)
  {
    PinLinesStayInside(plan.pins);
    forall k | 0 <= k < |fs| ensures Scannable(fs[k]) {
      if k != 2 { OtherBodiesAreCalls(plan, fs, k); }
    }
  }

  lemma BlockIsRendered(plan: Plan, fs: seq<Function>, b: Block, l: Line)
    requires Rendered(plan, fs) && b in plan.blocks && l in BlockBody(b)
    ensures Emitted(fs, l)
  {
    var i :| 0 <= i < |plan.blocks| && plan.blocks[i] == b;
    assert fs[3 + i].body == BlockBody(plan.blocks[3 + i - 3]);
    assert l in fs[3 + i].body;
  }

  /** Every clock check is located, ports' and peripherals' alike, if its macro is a macro at all: the
      renderer emits the enable for each clock of the plan. */
  lemma EveryClockCheckIsLocated(plan: Plan, clock: string)
    requires clock in plan.portClocks || exists b :: b in plan.blocks && b.clock == clock
    ensures var fs := Functions(plan); var hit := Resolve(fs, ClockEnable, clock);
            && (hit.Some? <==> OfWordCharacters(clock))
            && (hit.Some? ==> exists k: nat, j: nat :: FoundAt(fs, hit.value, k, j) && fs[k].body[j] == ClockCall(clock))
  {
    var fs := Functions(plan);
    FunctionsAreRendered(plan);
    RenderedIsScannable(plan, fs);
    CallLocatedIff(fs, ClockEnable, clock);
    ClockIsEmitted(plan, fs, clock);
    WordsAre(clock);
  }

  lemma ClockIsEmitted(plan: Plan, fs: seq<Function>, clock: string)
    requires Rendered(plan, fs)
    requires clock in plan.portClocks || exists b :: b in plan.blocks && b.clock == clock
    ensures Emitted(fs, ClockCall(clock))
  {
    if clock in plan.portClocks {
      var i :| 0 <= i < |plan.portClocks| && plan.portClocks[i] == clock;
      assert BeforePins(plan)[3 + i] == ClockCall(clock);
      assert fs[2].body[3 + i] == ClockCall(clock);
      assert ClockCall(clock) in fs[2].body;
    } else {
      var b :| b in plan.blocks && b.clock == clock;
      assert BlockBody(b)[0] == ClockCall(clock);
      BlockIsRendered(plan, fs, b, ClockCall(clock));
    }
  }

  lemma EnablesAreTheBlocks(plan: Plan, fs: seq<Function>, irq: string, k: nat)
    requires Rendered(plan, fs) && k < |fs| && EnableCall(irq) in fs[k].body
    ensures 3 <= k < 3 + |plan.blocks| && Emits(plan.blocks[k - 3], irq)
  {
    if k == 2 {
      PinLinesEnableNothing(plan.pins, irq);
      InConcat(EnableCall(irq), BeforePins(plan), PinLines(plan.pins));
    } else if 3 <= k < 3 + |plan.blocks| {
      BlockEnables(plan.blocks[k - 3], irq);
    }
  }

  lemma OnlyBlocksEnable(plan: Plan, fs: seq<Function>, irq: string)
    requires Rendered(plan, fs)
    ensures Emitted(fs, EnableCall(irq)) <==> exists b :: b in plan.blocks && Emits(b, irq)
  {
    if b :| b in plan.blocks && Emits(b, irq) {
      BlockEnables(b, irq);
      BlockIsRendered(plan, fs, b, EnableCall(irq));
    }
    if k :| 0 <= k < |fs| && EnableCall(irq) in fs[k].body {
      EnablesAreTheBlocks(plan, fs, irq, k);
    }
  }

  lemma {:induction false} PinLinesEnableNothing(pins: seq<Pin>, irq: string)
    ensures EnableCall(irq) !in PinLines(pins)
  {
    if pins != [] {
      PinLinesEnableNothing(pins[1..], irq);
      InConcat(EnableCall(irq), [PinHeader(pins[0].portPin)] + Plains(pins[0].plain) + [GpioInit, Plain], PinLines(pins[1..]));
    }
  }

  /** An interrupt check is located exactly when some block with a HAL init call enables the interrupt;
      a check derived from a block without one is reported as not emitted, never mapped elsewhere. */
  lemma InterruptCheckIsLocatedIff(plan: Plan, irq: string)
    ensures var fs := Functions(plan); var hit := Resolve(fs, NvicEnable, irq);
            && (hit.Some? <==> IsWord(irq) && exists b :: b in plan.blocks && Emits(b, irq))
            && (hit.Some? ==> exists k: nat, j: nat :: FoundAt(fs, hit.value, k, j) && fs[k].body[j] == EnableCall(irq))
  {
    FunctionsAreRendered(plan);
    RenderedIsScannable(plan, Functions(plan));
    CallLocatedIff(Functions(plan), NvicEnable, irq);
    OnlyBlocksEnable(plan, Functions(plan), irq);
  }

  // ---------------------------------------------------------------- pins

  lemma {:induction false} BodyScanConcat(fn: Option<string>, a: seq<Line>, b: seq<Line>, index: nat,
                                          pin: Option<string>)
    ensures var first := BodyScan(fn, a, index, pin); var rest := BodyScan(fn, b, index + |a|, first.1);
            BodyScan(fn, a + b, index, pin) == (first.0 + rest.0, rest.1)
    decreases |a|
  {
    if a == [] {
      assert a + b == b;
      assert [] + BodyScan(fn, b, index, pin).0 == BodyScan(fn, b, index, pin).0;
    } else {
      assert (a + b)[0] == a[0] && (a + b)[1..] == a[1..] + b;
      var s := StepLine(Scan(fn, 0, pin, [], []), a[0], index);
      BodyScanConcat(fn, a[1..], b, index + 1, s.pin);
      var first := BodyScan(fn, a[1..], index + 1, s.pin);
      Append3(s.constructs, first.0, BodyScan(fn, b, index + |a|, first.1).0);
    }
  }

  lemma {:induction false} PlainsInBody(fn: Option<string>, n: nat, index: nat, pin: Option<string>)
    ensures BodyScan(fn, Plains(n), index, pin) == ([], pin)
    decreases n
  {
    if n > 0 {
      assert Plains(n)[0] == Plain && Plains(n)[1..] == Plains(n - 1);
      PlainsInBody(fn, n - 1, index + 1, pin);
      var none: seq<Construct> := [];
      assert none + none == none;
    }
  }

  function PinConstructs(pins: seq<Pin>, fn: Option<string>, index: nat): seq<Construct> {
    if pins == [] then []
    else
      var key := HeaderKey(pins[0].portPin);
      (if key.Some? then [Construct(GpioMode, key.value, index + 1 + pins[0].plain, fn)] else []) +
      PinConstructs(pins[1..], fn, index + pins[0].plain + 3)
  }

  lemma OneLine(fn: Option<string>, l: Line, index: nat, pin: Option<string>)
    ensures var s := StepLine(Scan(fn, 0, pin, [], []), l, index); BodyScan(fn, [l], index, pin) == (s.constructs, s.pin)
  {
    var s := StepLine(Scan(fn, 0, pin, [], []), l, index);
    assert [l][1..] == [] && s.constructs + [] == s.constructs;
  }

  lemma InitInBody(fn: Option<string>, index: nat, pin: Option<string>)
    ensures BodyScan(fn, [GpioInit, Plain], index, pin) ==
            (if pin.Some? then [Construct(GpioMode, pin.value, index, fn)] else [], None)
  {
    assert [GpioInit, Plain] == [GpioInit] + [Plain];
    BodyScanConcat(fn, [GpioInit], [Plain], index, pin);
    OneLine(fn, GpioInit, index, pin);
    OneLine(fn, Plain, index + 1, None);
    var none: seq<Construct>, found := [], BodyScan(fn, [GpioInit], index, pin).0;
    assert found + none == found;
    if pin.Some? { assert none + [Construct(GpioMode, pin.value, index, fn)] == [Construct(GpioMode, pin.value, index, fn)]; }
  }

  lemma HeaderScans(pin: Pin, fn: Option<string>, index: nat)
    ensures BodyScan(fn, [PinHeader(pin.portPin)] + Plains(pin.plain), index, None) == ([], HeaderKey(pin.portPin))
  {
    BodyScanConcat(fn, [PinHeader(pin.portPin)], Plains(pin.plain), index, None);
    OneLine(fn, PinHeader(pin.portPin), index, None);
    PlainsInBody(fn, pin.plain, index + 1, HeaderKey(pin.portPin));
    var none: seq<Construct> := [];
    assert none + none == none;
  }

  lemma ThenScans(fn: Option<string>, a: seq<Line>, b: seq<Line>, index: nat, key: Option<string>, found: seq<Construct>)
    requires BodyScan(fn, a, index, None) == ([], key)
    requires BodyScan(fn, b, index + |a|, key) == (found, None)
    ensures BodyScan(fn, a + b, index, None) == (found, None)
  {
    BodyScanConcat(fn, a, b, index, None);
    assert [] + found == found;
  }

  lemma OnePinScans(pin: Pin, fn: Option<string>, index: nat)
    ensures var key := HeaderKey(pin.portPin);
            BodyScan(fn, [PinHeader(pin.portPin)] + Plains(pin.plain) + [GpioInit, Plain], index, None) ==
            (if key.Some? then [Construct(GpioMode, key.value, index + 1 + pin.plain, fn)] else [], None)
  {
    var key, header, init := HeaderKey(pin.portPin), [PinHeader(pin.portPin)] + Plains(pin.plain), [GpioInit, Plain];
    HeaderScans(pin, fn, index);
    InitInBody(fn, index + 1 + pin.plain, key);
    ThenScans(fn, header, init, index, key, if key.Some? then [Construct(GpioMode, key.value, index + 1 + pin.plain, fn)] else []);
  }

  lemma {:induction false} PinsScan(pins: seq<Pin>, fn: Option<string>, index: nat)
    ensures BodyScan(fn, PinLines(pins), index, None) == (PinConstructs(pins, fn, index), None)
    decreases |pins|
  {
    if pins != [] {
      var first := [PinHeader(pins[0].portPin)] + Plains(pins[0].plain) + [GpioInit, Plain];
      OnePinScans(pins[0], fn, index);
      BodyScanConcat(fn, first, PinLines(pins[1..]), index, None);
      PinsScan(pins[1..], fn, index + pins[0].plain + 3);
    }
  }

  // Where in its block the mode-setting call of the m-th pin is.
  function PinOffset(pins: seq<Pin>, m: nat): nat
    requires m < |pins|
  {
    if m == 0 then 1 + pins[0].plain else pins[0].plain + 3 + PinOffset(pins[1..], m - 1)
  }

  lemma {:induction false} PinIsThere(pins: seq<Pin>, m: nat)
    requires m < |pins|
    ensures var o := PinOffset(pins, m);
            && pins[m].plain + 1 <= o < |PinLines(pins)| && PinLines(pins)[o] == GpioInit
            && PinLines(pins)[o - 1 - pins[m].plain] == PinHeader(pins[m].portPin)
    decreases m
  {
    var first := [PinHeader(pins[0].portPin)] + Plains(pins[0].plain) + [GpioInit, Plain];
    assert PinLines(pins) == first + PinLines(pins[1..]);
    if m > 0 { PinIsThere(pins[1..], m - 1); }
  }

  // c is the construct of the m-th pin of the list.
  ghost predicate OfPin(pins: seq<Pin>, fn: Option<string>, index: nat, m: nat, c: Construct) {
    m < |pins| && HeaderKey(pins[m].portPin) == Some(c.key) && c == Construct(GpioMode, c.key, index + PinOffset(pins, m), fn)
  }

  lemma LaterPin(pins: seq<Pin>, fn: Option<string>, index: nat, m: nat, c: Construct)
    requires pins != []
    ensures OfPin(pins, fn, index, m + 1, c) <==> OfPin(pins[1..], fn, index + pins[0].plain + 3, m, c)
  {
    if m + 1 < |pins| { assert pins[1..][m] == pins[m + 1]; }
  }

  lemma FirstPin(pins: seq<Pin>, fn: Option<string>, index: nat, c: Construct)
    requires pins != []
    ensures c in PinConstructs(pins, fn, index) <==>
            OfPin(pins, fn, index, 0, c) || c in PinConstructs(pins[1..], fn, index + pins[0].plain + 3)
  {
    assert PinOffset(pins, 0) == 1 + pins[0].plain;
  }

  lemma {:induction false} PinOf(pins: seq<Pin>, fn: Option<string>, index: nat, c: Construct) returns (m: nat)
    requires c in PinConstructs(pins, fn, index)
    ensures OfPin(pins, fn, index, m, c)
    decreases |pins|
  {
    FirstPin(pins, fn, index, c);
    m := 0;
    if !OfPin(pins, fn, index, 0, c) {
      m := PinOf(pins[1..], fn, index + pins[0].plain + 3, c);
      LaterPin(pins, fn, index, m, c);
      m := m + 1;
    }
  }

  lemma FirstPinHasConstruct(pins: seq<Pin>, fn: Option<string>, index: nat, c: Construct)
    requires OfPin(pins, fn, index, 0, c)
    ensures c in PinConstructs(pins, fn, index)
  {
    FirstPin(pins, fn, index, c);
  }

  lemma LaterPinHasConstruct(pins: seq<Pin>, fn: Option<string>, index: nat, c: Construct)
    requires pins != [] && c in PinConstructs(pins[1..], fn, index + pins[0].plain + 3)
    ensures c in PinConstructs(pins, fn, index)
  {}

  lemma {:induction false} PinHasConstruct(pins: seq<Pin>, fn: Option<string>, index: nat, m: nat, c: Construct)
    requires OfPin(pins, fn, index, m, c)
    ensures c in PinConstructs(pins, fn, index)
    decreases m
  {
    if m == 0 {
      FirstPinHasConstruct(pins, fn, index, c);
    } else {
      LaterPin(pins, fn, index, m - 1, c);
      PinHasConstruct(pins[1..], fn, index + pins[0].plain + 3, m - 1, c);
      LaterPinHasConstruct(pins, fn, index, c);
    }
  }

  lemma PinConstructsAre(pins: seq<Pin>, fn: Option<string>, index: nat, c: Construct)
    ensures c in PinConstructs(pins, fn, index) <==> exists m: nat :: OfPin(pins, fn, index, m, c)
  {
    if c in PinConstructs(pins, fn, index) {
      var m := PinOf(pins, fn, index, c);
    } else {
      forall m: nat ensures !OfPin(pins, fn, index, m, c) {
        if OfPin(pins, fn, index, m, c) { PinHasConstruct(pins, fn, index, m, c); }
      }
    }
  }

  // The line of the first pin's header in the rendered file.
  function PinsStart(plan: Plan, fs: seq<Function>): nat
    requires |fs| > 2
  {
    BodyStart(fs, 2, 1) + |BeforePins(plan)|
  }

  lemma GpioConstructsAre(plan: Plan, fs: seq<Function>, c: Construct)
    requires Rendered(plan, fs) && c.tag.GpioMode?
    ensures c in ScanFrom(BLANK, Lines(fs), 1).constructs <==>
            exists m: nat :: OfPin(plan.pins, Some(GPIO_INIT), PinsStart(plan, fs), m, c)
  {
    RenderedIsScannable(plan, fs);
    ScannedAre(fs, c);
    forall k: nat | k < |fs| && k != 2 ensures !InFunction(fs, 1, k, c) {
      OtherBodiesAreCalls(plan, fs, k);
      NoPinsNoGpio(NameOf(fs[k]), fs[k].body, BodyStart(fs, k, 1));
    }
    GpioBodyScans(plan, fs[2].body, BodyStart(fs, 2, 1), c);
    assert InFunction(fs, 1, 2, c) <==> c in PinConstructs(plan.pins, Some(GPIO_INIT), PinsStart(plan, fs));
    PinConstructsAre(plan.pins, Some(GPIO_INIT), PinsStart(plan, fs), c);
  }

  lemma GpioBodyScans(plan: Plan, body: seq<Line>, start: nat, c: Construct)
    requires c.tag.GpioMode? && body == BeforePins(plan) + PinLines(plan.pins)
    ensures c in BodyScan(Some(GPIO_INIT), body, start, None).0 <==>
            c in PinConstructs(plan.pins, Some(GPIO_INIT), start + |BeforePins(plan)|)
  {
    var before := BeforePins(plan);
    BodyScanConcat(Some(GPIO_INIT), before, PinLines(plan.pins), start, None);
    NoPinsNoGpio(Some(GPIO_INIT), before, start);
    PinsScan(plan.pins, Some(GPIO_INIT), start + |before|);
  }

  // The first pin of the list whose header reads p.
  ghost predicate FirstPinWith(pins: seq<Pin>, n: nat, p: string) {
    n < |pins| && HeaderKey(pins[n].portPin) == Some(p) && forall k :: 0 <= k < n ==> HeaderKey(pins[k].portPin) != Some(p)
  }

  lemma {:induction false} LaterPinsAreLower(pins: seq<Pin>, n: nat, m: nat)
    requires n <= m < |pins|
    ensures PinOffset(pins, n) <= PinOffset(pins, m) && (n < m ==> PinOffset(pins, n) < PinOffset(pins, m))
    decreases n
  {
    if n > 0 { LaterPinsAreLower(pins[1..], n - 1, m - 1); }
  }

  // The located construct is the first one of its key, and so the first pin's.
  lemma LocatedPinIsTheFirst(plan: Plan, fs: seq<Function>, p: string, n: nat, hit: Construct)
    requires Rendered(plan, fs) && Resolve(fs, GpioMode, p) == Some(hit)
    requires OfPin(plan.pins, Some(GPIO_INIT), PinsStart(plan, fs), n, hit) && hit.key == p
    ensures FirstPinWith(plan.pins, n, p)
  {
    var cs := ScanFrom(BLANK, Lines(fs), 1).constructs;
    ScanIsInLineOrder(BLANK, Lines(fs), 1);
    forall k: nat | k < n ensures HeaderKey(plan.pins[k].portPin) != Some(p) {
      if HeaderKey(plan.pins[k].portPin) == Some(p) {
        var c := Construct(GpioMode, p, PinsStart(plan, fs) + PinOffset(plan.pins, k), Some(GPIO_INIT));
        assert OfPin(plan.pins, Some(GPIO_INIT), PinsStart(plan, fs), k, c);
        GpioConstructsAre(plan, fs, c);
        FirstIsEarliest(cs, GpioMode, p, c);
        LaterPinsAreLower(plan.pins, k, n);
      }
    }
  }

  /** A pin check is located exactly when its port-pin is canonical: at the mode-setting call of the first
      pin with that header, in MX_GPIO_Init. A pin written any other way is never given another's line. */
  lemma PinCheckIsLocatedIff(plan: Plan, m: nat)
    requires m < |plan.pins|
    ensures var p := plan.pins[m].portPin; var fs := Functions(plan); var hit := Resolve(fs, GpioMode, p);
            && (hit.Some? <==> IsCanonical(p))
            && (hit.Some? ==>
                  exists n: nat :: FirstPinWith(plan.pins, n, p) && OfPin(plan.pins, Some(GPIO_INIT), PinsStart(plan, fs), n, hit.value))
  {
    var p, fs := plan.pins[m].portPin, Functions(plan);
    FunctionsAreRendered(plan);
    FirstWithIs(ScanFrom(BLANK, Lines(fs), 1).constructs, GpioMode, p);
    var hit := Resolve(fs, GpioMode, p);
    HeaderKeysAreCanonical(p, p);
    if hit.Some? {
      GpioConstructsAre(plan, fs, hit.value);
      var n: nat :| OfPin(plan.pins, Some(GPIO_INIT), PinsStart(plan, fs), n, hit.value);
      HeaderKeysAreCanonical(plan.pins[n].portPin, p);
      LocatedPinIsTheFirst(plan, fs, p, n, hit.value);
    }
    if IsCanonical(p) {
      var c := Construct(GpioMode, p, PinsStart(plan, fs) + PinOffset(plan.pins, m), Some(GPIO_INIT));
      assert OfPin(plan.pins, Some(GPIO_INIT), PinsStart(plan, fs), m, c);
      GpioConstructsAre(plan, fs, c);
    }
  }

  /** And the line is that pin's own exactly when no pin before it has the same header. */
  lemma PinCheckIsItsOwnIff(plan: Plan, m: nat)
    requires m < |plan.pins| && IsCanonical(plan.pins[m].portPin)
    ensures var p := plan.pins[m].portPin; var fs := Functions(plan); var hit := Resolve(fs, GpioMode, p);
            hit.Some? && (OfPin(plan.pins, Some(GPIO_INIT), PinsStart(plan, fs), m, hit.value) <==> FirstPinWith(plan.pins, m, p))
  {
    var p, fs := plan.pins[m].portPin, Functions(plan);
    PinCheckIsLocatedIff(plan, m);
    HeaderKeysAreCanonical(p, p);
    var hit := Resolve(fs, GpioMode, p).value;
    var n: nat :| FirstPinWith(plan.pins, n, p) && OfPin(plan.pins, Some(GPIO_INIT), PinsStart(plan, fs), n, hit);
    assert n <= m;
    LaterPinsAreLower(plan.pins, n, m);
    assert hit.key == p;
  }

  /** That line is what it is said to be: the call, with the pin's own header before it. */
  lemma LocatedPinLine(plan: Plan, fs: seq<Function>, n: nat, c: Construct)
    requires Rendered(plan, fs) && OfPin(plan.pins, Some(GPIO_INIT), PinsStart(plan, fs), n, c)
    ensures var pin := plan.pins[n];
            && 2 + pin.plain <= c.line <= |Lines(fs)| && Lines(fs)[c.line - 1] == GpioInit
            && Lines(fs)[c.line - 2 - pin.plain] == PinHeader(pin.portPin) && HeaderKey(pin.portPin) == Some(c.key)
  {
    var b := |BeforePins(plan)|;
    var o, back := PinOffset(plan.pins, n), 1 + plan.pins[n].plain;
    PinIsThere(plan.pins, n);
    LineOfBody(fs, 2, BeforePins(plan), PinLines(plan.pins), o);
    LineOfBody(fs, 2, BeforePins(plan), PinLines(plan.pins), o - back);
  }

  lemma LineOfBody(fs: seq<Function>, k: nat, before: seq<Line>, after: seq<Line>, j: nat)
    requires k < |fs| && fs[k].body == before + after && j < |after|
    ensures 1 <= BodyStart(fs, k, 1) + |before| + j <= |Lines(fs)|
    ensures Lines(fs)[BodyStart(fs, k, 1) + |before| + j - 1] == after[j]
  {
    assert fs[k].body[|before| + j] == after[j];
    BodyIsThere(fs, k, |before| + j, 1);
  }
}
