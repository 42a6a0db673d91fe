/**
The judge of the loop (acceptance_eval.py, acceptance_model.py, fault_analysis.py): every check of
a spec is compared exactly with what a reader returns, and a target that cannot be read is never
a pass.
*/
module AcceptanceEval {
  import opened Options
  import opened Bits
  import opened LoopControl

  datatype Op = Eq | Ne | Lt | Le | Gt | Ge | BitsSet | BitsClear

  predicate Compare(actual: int, expected: int, op: Op) {
    match op
    case Eq => actual == expected
    case Ne => actual != expected
    case Lt => actual < expected
    case Le => actual <= expected
    case Gt => actual > expected
    case Ge => actual >= expected
    case BitsSet => And(actual, expected) == expected
    case BitsClear => And(actual, expected) == 0
  }

  datatype Kind =
    | MemoryU32(address: int, mask: Option<int>, wanted: int, op: Op)
    | Variable(name: string, wanted: int, op: Op)
    | CoreRegister(register: string, mask: Option<int>, wanted: int, op: Op)
    | NoFault
    | StoppedAt(symbol: string)

  datatype Rule = Rule(id: Id, kind: Kind)

  // What the target answers; `None` is an exception. `faults` is CFSR with HFSR.
  datatype Reader = Reader(word: int -> Option<int>, variable: string -> Option<int>, register: string -> Option<int>,
                           faults: Option<(int, int)>, symbol: int -> Option<string>)

  // ---------------------------------------------------------------- fault registers

  datatype FaultClass = MemManage | BusFault | UsageFault | HardFault

  // The bits of CFSR the table knows, with their classes.
  const CFSR_FLAGS: seq<(nat, FaultClass)> := [
    (0, MemManage), (1, MemManage), (3, MemManage), (4, MemManage), (5, MemManage), (7, MemManage),
    (8, BusFault), (9, BusFault), (10, BusFault), (11, BusFault), (12, BusFault), (13, BusFault), (15, BusFault),
    (16, UsageFault), (17, UsageFault), (18, UsageFault), (19, UsageFault), (24, UsageFault), (25, UsageFault)]

  ghost predicate Flagged(cfsr: int, n: nat, c: FaultClass)
    requires n <= |CFSR_FLAGS|
  {
    exists k :: 0 <= k < n && CFSR_FLAGS[k].1 == c && Bit(cfsr, CFSR_FLAGS[k].0)
  }

  /** No fault class is active: no known CFSR bit, and nothing at all in HFSR. */
  predicate NoFaultActive(cfsr: int, hfsr: int) {
    hfsr == 0 && forall k :: 0 <= k < |CFSR_FLAGS| ==> !Bit(cfsr, CFSR_FLAGS[k].0)
  }

  method Diagnose(cfsr: int, hfsr: int) returns (classes: seq<FaultClass>)
    ensures forall c :: c in classes <==>
              if c.HardFault? then hfsr != 0 && (forall d :: !Flagged(cfsr, |CFSR_FLAGS|, d)) else Flagged(cfsr, |CFSR_FLAGS|, c)
    ensures classes == [] <==> NoFaultActive(cfsr, hfsr)
  {
    classes := [];
    for k := 0 to |CFSR_FLAGS|
      invariant forall c :: c in classes <==> Flagged(cfsr, k, c)
    {
      var (bit, class_) := CFSR_FLAGS[k];
      MaskOfOneBit(cfsr, bit);
      ghost var before := classes;
      if And(cfsr, Pow2(bit)) != 0 && class_ !in classes {
        classes := classes + [class_];
      }
      forall c ensures Flagged(cfsr, k + 1, c) <==> Flagged(cfsr, k, c) || (c == class_ && Bit(cfsr, bit)) {
        if c == class_ && Bit(cfsr, bit) { assert CFSR_FLAGS[k].1 == c; }
      }
    }
    assert classes != [] ==> classes[0] in classes;
    assert forall k :: 0 <= k < |CFSR_FLAGS| && Bit(cfsr, CFSR_FLAGS[k].0) ==> Flagged(cfsr, |CFSR_FLAGS|, CFSR_FLAGS[k].1);
    if classes == [] && hfsr != 0 {
      classes := [HardFault];
    }
  }

  // ---------------------------------------------------------------- one check

  function Masked(raw: int, mask: Option<int>): int {
    match mask
    case Some(m) => And(raw, m)
    case None => raw
  }

  function MarkOf(k: Kind, r: Reader): Mark {
    match k
    case MemoryU32(address, mask, wanted, op) =>
      (match r.word(address)
       case None => Error
       case Some(raw) => if Compare(Masked(raw, mask), wanted, op) then Pass else Fail)
    case Variable(name, wanted, op) =>
      (match r.variable(name)
       case None => Error
       case Some(actual) => if Compare(actual, wanted, op) then Pass else Fail)
    case CoreRegister(register, mask, wanted, op) =>
      (match r.register(register)
       case None => Error
       case Some(raw) => if Compare(Masked(raw, mask), wanted, op) then Pass else Fail)
    case NoFault =>
      (match r.faults
       case None => Error
       case Some(f) => if NoFaultActive(f.0, f.1) then Pass else Fail)
    case StoppedAt(symbol) =>
      (match r.register("pc")
       case None => Error
       case Some(pc) =>
         match r.symbol(pc)
         case None => Error
         case Some(resolved) => if resolved == symbol then Pass else Fail)
  }

  // What an operator asks of the value that was read.
  ghost predicate Stands(actual: int, op: Op, wanted: int) {
    match op
    case Eq => actual == wanted
    case Ne => !(actual == wanted)
    case Lt => wanted - actual > 0
    case Le => wanted - actual >= 0
    case Gt => actual - wanted > 0
    case Ge => actual - wanted >= 0
    case BitsSet => forall b: nat :: Bit(wanted, b) ==> Bit(actual, b)
    case BitsClear => forall b: nat :: Bit(wanted, b) ==> !Bit(actual, b)
  }

  // v is what is left of a reading under a mask: its bits that the mask has, or all without one.
  ghost predicate IsMasked(raw: int, mask: Option<int>, v: int) {
    forall b: nat :: Bit(v, b) <==> Bit(raw, b) && (mask.Some? ==> Bit(mask.value, b))
  }

  // What could be read of a target is compared, in that order; what could not is an error.
  ghost predicate JudgedValue(reading: Option<int>, mask: Option<int>, op: Op, wanted: int, mark: Mark) {
    && (mark.Error? <==> reading.None?)
    && (reading.Some? ==> forall v :: IsMasked(reading.value, mask, v) ==> (mark.Pass? <==> Stands(v, op, wanted)))
  }

  ghost predicate Judged(k: Kind, r: Reader, mark: Mark) {
    match k
    case MemoryU32(address, mask, wanted, op) => JudgedValue(r.word(address), mask, op, wanted, mark)
    case Variable(name, wanted, op) => JudgedValue(r.variable(name), None, op, wanted, mark)
    case CoreRegister(register, mask, wanted, op) => JudgedValue(r.register(register), mask, op, wanted, mark)
    case NoFault =>
      && (mark.Error? <==> r.faults.None?)
      && (r.faults.Some? ==>
           (mark.Pass? <==> r.faults.value.1 == 0 && forall b: nat :: Bit(r.faults.value.0, b) ==> !IsCfsrFlag(b)))
    case StoppedAt(symbol) =>
      var at := if r.register("pc").None? then None else r.symbol(r.register("pc").value);
      (mark.Error? <==> at.None?) && (mark.Pass? <==> at == Some(symbol))
  }

  // The bits of CFSR with a meaning: MMFSR in the low byte, BFSR in the next, UFSR in the high half.
  predicate IsCfsrFlag(b: nat) {
    b in {0, 1, 3, 4, 5, 7} || b in {8, 9, 10, 11, 12, 13, 15} || b in {16, 17, 18, 19, 24, 25}
  }

  lemma ComparedAsItStands(raw: int, mask: Option<int>, op: Op, wanted: int)
    ensures IsMasked(raw, mask, Masked(raw, mask))
    ensures forall v :: IsMasked(raw, mask, v) ==> (Compare(Masked(raw, mask), wanted, op) <==> Stands(v, op, wanted))
  {
    var m := Masked(raw, mask);
    forall b: nat ensures Bit(m, b) <==> Bit(raw, b) && (mask.Some? ==> Bit(mask.value, b)) {
      if mask.Some? { AndIsBitwise(raw, mask.value, b); }
    }
    forall v | IsMasked(raw, mask, v) ensures v == m { BitsDetermine(v, m); }
    MaskedComparisons(m, wanted);
  }

  lemma FlagsAreListed(cfsr: int, hfsr: int)
    ensures NoFaultActive(cfsr, hfsr) <==> hfsr == 0 && forall b: nat :: Bit(cfsr, b) ==> !IsCfsrFlag(b)
  {
    assert forall k :: 0 <= k < |CFSR_FLAGS| ==> IsCfsrFlag(CFSR_FLAGS[k].0);
    forall b: nat | IsCfsrFlag(b) ensures exists k :: 0 <= k < |CFSR_FLAGS| && CFSR_FLAGS[k].0 == b {
      FlagIsListed(b);
    }
  }

  lemma FlagIsListed(b: nat)
    requires IsCfsrFlag(b)
    ensures exists k :: 0 <= k < |CFSR_FLAGS| && CFSR_FLAGS[k].0 == b
  {
    var k := if b < 2 then b else if b < 6 then b - 1 else if b < 8 then 5 else if b < 14 then b - 2
             else if b < 16 then 12 else if b < 20 then b - 3 else b - 7;
    assert CFSR_FLAGS[k].0 == b;
  }

  /** What a mark says: for memory words, variables and core registers, that the value read, under its
      mask, stands to the wanted one as the operator has it; for faults, that no flag is up; and an error
      that the target could not be read. */
  lemma MarksAreJudgements(k: Kind, r: Reader)
    ensures Judged(k, r, MarkOf(k, r))
  {
    match k {
      case MemoryU32(address, mask, wanted, op) =>
        if r.word(address).Some? { UnderMask(r.word(address).value, mask, op, wanted); }
      case Variable(name, wanted, op) =>
        if r.variable(name).Some? { UnderMask(r.variable(name).value, None, op, wanted); }
      case CoreRegister(register, mask, wanted, op) =>
        if r.register(register).Some? { UnderMask(r.register(register).value, mask, op, wanted); }
      case NoFault => if r.faults.Some? { FlagsAreListed(r.faults.value.0, r.faults.value.1); }
      case StoppedAt(_) =>
    }
  }

  lemma UnderMask(raw: int, mask: Option<int>, op: Op, wanted: int)
    ensures JudgedValue(Some(raw), mask, op, wanted, if Compare(Masked(raw, mask), wanted, op) then Pass else Fail)
  {
    ComparedAsItStands(raw, mask, op, wanted);
  }

  method Evaluate(k: Kind, r: Reader) returns (mark: Mark)
    ensures mark == MarkOf(k, r)
  {
    if k.NoFault? && r.faults.Some? {
      var classes := Diagnose(r.faults.value.0, r.faults.value.1);
      return if classes == [] then Pass else Fail;
    }
    mark := MarkOf(k, r);
  }

  // ---------------------------------------------------------------- a whole spec

  function Judgement(rules: seq<Rule>, r: Reader): seq<Check> {
    seq(|rules|, k requires 0 <= k < |rules| => Check(rules[k].id, MarkOf(rules[k].kind, r)))
  }

  function Count(results: seq<Check>, mark: Mark): nat {
    if results == [] then 0
    else Count(results[..|results| - 1], mark) + if results[|results| - 1].mark == mark then 1 else 0
  }

  // The places of a list of results that got this mark.
  ghost function Marked(results: seq<Check>, mark: Mark): set<nat> {
    set k: nat | k < |results| && results[k].mark == mark
  }

  /** The counts of a verdict are counts: of the places whose result got the mark. */
  lemma {:induction false} CountIs(results: seq<Check>, mark: Mark)
    ensures Count(results, mark) == |Marked(results, mark)|
  {
    if results != [] {
      var n := |results| - 1;
      CountIs(results[..n], mark);
      assert Marked(results, mark) == Marked(results[..n], mark) + if results[n].mark == mark then {n} else {};
    }
  }

  ghost predicate AllPass(rules: seq<Rule>, r: Reader) {
    forall k :: 0 <= k < |rules| ==> MarkOf(rules[k].kind, r).Pass?
  }

  lemma ResultsAreJudged(rules: seq<Rule>, r: Reader)
    ensures forall k :: 0 <= k < |rules| ==>
              Judgement(rules, r)[k].id == rules[k].id && Judged(rules[k].kind, r, Judgement(rules, r)[k].mark)
  {
    forall k | 0 <= k < |rules| ensures Judged(rules[k].kind, r, Judgement(rules, r)[k].mark) {
      MarksAreJudgements(rules[k].kind, r);
    }
  }

  /** Every check is judged, in order and under its own id, and the verdict is ok exactly when none
      failed and none could not be read. */
  method EvaluateAcceptance(rules: seq<Rule>, r: Reader) returns (v: Verdict, passed: nat, failed: nat, errored: nat)
    ensures v.results == Judgement(rules, r)
    ensures v.ok <==> AllPass(rules, r)
    ensures |v.results| == |rules|
    ensures forall k :: 0 <= k < |rules| ==> v.results[k].id == rules[k].id && Judged(rules[k].kind, r, v.results[k].mark)
    ensures v.ok <==> forall k :: 0 <= k < |rules| ==> v.results[k].mark.Pass?
    ensures passed == Count(v.results, Pass) && failed == Count(v.results, Fail) && errored == Count(v.results, Error)
    ensures passed + failed + errored == |rules|
    ensures Sound(v)
  {
    var results: seq<Check> := [];
    passed, failed, errored := 0, 0, 0;
    for i := 0 to |rules|
      invariant results == Judgement(rules, r)[..i]
      invariant passed == Count(results, Pass) && failed == Count(results, Fail) && errored == Count(results, Error)
      invariant passed + failed + errored == i
      invariant failed == 0 && errored == 0 <==> forall k :: 0 <= k < i ==> results[k].mark.Pass?
    {
      var mark := Evaluate(rules[i].kind, r);
      match mark {
        case Pass => passed := passed + 1;
        case Fail => failed := failed + 1;
        case Error => errored := errored + 1;
      }
      ghost var before := results;
      results := results + [Check(rules[i].id, mark)];
      assert results[..i] == before;
    }
    assert results == Judgement(rules, r);
    v := Verdict(failed == 0 && errored == 0, results);
    assert forall k :: 0 <= k < |rules| ==> results[k].mark == MarkOf(rules[k].kind, r);
    UnsatisfiedAre(results);
    ResultsAreJudged(rules, r);
  }

  /** So a loop fed by the judge converges exactly when the pass built, reached its point and every
      check was read and passed. */
  lemma JudgedLoopConvergesIff(s: Loop, builds: bool, reaches: bool, rules: seq<Rule>, r: Reader, v: Verdict)
    requires v.results == Judgement(rules, r) && Sound(v)
    ensures Recorded(s, ResultOf(s.plan, Steps(builds, reaches, v))).status == Converged <==>
            (s.plan.hasBuild ==> builds) && (s.plan.hasFlash ==> reaches) && AllPass(rules, r)
  {
    ConvergedIffNothingUnsatisfied(s, Steps(builds, reaches, v));
    assert forall k :: 0 <= k < |rules| ==> v.results[k].mark == MarkOf(rules[k].kind, r);
  }

  // ---------------------------------------------------------------- validation

  datatype Validation = Valid | NoChecks | Duplicate(id: Id)

  predicate DistinctIds(rules: seq<Rule>) {
    forall i, j :: 0 <= i < j < |rules| ==> rules[i].id != rules[j].id
  }

  /** A spec validates exactly when it has checks and no two share an id; otherwise the first repeated
      id is named. */
  method Validate(rules: seq<Rule>) returns (v: Validation)
    ensures v == Valid <==> rules != [] && DistinctIds(rules)
    ensures v == NoChecks <==> rules == []
    ensures v.Duplicate? ==> exists i, j :: 0 <= i < j < |rules| && rules[i].id == rules[j].id == v.id && DistinctIds(rules[..j])
  {
    if rules == [] {
      return NoChecks;
    }
    var seen: set<Id> := {};
    for i := 0 to |rules|
      invariant DistinctIds(rules[..i])
      invariant forall id :: id in seen <==> exists k :: 0 <= k < i && rules[k].id == id
    {
      if rules[i].id in seen {
        return Duplicate(rules[i].id);
      }
      seen := seen + {rules[i].id};
      assert forall k :: 0 <= k < i ==> rules[k].id != rules[i].id;
    }
    assert rules[..|rules|] == rules;
    return Valid;
  }
}
