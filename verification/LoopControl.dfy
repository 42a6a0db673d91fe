/**
The bounded acceptance loop: its control core (loop_control.py), one mechanical pass
(loop_orchestrator.py) and the tool that refuses to run a finished loop (acceptance_tools.py).
*/
module LoopControl {
  import opened Options

  type Id = string

  datatype Status = Active | Converged | Exhausted | Stalled

  datatype Mark = Pass | Fail | Error
  datatype Check = Check(id: Id, mark: Mark)
  datatype Verdict = Verdict(ok: bool, results: seq<Check>)

  datatype Phase = Build | FlashRun | Acceptance

  // The sorted id lists of an entry's differences are kept as sets.
  datatype Entry = Entry(ok: bool, phase: Phase, unsatisfied: seq<Id>, newlySatisfied: set<Id>, newlyBroken: set<Id>)

  datatype Plan = Plan(maxIterations: int, stallPatience: int, hasBuild: bool, hasFlash: bool)
  datatype Loop = Loop(plan: Plan, status: Status, iterations: seq<Entry>)

  // What one pass came to.
  datatype Result = PhaseError(phase: Phase) | Judged(verdict: Verdict)

  function Unsatisfied(results: seq<Check>): seq<Id> {
    if results == [] then []
    else
      var init := Unsatisfied(results[..|results| - 1]);
      var last := results[|results| - 1];
      if last.mark.Pass? then init else init + [last.id]
  }

  function Ids(s: seq<Id>): set<Id> {
    set x | x in s
  }

  function Previous(iterations: seq<Entry>): set<Id> {
    if iterations == [] then {} else Ids(iterations[|iterations| - 1].unsatisfied)
  }

  function EntryOf(previous: set<Id>, r: Result): Entry {
    match r
    case PhaseError(phase) => Entry(false, phase, [], {}, {})
    case Judged(v) =>
      var now := Unsatisfied(v.results);
      Entry(v.ok, Acceptance, now, previous - Ids(now), Ids(now) - previous)
  }

  // The last `patience` entries failed, all with the same non-empty list.
  predicate IsStalled(patience: int, iterations: seq<Entry>) {
    && 0 < patience <= |iterations|
    && var first := |iterations| - patience;
       && (forall k :: first <= k < |iterations| ==> !iterations[k].ok)
       && iterations[first].unsatisfied != []
       && (forall k :: first <= k < |iterations| ==> iterations[k].unsatisfied == iterations[first].unsatisfied)
  }

  // The last n entries failed, each of them with this list.
  ghost predicate EndsFailingWith(es: seq<Entry>, n: int, ids: seq<Id>) {
    0 < n <= |es| && forall k :: |es| - n <= k < |es| ==> !es[k].ok && es[k].unsatisfied == ids
  }

  /** In other words: there is one non-empty list that each of the last `patience` entries failed with. So an
      entry of a build or a flash that failed never counts towards a stall. */
  lemma StalledIff(patience: int, iterations: seq<Entry>)
    ensures IsStalled(patience, iterations) <==> exists ids :: EndsFailingWith(iterations, patience, ids) && ids != []
  {
    if IsStalled(patience, iterations) {
      assert EndsFailingWith(iterations, patience, iterations[|iterations| - patience].unsatisfied);
    }
  }

  function StatusOf(plan: Plan, iterations: seq<Entry>): Status {
    if iterations == [] then Active
    else if iterations[|iterations| - 1].ok then Converged
    else if |iterations| >= plan.maxIterations then Exhausted
    else if IsStalled(plan.stallPatience, iterations) then Stalled
    else Active
  }

  function Recorded(s: Loop, r: Result): Loop {
    var iterations := s.iterations + [EntryOf(Previous(s.iterations), r)];
    Loop(s.plan, StatusOf(s.plan, iterations), iterations)
  }

  // What the three mechanical steps would answer if they were called.
  datatype Steps = Steps(builds: bool, reaches: bool, verdict: Verdict)

  function ResultOf(plan: Plan, steps: Steps): Result {
    if plan.hasBuild && !steps.builds then PhaseError(Build)
    else if plan.hasFlash && !steps.reaches then PhaseError(FlashRun)
    else Judged(steps.verdict)
  }

  // One call of run_acceptance_iteration.
  datatype Call = Call(steps: Steps, force: bool)

  function Called(s: Loop, c: Call): Loop {
    if s.status != Active && !c.force then s else Recorded(s, ResultOf(s.plan, c.steps))
  }

  function New(plan: Plan): Loop {
    Loop(plan, Active, [])
  }

  function Play(plan: Plan, calls: seq<Call>): Loop {
    if calls == [] then New(plan) else Called(Play(plan, calls[..|calls| - 1]), calls[|calls| - 1])
  }

  predicate Unforced(calls: seq<Call>) {
    forall k :: 0 <= k < |calls| ==> !calls[k].force
  }

  function Bound(plan: Plan): nat {
    if plan.maxIterations < 1 then 1 else plan.maxIterations
  }

  // ---------------------------------------------------------------- the bound

  ghost predicate Inv(plan: Plan, s: Loop) {
    && s.plan == plan
    && s.status == StatusOf(plan, s.iterations)
    && (forall k :: 1 <= k < |s.iterations| ==> StatusOf(plan, s.iterations[..k]) == Active)
    && (s.status == Active ==> |s.iterations| < Bound(plan))
    && |s.iterations| <= Bound(plan)
  }

  lemma {:induction false} UnforcedRunKeepsInv(plan: Plan, calls: seq<Call>)
    requires Unforced(calls)
    ensures var s := Play(plan, calls);
            Inv(plan, s) && (s.status == Active ==> |s.iterations| == |calls|)
  {
    if calls != [] {
      var n := |calls| - 1;
      UnforcedRunKeepsInv(plan, calls[..n]);
      var s := Play(plan, calls[..n]);
      var s' := Play(plan, calls);
      if s.status == Active {
        forall k | 1 <= k < |s'.iterations| ensures StatusOf(plan, s'.iterations[..k]) == Active {
          assert s'.iterations[..k] == s.iterations[..k];
          assert k == |s.iterations| ==> s.iterations[..k] == s.iterations;
        }
      }
    }
  }

  /** However often the tool is called, an unforced loop records at most max_iterations entries (one
      if that is less than one), and after that many calls it has ended. */
  lemma LoopIsBounded(plan: Plan, calls: seq<Call>)
    requires Unforced(calls)
    ensures |Play(plan, calls).iterations| <= Bound(plan)
    ensures |calls| >= Bound(plan) ==> Play(plan, calls).status != Active
  {
    UnforcedRunKeepsInv(plan, calls);
  }

  // The status after an entry says exactly which of the three ends, if any, has been reached, in this
  // order of precedence.
  lemma StatusSays(plan: Plan, es: seq<Entry>)
    requires es != []
    ensures var last := es[|es| - 1]; var st := StatusOf(plan, es);
            && (st == Converged <==> last.ok)
            && (st == Exhausted <==> !last.ok && |es| >= plan.maxIterations)
            && (st == Stalled <==> |es| < plan.maxIterations && IsStalled(plan.stallPatience, es))
            && (plan.stallPatience <= 0 ==> st != Stalled)
  {
    assert IsStalled(plan.stallPatience, es) ==> !es[|es| - 1].ok;
  }

  /** An unforced loop is stalled exactly when its last entry closes a window of equal failures with
      iterations to spare; and none before it did: it stalls at the first that does, no shorter prefix
      of its history closes a window, and none had converged or run out. */
  lemma StallsAtTheFirstWindow(plan: Plan, calls: seq<Call>)
    requires Unforced(calls) && Play(plan, calls).iterations != []
    ensures var s := Play(plan, calls); var es := s.iterations;
            && (s.status == Stalled <==> |es| < plan.maxIterations && IsStalled(plan.stallPatience, es))
            && forall k :: 1 <= k < |es| ==>
                 !IsStalled(plan.stallPatience, es[..k]) && !es[k - 1].ok && k < plan.maxIterations
  {
    UnforcedRunKeepsInv(plan, calls);
    var es := Play(plan, calls).iterations;
    StatusSays(plan, es);
    forall k | 1 <= k < |es|
      ensures !IsStalled(plan.stallPatience, es[..k]) && !es[k - 1].ok && k < plan.maxIterations
    {
      assert StatusOf(plan, es[..k]) == Active;
      StatusSays(plan, es[..k]);
    }
  }

  // ---------------------------------------------------------------- what the entries say

  lemma {:induction false} UnsatisfiedAre(results: seq<Check>)
    ensures forall id :: id in Unsatisfied(results) <==>
              exists k :: 0 <= k < |results| && results[k].id == id && !results[k].mark.Pass?
    ensures Unsatisfied(results) == [] <==> forall k :: 0 <= k < |results| ==> results[k].mark.Pass?
  {
    if results != [] {
      var n := |results| - 1;
      UnsatisfiedAre(results[..n]);
      forall id ensures id in Unsatisfied(results) <==>
                        exists k :: 0 <= k < |results| && results[k].id == id && !results[k].mark.Pass?
      {
        if k :| 0 <= k < |results| && results[k].id == id && !results[k].mark.Pass? {
          if k < n { assert results[..n][k].id == id; }
        }
        if k :| 0 <= k < n && results[..n][k].id == id && !results[..n][k].mark.Pass? {
          assert results[k].id == id && !results[k].mark.Pass?;
        }
      }
      assert (forall k :: 0 <= k < |results| ==> results[k].mark.Pass?) ==> forall k :: 0 <= k < n ==> results[..n][k].mark.Pass?;
    }
  }

  // What the evaluator promises about its verdicts.
  predicate Sound(v: Verdict) {
    v.ok <==> Unsatisfied(v.results) == []
  }

  /** A loop over the evaluator's verdicts has converged exactly when its last pass built, reached its
      point and was judged with no unsatisfied check. */
  lemma ConvergedIffNothingUnsatisfied(s: Loop, steps: Steps)
    requires Sound(steps.verdict)
    ensures var s' := Recorded(s, ResultOf(s.plan, steps));
            s'.status == Converged <==>
              && (s.plan.hasBuild ==> steps.builds) && (s.plan.hasFlash ==> steps.reaches)
              && forall k :: 0 <= k < |steps.verdict.results| ==> steps.verdict.results[k].mark.Pass?
  {
    UnsatisfiedAre(steps.verdict.results);
    StatusSays(s.plan, Recorded(s, ResultOf(s.plan, steps)).iterations);
  }

  // What the differences recorded so far add up to; a mechanical failure starts afresh.
  function Replayed(es: seq<Entry>): set<Id> {
    if es == [] then {}
    else
      var last := es[|es| - 1];
      if last.phase.Acceptance? then (Replayed(es[..|es| - 1]) - last.newlySatisfied) + last.newlyBroken else {}
  }

  lemma OneMoreDifference(es: seq<Entry>, r: Result)
    requires Replayed(es) == Previous(es) && (r.PhaseError? ==> !r.phase.Acceptance?)
    ensures var es' := es + [EntryOf(Previous(es), r)]; Replayed(es') == Previous(es')
  {
    var e := EntryOf(Previous(es), r);
    assert (es + [e])[..|es|] == es;
  }

  /** The differences tell the whole story: adding them up gives back the failures of the last entry,
      at every point of every run, forced or not. */
  lemma {:induction false} DifferencesAddUp(plan: Plan, calls: seq<Call>)
    ensures var es := Play(plan, calls).iterations; Replayed(es) == Previous(es)
  {
    if calls != [] {
      var n := |calls| - 1;
      DifferencesAddUp(plan, calls[..n]);
      var s := Play(plan, calls[..n]);
      OneMoreDifference(s.iterations, ResultOf(s.plan, calls[n].steps));
    }
  }

  /** One entry's differences are the least that lead from the failures before to its own. */
  lemma DifferencesAreMinimal(previous: set<Id>, v: Verdict)
    ensures var e := EntryOf(previous, Judged(v));
            && Ids(e.unsatisfied) == (previous - e.newlySatisfied) + e.newlyBroken
            && e.newlySatisfied <= previous && e.newlyBroken !! previous && e.newlySatisfied !! Ids(e.unsatisfied)
  {}

  // ---------------------------------------------------------------- the class

  class LoopState {
    const plan: Plan
    var status: Status
    var iterations: seq<Entry>

    ghost function State(): Loop
      reads this
    {
      Loop(plan, status, iterations)
    }

    constructor (plan: Plan)
      ensures State() == New(plan)
    {
      this.plan, status, iterations := plan, Active, [];
    }

    // `_is_stalled`: the two scans of the window.
    method Stalling() returns (stalled: bool)
      ensures stalled == IsStalled(plan.stallPatience, iterations)
    {
      var patience := plan.stallPatience;
      if patience <= 0 || |iterations| < patience {
        return false;
      }
      var first := |iterations| - patience;
      for k := first to |iterations|
        invariant forall j :: first <= j < k ==> !iterations[j].ok
      {
        if iterations[k].ok {
          return false;
        }
      }
      if iterations[first].unsatisfied == [] {
        return false;
      }
      for k := first to |iterations|
        invariant forall j :: first <= j < k ==> iterations[j].unsatisfied == iterations[first].unsatisfied
      {
        if iterations[k].unsatisfied != iterations[first].unsatisfied {
          return false;
        }
      }
      return true;
    }

    method RecomputeStatus() returns (st: Status)
      ensures st == StatusOf(plan, iterations)
    {
      if iterations == [] {
        return Active;
      }
      if iterations[|iterations| - 1].ok {
        return Converged;
      }
      if |iterations| >= plan.maxIterations {
        return Exhausted;
      }
      var stalled := Stalling();
      return if stalled then Stalled else Active;
    }

    method RecordIteration(r: Result) returns (entry: Entry)
      modifies this
      ensures State() == Recorded(old(State()), r)
      ensures iterations == old(iterations) + [entry]
    {
      var previous := Previous(iterations);
      match r {
        case PhaseError(phase) => entry := Entry(false, phase, [], {}, {});
        case Judged(v) =>
          var now: seq<Id> := [];
          for k := 0 to |v.results|
            invariant now == Unsatisfied(v.results[..k])
          {
            assert v.results[..k + 1][..k] == v.results[..k];
            if !v.results[k].mark.Pass? {
              now := now + [v.results[k].id];
            }
          }
          assert v.results[..|v.results|] == v.results;
          entry := Entry(v.ok, Acceptance, now, previous - Ids(now), Ids(now) - previous);
      }
      iterations := iterations + [entry];
      status := RecomputeStatus();
    }

    // `run_iteration`: a step is called only when those before it, if any, succeeded.
    method RunIteration(steps: Steps) returns (entry: Entry, called: seq<Phase>)
      modifies this
      ensures State() == Recorded(old(State()), ResultOf(plan, steps)) && iterations == old(iterations) + [entry]
      ensures Build in called <==> plan.hasBuild
      ensures FlashRun in called <==> plan.hasFlash && (plan.hasBuild ==> steps.builds)
      ensures Acceptance in called <==> (plan.hasBuild ==> steps.builds) && (plan.hasFlash ==> steps.reaches)
    {
      called := [];
      if plan.hasBuild {
        called := called + [Build];
        if !steps.builds {
          entry := RecordIteration(PhaseError(Build));
          return;
        }
      }
      if plan.hasFlash {
        called := called + [FlashRun];
        if !steps.reaches {
          entry := RecordIteration(PhaseError(FlashRun));
          return;
        }
      }
      called := called + [Acceptance];
      entry := RecordIteration(Judged(steps.verdict));
    }

    // The tool: a loop that has ended is left alone unless forced.
    method RunAcceptanceIteration(steps: Steps, force: bool) returns (entry: Option<Entry>)
      modifies this
      ensures State() == Called(old(State()), Call(steps, force))
      ensures entry.None? <==> old(status) != Active && !force
      ensures entry.None? ==> State() == old(State())
      ensures entry.Some? ==> iterations == old(iterations) + [entry.value]
    {
      if status != Active && !force {
        return None;
      }
      var e, called := RunIteration(steps);
      return Some(e);
    }
  }
}
