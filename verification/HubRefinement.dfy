/**
The protocol's small steps are the manager's calls (hub_daemon.py, hub.py): a call's hub commands,
issued one by one as HubProtocol interleaves them, amount to the one call of HubManager that the
handler makes, and leave in the operation what accounting reads off that call's result.
*/
module HubRefinement {
  import opened Options
  import opened HubGuard
  import opened HubManager
  import opened HubProtocol

  // The commands a call still has to send, sent with nobody in between.
  function SendAll(s: Daemon, id: nat, replies: Cmd -> Reply): Daemon
    decreases if id in s.ops && s.ops[id].Write? && s.ops[id].phase.Acting? then |s.ops[id].phase.todo| else 0
  {
    if id in s.ops && s.ops[id].Write? && s.ops[id].phase.Acting? && s.ops[id].phase.todo != [] then
      SendAll(DoAct(s, id, s.ops[id], replies(s.ops[id].phase.todo[0])), id, replies)
    else s
  }

  function TermsOf(auth: Auth, live: set<int>): Terms {
    Terms(auth.mode, auth.confirm, live)
  }

  function DataLines(chans: seq<int>): set<Line> {
    set c | c in chans :: Line(Data, c)
  }

  function NeighbourCmd(c: int): Cmd {
    Cmd(Line(Data, c), false, false, false)
  }

  function NeighbourCmds(others: seq<int>): seq<Cmd> {
    seq(|others|, k requires 0 <= k < |others| => NeighbourCmd(others[k]))
  }

  function AnswersOf(replies: Cmd -> Reply): int -> Reply {
    c => replies(NeighbourCmd(c))
  }

  // ---------------------------------------------------------------- plain switches and cycles

  /** A plain switch: the hub is as the manager's `_switch` leaves it, and the call is to be accounted
      exactly when that switch was applied, for the line it switched. */
  lemma SwitchIsTheManagersCall(s: Daemon, id: nat, w: Op, replies: Cmd -> Reply)
    requires id in s.ops && s.ops[id] == w && w.Write? && w.job.SetLine? && !Isolates(w.job)
    requires w.phase == Acting(Script(w.job, s.channels)) && w.cut == {} && w.settled.None?
    ensures var s' := SendAll(s, id, replies); var line, on := w.job.line, w.job.on;
            var reply := replies(Cmd(line, on, true, false));
            var d := Verdict(w.auth.mode, w.auth.confirm, w.auth.named, on, line.chan in s.live);
            && s'.hub == Switched(s.hub, line, on, d, reply)
            && s'.ops.Keys == s.ops.Keys
            && s'.ops[id] == if SwitchOutcome(d, reply).Applied?
                             then w.(phase := Reporting, cut := if on then {} else {line}, settled := if on then Some(line) else None)
                             else w.(phase := Unlocking)
  {
    var cmd := Cmd(w.job.line, w.job.on, true, false);
    assert Script(w.job, s.channels) == [cmd] && [cmd][1..] == [];
    var w' := AfterCmd(w, cmd, [], SwitchOutcome(CmdVerdict(w.auth, cmd, s.live), replies(cmd)));
    assert w.cut + {cmd.line} == {cmd.line} && w.cut - {cmd.line} == {};
    var s1 := DoAct(s, id, w, replies(cmd));
    assert s1.ops[id] == w' && s1.ops.Keys == s.ops.Keys;
    assert SendAll(s1, id, replies) == s1;
  }

  /** A power cycle: the hub is as the manager's `power_cycle` leaves it, and the call is never
      accounted. */
  lemma CycleIsTheManagersCall(s: Daemon, id: nat, w: Op, replies: Cmd -> Reply)
    requires id in s.ops && s.ops[id] == w && w.Write? && w.job.Cycle?
    requires w.phase == Acting(Script(w.job, s.channels)) && w.cut == {} && w.settled.None?
    ensures var s' := SendAll(s, id, replies); var c := w.job.chan; var line := Line(Power, c);
            && s'.hub == Cycled(s.hub, c, w.auth.named, TermsOf(w.auth, s.live),
                                replies(Cmd(line, false, true, false)), replies(Cmd(line, true, true, true))).0
            && id in s'.ops && s'.ops[id].Write? && s'.ops[id].phase == Unlocking
  {
    var line := Line(Power, w.job.chan);
    var off, on := Cmd(line, false, true, false), Cmd(line, true, true, true);
    assert Script(w.job, s.channels) == [off, on] && [off, on][1..] == [on] && [on][1..] == [];
    var s1 := DoAct(s, id, w, replies(off));
    var w1 := s1.ops[id];
    assert w1 == AfterCmd(w, off, [on], SwitchOutcome(CmdVerdict(w.auth, off, s.live), replies(off)));
    if w1.phase.Acting? {
      SecondHalf(s1, id, w1, on, replies);
    } else {
      assert SendAll(s1, id, replies) == s1;
    }
  }

  lemma SecondHalf(s: Daemon, id: nat, w: Op, on: Cmd, replies: Cmd -> Reply)
    requires id in s.ops && s.ops[id] == w && w.Write? && w.job.Cycle? && w.phase == Acting([on])
    ensures var s' := SendAll(s, id, replies);
            && s'.hub == Switched(s.hub, on.line, on.on, CmdVerdict(w.auth, on, s.live), replies(on))
            && id in s'.ops && s'.ops[id].Write? && s'.ops[id].phase == Unlocking
  {
    assert [on][1..] == [];
    var s1 := DoAct(s, id, w, replies(on));
    assert s1.ops[id] == AfterCmd(w, on, [], SwitchOutcome(CmdVerdict(w.auth, on, s.live), replies(on)));
    assert SendAll(s1, id, replies) == s1;
  }

  // ---------------------------------------------------------------- exclusive isolation

  lemma SameVerdict(auth: Auth, live: set<int>, c: int)
    ensures CmdVerdict(auth, NeighbourCmd(c), live) == NeighbourVerdict(TermsOf(auth, live), c)
  {}

  // One more neighbour, on the manager's side.
  lemma OneMoreNeighbour(h: Hub, done: seq<int>, c: int, terms: Terms, answers: int -> Reply)
    ensures IsolatedFrom(h, done + [c], terms, answers) ==
            Switched(IsolatedFrom(h, done, terms, answers), Line(Data, c), false, NeighbourVerdict(terms, c), answers(c))
    ensures Cuts(done + [c], terms, answers, true) ==
            Cuts(done, terms, answers, true) + if CutOff(terms, answers, c) then [c] else []
  {
    assert (done + [c])[..|done|] == done;
  }

  // The isolation has switched its target and sent the commands for `done`.
  ghost predicate Underway(s: Daemon, id: nat, w0: Op, h1: Hub, done: seq<int>, rest: seq<int>, answers: int -> Reply)
    requires w0.Write? && Isolates(w0.job)
  {
    var terms := TermsOf(w0.auth, s.live);
    && id in s.ops
    && s.ops[id] == w0.(phase := Acting(NeighbourCmds(rest)), cut := DataLines(Cuts(done, terms, answers, true)),
                        settled := Some(w0.job.line))
    && s.hub == IsolatedFrom(h1, done, terms, answers)
  }

  // The isolation has sent its last command.
  ghost predicate Isolated(s: Daemon, id: nat, w0: Op, h1: Hub, all: seq<int>, terms: Terms, answers: int -> Reply)
    requires w0.Write? && Isolates(w0.job)
  {
    var h := IsolatedFrom(h1, all, terms, answers);
    && id in s.ops
    && s.ops[id] == w0.(phase := Reporting, cut := DataLines(Cuts(all, terms, answers, true)), settled := Some(w0.job.line))
    && s.hub == h.(ledger := h.ledger - {w0.job.line})
  }

  lemma SendFirst(s: Daemon, id: nat, replies: Cmd -> Reply)
    requires CanAct(s, id)
    ensures SendAll(s, id, replies) == SendAll(DoAct(s, id, s.ops[id], replies(s.ops[id].phase.todo[0])), id, replies)
  {}

  lemma NothingToSend(s: Daemon, id: nat, replies: Cmd -> Reply)
    requires !CanAct(s, id)
    ensures SendAll(s, id, replies) == s
  {}

  lemma NeighbourStep(s: Daemon, id: nat, w0: Op, h1: Hub, done: seq<int>, rest: seq<int>, replies: Cmd -> Reply)
    returns (s': Daemon)
    requires w0.Write? && Isolates(w0.job) && |rest| > 1 && Underway(s, id, w0, h1, done, rest, AnswersOf(replies))
    ensures s'.live == s.live && Underway(s', id, w0, h1, done + [rest[0]], rest[1..], AnswersOf(replies))
    ensures SendAll(s, id, replies) == SendAll(s', id, replies)
  {
    var c := rest[0];
    s' := DoAct(s, id, s.ops[id], replies(NeighbourCmd(c)));
    assert NeighbourCmds(rest)[1..] == NeighbourCmds(rest[1..]) && NeighbourCmds(rest)[0] == NeighbourCmd(c);
    SendFirst(s, id, replies);
    SameVerdict(w0.auth, s.live, c);
    OneMoreNeighbour(h1, done, c, TermsOf(w0.auth, s.live), AnswersOf(replies));
    OneMoreLineCut(Cuts(done, TermsOf(w0.auth, s.live), AnswersOf(replies), true), c);
  }

  lemma OneMoreLineCut(cuts: seq<int>, c: int)
    ensures DataLines(cuts + [c]) == DataLines(cuts) + {Line(Data, c)}
    ensures cuts + [] == cuts
  {}

  lemma LastNeighbour(s: Daemon, id: nat, w0: Op, h1: Hub, done: seq<int>, c: int, replies: Cmd -> Reply)
    requires w0.Write? && Isolates(w0.job) && Underway(s, id, w0, h1, done, [c], AnswersOf(replies))
    ensures Isolated(SendAll(s, id, replies), id, w0, h1, done + [c], TermsOf(w0.auth, s.live), AnswersOf(replies))
  {
    var s' := DoAct(s, id, s.ops[id], replies(NeighbourCmd(c)));
    assert NeighbourCmds([c])[1..] == [] && NeighbourCmds([c])[0] == NeighbourCmd(c);
    SameVerdict(w0.auth, s.live, c);
    OneMoreNeighbour(h1, done, c, TermsOf(w0.auth, s.live), AnswersOf(replies));
    OneMoreLineCut(Cuts(done, TermsOf(w0.auth, s.live), AnswersOf(replies), true), c);
    SendFirst(s, id, replies);
    NothingToSend(s', id, replies);
  }

  lemma {:induction false} NeighboursFinish(s: Daemon, id: nat, w0: Op, h1: Hub, done: seq<int>, rest: seq<int>,
                                            all: seq<int>, replies: Cmd -> Reply)
    requires w0.Write? && Isolates(w0.job) && rest != [] && Underway(s, id, w0, h1, done, rest, AnswersOf(replies))
    requires all == done + rest
    ensures Isolated(SendAll(s, id, replies), id, w0, h1, all, TermsOf(w0.auth, s.live), AnswersOf(replies))
    decreases |rest|
  {
    Shifted(done, rest);
    if |rest| == 1 {
      LastNeighbour(s, id, w0, h1, done, rest[0], replies);
    } else {
      var s1 := NeighbourStep(s, id, w0, h1, done, rest, replies);
      NeighboursFinish(s1, id, w0, h1, done + [rest[0]], rest[1..], all, replies);
    }
  }

  lemma Shifted(done: seq<int>, rest: seq<int>)
    requires rest != []
    ensures done + rest == (done + [rest[0]]) + rest[1..]
    ensures |rest| == 1 ==> rest == [rest[0]] && done + rest == done + [rest[0]]
  {}

  // The target's own switch, the first command of an isolation.
  lemma TargetStep(s: Daemon, id: nat, w: Op, replies: Cmd -> Reply)
    requires id in s.ops && s.ops[id] == w && w.Write? && Isolates(w.job)
    requires w.phase == Acting(Script(w.job, s.channels)) && w.cut == {} && w.settled.None?
    ensures var target := Cmd(w.job.line, true, true, false); var others := Neighbours(s.channels, w.job.line.chan);
            var d := CmdVerdict(w.auth, target, s.live);
            var s1 := DoAct(s, id, w, replies(target));
            var h1 := Switched(s.hub, w.job.line, true, d, replies(target));
            && w.phase.todo[0] == target && s1.live == s.live && id in s1.ops
            && (!SwitchOutcome(d, replies(target)).Applied? ==> s1.hub == h1 && s1.ops[id] == w.(phase := Unlocking))
            && (SwitchOutcome(d, replies(target)).Applied? && others != [] ==>
                  Underway(s1, id, w, h1, [], others, AnswersOf(replies)))
            && (SwitchOutcome(d, replies(target)).Applied? && others == [] ==>
                  s1.hub == h1.(ledger := h1.ledger - {w.job.line}) &&
                  s1.ops[id] == w.(phase := Reporting, settled := Some(w.job.line)))
  {
    var target := Cmd(w.job.line, true, true, false);
    var others := Neighbours(s.channels, w.job.line.chan);
    assert Script(w.job, s.channels) == [target] + NeighbourCmds(others);
    assert ([target] + NeighbourCmds(others))[1..] == NeighbourCmds(others);
    var none: set<Line> := {};
    assert w.cut - {w.job.line} == none && DataLines([]) == none;
  }

  /** An exclusive isolation: whatever the replies, the hub is as the manager's `data` leaves it, and if
      the target was switched the operation goes on to account exactly the channels that call reports as
      cut, with the target as the line it settles. */
  lemma IsolationIsTheManagersCall(s: Daemon, id: nat, w: Op, replies: Cmd -> Reply)
    requires id in s.ops && s.ops[id] == w && w.Write? && Isolates(w.job)
    requires w.phase == Acting(Script(w.job, s.channels)) && w.cut == {} && w.settled.None?
    ensures var s' := SendAll(s, id, replies); var c := w.job.line.chan;
            var (h', r) := SetData(s.hub, s.channels, c, true, true, w.auth.named, TermsOf(w.auth, s.live),
                                   replies(Cmd(w.job.line, true, true, false)), AnswersOf(replies));
            && s'.hub == h' && id in s'.ops
            && s'.ops[id] == if r.outcome.Applied? then w.(phase := Reporting, cut := DataLines(r.dataOff), settled := Some(w.job.line))
                             else w.(phase := Unlocking)
  {
    var target := Cmd(w.job.line, true, true, false);
    var others := Neighbours(s.channels, w.job.line.chan);
    assert w.job.line == Line(Data, w.job.line.chan);
    TargetStep(s, id, w, replies);
    var d := CmdVerdict(w.auth, target, s.live);
    var s1 := DoAct(s, id, w, replies(target));
    if !SwitchOutcome(d, replies(target)).Applied? || others == [] {
      assert SendAll(s1, id, replies) == s1;
    } else {
      assert [] + others == others;
      NeighboursFinish(s1, id, w, Switched(s.hub, w.job.line, true, d, replies(target)), [], others, others, replies);
    }
  }
}
