/**
What the debt theorem of HubProtocol cannot do without: for each kind of fault, exactly when a
step breaks the coverage of debts, and complete runs, one per assumption, after which nothing is
in flight, nobody owes anything, and a line the daemon cut is still dark.
*/
module HubFaults {
  import opened Options
  import G = HubGuard
  import opened HubManager
  import opened HubProtocol
  import L = HubLocks

  // ---------------------------------------------------------------- exactly when a step loses a debt

  /** One hub command, answered in any way, keeps the books straight exactly when it is not an
      unacknowledged command whose effect the ledger got wrong: an "on" that did not take effect on
      a dark line, or a cut that did on a line not yet in the ledger. */
  lemma CommandKeepsCoverageIff(s: Daemon, id: nat, reply: Reply)
    requires Inv(s) && CanAct(s, id)
    ensures var w := s.ops[id]; var cmd := w.phase.todo[0];
            Coverage(Step(s, Act(id, reply))) <==>
            !(CmdVerdict(w.auth, cmd, s.live) == G.Apply && reply.Lost? &&
              if cmd.on then !reply.took && cmd.line in s.hub.dark
              else reply.took && cmd.line !in s.hub.ledger)
  {
    if reply.Acked? {
      ActDebts(s, id, Acked);
    } else {
      UnansweredCommand(s, id, reply);
    }
  }

  lemma UnansweredCommand(s: Daemon, id: nat, reply: Reply)
    requires Inv(s) && CanAct(s, id) && !reply.Acked?
    ensures var w := s.ops[id]; var cmd := w.phase.todo[0];
            Coverage(DoAct(s, id, w, reply)) <==>
            !(CmdVerdict(w.auth, cmd, s.live) == G.Apply && reply.Lost? &&
              if cmd.on then !reply.took && cmd.line in s.hub.dark
              else reply.took && cmd.line !in s.hub.ledger)
  {
    var w := s.ops[id];
    var cmd := w.phase.todo[0];
    var d := CmdVerdict(w.auth, cmd, s.live);
    var s' := DoAct(s, id, w, reply);
    assert Shape(w) && CmdsOk(w, w.phase.todo);
    var h := Switched(s.hub, cmd.line, cmd.on, d, reply);
    if w.settled.Some? { assert h.ledger - {w.settled.value} == h.ledger; }
    assert s'.hub == h;
    AcknowledgedSwitchKeepsTheLedgerExact(s.hub, cmd.line, cmd.on, d, reply);
    assert s'.ops[id].cut == w.cut;
    forall l | l in h.ledger ensures Covered(s', l) {
      assert l in s.hub.ledger;
      if OwedBySomeone(s, l) {
        assert OwedBySomeone(s', l);
      } else {
        var j :| j in s.ops && l in InFlight(s.ops[j]);
        assert j in s'.ops && l in InFlight(s'.ops[j]);
      }
    }
  }

  ghost predicate CoveredElsewhere(s: Daemon, id: nat, l: Line) {
    OwedBySomeone(s, l) || exists j :: j in s.ops && j != id && l in InFlight(s.ops[j])
  }

  /** A call that ends without accounting (an exception after a command, as in a power cycle whose
      second half could not be sent) loses its debts exactly when one of the lines it cut is in the
      ledger with nobody else answering for it. */
  lemma UnaccountedCallKeepsCoverageIff(s: Daemon, id: nat)
    requires Coverage(s) && CanUnlock(s, id)
    ensures Coverage(Step(s, Unlock(id))) <==>
            forall l :: l in InFlight(s.ops[id]) && l in s.hub.ledger ==> CoveredElsewhere(s, id, l)
  {
    var s' := Step(s, Unlock(id));
    forall l ensures Covered(s', l) <==> CoveredElsewhere(s, id, l) {
      if OwedBySomeone(s, l) { assert OwedBySomeone(s', l); }
      if j :| j in s.ops && j != id && l in InFlight(s.ops[j]) { assert j in s'.ops && l in InFlight(s'.ops[j]); }
      if OwedBySomeone(s', l) { assert OwedBySomeone(s, l); }
    }
    forall l | l in s.hub.ledger && CoveredElsewhere(s, id, l) ensures Covered(s', l) {}
    forall l | l in s.hub.ledger && !CoveredElsewhere(s, id, l) ensures l in InFlight(s.ops[id]) {
      assert Covered(s, l);
    }
  }

  /** A release that restores one kind only, with nothing owed of that kind, drops the whole debt
      at once. It keeps coverage exactly when every ledger line its client owes is owed by another
      client too or in an operation in flight. */
  lemma EmptyReleaseKeepsCoverageIff(s: Daemon, c: G.Client, power: bool, data: bool)
    requires Coverage(s) && Enabled(Owed(s.owed, c), power, data) == {}
    ensures Coverage(Step(s, BeginRelease(c, power, data))) <==>
            forall l :: l in Owed(s.owed, c) && l in s.hub.ledger ==>
              BeingHandled(s, l) || exists d :: d in s.owed && d != c && l in s.owed[d]
  {
    var s' := Step(s, BeginRelease(c, power, data));
    forall l ensures OwedBySomeone(s', l) <==> exists d :: d in s.owed && d != c && l in s.owed[d] {
      if OwedBySomeone(s', l) { var d :| d in s'.owed && l in s'.owed[d]; assert d in s.owed && d != c; }
      if d :| d in s.owed && d != c && l in s.owed[d] { assert d in s'.owed && l in s'.owed[d]; }
    }
    forall l ensures BeingHandled(s', l) <==> BeingHandled(s, l) {}
    if Coverage(s') {
      forall l | l in Owed(s.owed, c) && l in s.hub.ledger
        ensures BeingHandled(s, l) || exists d :: d in s.owed && d != c && l in s.owed[d]
      {
        assert Covered(s', l);
      }
    } else {
      var l :| l in s.hub.ledger && !Covered(s', l);
      assert Covered(s, l);
    }
  }

  /** When a release is granted its channels it answers only for the kinds it restores. That keeps
      coverage exactly when the other lines it took out of the debt table are either lit or somebody
      else's debt too. */
  lemma PartialReleaseKeepsCoverageIff(s: Daemon, s': Daemon, id: nat)
    requires Coverage(s) && id in s.ops && s.ops[id].Repay?
    requires s'.hub == s.hub && s'.owed == s.owed && s'.ops == s.ops[id := Proceeds(s.ops[id], s.channels)]
    requires s.ops[id].wanted <= s.ops[id].debt
    ensures Coverage(s') <==>
            forall l :: l in s.ops[id].debt - s.ops[id].wanted && l in s.hub.ledger ==> CoveredElsewhere(s, id, l)
  {
    var op := s.ops[id];
    forall l ensures Covered(s', l) <==> l in op.wanted || CoveredElsewhere(s, id, l) {
      if OwedBySomeone(s, l) { assert OwedBySomeone(s', l); }
      if j :| j in s.ops && j != id && l in InFlight(s.ops[j]) { assert j in s'.ops && l in InFlight(s'.ops[j]); }
      if OwedBySomeone(s', l) { assert OwedBySomeone(s, l); }
      if l in op.wanted { assert id in s'.ops && l in InFlight(s'.ops[id]); }
    }
    forall l | l in s.hub.ledger && l !in op.debt ensures CoveredElsewhere(s, id, l) {
      assert Covered(s, l);
    }
  }

  ghost predicate InFlightElsewhere(s: Daemon, id: nat, l: Line) {
    exists j :: j in s.ops && j != id && l in InFlight(s.ops[j])
  }

  lemma ReportCovers(s: Daemon, id: nat, l: Line)
    requires CanReport(s, id)
    ensures var w := s.ops[id]; var s' := Step(s, Report(id));
            Covered(s', l) <==> l in w.cut || InFlightElsewhere(s, id, l) || (OwedBySomeone(s, l) && Some(l) != w.settled)
  {
    var w := s.ops[id];
    var s' := Step(s, Report(id));
    if l in w.cut { assert w.client in s'.owed && l in s'.owed[w.client]; }
    if j :| j in s.ops && j != id && l in InFlight(s.ops[j]) { assert j in s'.ops && l in InFlight(s'.ops[j]); }
    if c :| c in s.owed && l in s.owed[c] && Some(l) != w.settled { assert c in s'.owed && l in s'.owed[c]; }
    if j :| j in s'.ops && l in InFlight(s'.ops[j]) { assert j != id && j in s.ops; }
    if c :| c in s'.owed && l in s'.owed[c] && l !in w.cut { assert c in s.owed && l in s.owed[c]; }
  }

  /** Accounting loses a debt exactly when it settles a line that is dark again by then, and neither
      this call nor another operation in flight has cut it: what two writes under one lease, or a lease
      dropped under a write, make possible. */
  lemma ReportKeepsCoverageIff(s: Daemon, id: nat)
    requires Coverage(s) && CanReport(s, id)
    ensures var w := s.ops[id];
            Coverage(Step(s, Report(id))) <==>
            (w.settled.Some? && w.settled.value in s.hub.ledger ==>
               w.settled.value in w.cut || InFlightElsewhere(s, id, w.settled.value))
  {
    var w := s.ops[id];
    var s' := Step(s, Report(id));
    forall l | l in s.hub.ledger
      ensures Covered(s', l) <==> (Some(l) == w.settled ==> l in w.cut || InFlightElsewhere(s, id, l))
    {
      ReportCovers(s, id, l);
      assert Covered(s, l);
    }
  }

  // What answers for a line once a release has tried to restore `line`.
  lemma RestoreCovers(s: Daemon, id: nat, line: Line, reply: Reply, l: Line)
    requires CanRestore(s, id, line)
    ensures Covered(Step(s, Restore(id, line, reply)), l) <==>
            CoveredElsewhere(s, id, l) || (l in InFlight(s.ops[id]) && l != line)
  {
    var s' := Step(s, Restore(id, line, reply));
    if OwedBySomeone(s, l) { assert OwedBySomeone(s', l); }
    if OwedBySomeone(s', l) { assert OwedBySomeone(s, l); }
    if j :| j in s.ops && j != id && l in InFlight(s.ops[j]) { assert j in s'.ops && l in InFlight(s'.ops[j]); }
    if l in InFlight(s.ops[id]) && l != line { assert id in s'.ops && l in InFlight(s'.ops[id]); }
  }

  /** A release forgets each line once it has tried it. One command of it keeps coverage exactly when the
      line was lit already, the command took effect, or it was refused and somebody else answers for
      the line. */
  lemma RestoreKeepsCoverageIff(s: Daemon, id: nat, line: Line, reply: Reply)
    requires Coverage(s) && CanRestore(s, id, line)
    ensures Coverage(Step(s, Restore(id, line, reply))) <==>
            line !in s.hub.ledger || reply.Effective() || (reply.Refused? && CoveredElsewhere(s, id, line))
  {
    var s' := Step(s, Restore(id, line, reply));
    RestoreCovers(s, id, line, reply, line);
    forall l | l in s'.hub.ledger && l != line ensures Covered(s', l) {
      RestoreCovers(s, id, line, reply, l);
      assert l in s.hub.ledger && Covered(s, l);
    }
    assert line in s.hub.ledger && reply == Lost(false) ==> line in s'.hub.dark && line !in s'.hub.ledger;
    assert line in s.hub.ledger && reply.Refused? ==> s'.hub == s.hub;
  }

  // ---------------------------------------------------------------- complete runs

  ghost predicate Idle(s: Daemon) {
    s.locks.held == map[] && s.locks.waiting == [] && s.ops == map[]
  }

  // Nothing is in flight, nobody owes anything, and something the daemon cut is dark.
  ghost predicate LeftDark(s: Daemon) {
    Idle(s) && (forall c :: c in s.owed ==> s.owed[c] == {}) && s.hub.dark != {}
  }

  // The run's only departure from the fault model is the event `bad`.
  ghost predicate BenignExcept(s: Daemon, es: seq<Event>, bad: Event) {
    es == [] || (BenignExcept(s, es[..|es| - 1], bad) &&
                 (es[|es| - 1] == bad || Benign(Play(s, es[..|es| - 1]), es[|es| - 1])))
  }

  // A run grown one event at a time, together with the state it has reached.
  ghost predicate Reached(s0: Daemon, es: seq<Event>, bad: Event, s: Daemon) {
    Play(s0, es) == s && BenignExcept(s0, es, bad)
  }

  lemma Grow(s0: Daemon, es: seq<Event>, bad: Event, s: Daemon, e: Event) returns (longer: seq<Event>, s': Daemon)
    requires Reached(s0, es, bad, s) && (e == bad || Benign(s, e))
    ensures longer == es + [e] && s' == Step(s, e) && Reached(s0, longer, bad, s')
  {
    longer, s' := es + [e], Step(s, e);
    assert longer[..|es|] == es;
  }

  const SURE := Auth(G.Confirm, true, false)

  function Begin(c: G.Client, job: Job): Event {
    BeginWrite(c, job, SURE, None, false, false)
  }

  // The only operation there is, holding the only token.
  ghost predicate Alone(s: Daemon, id: nat, op: Op) {
    && s.ops == map[id := op] && TicketOf(op).Some?
    && s.locks.held == map[TicketOf(op).value := RequestOf(op)] && s.locks.waiting == []
  }

  // On an idle rack a write is granted at once.
  lemma BeginOnIdle(s: Daemon, c: G.Client, job: Job)
    requires Idle(s)
    ensures var s' := Step(s, Begin(c, job));
            && Alone(s', s.nextOp, Write(c, job, SURE, Ticket(s.locks.next), Acting(Script(job, s.channels)), {}, None))
            && s'.hub == s.hub && s'.owed == s.owed && s'.nextOp == s.nextOp + 1 && s'.leases == s.leases
            && s'.locks.next == s.locks.next + 1 && s'.live == s.live && s'.channels == s.channels
  {
    L.GrantedOnEntryIffNothingOverlaps(s.locks, JobRequest(job), false);
    assert L.Inv(s.locks);
    L.EnterOutcome(s.locks, JobRequest(job), false);
  }

  lemma UnlockAlone(s: Daemon, id: nat, op: Op)
    requires Alone(s, id, op) && CanUnlock(s, id)
    ensures var s' := Step(s, Unlock(id));
            && Idle(s') && s'.hub == s.hub && s'.owed == s.owed && s'.nextOp == s.nextOp && s'.leases == s.leases
            && s'.locks.next == s.locks.next && s'.live == s.live && s'.channels == s.channels
  {}

  // The one command of a plain switch, and what becomes of the call.
  lemma ActOnce(s: Daemon, id: nat, w: Op, line: Line, on: bool, reply: Reply)
    requires id in s.ops && s.ops[id] == w && w.Write? && w.job == SetLine(line, on, false) && w.auth == SURE
    requires w.phase == Acting([Cmd(line, on, true, false)]) && w.cut == {} && w.settled.None?
    ensures var s' := Step(s, Act(id, reply));
            && s'.ops == s.ops[id := if !reply.Acked? then w.(phase := Unlocking)
                                     else if on then w.(phase := Reporting, settled := Some(line))
                                     else w.(phase := Reporting, cut := {line})]
            && s' == s.(hub := Switched(s.hub, line, on, G.Apply, reply), ops := s'.ops, audit := s'.audit)
  {
    var cmd := Cmd(line, on, true, false);
    assert [cmd][1..] == [];
    var o := SwitchOutcome(G.Apply, reply);
    assert w.cut + {line} == {line} && w.cut - {line} == {};
    assert Step(s, Act(id, reply)).ops[id] == AfterCmd(w, cmd, [], o);
  }

  lemma ReportOnce(s: Daemon, id: nat, w: Op)
    requires id in s.ops && s.ops[id] == w && w.Write? && w.phase.Reporting?
    ensures Step(s, Report(id)) ==
            s.(owed := Account(s.owed, w.client, w.settled, w.cut),
               ops := s.ops[id := w.(phase := Unlocking, cut := {}, settled := None)])
  {}

  // The first half of a switch on an idle rack: granted, and its command answered.
  lemma BeginAndAct(s0: Daemon, es: seq<Event>, bad: Event, s: Daemon, c: G.Client, line: Line, on: bool, reply: Reply)
    returns (longer: seq<Event>, s': Daemon, w: Op)
    requires Reached(s0, es, bad, s) && Idle(s)
    requires reply.Acked? || bad == Act(s.nextOp, reply)
    ensures Reached(s0, longer, bad, s') && Alone(s', s.nextOp, w)
    ensures w == Write(c, SetLine(line, on, false), SURE, Ticket(s.locks.next),
                       if reply.Acked? then Reporting else Unlocking,
                       if reply.Acked? && !on then {line} else {}, if reply.Acked? && on then Some(line) else None)
    ensures s' == s.(hub := Switched(s.hub, line, on, G.Apply, reply), locks := s'.locks, ops := s'.ops,
                     nextOp := s.nextOp + 1, calls := s'.calls, audit := s'.audit)
    ensures s'.locks.next == s.locks.next + 1
  {
    var id, job := s.nextOp, SetLine(line, on, false);
    assert Script(job, s.channels) == [Cmd(line, on, true, false)];
    BeginOnIdle(s, c, job);
    w := Write(c, job, SURE, Ticket(s.locks.next), Acting([Cmd(line, on, true, false)]), {}, None);
    var s1;
    longer, s1 := Grow(s0, es, bad, s, Begin(c, job));
    ActOnce(s1, id, w, line, on, reply);
    longer, s' := Grow(s0, longer, bad, s1, Act(id, reply));
    w := s'.ops[id];
  }

  // One switch from an idle rack to an idle rack.
  lemma QuietSwitch(s0: Daemon, es: seq<Event>, bad: Event, s: Daemon, c: G.Client, line: Line, on: bool, reply: Reply)
    returns (longer: seq<Event>, s': Daemon)
    requires Reached(s0, es, bad, s) && Idle(s)
    requires reply.Acked? || bad == Act(s.nextOp, reply)
    ensures Reached(s0, longer, bad, s') && Idle(s') && s'.nextOp == s.nextOp + 1
    ensures s'.hub == Switched(s.hub, line, on, G.Apply, reply)
    ensures s'.owed == if !reply.Acked? then s.owed
                       else Account(s.owed, c, if on then Some(line) else None, if on then {} else {line})
  {
    var id := s.nextOp;
    var s2, s3, w;
    longer, s2, w := BeginAndAct(s0, es, bad, s, c, line, on, reply);
    if reply.Acked? {
      ReportOnce(s2, id, w);
      longer, s3 := Grow(s0, longer, bad, s2, Report(id));
      w := w.(phase := Unlocking, cut := {}, settled := None);
    } else {
      s3 := s2;
    }
    assert Alone(s3, id, w);
    UnlockAlone(s3, id, w);
    longer, s' := Grow(s0, longer, bad, s3, Unlock(id));
  }

  lemma QueueReleaseOnIdle(s: Daemon, id: nat, c: G.Client, lines: set<Line>)
    requires s.ops == map[id := Repay(c, lines, lines, 0, Popped)]
    requires s.locks.held == map[] && s.locks.waiting == []
    ensures var s' := Step(s, QueueRelease(id, false));
            && Alone(s', id, Repay(c, lines, lines, s.locks.next, Restoring))
            && s'.hub == s.hub && s'.owed == s.owed
  {
    var r := L.Only(Chans(lines));
    L.GrantedOnEntryIffNothingOverlaps(s.locks, r, false);
    assert L.Inv(s.locks);
    L.EnterOutcome(s.locks, r, false);
  }

  lemma RestoreWhatIsLit(s: Daemon, id: nat, c: G.Client, line: Line, t: L.Ticket)
    requires Alone(s, id, Repay(c, {line}, {line}, t, Restoring)) && line !in s.hub.ledger
    ensures var s' := Step(s, Restore(id, line, Acked));
            Alone(s', id, Repay(c, {}, {line}, t, Restoring)) && s'.hub == s.hub && s'.owed == s.owed
  {
    assert {line} - {line} == {};
    assert Step(s, Restore(id, line, Acked)).ops[id] == Repay(c, {}, {line}, t, Restoring);
  }

  // A release, on an idle rack, of a debt of one line, up to its one command.
  lemma ReleaseOnIdle(s0: Daemon, es: seq<Event>, bad: Event, s: Daemon, c: G.Client, line: Line)
    returns (longer: seq<Event>, s': Daemon)
    requires Reached(s0, es, bad, s) && Idle(s) && Owed(s.owed, c) == {line}
    ensures Reached(s0, longer, bad, s') && Alone(s', s.nextOp, Repay(c, {line}, {line}, s.locks.next, Restoring))
    ensures s'.hub == s.hub && s'.owed == s.owed - {c}
  {
    var id := s.nextOp;
    assert Enabled({line}, true, true) == {line};
    var s1;
    longer, s1 := Grow(s0, es, bad, s, BeginRelease(c, true, true));
    QueueReleaseOnIdle(s1, id, c, {line});
    longer, s' := Grow(s0, longer, bad, s1, QueueRelease(id, false));
  }

  // A release, on an idle rack, of a debt whose one line the ledger no longer has.
  lemma QuietEmptyRelease(s0: Daemon, es: seq<Event>, bad: Event, s: Daemon, c: G.Client, line: Line)
    returns (longer: seq<Event>, s': Daemon)
    requires Reached(s0, es, bad, s) && Idle(s) && Owed(s.owed, c) == {line} && line !in s.hub.ledger
    ensures Reached(s0, longer, bad, s') && Idle(s') && s'.hub == s.hub && s'.owed == s.owed - {c}
  {
    var id := s.nextOp;
    var s2, s3;
    longer, s2 := ReleaseOnIdle(s0, es, bad, s, c, line);
    RestoreWhatIsLit(s2, id, c, line, s.locks.next);
    longer, s3 := Grow(s0, longer, bad, s2, Restore(id, line, Acked));
    UnlockAlone(s3, id, s3.ops[id]);
    longer, s' := Grow(s0, longer, bad, s3, Unlock(id));
  }

  const P1 := Line(Power, 1)
  const CLIENT := "A"
  const OTHER := "B"

  /** An "on" the hub never acknowledged leaves the ledger all the same: the release that follows
      finds nothing to restore and the port stays dark. */
  lemma UnacknowledgedOnLeavesAPortDark() returns (es: seq<Event>)
    ensures LeftDark(Play(Start([1]), es)) && BenignExcept(Start([1]), es, Act(1, Lost(false)))
  {
    var s0, bad := Start([1]), Act(1, Lost(false));
    var s1, s2, s3;
    es, s1 := QuietSwitch(s0, [], bad, s0, CLIENT, P1, false, Acked);
    es, s2 := QuietSwitch(s0, es, bad, s1, CLIENT, P1, true, Lost(false));
    assert Owed(s2.owed, CLIENT) == {P1};
    es, s3 := QuietEmptyRelease(s0, es, bad, s2, CLIENT, P1);
  }

  lemma RefusedRestore(s: Daemon, id: nat, c: G.Client, line: Line, t: L.Ticket)
    requires Alone(s, id, Repay(c, {line}, {line}, t, Restoring))
    ensures var s' := Step(s, Restore(id, line, Refused));
            Alone(s', id, Repay(c, {}, {line}, t, Restoring)) && s'.hub == s.hub && s'.owed == s.owed
  {
    assert {line} - {line} == {};
    assert Step(s, Restore(id, line, Refused)).ops[id] == Repay(c, {}, {line}, t, Restoring);
  }

  /** A release whose command the hub refuses reports the failure and forgets the line: it stays dark
      and nobody owes it. */
  lemma RefusedRestoreLeavesAPortDark() returns (es: seq<Event>)
    ensures LeftDark(Play(Start([1]), es)) && BenignExcept(Start([1]), es, Restore(1, P1, Refused))
  {
    var s0, bad := Start([1]), Restore(1, P1, Refused);
    var s1, s3, s4, s5;
    es, s1 := QuietSwitch(s0, [], bad, s0, CLIENT, P1, false, Acked);
    assert Owed(s1.owed, CLIENT) == {P1};
    es, s3 := ReleaseOnIdle(s0, es, bad, s1, CLIENT, P1);
    RefusedRestore(s3, 1, CLIENT, P1, s1.locks.next);
    es, s4 := Grow(s0, es, bad, s3, bad);
    UnlockAlone(s4, 1, s4.ops[1]);
    es, s5 := Grow(s0, es, bad, s4, Unlock(1));
    assert P1 in s5.hub.dark;
  }

  /** A release that restores data lines only forgets the power debt. */
  lemma PartialReleaseLeavesAPortDark() returns (es: seq<Event>)
    ensures LeftDark(Play(Start([1]), es)) && BenignExcept(Start([1]), es, BeginRelease(CLIENT, false, true))
  {
    var s0, bad := Start([1]), BeginRelease(CLIENT, false, true);
    var s1, s2;
    es, s1 := QuietSwitch(s0, [], bad, s0, CLIENT, P1, false, Acked);
    assert Owed(s1.owed, CLIENT) == {P1};
    es, s2 := Grow(s0, es, bad, s1, bad);
  }

  // The first half of a cycle, acknowledged, and the second half refused.
  lemma HalfACycle(s: Daemon, id: nat, w: Op)
    requires Alone(s, id, w) && w.Write? && w.job == Cycle(1) && w.auth == SURE && w.settled.None?
    requires w.phase == Acting(Script(w.job, s.channels)) && w.cut == {}
    ensures var s1 := Step(s, Act(id, Acked)); var s2 := Step(s1, Act(id, Refused));
            && Alone(s2, id, w.(phase := Unlocking, cut := {P1}))
            && s2.owed == s.owed && s2.hub == Switched(s.hub, P1, false, G.Apply, Acked)
  {
    var off, on := Cmd(P1, false, true, false), Cmd(P1, true, true, true);
    assert Script(w.job, s.channels) == [off, on] && [off, on][1..] == [on] && w.cut + {P1} == {P1};
    var s1 := Step(s, Act(id, Acked));
    assert s1.ops[id] == w.(phase := Acting([on]), cut := {P1});
    assert Step(s1, Act(id, Refused)).ops[id] == w.(phase := Unlocking, cut := {P1});
  }

  /** A cycle whose second half cannot be sent is never accounted. */
  lemma FailedCycleLeavesAPortDark() returns (es: seq<Event>)
    ensures LeftDark(Play(Start([1]), es)) && BenignExcept(Start([1]), es, Act(0, Refused))
  {
    var s0, bad := Start([1]), Act(0, Refused);
    var s1, s2, s3, s4;
    BeginOnIdle(s0, CLIENT, Cycle(1));
    es, s1 := Grow(s0, [], bad, s0, Begin(CLIENT, Cycle(1)));
    HalfACycle(s1, 0, s1.ops[0]);
    es, s2 := Grow(s0, es, bad, s1, Act(0, Acked));
    es, s3 := Grow(s0, es, bad, s2, bad);
    UnlockAlone(s3, 0, s3.ops[0]);
    es, s4 := Grow(s0, es, bad, s3, Unlock(0));
    assert P1 in s4.hub.dark;
  }

  // ---------------------------------------------------------------- leases

  const CUT := SetLine(P1, false, false)

  lemma LeaseOnIdle(s: Daemon, c: G.Client)
    requires Idle(s)
    ensures var s' := Step(s, BeginLease(c, false));
            && Alone(s', s.nextOp, Leasing(c, s.locks.next, true))
            && s' == s.(locks := s'.locks, ops := s'.ops, nextOp := s.nextOp + 1)
            && s'.locks.next == s.locks.next + 1
  {
    L.GrantedOnEntryIffNothingOverlaps(s.locks, L.All, false);
    assert L.Inv(s.locks);
    L.EnterOutcome(s.locks, L.All, false);
  }

  lemma RecordAlone(s: Daemon, id: nat, c: G.Client, t: L.Ticket)
    requires Alone(s, id, Leasing(c, t, true))
    ensures Step(s, RecordLease(id)) ==
            s.(ops := map[], leases := s.leases[s.nextLease := Lease(c, t)], nextLease := s.nextLease + 1)
  {
    assert s.ops - {id} == map[];
  }

  // A rack on which A holds a lease, and nothing is in flight.
  lemma TakeALease(s0: Daemon, es: seq<Event>, bad: Event, s: Daemon, c: G.Client)
    returns (longer: seq<Event>, s': Daemon)
    requires Reached(s0, es, bad, s) && Idle(s)
    ensures Reached(s0, longer, bad, s')
    ensures s' == s.(locks := s'.locks, leases := s.leases[s.nextLease := Lease(c, s.locks.next)],
                     nextLease := s.nextLease + 1, nextOp := s.nextOp + 1)
    ensures s'.locks == L.Locks(map[s.locks.next := L.All], [], s.locks.next + 1)
  {
    var s1;
    LeaseOnIdle(s, c);
    longer, s1 := Grow(s0, es, bad, s, BeginLease(c, false));
    RecordAlone(s1, s.nextOp, c, s.locks.next);
    longer, s' := Grow(s0, longer, bad, s1, RecordLease(s.nextOp));
  }

  // A plain switch under its client's lease is let through at once.
  lemma BeginUnderLease(s: Daemon, k: nat, line: Line, on: bool)
    requires k in s.leases
    ensures var c, job := s.leases[k].client, SetLine(line, on, false);
            var s' := Step(s, BeginWrite(c, job, SURE, Some(k), true, false));
            s' == s.(ops := s.ops[s.nextOp := Write(c, job, SURE, UnderLease(k), Acting([Cmd(line, on, true, false)]), {}, None)],
                     nextOp := s.nextOp + 1, calls := s'.calls)
  {
    assert Script(SetLine(line, on, false), s.channels) == [Cmd(line, on, true, false)];
  }

  // A write that starts under a lease and switches its line.
  lemma SwitchUnderLease(s0: Daemon, es: seq<Event>, bad: Event, s: Daemon, k: nat, line: Line, on: bool)
    returns (longer: seq<Event>, s': Daemon)
    requires Reached(s0, es, bad, s) && k in s.leases && s.nextOp !in s.ops
    requires var e := BeginWrite(s.leases[k].client, SetLine(line, on, false), SURE, Some(k), true, false);
             e == bad || Benign(s, e)
    ensures Reached(s0, longer, bad, s')
    ensures s'.ops == s.ops[s.nextOp := Write(s.leases[k].client, SetLine(line, on, false), SURE, UnderLease(k), Reporting,
                                              if on then {} else {line}, if on then Some(line) else None)]
    ensures s' == s.(ops := s'.ops, nextOp := s.nextOp + 1, hub := Switched(s.hub, line, on, G.Apply, Acked),
                     calls := s'.calls, audit := s'.audit)
  {
    var id, job := s.nextOp, SetLine(line, on, false);
    var w := Write(s.leases[k].client, job, SURE, UnderLease(k), Acting([Cmd(line, on, true, false)]), {}, None);
    var s1;
    BeginUnderLease(s, k, line, on);
    longer, s1 := Grow(s0, es, bad, s, BeginWrite(w.client, job, SURE, Some(k), true, false));
    ActOnce(s1, id, w, line, on, Acked);
    longer, s' := Grow(s0, longer, bad, s1, Act(id, Acked));
  }

  // Accounting and ending a write that holds no token.
  lemma FinishUnderLease(s0: Daemon, es: seq<Event>, bad: Event, s: Daemon, id: nat)
    returns (longer: seq<Event>, s': Daemon)
    requires Reached(s0, es, bad, s) && id in s.ops && s.ops[id].Write? && s.ops[id].phase.Reporting?
    requires s.ops[id].key.UnderLease?
    ensures Reached(s0, longer, bad, s')
    ensures s' == s.(owed := Account(s.owed, s.ops[id].client, s.ops[id].settled, s.ops[id].cut), ops := s.ops - {id})
  {
    var s1;
    ReportOnce(s, id, s.ops[id]);
    longer, s1 := Grow(s0, es, bad, s, Report(id));
    assert s1.ops - {id} == s.ops - {id};
    longer, s' := Grow(s0, longer, bad, s1, Unlock(id));
  }

  // An "on" accounted last leaves nobody owing anything but other lines.
  lemma SettlingClears(owed: map<G.Client, set<Line>>, c: G.Client, line: Line)
    requires forall d :: d in owed ==> owed[d] <= {line}
    ensures var owed' := Account(owed, c, Some(line), {}); forall d :: d in owed' ==> owed'[d] == {}
  {}

  lemma CutIsOwed(owed: map<G.Client, set<Line>>, c: G.Client, line: Line)
    requires forall d :: d in owed ==> owed[d] <= {line}
    ensures var owed' := Account(owed, c, None, {line}); forall d :: d in owed' ==> owed'[d] <= {line}
  {}

  const LIT := Write(CLIENT, SetLine(P1, true, false), SURE, UnderLease(0), Reporting, {}, Some(P1))

  // A holds lease 0, and its "on" under it is switched but not yet accounted.
  lemma OnUnderALease(bad: Event) returns (es: seq<Event>, s: Daemon)
    ensures Reached(Start([1]), es, bad, s)
    ensures s.ops == map[1 := LIT] && s.leases == map[0 := Lease(CLIENT, 0)] && s.nextOp == 2
    ensures s.owed == map[] && s.hub == Hub({}, {})
    ensures s.locks == L.Locks(map[0 := L.All], [], 1)
  {
    var s0 := Start([1]);
    var s1;
    es, s1 := TakeALease(s0, [], bad, s0, CLIENT);
    assert s1 == Daemon(L.Locks(map[0 := L.All], [], 1), Hub({}, {}), [1], map[], map[0 := Lease(CLIENT, 0)],
                        map[], {}, map[], [], 1, 1);
    es, s := SwitchUnderLease(s0, es, bad, s1, 0, P1, true);
  }

  // Its accounting comes last and settles whatever others recorded for the line meanwhile.
  lemma AccountedLast(es: seq<Event>, bad: Event, s: Daemon) returns (longer: seq<Event>, s': Daemon)
    requires Reached(Start([1]), es, bad, s) && s.ops == map[1 := LIT]
    requires forall c :: c in s.owed ==> s.owed[c] <= {P1}
    ensures Reached(Start([1]), longer, bad, s') && s'.ops == map[] && s'.hub == s.hub && s'.locks == s.locks
    ensures forall c :: c in s'.owed ==> s'.owed[c] == {}
  {
    longer, s' := FinishUnderLease(Start([1]), es, bad, s, 1);
    SettlingClears(s.owed, CLIENT, P1);
    assert s.ops - {1} == map[];
  }

  // A second write under the same lease, cutting the line, start to end.
  lemma CutUnderTheSameLease(es: seq<Event>, bad: Event, s: Daemon) returns (longer: seq<Event>, s': Daemon)
    requires Reached(Start([1]), es, bad, s) && bad == BeginWrite(CLIENT, CUT, SURE, Some(0), true, false)
    requires s.ops == map[1 := LIT] && s.leases == map[0 := Lease(CLIENT, 0)] && s.nextOp == 2
    requires s.owed == map[] && s.hub == Hub({}, {})
    ensures Reached(Start([1]), longer, bad, s') && s'.ops == map[1 := LIT]
    ensures s'.hub.dark == {P1} && forall c :: c in s'.owed ==> s'.owed[c] <= {P1}
  {
    var s1;
    longer, s1 := SwitchUnderLease(Start([1]), es, bad, s, 0, P1, false);
    longer, s' := FinishUnderLease(Start([1]), longer, bad, s1, 2);
    CutIsOwed(s.owed, CLIENT, P1);
    assert s1.ops - {2} == map[1 := LIT];
  }

  /** Two writes of one client under the same lease interleave: the "on" settles the debt the cut
      has just recorded. */
  lemma TwoWritesUnderOneLeaseLeaveAPortDark() returns (es: seq<Event>)
    ensures var s := Play(Start([1]), es);
            s.ops == map[] && (forall c :: c in s.owed ==> s.owed[c] == {}) && s.hub.dark == {P1}
    ensures BenignExcept(Start([1]), es, BeginWrite(CLIENT, CUT, SURE, Some(0), true, false))
  {
    var bad := BeginWrite(CLIENT, CUT, SURE, Some(0), true, false);
    var s1, s2, s3;
    es, s1 := OnUnderALease(bad);
    es, s2 := CutUnderTheSameLease(es, bad, s1);
    es, s3 := AccountedLast(es, bad, s2);
  }

  // Another client's cut, from the moment no token is held to its end, beside whatever is there.
  lemma CutBeside(s0: Daemon, es: seq<Event>, bad: Event, s: Daemon, c: G.Client)
    returns (longer: seq<Event>, s': Daemon)
    requires Reached(s0, es, bad, s) && s.locks.held == map[] && s.locks.waiting == [] && s.nextOp !in s.ops
    ensures Reached(s0, longer, bad, s') && s'.ops == s.ops && s'.locks.held == map[] && s'.locks.waiting == []
    ensures s'.owed == Account(s.owed, c, None, {P1}) && s'.hub == Switched(s.hub, P1, false, G.Apply, Acked)
  {
    var id := s.nextOp;
    var s2, s3;
    longer, s2 := HalfACutBeside(s0, es, bad, s, c);
    var w := s2.ops[id];
    ReportOnce(s2, id, w);
    longer, s3 := Grow(s0, longer, bad, s2, Report(id));
    UnlockBeside(s3, s.ops, id, w.(phase := Unlocking, cut := {}));
    longer, s' := Grow(s0, longer, bad, s3, Unlock(id));
  }

  lemma HalfACutBeside(s0: Daemon, es: seq<Event>, bad: Event, s: Daemon, c: G.Client)
    returns (longer: seq<Event>, s': Daemon)
    requires Reached(s0, es, bad, s) && s.locks.held == map[] && s.locks.waiting == [] && s.nextOp !in s.ops
    ensures Reached(s0, longer, bad, s') && s'.owed == s.owed
    ensures s'.ops == s.ops[s.nextOp := Write(c, CUT, SURE, Ticket(s.locks.next), Reporting, {P1}, None)]
    ensures s'.locks == L.Locks(map[s.locks.next := L.Only({1})], [], s.locks.next + 1)
    ensures s'.hub == Switched(s.hub, P1, false, G.Apply, Acked)
  {
    var s1;
    BesideAnother(s, c);
    longer, s1 := Grow(s0, es, bad, s, Begin(c, CUT));
    ActOnce(s1, s.nextOp, s1.ops[s.nextOp], P1, false, Acked);
    longer, s' := Grow(s0, longer, bad, s1, Act(s.nextOp, Acked));
  }

  lemma UnlockBeside(s: Daemon, others: map<nat, Op>, id: nat, w: Op)
    requires s.ops == others[id := w] && id !in others && w.Write? && w.phase.Unlocking? && w.key.Ticket?
    requires s.locks.held.Keys == {w.key.t} && s.locks.waiting == []
    ensures var s' := Step(s, Unlock(id));
            s' == s.(ops := others, locks := s'.locks) && s'.locks.held == map[] && s'.locks.waiting == []
  {
    assert others[id := w] - {id} == others;
  }

  // With no token held, a cut is granted at once, whatever else is in flight.
  lemma BesideAnother(s: Daemon, c: G.Client)
    requires s.locks.held == map[] && s.locks.waiting == []
    ensures var s' := Step(s, Begin(c, CUT));
            && s'.ops == s.ops[s.nextOp := Write(c, CUT, SURE, Ticket(s.locks.next), Acting([Cmd(P1, false, true, false)]), {}, None)]
            && s' == s.(locks := s'.locks, ops := s'.ops, nextOp := s.nextOp + 1, calls := s'.calls)
            && s'.locks == L.Locks(map[s.locks.next := L.Only({1})], [], s.locks.next + 1)
  {
    assert Script(CUT, s.channels) == [Cmd(P1, false, true, false)];
    L.GrantedOnEntryIffNothingOverlaps(s.locks, JobRequest(CUT), false);
    assert L.Inv(s.locks);
    L.EnterOutcome(s.locks, JobRequest(CUT), false);
  }

  /** A lease dropped under a running write lets another client's cut in between that write's "on"
      and its accounting, which then settles a debt that is not paid. */
  lemma DroppedLeaseLeavesAPortDark() returns (es: seq<Event>)
    ensures LeftDark(Play(Start([1]), es)) && BenignExcept(Start([1]), es, DropLease(0))
  {
    var s0, bad := Start([1]), DropLease(0);
    var s1, s2, s3, s4;
    es, s1 := OnUnderALease(bad);
    es, s2 := Grow(s0, es, bad, s1, bad);
    assert s2.locks.held == map[] && s2.locks.waiting == [];
    es, s3 := CutBeside(s0, es, bad, s2, OTHER);
    CutIsOwed(s2.owed, OTHER, P1);
    es, s4 := AccountedLast(es, bad, s3);
  }
}
