/**
What the guard let through, over every run of the daemon, faulty ones included; and, whatever the hub
answers, that each decision is made while the call holds the channel it decides about.
*/
module HubAudit {
  import opened Options
  import G = HubGuard
  import opened HubManager
  import opened HubProtocol
  import L = HubLocks

  ghost predicate CallOk(s: Daemon, id: nat, op: Op) {
    && id < s.nextOp
    && (op.Write? ==>
         && id in s.calls && op.auth == s.calls[id]
         && (op.phase.Acting? ==> forall k :: 0 <= k < |op.phase.todo| ==> op.phase.todo[k].forced ==> op.phase.todo[k].on))
  }

  // Either the caller confirmed, or it acts in `allow` mode and no session was live there when
  // the cut was decided.
  predicate Permitted(r: CutRecord) {
    !r.auth.mode.DryRun? && (r.auth.confirm || (r.auth.mode.Allow? && !r.registered))
  }

  ghost predicate RecordOk(s: Daemon, r: CutRecord) {
    r.op in s.calls && r.auth == s.calls[r.op] && Permitted(r)
  }

  ghost predicate Audited(s: Daemon) {
    && (forall id :: id in s.ops ==> CallOk(s, id, s.ops[id]))
    && (forall id :: id in s.calls ==> id < s.nextOp)
    && (forall k :: 0 <= k < |s.audit| ==> RecordOk(s, s.audit[k]))
  }

  lemma ScriptForces(job: Job, channels: seq<int>)
    ensures var todo := Script(job, channels); forall k :: 0 <= k < |todo| ==> todo[k].forced ==> todo[k].on
  {}

  lemma ActAudited(s: Daemon, id: nat, reply: Reply)
    requires Audited(s) && CanAct(s, id)
    ensures Audited(DoAct(s, id, s.ops[id], reply))
  {
    assert CallOk(s, id, s.ops[id]);
  }

  // A step that decides nothing: operations stay, go, or are added with nothing forced; the calls
  // table may gain one fresh entry.
  lemma AuditedAfter(s: Daemon, s': Daemon)
    requires Audited(s) && s'.audit == s.audit && s.nextOp <= s'.nextOp
    requires forall id :: id in s.calls ==> id in s'.calls && s'.calls[id] == s.calls[id]
    requires forall id :: id in s'.calls && id !in s.calls ==> id < s'.nextOp
    requires forall id :: id in s'.ops ==> (id in s.ops && Tamer(s.ops[id], s'.ops[id])) || CallOk(s', id, s'.ops[id])
    ensures Audited(s')
  {
    forall k | 0 <= k < |s.audit| ensures RecordOk(s', s'.audit[k]) {
      assert RecordOk(s, s.audit[k]);
    }
    forall id | id in s'.ops ensures CallOk(s', id, s'.ops[id]) {
      if id in s.ops { assert CallOk(s, id, s.ops[id]); }
    }
  }

  // The same call, with the same program or none left.
  predicate Tamer(op: Op, op': Op) {
    op'.Write? ==>
      && op.Write? && op'.auth == op.auth && op'.job == op.job && op'.key == op.key
      && (op'.phase.Acting? || op'.phase.Queued? ==> op'.phase == op.phase)
  }

  lemma BeginFields(s: Daemon, e: Event, locks: L.Locks, v: L.Verdict)
    requires e.BeginWrite? && s.nextOp !in s.ops
    ensures var s' := Begun(s, e, locks, v);
            && s'.audit == s.audit && s'.nextOp == s.nextOp + 1 && s'.calls == s.calls[s.nextOp := e.auth]
            && (forall id :: id in s'.ops && id != s.nextOp ==> id in s.ops && s'.ops[id] == s.ops[id])
            && (s.nextOp in s'.ops ==>
                 var w := s'.ops[s.nextOp];
                 w.Write? && w.auth == e.auth && (w.phase.Acting? ==> w.phase.todo == Script(e.job, s.channels)))
  {}

  lemma BeginAudited(s: Daemon, e: Event)
    requires Audited(s) && e.BeginWrite?
    ensures Audited(DoBeginWrite(s, e))
  {
    assert s.nextOp in s.ops ==> CallOk(s, s.nextOp, s.ops[s.nextOp]);
    var r := JobRequest(e.job);
    BeginFields(s, e, L.LockStep(s.locks, L.Enter(r, e.expired)), L.EntryVerdict(s.locks, r, e.expired));
    ScriptForces(e.job, s.channels);
    assert s.nextOp !in s.calls;
    NewCallAudited(s, DoBeginWrite(s, e), e.auth, Script(e.job, s.channels));
  }

  lemma NewCallAudited(s: Daemon, s': Daemon, auth: Auth, script: seq<Cmd>)
    requires Audited(s) && s.nextOp !in s.calls
    requires s'.audit == s.audit && s'.nextOp == s.nextOp + 1 && s'.calls == s.calls[s.nextOp := auth]
    requires forall id :: id in s'.ops && id != s.nextOp ==> id in s.ops && s'.ops[id] == s.ops[id]
    requires s.nextOp in s'.ops ==>
               var w := s'.ops[s.nextOp];
               w.Write? && w.auth == auth && (w.phase.Acting? ==> w.phase.todo == script)
    requires forall k :: 0 <= k < |script| ==> script[k].forced ==> script[k].on
    ensures Audited(s')
  {
    forall id | id in s'.ops ensures (id in s.ops && Tamer(s.ops[id], s'.ops[id])) || CallOk(s', id, s'.ops[id]) {}
    AuditedAfter(s, s');
  }

  lemma WokenAudited(s: Daemon, id: nat, locks: L.Locks, v: L.Verdict)
    requires Audited(s) && CanWake(s, id)
    ensures Audited(Woken(s, id, s.ops[id], locks, v))
  {
    var s' := Woken(s, id, s.ops[id], locks, v);
    assert CallOk(s, id, s.ops[id]);
    if s.ops[id].Write? { ScriptForces(s.ops[id].job, s.channels); }
    forall j | j in s'.ops ensures (j in s.ops && Tamer(s.ops[j], s'.ops[j])) || CallOk(s', j, s'.ops[j]) {}
    AuditedAfter(s, s');
  }

  lemma WakeAudited(s: Daemon, id: nat, expired: bool)
    requires Audited(s) && CanWake(s, id)
    ensures Audited(DoWake(s, id, s.ops[id], TicketOf(s.ops[id]).value, expired))
  {
    var t := TicketOf(s.ops[id]).value;
    var i := L.Position(s.locks.waiting, t);
    if i < |s.locks.waiting| {
      WokenAudited(s, id, L.LockStep(s.locks, L.Wake(t, expired)), L.VerdictAt(s.locks, i, expired));
    }
  }

  // The other events neither decide nor darken, nor touch a write's program, except to end it.
  ghost predicate Quiet(s: Daemon, s': Daemon) {
    && s'.channels == s.channels && s'.hub.dark <= s.hub.dark
    && s'.audit == s.audit && s.nextOp <= s'.nextOp && s'.calls == s.calls
    && (forall id :: id in s'.ops ==> (id in s.ops && Tamer(s.ops[id], s'.ops[id])) ||
                                      (id < s'.nextOp && !s'.ops[id].Write?))
  }

  lemma ReleaseQueuedQuiet(s: Daemon, id: nat, locks: L.Locks, v: L.Verdict)
    requires id in s.ops && s.ops[id].Repay?
    ensures Quiet(s, ReleaseQueued(s, id, s.ops[id], locks, v))
  {
    var s' := ReleaseQueued(s, id, s.ops[id], locks, v);
    forall j | j in s'.ops ensures j in s.ops && Tamer(s.ops[j], s'.ops[j]) {}
  }

  lemma LeaseBegunQuiet(s: Daemon, c: G.Client, locks: L.Locks, v: L.Verdict)
    ensures Quiet(s, LeaseBegun(s, c, locks, v))
  {
    var s' := LeaseBegun(s, c, locks, v);
    forall j | j in s'.ops ensures (j in s.ops && Tamer(s.ops[j], s'.ops[j])) || (j < s'.nextOp && !s'.ops[j].Write?) {}
  }

  lemma DebtEventsQuiet(s: Daemon, e: Event)
    requires e.BeginRelease? || e.Report? || e.Restore? || e.MergeBack?
    ensures Quiet(s, Step(s, e))
  {}

  lemma EndingsQuiet(s: Daemon, e: Event)
    requires e.Unlock? || e.RecordLease? || e.DropLease? || e.Heartbeat?
    ensures Quiet(s, Step(s, e))
  {}

  lemma RestFields(s: Daemon, e: Event)
    requires !e.BeginWrite? && !e.Act? && !e.Wake?
    ensures Quiet(s, Step(s, e))
  {
    match e {
      case QueueRelease(id, expired) =>
        if id in s.ops && s.ops[id].Repay? {
          var r := L.Only(Chans(s.ops[id].wanted));
          ReleaseQueuedQuiet(s, id, L.LockStep(s.locks, L.Enter(r, expired)), L.EntryVerdict(s.locks, r, expired));
        }
      case BeginLease(c, expired) =>
        LeaseBegunQuiet(s, c, L.LockStep(s.locks, L.Enter(L.All, expired)), L.EntryVerdict(s.locks, L.All, expired));
      case BeginRelease(_, _, _) => DebtEventsQuiet(s, e);
      case Report(_) => DebtEventsQuiet(s, e);
      case Restore(_, _, _) => DebtEventsQuiet(s, e);
      case MergeBack(_) => DebtEventsQuiet(s, e);
      case _ => EndingsQuiet(s, e);
    }
  }

  lemma RestAudited(s: Daemon, e: Event)
    requires Audited(s) && !e.BeginWrite? && !e.Act? && !e.Wake?
    ensures Audited(Step(s, e))
  {
    RestFields(s, e);
    AuditedAfter(s, Step(s, e));
  }

  lemma StepAudited(s: Daemon, e: Event)
    requires Audited(s)
    ensures Audited(Step(s, e))
  {
    match e {
      case BeginWrite(_, _, _, _, _, _) => BeginAudited(s, e);
      case Act(id, reply) => if CanAct(s, id) { ActAudited(s, id, reply); }
      case Wake(id, expired) => if CanWake(s, id) { WakeAudited(s, id, expired); }
      case _ => RestAudited(s, e);
    }
  }

  lemma StepKeepsCalls(s: Daemon, e: Event, id: nat)
    requires Audited(s) && id in s.calls
    ensures id in Step(s, e).calls && Step(s, e).calls[id] == s.calls[id]
  {
    assert id < s.nextOp;
    if !e.BeginWrite? && !e.Act? && !e.Wake? { RestFields(s, e); }
  }

  /** Every applied cut was confirmed, or decided in the `allow` mode its own call came with and
      with no live session registered on that channel at the moment of the cut: in every run. */
  lemma {:induction false} EveryCutWasPermitted(channels: seq<int>, es: seq<Event>, k: nat)
    requires k < |Play(Start(channels), es).audit|
    ensures var s := Play(Start(channels), es); var r := s.audit[k];
            r.op in s.calls && r.auth == s.calls[r.op] && Permitted(r)
  {
    RunAudited(channels, es);
    assert RecordOk(Play(Start(channels), es), Play(Start(channels), es).audit[k]);
  }

  lemma {:induction false} RunAudited(channels: seq<int>, es: seq<Event>)
    ensures Audited(Play(Start(channels), es))
  {
    if es != [] {
      RunAudited(channels, es[..|es| - 1]);
      StepAudited(Play(Start(channels), es[..|es| - 1]), es[|es| - 1]);
    }
  }

  /** The terms a call came with are never changed, by any later step of any client. */
  lemma {:induction false} TermsAreTheCallers(channels: seq<int>, es: seq<Event>, more: seq<Event>, id: nat)
    requires id in Play(Start(channels), es).calls
    ensures var s := Play(Start(channels), es); var s' := Play(s, more);
            id in s'.calls && s'.calls[id] == s.calls[id] && Audited(s')
  {
    var s := Play(Start(channels), es);
    if more == [] {
      RunAudited(channels, es);
    } else {
      var m := Play(s, more[..|more| - 1]);
      TermsAreTheCallers(channels, es, more[..|more| - 1], id);
      StepAudited(m, more[|more| - 1]);
      StepKeepsCalls(m, more[|more| - 1], id);
    }
  }

  // Every command a write has yet to send is on a channel it asked for.
  ghost predicate ActCovered(op: Op) {
    op.Write? && op.phase.Acting? ==>
      forall k :: 0 <= k < |op.phase.todo| ==> Covers(JobRequest(op.job), op.phase.todo[k].line.chan)
  }

  ghost predicate ActsCovered(s: Daemon) {
    forall id :: id in s.ops ==> ActCovered(s.ops[id])
  }

  lemma ScriptIsCovered(job: Job, channels: seq<int>)
    ensures var todo := Script(job, channels); forall k :: 0 <= k < |todo| ==> Covers(JobRequest(job), todo[k].line.chan)
  {}

  lemma BeginCovered(s: Daemon, e: Event, locks: L.Locks, v: L.Verdict)
    requires ActsCovered(s) && e.BeginWrite?
    ensures ActsCovered(Begun(s, e, locks, v))
  {
    ScriptIsCovered(e.job, s.channels);
  }

  lemma WokenCovered(s: Daemon, id: nat, locks: L.Locks, v: L.Verdict)
    requires ActsCovered(s) && CanWake(s, id)
    ensures ActsCovered(Woken(s, id, s.ops[id], locks, v))
  {
    var op := s.ops[id];
    if op.Write? { ScriptIsCovered(op.job, s.channels); }
    assert ActCovered(Proceeds(op, s.channels));
  }

  lemma ActKeepsCovered(s: Daemon, id: nat, reply: Reply)
    requires ActsCovered(s) && CanAct(s, id)
    ensures ActsCovered(DoAct(s, id, s.ops[id], reply))
  {
    assert ActCovered(s.ops[id]);
    assert ActCovered(DoAct(s, id, s.ops[id], reply).ops[id]);
  }

  lemma StepKeepsCovered(s: Daemon, e: Event)
    requires ActsCovered(s)
    ensures ActsCovered(Step(s, e))
  {
    match e {
      case BeginWrite(_, job, _, _, _, expired) =>
        BeginCovered(s, e, L.LockStep(s.locks, L.Enter(JobRequest(job), expired)),
                     L.EntryVerdict(s.locks, JobRequest(job), expired));
      case Act(id, reply) => if CanAct(s, id) { ActKeepsCovered(s, id, reply); }
      case Wake(id, expired) =>
        if CanWake(s, id) {
          var t := TicketOf(s.ops[id]).value;
          var i := L.Position(s.locks.waiting, t);
          if i < |s.locks.waiting| {
            WokenCovered(s, id, L.LockStep(s.locks, L.Wake(t, expired)), L.VerdictAt(s.locks, i, expired));
          }
        }
      case _ =>
        RestFields(s, e);
        forall id | id in Step(s, e).ops ensures ActCovered(Step(s, e).ops[id]) {
          if id in s.ops { assert ActCovered(s.ops[id]); }
        }
    }
  }

  /** In every run, faulty ones included, what a write is about to command lies on channels it asked for. */
  lemma {:induction false} CommandsStayOnTheirChannels(channels: seq<int>, es: seq<Event>)
    ensures ActsCovered(Play(Start(channels), es))
  {
    if es != [] {
      CommandsStayOnTheirChannels(channels, es[..|es| - 1]);
      StepKeepsCovered(Play(Start(channels), es[..|es| - 1]), es[|es| - 1]);
    }
  }

  /** A command is only ever sent by a call that holds its channel, and no other call holds it, whatever
      the hub answers and whatever is released, as long as leases are respected: so what the guard looked
      up was looked up after the channel was held, and stands until the call is accounted. */
  lemma CommandsAreSentHoldingTheChannel(channels: seq<int>, es: seq<Event>, id: nat)
    requires LeasesRespected(Start(channels), es)
    requires CanAct(Play(Start(channels), es), id)
    ensures var s := Play(Start(channels), es); var c := s.ops[id].phase.todo[0].line.chan;
            && Holding(s.ops[id]) && Covers(RequestOf(s.ops[id]), c)
            && forall other :: other in s.ops && Holding(s.ops[other]) && Covers(RequestOf(s.ops[other]), c) ==> other == id
  {
    var s := Play(Start(channels), es);
    var c := s.ops[id].phase.todo[0].line.chan;
    CommandsStayOnTheirChannels(channels, es);
    assert ActCovered(s.ops[id]);
    forall other | other in s.ops && Holding(s.ops[other]) && Covers(RequestOf(s.ops[other]), c) ensures other == id {
      EveryRunIsExclusive(channels, es, id, other, c);
    }
  }

  /** A command that took a line down is in the audit, with the terms it was decided under and what the
      registry said. */
  lemma CutsAreRecorded(s: Daemon, id: nat, reply: Reply)
    requires CanAct(s, id)
    requires var s' := Step(s, Act(id, reply)); !(s'.hub.dark <= s.hub.dark)
    ensures var s' := Step(s, Act(id, reply)); var cmd := s.ops[id].phase.todo[0];
            s'.audit == s.audit + [CutRecord(id, cmd.line, s.ops[id].auth, s.ops[id].auth.confirm || cmd.forced,
                                             cmd.line.chan in s.live)]
  {
    var w := s.ops[id];
    var cmd := w.phase.todo[0];
    var d := CmdVerdict(w.auth, cmd, s.live);
    assert cmd.on || d != G.Apply || reply.Refused? ==> Switched(s.hub, cmd.line, cmd.on, d, reply).dark <= s.hub.dark;
  }

  /** And what is in it was sent: a command leaves a record exactly when it is a cut the hub was there to take
      and the call's terms allow. */
  lemma OnlySentCutsAreRecorded(s: Daemon, id: nat, reply: Reply)
    requires CanAct(s, id)
    ensures var w := s.ops[id]; var cmd := w.phase.todo[0]; var registered := cmd.line.chan in s.live;
            var confirmed := w.auth.confirm || cmd.forced;
            var goes := !cmd.on && !reply.Refused? && !w.auth.mode.DryRun? &&
                        (confirmed || (w.auth.mode.Allow? && !(w.auth.named && cmd.primary) && !registered));
            Step(s, Act(id, reply)).audit ==
            s.audit + if goes then [CutRecord(id, cmd.line, w.auth, confirmed, registered)] else []
  {}
}
