/**
Stopping the daemon (hub_daemon.py, stop; hub_dashboard.py, stop) beside the calls it leaves
running. Handler threads are neither joined nor refused: a call handed to one before the server
closed goes on after the hub was closed, and its next command reconnects. What a stop guarantees,
and exactly when something can still go dark after it.
*/
module HubShutdown {
  import opened Options
  import G = HubGuard
  import opened HubManager
  import opened HubProtocol
  import A = HubAudit
  import F = HubFaults
  import L = HubLocks
  import P = HubProgress

  // A write the server has handed to a thread that has not asked for its channels yet.
  datatype Request = Request(client: G.Client, job: Job, auth: Auth, lease: Option<nat>)

  // `op`: the daemon's own wait for every channel, None once it has timed out or been let go.
  datatype Stage = Serving | Stopping(op: Option<nat>) | Down(op: Option<nat>)

  datatype Server = Server(d: Daemon, stage: Stage, pending: map<nat, Request>)

  datatype ServerEvent =
    | Call(e: Event)
    | Dispatch(k: nat, r: Request)
    | Arrive(k: nat, unexpired: bool, expired: bool)
    | Stop(expired: bool)
    | Close(answers: Line -> Reply)
    | LetGo

  const DAEMON := "daemon"

  function Open(channels: seq<int>): Server {
    Server(Start(channels), Serving, map[])
  }

  function ArrivalOf(r: Request, unexpired: bool, expired: bool): Event {
    BeginWrite(r.client, r.job, r.auth, r.lease, unexpired, expired)
  }

  // Calls in flight go on at every stage; only a serving daemon is given new writes; and the
  // daemon's own token never becomes a lease.
  predicate Admits(stage: Stage, e: Event) {
    match e
    case BeginWrite(_, _, _, _, _, _) => stage.Serving?
    case RecordLease(id) => stage.Serving? || stage.op != Some(id)
    case _ => true
  }

  // The ten-second wait for every channel is over, one way or the other.
  predicate WaitIsOver(d: Daemon, op: Option<nat>) {
    match op
    case None => true
    case Some(id) => id !in d.ops || (d.ops[id].Leasing? && d.ops[id].granted)
  }

  // `self.locks.release(token)`
  function LettingGo(d: Daemon, op: Option<nat>): Daemon {
    match op
    case None => d
    case Some(id) => if id in d.ops && d.ops[id].Leasing? && d.ops[id].granted then DoUnlock(d, id, d.ops[id]) else d
  }

  function Serve(v: Server, e: ServerEvent): Server {
    match e
    case Call(call) => if Admits(v.stage, call) then v.(d := Step(v.d, call)) else v
    case Dispatch(k, r) => if v.stage.Serving? then v.(pending := v.pending[k := r]) else v
    case Arrive(k, unexpired, expired) =>
      if k in v.pending
      then v.(d := Step(v.d, ArrivalOf(v.pending[k], unexpired, expired)), pending := v.pending - {k}) else v
    case Stop(expired) =>
      if v.stage.Serving? then
        var d := Step(v.d, BeginLease(DAEMON, expired));
        v.(d := d, stage := Stopping(if v.d.nextOp in d.ops then Some(v.d.nextOp) else None))
      else v
    case Close(answers) =>
      if v.stage.Stopping? && WaitIsOver(v.d, v.stage.op)
      then v.(d := v.d.(hub := Closed(v.d.hub, true, true, answers)), stage := Down(v.stage.op)) else v
    case LetGo => if v.stage.Down? then v.(d := LettingGo(v.d, v.stage.op), stage := Down(None)) else v
  }

  function Run(v: Server, es: seq<ServerEvent>): Server {
    if es == [] then v else Serve(Run(v, es[..|es| - 1]), es[|es| - 1])
  }

  // The fault model of HubProtocol, and restoring commands that take effect.
  ghost predicate Fair(v: Server, e: ServerEvent) {
    match e
    case Call(call) => Admits(v.stage, call) ==> Benign(v.d, call)
    case Arrive(k, unexpired, expired) => k in v.pending ==> Benign(v.d, ArrivalOf(v.pending[k], unexpired, expired))
    case Close(answers) => forall l :: answers(l).Effective()
    case _ => true
  }

  ghost predicate FairRun(v: Server, es: seq<ServerEvent>) {
    es == [] || (FairRun(v, es[..|es| - 1]) && Fair(Run(v, es[..|es| - 1]), es[|es| - 1]))
  }

  // ---------------------------------------------------------------- the invariant goes on

  lemma LettingGoIsSound(d: Daemon, op: Option<nat>)
    requires P.Sound(d)
    ensures P.Sound(LettingGo(d, op)) && LettingGo(d, op).hub == d.hub
  {
    if op.Some? && op.value in d.ops && d.ops[op.value].Leasing? && d.ops[op.value].granted {
      var id := op.value;
      var t := TicketOf(d.ops[id]).value;
      ReleaseFrame(d.locks, t);
      OwnTicketIsOnlyMine(d, id);
      KeysAfter(d, DoUnlock(d, id, d.ops[id]), id, t);
      SameDebts(d, DoUnlock(d, id, d.ops[id]), id);
      P.ReleaseAdds(d.locks, t);
      P.OwnedAfter(d, DoUnlock(d, id, d.ops[id]), id);
    }
  }

  lemma ClosingLightsEverything(h: Hub, answers: Line -> Reply)
    requires h.dark == h.ledger && forall l :: answers(l).Effective()
    ensures Closed(h, true, true, answers) == Hub({}, {})
  {}

  lemma ClosingIsSound(d: Daemon)
    requires P.Sound(d)
    ensures P.Sound(d.(hub := Hub({}, {})))
  {
    var d' := d.(hub := Hub({}, {}));
    forall id | id in d.ops ensures TicketOk(d', d.ops[id]) { assert TicketOk(d, d.ops[id]); }
    forall t | t in d.locks.held ensures P.Claimed(d', t) { assert P.Claimed(d, t); }
    forall t | L.IsWaiting(d.locks, t) ensures P.Awaited(d', t) { assert P.Awaited(d, t); }
  }

  lemma ServeIsSound(v: Server, e: ServerEvent)
    requires P.Sound(v.d) && Fair(v, e)
    ensures P.Sound(Serve(v, e).d)
  {
    match e {
      case Call(call) => if Admits(v.stage, call) { P.SoundStep(v.d, call); }
      case Arrive(k, unexpired, expired) =>
        if k in v.pending { P.SoundStep(v.d, ArrivalOf(v.pending[k], unexpired, expired)); }
      case Stop(expired) => P.SoundStep(v.d, BeginLease(DAEMON, expired));
      case Close(answers) =>
        ClosingLightsEverything(v.d.hub, answers);
        ClosingIsSound(v.d);
      case LetGo => if v.stage.Down? { LettingGoIsSound(v.d, v.stage.op); }
      case Dispatch(_, _) =>
    }
  }

  lemma StartIsSound(channels: seq<int>)
    ensures P.Sound(Start(channels))
  {}

  lemma {:induction false} FairRunsAreSound(channels: seq<int>, es: seq<ServerEvent>)
    requires FairRun(Open(channels), es)
    ensures P.Sound(Run(Open(channels), es).d)
  {
    if es == [] {
      StartIsSound(channels);
    } else {
      FairRunsAreSound(channels, es[..|es| - 1]);
      ServeIsSound(Run(Open(channels), es[..|es| - 1]), es[|es| - 1]);
    }
  }

  /** Whatever is in flight, and whether or not the daemon got the rack-wide lock, at the moment of
      closing every line it cut is back on and no line is owed. */
  lemma ClosedMeansLit(channels: seq<int>, es: seq<ServerEvent>, answers: Line -> Reply)
    requires FairRun(Open(channels), es) && forall l :: answers(l).Effective()
    requires var v := Run(Open(channels), es); v.stage.Stopping? && WaitIsOver(v.d, v.stage.op)
    ensures var v := Serve(Run(Open(channels), es), Close(answers));
            v.stage.Down? && v.d.hub == Hub({}, {}) && P.Sound(v.d)
  {
    var v := Run(Open(channels), es);
    FairRunsAreSound(channels, es);
    ClosingLightsEverything(v.d.hub, answers);
    ClosingIsSound(v.d);
  }

  // ---------------------------------------------------------------- what may still be cut

  // Some registry of live sessions lets the command through.
  predicate Passable(auth: Auth, cmd: Cmd) {
    !auth.mode.DryRun? && (auth.confirm || cmd.forced || (auth.mode.Allow? && !(auth.named && cmd.primary)))
  }

  lemma PassableIff(auth: Auth, cmd: Cmd)
    ensures Passable(auth, cmd) <==> exists live :: CmdVerdict(auth, cmd, live) == G.Apply
    ensures Passable(auth, cmd) <==> CmdVerdict(auth, cmd, {}) == G.Apply
  {
    if Passable(auth, cmd) { assert CmdVerdict(auth, cmd, {}) == G.Apply; }
  }

  // An "off" the guard may let through is among these commands, and the first of them does not end
  // the call.
  ghost predicate MayCut(auth: Auth, todo: seq<Cmd>) {
    && todo != [] && (todo[0].primary ==> Passable(auth, todo[0]))
    && exists k :: 0 <= k < |todo| && !todo[k].on && Passable(auth, todo[k])
  }

  ghost predicate OpMayCut(op: Op, channels: seq<int>) {
    op.Write? && match op.phase
                 case Queued => MayCut(op.auth, Script(op.job, channels))
                 case Acting(todo) => MayCut(op.auth, todo)
                 case _ => false
  }

  ghost predicate Cutters(d: Daemon) {
    exists id :: id in d.ops && OpMayCut(d.ops[id], d.channels)
  }

  ghost predicate CutsToCome(v: Server) {
    || Cutters(v.d)
    || exists k :: k in v.pending && MayCut(v.pending[k].auth, Script(v.pending[k].job, v.d.channels))
  }

  // ---------------------------------------------------------------- nothing to cut, nothing goes dark

  lemma HarmlessRest(w: Op, live: set<int>, reply: Reply)
    requires w.Write? && w.phase.Acting? && w.phase.todo != [] && !MayCut(w.auth, w.phase.todo)
    ensures var todo := w.phase.todo; var d := CmdVerdict(w.auth, todo[0], live);
            && (d == G.Apply ==> todo[0].on)
            && var w' := AfterCmd(w, todo[0], todo[1..], SwitchOutcome(d, reply));
               w'.phase.Acting? ==> !MayCut(w'.auth, w'.phase.todo)
  {
    var todo := w.phase.todo;
    PassableIff(w.auth, todo[0]);
    var rest := todo[1..];
    if k :| 0 <= k < |rest| && !rest[k].on && Passable(w.auth, rest[k]) {
      assert !todo[k + 1].on && Passable(w.auth, todo[k + 1]);
    }
  }

  lemma ActIsHarmless(d: Daemon, id: nat, reply: Reply)
    requires !Cutters(d) && CanAct(d, id)
    ensures var d' := DoAct(d, id, d.ops[id], reply); !Cutters(d') && d'.hub.dark <= d.hub.dark
  {
    var w := d.ops[id];
    assert !OpMayCut(w, d.channels);
    HarmlessRest(w, d.live, reply);
    var d' := DoAct(d, id, w, reply);
    forall j | j in d'.ops ensures !OpMayCut(d'.ops[j], d'.channels) {
      if j != id { assert !OpMayCut(d.ops[j], d.channels); }
    }
  }

  lemma WokenIsHarmless(d: Daemon, id: nat, locks: L.Locks, verdict: L.Verdict)
    requires !Cutters(d) && CanWake(d, id)
    ensures var d' := Woken(d, id, d.ops[id], locks, verdict); !Cutters(d') && d'.hub == d.hub
  {
    var d' := Woken(d, id, d.ops[id], locks, verdict);
    forall j | j in d'.ops ensures !OpMayCut(d'.ops[j], d'.channels) {
      assert !OpMayCut(d.ops[j], d.channels);
    }
  }

  lemma QuietIsHarmless(d: Daemon, d': Daemon)
    requires !Cutters(d) && A.Quiet(d, d')
    ensures !Cutters(d')
  {
    forall j | j in d'.ops ensures !OpMayCut(d'.ops[j], d'.channels) {
      if j in d.ops { assert !OpMayCut(d.ops[j], d.channels); }
    }
  }

  lemma StepIsHarmless(d: Daemon, e: Event)
    requires !Cutters(d) && !e.BeginWrite?
    ensures !Cutters(Step(d, e)) && Step(d, e).hub.dark <= d.hub.dark && Step(d, e).channels == d.channels
  {
    match e {
      case Act(id, reply) => if CanAct(d, id) { ActIsHarmless(d, id, reply); }
      case Wake(id, expired) =>
        if CanWake(d, id) {
          var t := TicketOf(d.ops[id]).value;
          var i := L.Position(d.locks.waiting, t);
          if i < |d.locks.waiting| {
            WokenIsHarmless(d, id, L.LockStep(d.locks, L.Wake(t, expired)), L.VerdictAt(d.locks, i, expired));
          }
        }
      case _ =>
        A.RestFields(d, e);
        QuietIsHarmless(d, Step(d, e));
    }
  }

  lemma BeginIsHarmless(d: Daemon, e: Event, locks: L.Locks, verdict: L.Verdict)
    requires !Cutters(d) && e.BeginWrite? && !MayCut(e.auth, Script(e.job, d.channels))
    ensures var d' := Begun(d, e, locks, verdict); !Cutters(d') && d'.hub == d.hub && d'.channels == d.channels
  {
    var d' := Begun(d, e, locks, verdict);
    forall j | j in d'.ops ensures !OpMayCut(d'.ops[j], d'.channels) {
      if j in d.ops { assert !OpMayCut(d.ops[j], d.channels); }
    }
  }

  lemma LettingGoIsHarmless(d: Daemon, op: Option<nat>)
    requires !Cutters(d)
    ensures var d' := LettingGo(d, op); !Cutters(d') && d'.hub == d.hub && d'.channels == d.channels
  {
    var d' := LettingGo(d, op);
    forall j | j in d'.ops ensures !OpMayCut(d'.ops[j], d'.channels) { assert !OpMayCut(d.ops[j], d.channels); }
  }

  lemma ServeIsHarmless(v: Server, e: ServerEvent)
    requires v.stage.Down? && !CutsToCome(v)
    ensures var v' := Serve(v, e); v'.stage.Down? && !CutsToCome(v') && v'.d.hub.dark <= v.d.hub.dark
  {
    match e {
      case Call(call) =>
        if Admits(v.stage, call) {
          StepIsHarmless(v.d, call);
          StillNothingPending(v, Serve(v, e));
        }
      case Arrive(k, unexpired, expired) =>
        if k in v.pending {
          var begin := ArrivalOf(v.pending[k], unexpired, expired);
          var r := JobRequest(begin.job);
          BeginIsHarmless(v.d, begin, L.LockStep(v.d.locks, L.Enter(r, expired)), L.EntryVerdict(v.d.locks, r, expired));
          StillNothingPending(v, Serve(v, e));
        }
      case LetGo =>
        LettingGoIsHarmless(v.d, v.stage.op);
        StillNothingPending(v, Serve(v, e));
      case _ =>
    }
  }

  lemma StillNothingPending(v: Server, v': Server)
    requires !CutsToCome(v) && !Cutters(v'.d) && v'.d.channels == v.d.channels
    requires forall k :: k in v'.pending ==> k in v.pending && v'.pending[k] == v.pending[k]
    ensures !CutsToCome(v')
  {
    forall k | k in v'.pending ensures !MayCut(v'.pending[k].auth, Script(v'.pending[k].job, v'.d.channels)) {
      assert k in v.pending;
    }
  }

  /** Once the hub is closed, and if no call left running has an "off" to come that the guard may let
      through, nothing goes dark any more, whatever those calls do and whatever the hub answers. */
  lemma {:induction false} NothingLeftNothingGoesDark(v: Server, more: seq<ServerEvent>)
    requires v.stage.Down? && !CutsToCome(v)
    ensures Run(v, more).d.hub.dark <= v.d.hub.dark
    ensures Run(v, more).stage.Down? && !CutsToCome(Run(v, more))
  {
    if more != [] {
      NothingLeftNothingGoesDark(v, more[..|more| - 1]);
      ServeIsHarmless(Run(v, more[..|more| - 1]), more[|more| - 1]);
    }
  }

  // ---------------------------------------------------------------- and otherwise something can

  // A fair run from v0, with the server it has reached.
  ghost predicate Reached(v0: Server, es: seq<ServerEvent>, v: Server) {
    Run(v0, es) == v && FairRun(v0, es)
  }

  lemma Grow(v0: Server, es: seq<ServerEvent>, v: Server, e: ServerEvent) returns (longer: seq<ServerEvent>, v': Server)
    requires Reached(v0, es, v) && Fair(v, e)
    ensures longer == es + [e] && v' == Serve(v, e) && Reached(v0, longer, v')
  {
    longer, v' := es + [e], Serve(v, e);
    assert longer[..|es|] == es;
  }

  // A fair run once the daemon's own token is gone, in the daemon's terms.
  ghost predicate Going(v0: Server, es: seq<ServerEvent>, v: Server) {
    Reached(v0, es, v) && v.stage == Down(None) && P.Sound(v.d)
  }

  lemma Continue(v0: Server, es: seq<ServerEvent>, v: Server, e: Event) returns (longer: seq<ServerEvent>, v': Server)
    requires Going(v0, es, v) && !e.BeginWrite? && Benign(v.d, e)
    ensures Going(v0, longer, v') && v' == v.(d := Step(v.d, e))
  {
    longer, v' := Grow(v0, es, v, Call(e));
    P.SoundStep(v.d, e);
  }

  // One turn of another operation, or the end of a lease, leaves this one where it is.
  ghost predicate Leaves(d: Daemon, d': Daemon, id: nat) {
    d'.channels == d.channels && id in d.ops && id in d'.ops && d'.ops[id] == d.ops[id]
  }

  lemma OtherWriteLeaves(d: Daemon, id: nat, j: nat, e: Event)
    requires id in d.ops && j != id && (e == Act(j, Acked) || e == Report(j) || e == Unlock(j))
    ensures Leaves(d, Step(d, e), id)
  {}

  lemma OtherReleaseLeaves(d: Daemon, id: nat, j: nat, e: Event)
    requires id in d.ops && j != id
    requires e == MergeBack(j) || (e.Restore? && e.op == j) || e == RecordLease(j)
    ensures Leaves(d, Step(d, e), id)
  {}

  lemma OtherQueuesLeaves(d: Daemon, id: nat, j: nat)
    requires id in d.ops && j in d.ops && j != id && d.ops[j].Repay? && d.ops[j].stage.Popped?
    ensures Leaves(d, Step(d, QueueRelease(j, false)), id)
  {
    var r := L.Only(Chans(d.ops[j].wanted));
    assert Leaves(d, ReleaseQueued(d, j, d.ops[j], L.LockStep(d.locks, L.Enter(r, false)), L.EntryVerdict(d.locks, r, false)), id);
  }

  lemma NextLeaves(d: Daemon, id: nat, j: nat)
    requires id in d.ops && j in d.ops && j != id && !Waiting(d.ops[j])
    ensures Leaves(d, Step(d, P.NextOf(d, j)), id)
  {
    var e := P.NextOf(d, j);
    match e {
      case Act(_, _) => OtherWriteLeaves(d, id, j, e);
      case Report(_) => OtherWriteLeaves(d, id, j, e);
      case Unlock(_) => OtherWriteLeaves(d, id, j, e);
      case QueueRelease(_, _) => OtherQueuesLeaves(d, id, j);
      case _ => OtherReleaseLeaves(d, id, j, e);
    }
  }

  lemma GrantedWakes(d: Daemon, id: nat, j: nat, locks: L.Locks)
    requires id in d.ops && CanWake(d, j)
    ensures var d' := Woken(d, j, d.ops[j], locks, L.Granted);
            d'.channels == d.channels && id in d'.ops && d'.ops[id] == if j == id then Proceeds(d.ops[j], d.channels) else d.ops[id]
  {}

  // With everybody asleep, the head of the queue goes on, be it this operation or another.
  lemma HeadGoes(d: Daemon, id: nat) returns (j: nat)
    requires P.Sound(d) && P.AllAsleep(d) && d.leases == map[] && id in d.ops
    ensures P.Advances(d, Wake(j, false)) && Benign(d, Wake(j, false))
    ensures var d' := Step(d, Wake(j, false));
            d'.channels == d.channels && id in d'.ops && d'.ops[id] == if j == id then Proceeds(d.ops[id], d.channels) else d.ops[id]
  {
    j := P.HeadHasAnOwner(d, id);
    var t := d.locks.waiting[0].ticket;
    assert L.Position(d.locks.waiting, t) == 0;
    assert L.VerdictAt(d.locks, 0, false).Granted?;
    P.WakingAdvances(d, j, L.LockStep(d.locks, L.Wake(t, false)));
    GrantedWakes(d, id, j, L.LockStep(d.locks, L.Wake(t, false)));
  }

  // A write in the queue gets its channels in the end, with no timeout.
  lemma GetsItsTurn(v0: Server, es: seq<ServerEvent>, v: Server, id: nat) returns (longer: seq<ServerEvent>, v': Server)
    requires Going(v0, es, v) && id in v.d.ops && v.d.ops[id].Write? && v.d.ops[id].phase.Queued?
    ensures Going(v0, longer, v') && v'.d.channels == v.d.channels
    ensures id in v'.d.ops && v'.d.ops[id] == Proceeds(v.d.ops[id], v.d.channels)
    decreases P.ToDo(v.d)
  {
    var e: Event;
    if j :| j in v.d.ops && !Waiting(v.d.ops[j]) {
      P.NextAdvances(v.d, j);
      NextLeaves(v.d, id, j);
      e := P.NextOf(v.d, j);
    } else if k :| k in v.d.leases {
      P.DroppingAdvances(v.d, k);
      e := DropLease(k);
    } else {
      var j := HeadGoes(v.d, id);
      e := Wake(j, false);
    }
    longer, v' := Continue(v0, es, v, e);
    if v'.d.ops[id] == v.d.ops[id] {
      longer, v' := GetsItsTurn(v0, longer, v', id);
    }
  }

  // A command the guard lets through, acknowledged.
  lemma CutDarkens(d: Daemon, id: nat)
    requires CanAct(d, id) && d.live == {}
    requires var cmd := d.ops[id].phase.todo[0]; !cmd.on && Passable(d.ops[id].auth, cmd)
    ensures Step(d, Act(id, Acked)).hub.dark != {}
  {
    var w := d.ops[id];
    var cmd := w.phase.todo[0];
    PassableIff(w.auth, cmd);
    assert cmd.line in Switched(d.hub, cmd.line, false, G.Apply, Acked).dark;
    assert cmd.line in DoAct(d, id, w, Acked).hub.dark;
  }

  // Of an isolation, the target's own switch leads on to the neighbours.
  lemma OnLeadsToCuts(d: Daemon, id: nat)
    requires P.Sound(d) && CanAct(d, id) && d.live == {} && MayCut(d.ops[id].auth, d.ops[id].phase.todo)
    requires d.ops[id].phase.todo[0].on
    ensures var d' := Step(d, Act(id, Acked));
            CanAct(d', id) && d'.live == {} && !d'.ops[id].phase.todo[0].on && Passable(d'.ops[id].auth, d'.ops[id].phase.todo[0])
  {
    var w := d.ops[id];
    var todo := w.phase.todo;
    assert Shape(w) && CmdsOk(w, todo);
    PassableIff(w.auth, todo[0]);
    var k :| 0 <= k < |todo| && !todo[k].on && Passable(w.auth, todo[k]);
    assert w.job.SetLine? && IsNeighbour(w.job, todo[k]) && IsNeighbour(w.job, todo[1]);
    var rest := todo[1..];
    assert rest[0] == todo[1];
    assert DoAct(d, id, w, Acked).ops[id] == AfterCmd(w, todo[0], rest, Applied);
  }

  lemma FirstOffIsPassable(w: Op)
    requires w.Write? && w.phase.Acting? && WriteShape(w) && MayCut(w.auth, w.phase.todo) && !w.phase.todo[0].on
    ensures Passable(w.auth, w.phase.todo[0])
  {
    var todo := w.phase.todo;
    assert CmdsOk(w, todo);
    if !todo[0].primary {
      var k :| 0 <= k < |todo| && !todo[k].on && Passable(w.auth, todo[k]);
      assert w.job.SetLine? && IsNeighbour(w.job, todo[0]);
      assert k > 0 ==> IsNeighbour(w.job, todo[k]);
    }
  }

  lemma ActingGoesDark(v0: Server, es: seq<ServerEvent>, v: Server, id: nat) returns (longer: seq<ServerEvent>, v': Server)
    requires Going(v0, es, v) && CanAct(v.d, id) && MayCut(v.d.ops[id].auth, v.d.ops[id].phase.todo)
    ensures Reached(v0, longer, v') && v'.d.hub.dark != {}
  {
    longer, v' := Continue(v0, es, v, Heartbeat({}));
    if v'.d.ops[id].phase.todo[0].on {
      OnLeadsToCuts(v'.d, id);
      longer, v' := Continue(v0, longer, v', Act(id, Acked));
    } else {
      assert Shape(v'.d.ops[id]);
      FirstOffIsPassable(v'.d.ops[id]);
    }
    CutDarkens(v'.d, id);
    longer, v' := Continue(v0, longer, v', Act(id, Acked));
  }

  lemma OpGoesDark(v0: Server, es: seq<ServerEvent>, v: Server, id: nat) returns (longer: seq<ServerEvent>, v': Server)
    requires Going(v0, es, v) && id in v.d.ops && OpMayCut(v.d.ops[id], v.d.channels)
    ensures Reached(v0, longer, v') && v'.d.hub.dark != {}
  {
    longer, v' := es, v;
    if v.d.ops[id].phase.Queued? {
      longer, v' := GetsItsTurn(v0, es, v, id);
    }
    longer, v' := ActingGoesDark(v0, longer, v', id);
  }

  // A write still to arrive is queued or granted, and then in flight.
  lemma ArrivesInFlight(d: Daemon, r: Request, locks: L.Locks, verdict: L.Verdict)
    requires MayCut(r.auth, Script(r.job, d.channels)) && !verdict.TimedOut?
    ensures var d' := Begun(d, ArrivalOf(r, false, false), locks, verdict);
            d.nextOp in d'.ops && OpMayCut(d'.ops[d.nextOp], d'.channels)
  {}

  lemma PendingGoesDark(v0: Server, es: seq<ServerEvent>, v: Server, k: nat) returns (longer: seq<ServerEvent>, v': Server)
    requires Going(v0, es, v) && k in v.pending && MayCut(v.pending[k].auth, Script(v.pending[k].job, v.d.channels))
    ensures Reached(v0, longer, v') && v'.d.hub.dark != {}
  {
    var r := v.pending[k];
    var wanted := JobRequest(r.job);
    longer, v' := Grow(v0, es, v, Arrive(k, false, false));
    P.SoundStep(v.d, ArrivalOf(r, false, false));
    ArrivesInFlight(v.d, r, L.LockStep(v.d.locks, L.Enter(wanted, false)), L.EntryVerdict(v.d.locks, wanted, false));
    longer, v' := OpGoesDark(v0, longer, v', v.d.nextOp);
  }

  lemma LettingGoKeepsWrites(d: Daemon, op: Option<nat>)
    ensures var d' := LettingGo(d, op);
            d'.channels == d.channels && forall id :: id in d.ops && d.ops[id].Write? ==> id in d'.ops && d'.ops[id] == d.ops[id]
  {}

  lemma CuttersStay(v: Server, v': Server)
    requires CutsToCome(v) && v'.pending == v.pending && v'.d.channels == v.d.channels
    requires forall id :: id in v.d.ops && v.d.ops[id].Write? ==> id in v'.d.ops && v'.d.ops[id] == v.d.ops[id]
    ensures CutsToCome(v')
  {
    if id :| id in v.d.ops && OpMayCut(v.d.ops[id], v.d.channels) {
      assert OpMayCut(v'.d.ops[id], v'.d.channels);
    }
  }

  // The daemon's own token is let go first; no write is any the wiser.
  lemma AfterLettingGo(v: Server) returns (es: seq<ServerEvent>, v': Server)
    requires P.Sound(v.d) && v.stage.Down? && CutsToCome(v)
    ensures Going(v, es, v') && CutsToCome(v')
  {
    es, v' := Grow(v, [], v, LetGo);
    LettingGoIsSound(v.d, v.stage.op);
    LettingGoKeepsWrites(v.d, v.stage.op);
    CuttersStay(v, v');
  }

  lemma SomethingGoesDark(v: Server) returns (more: seq<ServerEvent>)
    requires P.Sound(v.d) && v.stage.Down? && CutsToCome(v)
    ensures FairRun(v, more) && Run(v, more).d.hub.dark != {}
  {
    var es, v1 := AfterLettingGo(v);
    var v';
    if id :| id in v1.d.ops && OpMayCut(v1.d.ops[id], v1.d.channels) {
      more, v' := OpGoesDark(v, es, v1, id);
    } else {
      var k :| k in v1.pending && MayCut(v1.pending[k].auth, Script(v1.pending[k].job, v1.d.channels));
      more, v' := PendingGoesDark(v, es, v1, k);
    }
  }

  ghost predicate CanGoDark(v: Server) {
    exists more :: FairRun(v, more) && Run(v, more).d.hub.dark != {}
  }

  /** What a stop guarantees. Closing lights everything; and after it a line can go dark again exactly
      when some write left behind, running, queued or still to arrive, has an "off" to come that the
      guard may let through. */
  lemma StopIsFinalIff(channels: seq<int>, es: seq<ServerEvent>, answers: Line -> Reply)
    requires FairRun(Open(channels), es) && forall l :: answers(l).Effective()
    requires var v := Run(Open(channels), es); v.stage.Stopping? && WaitIsOver(v.d, v.stage.op)
    ensures var v := Serve(Run(Open(channels), es), Close(answers));
            v.stage.Down? && v.d.hub == Hub({}, {}) && (CanGoDark(v) <==> CutsToCome(v))
  {
    ClosedMeansLit(channels, es, answers);
    var v := Serve(Run(Open(channels), es), Close(answers));
    if CutsToCome(v) {
      var more := SomethingGoesDark(v);
    } else {
      forall more ensures Run(v, more).d.hub.dark == {} { NothingLeftNothingGoesDark(v, more); }
    }
  }

  // ---------------------------------------------------------------- with every channel in hand

  // A step's locks are the old ones or one lock step from them.
  lemma BegunLocks(d: Daemon, e: Event, locks: L.Locks, verdict: L.Verdict)
    requires e.BeginWrite?
    ensures Begun(d, e, locks, verdict).locks in {d.locks, locks}
  {}

  lemma ReleaseQueuedLocks(d: Daemon, id: nat, op: Op, locks: L.Locks, verdict: L.Verdict)
    requires op.Repay?
    ensures ReleaseQueued(d, id, op, locks, verdict).locks == locks
  {}

  lemma WokenLocks(d: Daemon, id: nat, op: Op, locks: L.Locks, verdict: L.Verdict)
    ensures Woken(d, id, op, locks, verdict).locks == locks
  {}

  lemma QueueingKeepsOrder(d: Daemon, e: Event)
    requires L.Inv(d.locks) && L.InOrder(d.locks) && (e.BeginWrite? || e.QueueRelease? || e.Wake?)
    ensures L.InOrder(Step(d, e).locks)
  {
    match e {
      case BeginWrite(_, job, _, _, _, expired) =>
        var r := JobRequest(job);
        L.StepKeepsOrder(d.locks, L.Enter(r, expired));
        BegunLocks(d, e, L.LockStep(d.locks, L.Enter(r, expired)), L.EntryVerdict(d.locks, r, expired));
      case QueueRelease(id, expired) =>
        if id in d.ops && d.ops[id].Repay? {
          var r := L.Only(Chans(d.ops[id].wanted));
          L.StepKeepsOrder(d.locks, L.Enter(r, expired));
          ReleaseQueuedLocks(d, id, d.ops[id], L.LockStep(d.locks, L.Enter(r, expired)), L.EntryVerdict(d.locks, r, expired));
        }
      case Wake(id, expired) =>
        if CanWake(d, id) {
          var t := TicketOf(d.ops[id]).value;
          var i := L.Position(d.locks.waiting, t);
          if i < |d.locks.waiting| {
            L.StepKeepsOrder(d.locks, L.Wake(t, expired));
            WokenLocks(d, id, d.ops[id], L.LockStep(d.locks, L.Wake(t, expired)), L.VerdictAt(d.locks, i, expired));
          }
        }
    }
  }

  lemma StepKeepsOrder(d: Daemon, e: Event)
    requires L.Inv(d.locks) && L.InOrder(d.locks)
    ensures L.InOrder(Step(d, e).locks)
  {
    match e {
      case BeginWrite(_, _, _, _, _, _) => QueueingKeepsOrder(d, e);
      case QueueRelease(_, _) => QueueingKeepsOrder(d, e);
      case Wake(_, _) => QueueingKeepsOrder(d, e);
      case BeginLease(_, expired) => L.StepKeepsOrder(d.locks, L.Enter(L.All, expired));
      case Unlock(id) =>
        if CanUnlock(d, id) && TicketOf(d.ops[id]).Some? { L.StepKeepsOrder(d.locks, L.Release(TicketOf(d.ops[id]).value)); }
      case DropLease(k) => if k in d.leases { L.StepKeepsOrder(d.locks, L.Release(d.leases[k].ticket)); }
      case _ =>
    }
  }

  lemma ServeKeepsOrder(v: Server, e: ServerEvent)
    requires L.Inv(v.d.locks) && L.InOrder(v.d.locks)
    ensures L.InOrder(Serve(v, e).d.locks)
  {
    match e {
      case Call(call) => StepKeepsOrder(v.d, call);
      case Arrive(k, unexpired, expired) =>
        if k in v.pending { StepKeepsOrder(v.d, ArrivalOf(v.pending[k], unexpired, expired)); }
      case Stop(expired) => StepKeepsOrder(v.d, BeginLease(DAEMON, expired));
      case LetGo =>
        if v.stage.Down? && v.stage.op.Some? && v.stage.op.value in v.d.ops && v.d.ops[v.stage.op.value].Leasing? {
          L.StepKeepsOrder(v.d.locks, L.Release(v.d.ops[v.stage.op.value].ticket));
        }
      case _ =>
    }
  }

  lemma {:induction false} FairRunsAreInOrder(channels: seq<int>, es: seq<ServerEvent>)
    requires FairRun(Open(channels), es)
    ensures L.InOrder(Run(Open(channels), es).d.locks)
  {
    if es != [] {
      FairRunsAreInOrder(channels, es[..|es| - 1]);
      FairRunsAreSound(channels, es[..|es| - 1]);
      ServeKeepsOrder(Run(Open(channels), es[..|es| - 1]), es[|es| - 1]);
    }
  }

  // The daemon waits with ticket t, and every write there is came before it.
  ghost predicate WaitsLast(d: Daemon, id: nat, t: L.Ticket) {
    && id < d.nextOp
    && (id in d.ops ==> d.ops[id].Leasing? && d.ops[id].ticket == t)
    && forall j :: j in d.ops && d.ops[j].Write? && d.ops[j].key.Ticket? ==> d.ops[j].key.t < t
  }

  lemma WokenWaitsLast(d: Daemon, id: nat, t: L.Ticket, j: nat, locks: L.Locks, verdict: L.Verdict)
    requires WaitsLast(d, id, t) && CanWake(d, j)
    ensures WaitsLast(Woken(d, j, d.ops[j], locks, verdict), id, t)
  {}

  lemma StepWaitsLast(d: Daemon, e: Event, id: nat, t: L.Ticket)
    requires WaitsLast(d, id, t) && !e.BeginWrite? && (forall j :: j in d.ops ==> j < d.nextOp)
    ensures WaitsLast(Step(d, e), id, t)
  {
    match e {
      case Act(_, _) =>
      case Wake(j, expired) =>
        if CanWake(d, j) {
          var u := TicketOf(d.ops[j]).value;
          var i := L.Position(d.locks.waiting, u);
          if i < |d.locks.waiting| {
            WokenWaitsLast(d, id, t, j, L.LockStep(d.locks, L.Wake(u, expired)), L.VerdictAt(d.locks, i, expired));
          }
        }
      case _ =>
        A.RestFields(d, e);
        LeasingStays(d, e, id);
    }
  }

  lemma LeasingStays(d: Daemon, e: Event, id: nat)
    requires !e.BeginWrite? && !e.Act? && !e.Wake? && (forall j :: j in d.ops ==> j < d.nextOp) && id < d.nextOp
    ensures id in Step(d, e).ops && (id in d.ops ==> d.ops[id].Leasing?) ==> id in d.ops && Step(d, e).ops[id] == d.ops[id]
  {
    match e {
      case BeginLease(c, expired) =>
        var d' := LeaseBegun(d, c, L.LockStep(d.locks, L.Enter(L.All, expired)), L.EntryVerdict(d.locks, L.All, expired));
        assert id in d'.ops ==> id in d.ops;
      case _ =>
    }
  }

  // Until the hub is closed, with nothing left to arrive.
  ghost predicate Waits(v: Server, id: nat, t: L.Ticket) {
    v.pending == map[] && !v.stage.Serving? && (v.stage.Stopping? ==> WaitsLast(v.d, id, t))
  }

  lemma {:induction false} WaitsToTheEnd(v: Server, during: seq<ServerEvent>, id: nat, t: L.Ticket)
    requires P.Sound(v.d) && Waits(v, id, t) && FairRun(v, during)
    ensures Waits(Run(v, during), id, t) && P.Sound(Run(v, during).d)
  {
    if during != [] {
      var m, e := Run(v, during[..|during| - 1]), during[|during| - 1];
      WaitsToTheEnd(v, during[..|during| - 1], id, t);
      ServeIsSound(m, e);
      if m.stage.Stopping? && e.Call? && Admits(m.stage, e.e) { StepWaitsLast(m.d, e.e, id, t); }
    }
  }

  // Nobody else has a channel, and whoever waits came later: so no write is left that came before.
  lemma GrantedMeansNoWrites(d: Daemon, id: nat)
    requires P.Sound(d) && L.InOrder(d.locks)
    requires id in d.ops && d.ops[id].Leasing? && d.ops[id].granted && WaitsLast(d, id, d.ops[id].ticket)
    ensures !Cutters(d)
  {
    var t := d.ops[id].ticket;
    assert TicketOk(d, d.ops[id]);
    forall j | j in d.ops ensures !OpMayCut(d.ops[j], d.channels) {
      var op := d.ops[j];
      assert TicketOk(d, op);
      if op.Write? && op.phase.Queued? {
        assert Shape(op);
        QueuedCameBefore(d, j, t);
      } else if op.Write? {
        var c := if op.job.SetLine? then op.job.line.chan else op.job.chan;
        OneHolderPerChannel(d, id, j, c);
      }
    }
  }

  lemma QueuedCameBefore(d: Daemon, j: nat, t: L.Ticket)
    requires j in d.ops && d.ops[j].Write? && d.ops[j].phase.Queued? && TicketOk(d, d.ops[j])
    requires L.InOrder(d.locks) && t in d.locks.held && d.locks.held[t].All?
    ensures d.ops[j].key.Ticket? && d.ops[j].key.t > t
  {
    var u := TicketOf(d.ops[j]).value;
    var i :| 0 <= i < |d.locks.waiting| && d.locks.waiting[i].ticket == u;
  }

  // The daemon stopped serving with nothing on its way, and got its rack-wide lock.
  ghost predicate LockedStop(v0: Server, expired: bool, during: seq<ServerEvent>) {
    var v1 := Serve(v0, Stop(expired));
    var v := Run(v1, during);
    && v0.stage.Serving? && v0.pending == map[] && FairRun(v1, during)
    && v.stage.Stopping? && v.stage.op.Some? && v.stage.op.value in v.d.ops && WaitIsOver(v.d, v.stage.op)
  }

  lemma LockedStopWaitsLast(v0: Server, expired: bool, during: seq<ServerEvent>)
    requires P.Sound(v0.d) && LockedStop(v0, expired, during)
    ensures var v := Run(Serve(v0, Stop(expired)), during); var id := v.stage.op.value;
            P.Sound(v.d) && id in v.d.ops && v.d.ops[id].Leasing? && v.d.ops[id].granted && WaitsLast(v.d, id, v.d.ops[id].ticket)
  {
    var v1 := Serve(v0, Stop(expired));
    var id := v0.d.nextOp;
    ServeIsSound(v0, Stop(expired));
    StopsForGood(v1, during);
    LastInTheQueue(v0.d, expired);
    WaitsToTheEnd(v1, during, id, v0.d.locks.next);
  }

  lemma ClosingAddsNoCut(v: Server, answers: Line -> Reply)
    requires v.stage.Stopping? && WaitIsOver(v.d, v.stage.op) && v.pending == map[] && !Cutters(v.d)
    ensures Serve(v, Close(answers)).stage.Down? && !CutsToCome(Serve(v, Close(answers)))
  {
    var v' := Serve(v, Close(answers));
    forall j | j in v'.d.ops ensures !OpMayCut(v'.d.ops[j], v'.d.channels) { assert !OpMayCut(v.d.ops[j], v.d.channels); }
  }

  lemma {:induction false} NothingIsAddedWhileStopping(v: Server, during: seq<ServerEvent>)
    requires !v.stage.Serving? && v.pending == map[]
    ensures !Run(v, during).stage.Serving? && Run(v, during).pending == map[]
  {
    if during != [] { NothingIsAddedWhileStopping(v, during[..|during| - 1]); }
  }

  /** With every channel in hand a stop is final: if no write was still on its way to a thread when the
      daemon stopped serving, and the daemon then got its rack-wide lock, no write is left, and nothing
      goes dark after the hub is closed, whatever else goes on. */
  lemma LockedStopIsFinal(channels: seq<int>, es: seq<ServerEvent>, expired: bool, during: seq<ServerEvent>,
                          answers: Line -> Reply, more: seq<ServerEvent>)
    requires FairRun(Open(channels), es) && LockedStop(Run(Open(channels), es), expired, during)
    ensures var v := Serve(Run(Serve(Run(Open(channels), es), Stop(expired)), during), Close(answers));
            v.stage.Down? && !CutsToCome(v) && Run(v, more).d.hub.dark <= v.d.hub.dark
  {
    var v0 := Run(Open(channels), es);
    var v := Run(Serve(v0, Stop(expired)), during);
    FairRunsAreSound(channels, es);
    LockedStopWaitsLast(v0, expired, during);
    RunJoins(Open(channels), es, Stop(expired), during);
    FairRunsAreInOrder(channels, es + [Stop(expired)] + during);
    GrantedMeansNoWrites(v.d, v.stage.op.value);
    NothingIsAddedWhileStopping(Serve(v0, Stop(expired)), during);
    ClosingAddsNoCut(v, answers);
    NothingLeftNothingGoesDark(Serve(v, Close(answers)), more);
  }

  lemma LastInTheQueue(d: Daemon, expired: bool)
    requires P.Sound(d)
    ensures var d' := Step(d, BeginLease(DAEMON, expired)); d.nextOp in d'.ops ==> WaitsLast(d', d.nextOp, d.locks.next)
  {
    TicketsAreOld(d);
    var d' := LeaseBegun(d, DAEMON, L.LockStep(d.locks, L.Enter(L.All, expired)), L.EntryVerdict(d.locks, L.All, expired));
    assert d' == Step(d, BeginLease(DAEMON, expired));
    forall j | j in d'.ops && d'.ops[j].Write? && d'.ops[j].key.Ticket? ensures d'.ops[j].key.t < d.locks.next {
      assert j in d.ops && TicketOf(d.ops[j]) == Some(d.ops[j].key.t);
    }
  }

  // Nothing but closing moves a stopping daemon on.
  lemma {:induction false} StopsForGood(v: Server, during: seq<ServerEvent>)
    requires v.stage.Stopping?
    ensures var s := Run(v, during).stage; (s.Stopping? ==> s == v.stage) && !s.Serving?
  {
    if during != [] { StopsForGood(v, during[..|during| - 1]); }
  }

  lemma {:induction false} RunJoins(v: Server, es: seq<ServerEvent>, e: ServerEvent, during: seq<ServerEvent>)
    requires FairRun(v, es) && Fair(Run(v, es), e) && FairRun(Serve(Run(v, es), e), during)
    ensures Run(v, es + [e] + during) == Run(Serve(Run(v, es), e), during) && FairRun(v, es + [e] + during)
  {
    var whole := es + [e] + during;
    var n := |whole| - 1;
    if during == [] {
      assert whole[..n] == es && whole[n] == e;
    } else {
      RunJoins(v, es, e, during[..|during| - 1]);
      assert whole[..n] == es + [e] + during[..|during| - 1] && whole[n] == during[|during| - 1];
    }
  }

  // ---------------------------------------------------------------- two stops that were not

  function AllAcked(l: Line): Reply { Acked }

  lemma StopTimesOut(d: Daemon, id: nat, op: Op)
    requires F.Alone(d, id, op)
    ensures var d' := Step(d, BeginLease(DAEMON, true)); d' == d.(locks := d'.locks)
  {
    L.GrantedOnEntryIffNothingOverlaps(d.locks, L.All, true);
    assert TicketOf(op).value in d.locks.held;
  }

  const RUNNING := Write(F.CLIENT, F.CUT, F.SURE, Ticket(0), Acting([Cmd(F.P1, false, true, false)]), {}, None)

  // The daemon stops beside it and closes the hub.
  lemma StopBesideARunningCut() returns (es: seq<ServerEvent>, v: Server)
    ensures Reached(Open([1]), es, v) && v.stage == Down(None)
    ensures v.d.ops == map[0 := RUNNING] && v.d.hub == Hub({}, {}) && v.d.owed == map[]
  {
    var v0 := Open([1]);
    var v1, v2;
    assert Script(F.CUT, [1]) == [Cmd(F.P1, false, true, false)];
    F.BeginOnIdle(v0.d, F.CLIENT, F.CUT);
    es, v1 := Grow(v0, [], v0, Call(F.Begin(F.CLIENT, F.CUT)));
    StopTimesOut(v1.d, 0, RUNNING);
    es, v2 := Grow(v0, es, v1, Stop(true));
    es, v := Grow(v0, es, v2, Close(AllAcked));
  }

  /** A cut that is running when the daemon stops outlasts its ten seconds: the hub is closed, nobody owes
      anything, and then the cut's own command goes out. No event of this run departs from the fault
      model. */
  lemma StopBesideARunningCutLeavesAPortDark() returns (es: seq<ServerEvent>)
    ensures FairRun(Open([1]), es) && Run(Open([1]), es).stage.Down?
    ensures var d := Run(Open([1]), es).d; d.hub.dark == {F.P1} && d.owed == map[]
  {
    var v, v';
    es, v := StopBesideARunningCut();
    F.ActOnce(v.d, 0, RUNNING, F.P1, false, Acked);
    es, v' := Grow(Open([1]), es, v, Call(Act(0, Acked)));
  }

  /** Nor does the rack-wide lock make a stop final while a call is still on its way: here the daemon gets
      its lock at once, closes, lets go, and the cut arrives. */
  lemma LockedStopMissesALateCut() returns (es: seq<ServerEvent>, more: seq<ServerEvent>)
    ensures FairRun(Open([1]), es)
    ensures var v := Run(Open([1]), es);
            && v.stage == Down(Some(0)) && v.d.hub == Hub({}, {}) && v.d.owed == map[]
            && v.d.locks.held == map[0 := L.All]
            && FairRun(v, more) && Run(v, more).d.hub.dark != {}
  {
    var v0 := Open([1]);
    var v1, v2, v3;
    es, v1 := Grow(v0, [], v0, Dispatch(0, Request(F.CLIENT, F.CUT, F.SURE, None)));
    F.LeaseOnIdle(v1.d, DAEMON);
    es, v2 := Grow(v0, es, v1, Stop(false));
    es, v3 := Grow(v0, es, v2, Close(AllAcked));
    FairRunsAreSound([1], es);
    assert Script(F.CUT, [1]) == [Cmd(F.P1, false, true, false)];
    assert Passable(F.SURE, Script(F.CUT, [1])[0]);
    assert MayCut(v3.pending[0].auth, Script(v3.pending[0].job, v3.d.channels));
    more := SomethingGoesDark(v3);
  }
}
