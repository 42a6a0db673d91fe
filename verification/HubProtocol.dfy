/**
The shared write protocol of the hub daemon (hub_daemon.py with hub_locks.py and hub.py): any
number of clients' switches, isolations, power cycles, releases and leases, interleaved at every
point where the daemon's threads give up a lock.

An operation in flight is one thread inside an RPC (or inside `maintain`). Each event below is
one section the code runs under a single mutex: a lock step of ChannelLocks, one hub command
under the manager's lock, or one update of the debt or lease tables under `_meta_lock`. An event
that does not apply to the current state is nobody's step and changes nothing, so every sequence
of events is a run.
*/
module HubProtocol {
  import opened Options
  import opened HubGuard
  import opened HubManager
  import L = HubLocks

  // ---------------------------------------------------------------- calls

  // `exclusive` matters to data lines only, as in `_rpc_data`.
  datatype Job = SetLine(line: Line, on: bool, exclusive: bool) | Cycle(chan: int)

  predicate Isolates(job: Job) {
    job.SetLine? && job.exclusive && job.line.kind.Data? && job.on
  }

  function JobRequest(job: Job): L.Request {
    match job
    case SetLine(line, _, exclusive) =>
      if exclusive && line.kind.Data? then L.All else L.Only({line.chan})
    case Cycle(c) => L.Only({c})
  }

  predicate Covers(r: L.Request, c: int) {
    r.All? || c in r.channels
  }

  // The terms of a call: its guard mode, `confirm`, and whether it names a live session.
  datatype Auth = Auth(mode: Mode, confirm: bool, named: bool)

  // One hub command of a call. A neighbour's command (`primary` false) may fail on its own;
  // the second half of a cycle confirms itself.
  datatype Cmd = Cmd(line: Line, on: bool, primary: bool, forced: bool)

  function CmdVerdict(auth: Auth, cmd: Cmd, live: set<int>): Decision {
    Verdict(auth.mode, auth.confirm || cmd.forced, auth.named && cmd.primary && !cmd.forced,
            cmd.on, cmd.line.chan in live)
  }

  function Script(job: Job, channels: seq<int>): seq<Cmd> {
    match job
    case Cycle(c) => [Cmd(Line(Power, c), false, true, false), Cmd(Line(Power, c), true, true, true)]
    case SetLine(line, on, _) =>
      [Cmd(line, on, true, false)] +
      if Isolates(job) then
        var others := Neighbours(channels, line.chan);
        seq(|others|, k requires 0 <= k < |others| => Cmd(Line(Data, others[k]), false, false, false))
      else []
  }

  // ---------------------------------------------------------------- operations in flight

  datatype Key = Ticket(t: L.Ticket) | UnderLease(lease: nat)

  datatype Phase = Queued | Acting(todo: seq<Cmd>) | Reporting | Unlocking
  datatype RepayPhase = Popped | RepayQueued | Restoring | Deferred

  // `cut`: lines this call switched off and has not accounted; `settled`: the line it switched
  // on. `debt`: what a release took out of the debt table and has neither paid nor put back.
  datatype Op =
    | Write(client: Client, job: Job, auth: Auth, key: Key, phase: Phase, cut: set<Line>, settled: Option<Line>)
    | Repay(client: Client, debt: set<Line>, wanted: set<Line>, ticket: L.Ticket, stage: RepayPhase)
    | Leasing(client: Client, ticket: L.Ticket, granted: bool)

  datatype Lease = Lease(client: Client, ticket: L.Ticket)

  // What the audit keeps of an applied cut.
  datatype CutRecord = CutRecord(op: nat, line: Line, auth: Auth, confirmed: bool, registered: bool)

  datatype Daemon = Daemon(
    locks: L.Locks,
    hub: Hub,
    channels: seq<int>,
    owed: map<Client, set<Line>>,
    leases: map<nat, Lease>,
    ops: map<nat, Op>,
    live: set<int>,
    calls: map<nat, Auth>,
    audit: seq<CutRecord>,
    nextOp: nat,
    nextLease: nat)

  function Start(channels: seq<int>): Daemon {
    Daemon(L.EMPTY, Hub({}, {}), channels, map[], map[], map[], {}, map[], [], 0, 0)
  }

  function Owed(owed: map<Client, set<Line>>, c: Client): set<Line> {
    if c in owed then owed[c] else {}
  }

  // `_account_locked`: a line switched on is settled for everybody; the lines cut are owed by
  // the caller.
  function Account(owed: map<Client, set<Line>>, c: Client, settled: Option<Line>, cut: set<Line>): map<Client,
                   set<Line>> {
    var known := owed[c := Owed(owed, c)];
    var paid := if settled.Some? then map d | d in known :: known[d] - {settled.value} else known;
    paid[c := paid[c] + cut]
  }

  function Chans(lines: set<Line>): set<int> {
    set l | l in lines :: l.chan
  }

  function Enabled(lines: set<Line>, power: bool, data: bool): set<Line> {
    set l | l in lines && (if l.kind.Power? then power else data)
  }

  // ---------------------------------------------------------------- events

  datatype Event =
    | BeginWrite(client: Client, job: Job, auth: Auth, lease: Option<nat>, unexpired: bool, expired: bool)
    | BeginRelease(client: Client, power: bool, data: bool)
    | QueueRelease(op: nat, expired: bool)
    | BeginLease(client: Client, expired: bool)
    | Wake(op: nat, expired: bool)
    | Act(op: nat, reply: Reply)
    | Report(op: nat)
    | Unlock(op: nat)
    | Restore(op: nat, line: Line, reply: Reply)
    | MergeBack(op: nat)
    | RecordLease(op: nat)
    | DropLease(leaseId: nat)
    | Heartbeat(sessions: set<int>)

  // `_holds_lease`
  predicate HoldsLease(s: Daemon, c: Client, lease: Option<nat>, unexpired: bool) {
    lease.Some? && lease.value in s.leases && s.leases[lease.value].client == c && unexpired
  }

  function AddOp(s: Daemon, op: Op): Daemon {
    s.(ops := s.ops[s.nextOp := op], nextOp := s.nextOp + 1)
  }

  function SetOp(s: Daemon, id: nat, op: Op): Daemon {
    s.(ops := s.ops[id := op])
  }

  function DropOp(s: Daemon, id: nat): Daemon {
    s.(ops := s.ops - {id})
  }

  // `locks` and `v`: what entering the queue made of the locks, and its verdict.
  function Begun(s: Daemon, e: Event, locks: L.Locks, v: L.Verdict): Daemon
    requires e.BeginWrite?
  {
    var called := s.(calls := s.calls[s.nextOp := e.auth]);
    var script := Script(e.job, s.channels);
    if HoldsLease(s, e.client, e.lease, e.unexpired) then
      AddOp(called, Write(e.client, e.job, e.auth, UnderLease(e.lease.value), Acting(script), {}, None))
    else
      var queued := called.(locks := locks);
      var op := Write(e.client, e.job, e.auth, Ticket(s.locks.next), Queued, {}, None);
      match v
      case Granted => AddOp(queued, op.(phase := Acting(script)))
      case Sleeping => AddOp(queued, op)
      case TimedOut => queued.(nextOp := s.nextOp + 1)
  }

  function DoBeginWrite(s: Daemon, e: Event): Daemon
    requires e.BeginWrite?
  {
    var r := JobRequest(e.job);
    Begun(s, e, L.LockStep(s.locks, L.Enter(r, e.expired)), L.EntryVerdict(s.locks, r, e.expired))
  }

  // The debt leaves the table before the channels are asked for.
  function DoBeginRelease(s: Daemon, e: Event): Daemon
    requires e.BeginRelease?
  {
    var debt := Owed(s.owed, e.client);
    var wanted := Enabled(debt, e.power, e.data);
    var popped := s.(owed := s.owed - {e.client});
    if wanted == {} then popped else AddOp(popped, Repay(e.client, debt, wanted, 0, Popped))
  }

  function ReleaseQueued(s: Daemon, id: nat, op: Op, locks: L.Locks, v: L.Verdict): Daemon
    requires op.Repay?
  {
    var queued := s.(locks := locks);
    var mine := Repay(op.client, op.debt, op.wanted, s.locks.next, op.stage);
    match v
    case Granted => SetOp(queued, id, mine.(stage := Restoring, debt := op.wanted))
    case Sleeping => SetOp(queued, id, mine.(stage := RepayQueued))
    case TimedOut => SetOp(queued, id, mine.(stage := Deferred))
  }

  function DoQueueRelease(s: Daemon, id: nat, op: Op, expired: bool): Daemon
    requires op.Repay?
  {
    var r := L.Only(Chans(op.wanted));
    ReleaseQueued(s, id, op, L.LockStep(s.locks, L.Enter(r, expired)), L.EntryVerdict(s.locks, r, expired))
  }

  function LeaseBegun(s: Daemon, c: Client, locks: L.Locks, v: L.Verdict): Daemon {
    var queued := s.(locks := locks);
    match v
    case Granted => AddOp(queued, Leasing(c, s.locks.next, true))
    case Sleeping => AddOp(queued, Leasing(c, s.locks.next, false))
    case TimedOut => queued
  }

  function DoBeginLease(s: Daemon, c: Client, expired: bool): Daemon {
    LeaseBegun(s, c, L.LockStep(s.locks, L.Enter(L.All, expired)), L.EntryVerdict(s.locks, L.All, expired))
  }

  predicate Waiting(op: Op) {
    match op
    case Write(_, _, _, _, phase, _, _) => phase.Queued?
    case Repay(_, _, _, _, stage) => stage.RepayQueued?
    case Leasing(_, _, granted) => !granted
  }

  predicate Holding(op: Op) {
    match op
    case Write(_, _, _, _, phase, _, _) => !phase.Queued?
    case Repay(_, _, _, _, stage) => stage.Restoring?
    case Leasing(_, _, granted) => granted
  }

  function TicketOf(op: Op): Option<L.Ticket> {
    match op
    case Write(_, _, _, key, _, _, _) => if key.Ticket? then Some(key.t) else None
    case Repay(_, _, _, ticket, stage) => if stage.RepayQueued? || stage.Restoring? then Some(ticket) else None
    case Leasing(_, ticket, _) => Some(ticket)
  }

  function RequestOf(op: Op): L.Request {
    match op
    case Write(_, job, _, _, _, _, _) => JobRequest(job)
    case Repay(_, _, wanted, _, _) => L.Only(Chans(wanted))
    case Leasing(_, _, _) => L.All
  }

  function Proceeds(op: Op, channels: seq<int>): Op {
    match op
    case Write(_, job, _, _, _, _, _) => op.(phase := Acting(Script(job, channels)))
    case Repay(_, _, wanted, _, _) => op.(stage := Restoring, debt := wanted)
    case Leasing(_, _, _) => op.(granted := true)
  }

  function Woken(s: Daemon, id: nat, op: Op, locks: L.Locks, v: L.Verdict): Daemon {
    var woken := s.(locks := locks);
    match v
    case Granted => SetOp(woken, id, Proceeds(op, s.channels))
    case Sleeping => woken
    case TimedOut => if op.Repay? then SetOp(woken, id, op.(stage := Deferred)) else DropOp(woken, id)
  }

  function DoWake(s: Daemon, id: nat, op: Op, t: L.Ticket, expired: bool): Daemon {
    var i := L.Position(s.locks.waiting, t);
    if i >= |s.locks.waiting| then s
    else Woken(s, id, op, L.LockStep(s.locks, L.Wake(t, expired)), L.VerdictAt(s.locks, i, expired))
  }

  // The call after one of its commands came back.
  function AfterCmd(w: Op, cmd: Cmd, rest: seq<Cmd>, o: Outcome): Op
    requires w.Write?
  {
    if cmd.primary && (o.Raises() || (o.DryRunOnly? && w.job.SetLine?)) then w.(phase := Unlocking)
    else
      var cut := if !o.Applied? then w.cut else if cmd.on then w.cut - {cmd.line} else w.cut + {cmd.line};
      var settled := if o.Applied? && cmd.on && w.job.SetLine? then Some(cmd.line) else w.settled;
      var phase := if rest != [] then Acting(rest) else if w.job.Cycle? then Unlocking else Reporting;
      w.(cut := cut, settled := settled, phase := phase)
  }

  // `_we_disconnected.discard(channel)` at the end of an isolation.
  function AfterLast(h: Hub, w: Op): Hub
    requires w.Write?
  {
    if w.phase.Reporting? && Isolates(w.job) && w.settled.Some? then h.(ledger := h.ledger - {w.settled.value}) else h
  }

  function DoAct(s: Daemon, id: nat, w: Op, reply: Reply): Daemon
    requires w.Write? && w.phase.Acting? && w.phase.todo != []
  {
    var cmd := w.phase.todo[0];
    var d := CmdVerdict(w.auth, cmd, s.live);
    var w' := AfterCmd(w, cmd, w.phase.todo[1..], SwitchOutcome(d, reply));
    var hub := AfterLast(Switched(s.hub, cmd.line, cmd.on, d, reply), w');
    var record := CutRecord(id, cmd.line, w.auth, w.auth.confirm || cmd.forced, cmd.line.chan in s.live);
    var audit := if d.Apply? && !reply.Refused? && !cmd.on then s.audit + [record] else s.audit;
    SetOp(s.(hub := hub, audit := audit), id, w')
  }

  function DoReport(s: Daemon, id: nat, w: Op): Daemon
    requires w.Write?
  {
    SetOp(s.(owed := Account(s.owed, w.client, w.settled, w.cut)), id,
          w.(phase := Unlocking, cut := {}, settled := None))
  }

  function DoUnlock(s: Daemon, id: nat, op: Op): Daemon {
    match TicketOf(op)
    case Some(t) => DropOp(s.(locks := L.LockStep(s.locks, L.Release(t))), id)
    case None => DropOp(s, id)
  }

  // One line of a release: skipped when it is on already, switched on (and confirmed, under the
  // daemon's own mode) otherwise; a failure is reported and forgotten.
  function DoRestore(s: Daemon, id: nat, op: Op, line: Line, reply: Reply): Daemon
    requires op.Repay?
  {
    var d := Verdict(DEFAULT_MODE, true, false, true, line.chan in s.live);
    var hub := if line in s.hub.ledger then Switched(s.hub, line, true, d, reply) else s.hub;
    SetOp(s.(hub := hub), id, op.(debt := op.debt - {line}))
  }

  // A release that could not have its channels keeps the whole debt.
  function DoMergeBack(s: Daemon, id: nat, op: Op): Daemon
    requires op.Repay?
  {
    DropOp(s.(owed := s.owed[op.client := Owed(s.owed, op.client) + op.debt]), id)
  }

  function Step(s: Daemon, e: Event): Daemon {
    match e
    case BeginWrite(_, _, _, _, _, _) => DoBeginWrite(s, e)
    case BeginRelease(_, _, _) => DoBeginRelease(s, e)
    case BeginLease(c, expired) => DoBeginLease(s, c, expired)
    case Heartbeat(sessions) => s.(live := sessions)
    case DropLease(k) =>
      if k !in s.leases then s
      else s.(leases := s.leases - {k}, locks := L.LockStep(s.locks, L.Release(s.leases[k].ticket)))
    case QueueRelease(id, expired) =>
      if id in s.ops && s.ops[id].Repay? && s.ops[id].stage.Popped? then DoQueueRelease(s, id, s.ops[id], expired) else s
    case Wake(id, expired) =>
      if id in s.ops && Waiting(s.ops[id]) && TicketOf(s.ops[id]).Some?
      then DoWake(s, id, s.ops[id], TicketOf(s.ops[id]).value, expired) else s
    case Act(id, reply) =>
      if id in s.ops && s.ops[id].Write? && s.ops[id].phase.Acting? && s.ops[id].phase.todo != []
      then DoAct(s, id, s.ops[id], reply) else s
    case Report(id) =>
      if id in s.ops && s.ops[id].Write? && s.ops[id].phase.Reporting? then DoReport(s, id, s.ops[id]) else s
    case Unlock(id) =>
      if id in s.ops && ((s.ops[id].Write? && s.ops[id].phase.Unlocking?) ||
                         (s.ops[id].Repay? && s.ops[id].stage.Restoring? && s.ops[id].debt == {}))
      then DoUnlock(s, id, s.ops[id]) else s
    case Restore(id, line, reply) =>
      if id in s.ops && s.ops[id].Repay? && s.ops[id].stage.Restoring? && line in s.ops[id].debt
      then DoRestore(s, id, s.ops[id], line, reply) else s
    case MergeBack(id) =>
      if id in s.ops && s.ops[id].Repay? && s.ops[id].stage.Deferred?
      then DoMergeBack(s, id, s.ops[id]) else s
    case RecordLease(id) =>
      if id in s.ops && s.ops[id].Leasing? && s.ops[id].granted
      then DropOp(s.(leases := s.leases[s.nextLease := Lease(s.ops[id].client, s.ops[id].ticket)],
                     nextLease := s.nextLease + 1), id)
      else s
  }

  function Play(s: Daemon, es: seq<Event>): Daemon {
    if es == [] then s else Step(Play(s, es[..|es| - 1]), es[|es| - 1])
  }

  // ---------------------------------------------------------------- what a run must not do

  predicate Uses(op: Op, lease: nat) {
    op.Write? && op.key == UnderLease(lease)
  }

  // A reply that leaves no doubt: acknowledged, or refused before anything was sent. The second half
  // of a cycle must not be refused.
  predicate Clear(cmd: Cmd, reply: Reply) {
    reply.Acked? || (reply.Refused? && !cmd.forced)
  }

  // The fault model: every command is acknowledged or refused outright, releases restore both kinds
  // and are acknowledged, one write at a time per lease, and no lease dropped under a running write.
  // Each part is needed (HubFaults).
  ghost predicate Benign(s: Daemon, e: Event) {
    match e
    case Act(id, reply) => CanAct(s, id) ==> Clear(s.ops[id].phase.todo[0], reply)
    case Restore(_, _, reply) => reply.Acked?
    case BeginRelease(_, power, data) => power && data
    case BeginWrite(c, _, _, lease, unexpired, _) =>
      HoldsLease(s, c, lease, unexpired) ==> forall id :: id in s.ops ==> !Uses(s.ops[id], lease.value)
    case DropLease(k) => forall id :: id in s.ops ==> !Uses(s.ops[id], k)
    case _ => true
  }

  ghost predicate BenignRun(s: Daemon, es: seq<Event>) {
    es == [] || (BenignRun(s, es[..|es| - 1]) && Benign(Play(s, es[..|es| - 1]), es[|es| - 1]))
  }

  // ---------------------------------------------------------------- the debt invariant

  function InFlight(op: Op): set<Line> {
    match op
    case Write(_, _, _, _, _, cut, _) => cut
    case Repay(_, debt, _, _, _) => debt
    case Leasing(_, _, _) => {}
  }

  ghost predicate OwedBySomeone(s: Daemon, l: Line) {
    exists c :: c in s.owed && l in s.owed[c]
  }

  ghost predicate BeingHandled(s: Daemon, l: Line) {
    exists id :: id in s.ops && l in InFlight(s.ops[id])
  }

  ghost predicate Covered(s: Daemon, l: Line) {
    OwedBySomeone(s, l) || BeingHandled(s, l)
  }

  ghost predicate Coverage(s: Daemon) {
    && s.hub.dark == s.hub.ledger
    && forall l :: l in s.hub.ledger ==> Covered(s, l)
  }

  // Who holds what.
  ghost predicate TicketOk(s: Daemon, op: Op) {
    && (Waiting(op) ==> TicketOf(op).Some? && L.WaitsFor(s.locks, TicketOf(op).value, RequestOf(op)))
    && (Holding(op) && TicketOf(op).Some? ==>
          TicketOf(op).value in s.locks.held && s.locks.held[TicketOf(op).value] == RequestOf(op))
    && (TicketOf(op).Some? ==> TicketOf(op).value < s.locks.next)
    && (op.Write? && op.key.UnderLease? ==> op.key.lease in s.leases)
  }

  ghost predicate Keys(s: Daemon) {
    && L.Inv(s.locks)
    && (forall id :: id in s.ops ==> id < s.nextOp && TicketOk(s, s.ops[id]))
    && (forall k :: k in s.leases ==> k < s.nextLease && s.leases[k].ticket in s.locks.held &&
                                      s.locks.held[s.leases[k].ticket] == L.All)
  }

  // No ticket is anybody else's, and a lease has one user at most.
  ghost predicate Separate(s: Daemon) {
    && (forall i, j :: i in s.ops && j in s.ops && i != j && TicketOf(s.ops[i]).Some? ==>
          TicketOf(s.ops[i]) != TicketOf(s.ops[j]))
    && (forall i, k :: i in s.ops && k in s.leases ==> TicketOf(s.ops[i]) != Some(s.leases[k].ticket))
    && (forall k, m :: k in s.leases && m in s.leases && k != m ==> s.leases[k].ticket != s.leases[m].ticket)
    && (forall i, j, k :: i in s.ops && j in s.ops && Uses(s.ops[i], k) && Uses(s.ops[j], k) ==> i == j)
  }

  // Where a write stands, in terms of its own record.
  ghost predicate WriteShape(w: Op)
    requires w.Write?
  {
    && (forall l :: l in w.cut ==> Covers(JobRequest(w.job), l.chan))
    && (w.settled.Some? ==> w.job.SetLine? && w.settled.value == w.job.line)
    && match w.phase
       case Queued => w.cut == {} && w.settled.None?
       case Unlocking => w.cut == {}
       case Reporting => w.job.SetLine?
       case Acting(todo) => CmdsOk(w, todo)
  }

  ghost predicate CmdsOk(w: Op, todo: seq<Cmd>)
    requires w.Write?
  {
    && todo != []
    && (forall k :: 0 <= k < |todo| ==> Covers(JobRequest(w.job), todo[k].line.chan))
    && match w.job
       case Cycle(c) =>
         var line := Line(Power, c);
         || (todo == [Cmd(line, false, true, false), Cmd(line, true, true, true)] && w.cut == {})
         || (todo == [Cmd(line, true, true, true)] && w.cut <= {line} && (w.auth.mode.DryRun? ==> w.cut == {}))
       case SetLine(line, on, _) =>
         && (forall k :: 1 <= k < |todo| ==> IsNeighbour(w.job, todo[k]))
         && (if todo[0].primary then todo[0] == Cmd(line, on, true, false) && w.cut == {} && w.settled.None?
             else IsNeighbour(w.job, todo[0]))
  }

  predicate IsNeighbour(job: Job, cmd: Cmd)
    requires job.SetLine?
  {
    Isolates(job) && !cmd.primary && !cmd.on && !cmd.forced && cmd.line.kind.Data? && cmd.line.chan != job.line.chan
  }

  ghost predicate Shape(op: Op) {
    match op
    case Write(_, _, _, _, _, _, _) => WriteShape(op)
    case Repay(_, debt, wanted, _, stage) => debt <= wanted && (!stage.Restoring? ==> debt == wanted)
    case Leasing(_, _, _) => true
  }

  ghost predicate Shapes(s: Daemon) {
    forall id :: id in s.ops ==> Shape(s.ops[id])
  }

  // A line a write has just switched on stays on until it is accounted.
  ghost predicate SettledLit(s: Daemon) {
    forall id :: id in s.ops && s.ops[id].Write? && s.ops[id].settled.Some? ==>
                 s.ops[id].settled.value !in s.hub.ledger
  }

  ghost predicate Debts(s: Daemon) {
    Shapes(s) && SettledLit(s) && Coverage(s)
  }

  ghost predicate Inv(s: Daemon) {
    Keys(s) && Separate(s) && Debts(s)
  }

  // ---------------------------------------------------------------- mutual exclusion

  function Grip(s: Daemon, op: Op): L.Ticket
    requires Holding(op) && TicketOk(s, op)
  {
    if op.Write? && op.key.UnderLease? then s.leases[op.key.lease].ticket else TicketOf(op).value
  }

  /** At most one operation at a time holds a channel, whether by a token or under a lease: two
      writes on one channel are never both between their first command and their accounting. */
  lemma OneHolderPerChannel(s: Daemon, i: nat, j: nat, c: int)
    requires Keys(s) && Separate(s)
    requires i in s.ops && j in s.ops && Holding(s.ops[i]) && Holding(s.ops[j])
    requires Covers(RequestOf(s.ops[i]), c) && Covers(RequestOf(s.ops[j]), c)
    ensures i == j
  {
    if i != j {
      var t, u := Grip(s, s.ops[i]), Grip(s, s.ops[j]);
      assert t != u by {
        var a, b := s.ops[i], s.ops[j];
        assert TicketOk(s, a) && TicketOk(s, b);
        if a.Write? && a.key.UnderLease? && b.Write? && b.key.UnderLease? {
          assert Uses(a, a.key.lease) && Uses(b, b.key.lease);
        }
      }
      assert Covers(s.locks.held[t], c) && Covers(s.locks.held[u], c);
      SharedChannelOverlaps(s.locks.held[t], s.locks.held[u], c);
    }
  }

  lemma SharedChannelOverlaps(a: L.Request, b: L.Request, c: int)
    requires Covers(a, c) && Covers(b, c)
    ensures L.Overlap(a, b)
  {
    if a.Only? && b.Only? { assert c in a.channels * b.channels; }
  }

  // ---------------------------------------------------------------- no more exclusion than that

  // A token or a queue entry for this channel, or for every channel.
  ghost predicate ChannelTaken(s: Daemon, c: int) {
    || (exists t :: t in s.locks.held && (s.locks.held[t].All? || c in s.locks.held[t].channels))
    || (exists k :: 0 <= k < |s.locks.waiting| && (s.locks.waiting[k].wanted.All? || c in s.locks.waiting[k].wanted.channels))
  }

  // The channel a call is about.
  function ChannelOf(job: Job): int {
    if job.SetLine? then job.line.chan else job.chan
  }

  /** Writes on different channels run side by side: a plain switch or a power cycle without a lease goes
      straight to its first command exactly when nobody holds or has queued for its own channel or for all
      of them, whatever goes on elsewhere. */
  lemma WritesElsewhereDoNotWait(s: Daemon, e: Event)
    requires e.BeginWrite? && !HoldsLease(s, e.client, e.lease, e.unexpired)
    requires e.job.SetLine? && e.job.line.kind.Data? ==> !e.job.exclusive
    ensures var s' := Step(s, e); var begun := Write(e.client, e.job, e.auth, Ticket(s.locks.next), Queued, {}, None);
            if !ChannelTaken(s, ChannelOf(e.job)) then
              s'.ops == s.ops[s.nextOp := begun.(phase := Acting(Script(e.job, s.channels)))]
            else s'.ops == if e.expired then s.ops else s.ops[s.nextOp := begun]
  {
    L.GrantedOnEntryIffChannelsAreFree(s.locks, JobRequest(e.job), e.expired);
  }

  /** Only the holder of a lease skips the queue: a write goes ahead without a token of its own exactly when
      it names a lease that is out, to its own client, and not expired; and then at once. */
  lemma OnlyTheHolderSkipsTheQueue(s: Daemon, e: Event)
    requires e.BeginWrite? && s.nextOp !in s.ops
    ensures var s' := Step(s, e);
            (s.nextOp in s'.ops && s'.ops[s.nextOp].Write? && s'.ops[s.nextOp].key.UnderLease?) <==>
            e.lease.Some? && e.lease.value in s.leases && s.leases[e.lease.value].client == e.client && e.unexpired
    ensures var s' := Step(s, e);
            s.nextOp in s'.ops && s'.ops[s.nextOp].Write? && s'.ops[s.nextOp].key.UnderLease? ==>
              s'.locks == s.locks && s'.ops[s.nextOp].phase == Acting(Script(e.job, s.channels)) &&
              s'.ops[s.nextOp].key.lease == e.lease.value
  {}

  /** An exclusive isolation waits for the whole rack: it goes ahead exactly when nothing is held or
      queued at all. */
  lemma IsolationsWaitForTheRack(s: Daemon, e: Event)
    requires e.BeginWrite? && !HoldsLease(s, e.client, e.lease, e.unexpired)
    requires e.job.SetLine? && e.job.line.kind.Data? && e.job.exclusive
    ensures var s' := Step(s, e); var begun := Write(e.client, e.job, e.auth, Ticket(s.locks.next), Queued, {}, None);
            if s.locks.held == map[] && s.locks.waiting == [] then
              s'.ops == s.ops[s.nextOp := begun.(phase := Acting(Script(e.job, s.channels)))]
            else s'.ops == if e.expired then s.ops else s.ops[s.nextOp := begun]
  {
    L.GrantedOnEntryIffChannelsAreFree(s.locks, JobRequest(e.job), e.expired);
  }

  // ---------------------------------------------------------------- each event keeps it

  lemma ScriptShape(w: Op, channels: seq<int>)
    requires w.Write? && w.cut == {} && w.settled.None?
    ensures WriteShape(w.(phase := Acting(Script(w.job, channels))))
  {
    if Isolates(w.job) {
      var c := w.job.line.chan;
      NeighboursAreTheOthers(channels, c);
      var others := Neighbours(channels, c);
      forall k | 0 <= k < |others| ensures others[k] != c {
        assert others[k] in others;
      }
    }
  }

  // A lock step that concerns ticket t leaves every other ticket where it was.
  ghost predicate LocksFrame(a: L.Locks, b: L.Locks, t: L.Ticket) {
    && a.next <= b.next
    && (forall u, r :: u != t && L.WaitsFor(a, u, r) ==> L.WaitsFor(b, u, r))
    && (forall u :: u != t && u in a.held ==> u in b.held && b.held[u] == a.held[u])
  }

  // Nothing changes for operations and leases that do not use ticket t.
  lemma OthersKeepTheirKeys(s: Daemon, s': Daemon, t: L.Ticket)
    requires Keys(s) && LocksFrame(s.locks, s'.locks, t) && s.leases.Keys <= s'.leases.Keys
    ensures forall id :: id in s.ops && TicketOf(s.ops[id]) != Some(t) ==> TicketOk(s', s.ops[id])
    ensures forall k :: k in s.leases && s.leases[k].ticket != t ==>
              s.leases[k].ticket in s'.locks.held && s'.locks.held[s.leases[k].ticket] == L.All
  {
    forall id | id in s.ops && TicketOf(s.ops[id]) != Some(t) ensures TicketOk(s', s.ops[id]) {
      assert TicketOk(s, s.ops[id]);
    }
  }

  // What a step on operation `id` must show about that operation.
  ghost predicate OneOpChanged(s: Daemon, s': Daemon, id: nat) {
    && (forall j :: j in s.ops && j != id ==> j in s'.ops && s'.ops[j] == s.ops[j])
    && (forall j :: j in s'.ops && j != id ==> j in s.ops)
  }

  // The changed operation keeps its ticket and lease, or takes ones nobody has.
  ghost predicate TakesNobodys(s: Daemon, s': Daemon, id: nat) {
    id in s'.ops ==>
      && (TicketOf(s'.ops[id]).Some? ==>
            (id in s.ops && TicketOf(s.ops[id]) == TicketOf(s'.ops[id])) || TicketOf(s'.ops[id]).value >= s.locks.next)
      && (forall k :: Uses(s'.ops[id], k) ==>
            (id in s.ops && Uses(s.ops[id], k)) || (forall j :: j in s.ops && j != id ==> !Uses(s.ops[j], k)))
  }

  lemma TicketsAreOld(s: Daemon)
    requires Keys(s)
    ensures forall j :: j in s.ops && TicketOf(s.ops[j]).Some? ==> TicketOf(s.ops[j]).value < s.locks.next
    ensures forall k :: k in s.leases ==> s.leases[k].ticket < s.locks.next
  {
    forall k | k in s.leases ensures s.leases[k].ticket < s.locks.next {
      assert s.leases[k].ticket in s.locks.held;
    }
    forall j | j in s.ops && TicketOf(s.ops[j]).Some? ensures TicketOf(s.ops[j]).value < s.locks.next {
      assert TicketOk(s, s.ops[j]);
    }
  }

  lemma StaysSeparate(s: Daemon, s': Daemon, id: nat)
    requires Keys(s) && Separate(s) && OneOpChanged(s, s', id) && s'.leases == s.leases && TakesNobodys(s, s', id)
    ensures Separate(s')
  {
    TicketsAreOld(s);
    forall j | j in s'.ops && j != id ensures j in s.ops && s'.ops[j] == s.ops[j] {}
  }

  // Coverage survives a change of one operation and of the debt table, with the hub untouched.
  lemma CoverageMoves(s: Daemon, s': Daemon, id: nat)
    requires Coverage(s) && s'.hub == s.hub && OneOpChanged(s, s', id)
    requires forall l :: OwedBySomeone(s, l) && l in s.hub.ledger ==> Covered(s', l)
    requires forall l :: id in s.ops && l in InFlight(s.ops[id]) && l in s.hub.ledger ==> Covered(s', l)
    ensures Coverage(s')
  {
    forall l | l in s'.hub.ledger ensures Covered(s', l) {
      if !OwedBySomeone(s, l) {
        var j :| j in s.ops && l in InFlight(s.ops[j]);
        if j != id { assert j in s'.ops && s'.ops[j] == s.ops[j]; }
      }
    }
  }

  lemma SameOwedSameCover(s: Daemon, s': Daemon)
    requires s'.owed == s.owed
    ensures forall l :: OwedBySomeone(s, l) ==> Covered(s', l)
  {
    forall l | OwedBySomeone(s, l) ensures OwedBySomeone(s', l) {}
  }

  // What entering the queue with a fresh ticket does to the locks.
  ghost predicate EnteredWith(a: L.Locks, b: L.Locks, r: L.Request, v: L.Verdict) {
    && L.Inv(b) && LocksFrame(a, b, a.next) && b.next == a.next + 1
    && (v.Granted? ==> a.next in b.held && b.held[a.next] == r)
    && (v.Sleeping? ==> L.WaitsFor(b, a.next, r))
  }

  lemma EnterFrame(a: L.Locks, r: L.Request, expired: bool)
    requires L.Inv(a)
    ensures var b := L.LockStep(a, L.Enter(r, expired)); var v := L.EntryVerdict(a, r, expired);
            EnteredWith(a, b, r, v)
  {
    L.StepKeepsInv(a, L.Enter(r, expired));
    L.EnterOutcome(a, r, expired);
  }

  lemma WakeFrame(a: L.Locks, t: L.Ticket, r: L.Request, expired: bool)
    requires L.Inv(a) && L.WaitsFor(a, t, r)
    ensures var b := L.LockStep(a, L.Wake(t, expired)); var i := L.Position(a.waiting, t);
            && i < |a.waiting|
            && L.Inv(b) && LocksFrame(a, b, t) && b.next == a.next
            && (L.VerdictAt(a, i, expired).Granted? ==> t in b.held && b.held[t] == r)
            && (L.VerdictAt(a, i, expired).Sleeping? ==> L.WaitsFor(b, t, r))
  {
    L.StepKeepsInv(a, L.Wake(t, expired));
    L.WakeOutcome(a, t, r, expired);
  }

  lemma ReleaseFrame(a: L.Locks, t: L.Ticket)
    requires L.Inv(a)
    ensures var b := L.LockStep(a, L.Release(t)); L.Inv(b) && LocksFrame(a, b, t) && b.next == a.next
  {
    L.StepKeepsInv(a, L.Release(t));
    L.ReleaseOutcome(a, t);
  }

  lemma NobodyHasTheNextTicket(s: Daemon)
    requires Keys(s)
    ensures forall id :: id in s.ops ==> TicketOf(s.ops[id]) != Some(s.locks.next)
    ensures forall k :: k in s.leases ==> s.leases[k].ticket < s.locks.next
  {
    forall id | id in s.ops ensures TicketOf(s.ops[id]) != Some(s.locks.next) { assert TicketOk(s, s.ops[id]); }
  }

  // Only operation `id` uses ticket t.
  ghost predicate OnlyUser(s: Daemon, id: nat, t: L.Ticket) {
    && (forall j :: j in s.ops && j != id ==> TicketOf(s.ops[j]) != Some(t))
    && (forall k :: k in s.leases ==> s.leases[k].ticket != t)
  }

  // The step every lock event is: one operation changes, one ticket moves.
  lemma KeysAfter(s: Daemon, s': Daemon, id: nat, t: L.Ticket)
    requires Keys(s) && Separate(s) && OneOpChanged(s, s', id) && OnlyUser(s, id, t)
    requires L.Inv(s'.locks) && LocksFrame(s.locks, s'.locks, t)
    requires s'.leases == s.leases && s'.nextLease == s.nextLease && s.nextOp <= s'.nextOp
    requires id in s'.ops ==>
      id < s'.nextOp && TicketOk(s', s'.ops[id])
    requires TakesNobodys(s, s', id)
    ensures Keys(s') && Separate(s')
  {
    OthersKeepTheirKeys(s, s', t);
    StaysSeparate(s, s', id);
  }

  // ---- beginning a write

  lemma BegunKeys(s: Daemon, e: Event, locks: L.Locks, v: L.Verdict)
    requires Keys(s) && Separate(s) && e.BeginWrite? && Benign(s, e)
    requires EnteredWith(s.locks, locks, JobRequest(e.job), v)
    ensures Keys(Begun(s, e, locks, v)) && Separate(Begun(s, e, locks, v))
  {
    NobodyHasTheNextTicket(s);
    KeysAfter(s, Begun(s, e, locks, v), s.nextOp, s.locks.next);
  }

  lemma BegunDebts(s: Daemon, e: Event, locks: L.Locks, v: L.Verdict)
    requires Debts(s) && e.BeginWrite? && s.nextOp !in s.ops
    ensures Debts(Begun(s, e, locks, v))
  {
    var s' := Begun(s, e, locks, v);
    if s.nextOp in s'.ops { ScriptShape(s'.ops[s.nextOp].(phase := Queued), s.channels); }
    SameOwedSameCover(s, s');
    CoverageMoves(s, s', s.nextOp);
  }

  // ---- beginning and queueing a release

  lemma BeginReleaseKeys(s: Daemon, e: Event)
    requires Keys(s) && Separate(s) && e.BeginRelease?
    ensures Keys(DoBeginRelease(s, e)) && Separate(DoBeginRelease(s, e))
  {
    NobodyHasTheNextTicket(s);
    KeysAfter(s, DoBeginRelease(s, e), s.nextOp, s.locks.next);
  }

  lemma BeginReleaseDebts(s: Daemon, e: Event)
    requires Debts(s) && e.BeginRelease? && Benign(s, e) && s.nextOp !in s.ops
    ensures Debts(DoBeginRelease(s, e))
  {
    var s' := DoBeginRelease(s, e);
    var debt := Owed(s.owed, e.client);
    assert Enabled(debt, true, true) == debt;
    forall l | OwedBySomeone(s, l) ensures Covered(s', l) {
      var c :| c in s.owed && l in s.owed[c];
      if c == e.client {
        assert l in InFlight(s'.ops[s.nextOp]);
      } else {
        assert c in s'.owed && l in s'.owed[c];
      }
    }
    CoverageMoves(s, s', s.nextOp);
  }

  lemma ReleaseQueuedKeys(s: Daemon, id: nat, locks: L.Locks, v: L.Verdict)
    requires Keys(s) && Separate(s) && id in s.ops && s.ops[id].Repay? && s.ops[id].stage.Popped?
    requires EnteredWith(s.locks, locks, L.Only(Chans(s.ops[id].wanted)), v)
    ensures var s' := ReleaseQueued(s, id, s.ops[id], locks, v); Keys(s') && Separate(s')
  {
    NobodyHasTheNextTicket(s);
    KeysAfter(s, ReleaseQueued(s, id, s.ops[id], locks, v), id, s.locks.next);
  }

  lemma ReleaseQueuedDebts(s: Daemon, id: nat, locks: L.Locks, v: L.Verdict)
    requires Debts(s) && id in s.ops && s.ops[id].Repay? && s.ops[id].stage.Popped?
    ensures Debts(ReleaseQueued(s, id, s.ops[id], locks, v))
  {
    var s' := ReleaseQueued(s, id, s.ops[id], locks, v);
    assert Shape(s.ops[id]);
    assert id in s'.ops && InFlight(s'.ops[id]) == InFlight(s.ops[id]);
    SameOwedSameCover(s, s');
    CoverageMoves(s, s', id);
  }

  // ---- beginning a lease

  lemma LeaseBegunKeys(s: Daemon, c: Client, locks: L.Locks, v: L.Verdict)
    requires Keys(s) && Separate(s) && EnteredWith(s.locks, locks, L.All, v)
    ensures Keys(LeaseBegun(s, c, locks, v)) && Separate(LeaseBegun(s, c, locks, v))
  {
    NobodyHasTheNextTicket(s);
    KeysAfter(s, LeaseBegun(s, c, locks, v), s.nextOp, s.locks.next);
  }

  lemma LeaseBegunDebts(s: Daemon, c: Client, locks: L.Locks, v: L.Verdict)
    requires Debts(s) && s.nextOp !in s.ops
    ensures Debts(LeaseBegun(s, c, locks, v))
  {
    var s' := LeaseBegun(s, c, locks, v);
    SameOwedSameCover(s, s');
    CoverageMoves(s, s', s.nextOp);
  }

  // ---- waking up

  ghost predicate CanWake(s: Daemon, id: nat) {
    id in s.ops && Waiting(s.ops[id]) && TicketOf(s.ops[id]).Some?
  }

  lemma OwnTicketIsOnlyMine(s: Daemon, id: nat)
    requires Keys(s) && Separate(s) && id in s.ops && TicketOf(s.ops[id]).Some?
    ensures OnlyUser(s, id, TicketOf(s.ops[id]).value)
  {}

  lemma WokenKeys(s: Daemon, id: nat, locks: L.Locks, v: L.Verdict)
    requires Keys(s) && Separate(s) && CanWake(s, id)
    requires var t := TicketOf(s.ops[id]).value;
             && L.Inv(locks) && LocksFrame(s.locks, locks, t) && locks.next == s.locks.next
             && (v.Granted? ==> t in locks.held && locks.held[t] == RequestOf(s.ops[id]))
             && (v.Sleeping? ==> L.WaitsFor(locks, t, RequestOf(s.ops[id])))
    ensures var s' := Woken(s, id, s.ops[id], locks, v); Keys(s') && Separate(s')
  {
    assert TicketOk(s, s.ops[id]);
    OwnTicketIsOnlyMine(s, id);
    KeysAfter(s, Woken(s, id, s.ops[id], locks, v), id, TicketOf(s.ops[id]).value);
  }

  lemma WakeKeys(s: Daemon, id: nat, expired: bool)
    requires Keys(s) && Separate(s) && CanWake(s, id)
    ensures var s' := DoWake(s, id, s.ops[id], TicketOf(s.ops[id]).value, expired);
            Keys(s') && Separate(s')
  {
    var t := TicketOf(s.ops[id]).value;
    assert TicketOk(s, s.ops[id]);
    WakeFrame(s.locks, t, RequestOf(s.ops[id]), expired);
    WokenKeys(s, id, L.LockStep(s.locks, L.Wake(t, expired)), L.VerdictAt(s.locks, L.Position(s.locks.waiting, t), expired));
  }

  lemma WokenDebts(s: Daemon, id: nat, locks: L.Locks, v: L.Verdict)
    requires Debts(s) && CanWake(s, id)
    ensures Debts(Woken(s, id, s.ops[id], locks, v))
  {
    var op := s.ops[id];
    var s' := Woken(s, id, op, locks, v);
    assert Shape(op);
    if op.Write? { ScriptShape(op, s.channels); }
    SameOwedSameCover(s, s');
    if id in s'.ops { assert InFlight(s'.ops[id]) == InFlight(op); } else { assert InFlight(op) == {}; }
    CoverageMoves(s, s', id);
  }

  lemma WakeDebts(s: Daemon, id: nat, expired: bool)
    requires Debts(s) && CanWake(s, id)
    ensures Debts(DoWake(s, id, s.ops[id], TicketOf(s.ops[id]).value, expired))
  {
    var t := TicketOf(s.ops[id]).value;
    var i := L.Position(s.locks.waiting, t);
    if i < |s.locks.waiting| {
      WokenDebts(s, id, L.LockStep(s.locks, L.Wake(t, expired)), L.VerdictAt(s.locks, i, expired));
    }
  }

  // ---- one hub command

  ghost predicate CanAct(s: Daemon, id: nat) {
    id in s.ops && s.ops[id].Write? && s.ops[id].phase.Acting? && s.ops[id].phase.todo != []
  }

  lemma ActKeys(s: Daemon, id: nat, reply: Reply)
    requires Keys(s) && Separate(s) && CanAct(s, id)
    ensures Keys(DoAct(s, id, s.ops[id], reply)) && Separate(DoAct(s, id, s.ops[id], reply))
  {
    NobodyHasTheNextTicket(s);
    assert TicketOk(s, s.ops[id]);
    KeysAfter(s, DoAct(s, id, s.ops[id], reply), id, s.locks.next);
  }

  // What the next command of a write does to it.
  lemma AfterCmdShape(w: Op, live: set<int>, reply: Reply)
    requires w.Write? && WriteShape(w) && w.phase.Acting? && Clear(w.phase.todo[0], reply)
    ensures var cmd := w.phase.todo[0]; var o := SwitchOutcome(CmdVerdict(w.auth, cmd, live), reply);
            WriteShape(AfterCmd(w, cmd, w.phase.todo[1..], o))
  {
    var todo := w.phase.todo;
    assert CmdsOk(w, todo);
    assert w.job.SetLine? && |todo| > 1 ==> IsNeighbour(w.job, todo[1]);
  }

  // A line switched on by one write is not cut by another before it is accounted.
  lemma OthersStayLit(s: Daemon, id: nat, j: nat, line: Line)
    requires Inv(s) && CanAct(s, id) && line.chan == s.ops[id].phase.todo[0].line.chan
    requires j in s.ops && j != id && s.ops[j].Write? && s.ops[j].settled.Some?
    ensures s.ops[j].settled.value != line
  {
    assert Shape(s.ops[id]) && Shape(s.ops[j]);
    assert CmdsOk(s.ops[id], s.ops[id].phase.todo);
    if s.ops[j].settled.value == line {
      OneHolderPerChannel(s, id, j, line.chan);
    }
  }

  lemma ActHub(s: Daemon, id: nat, reply: Reply)
    requires Debts(s) && CanAct(s, id) && Clear(s.ops[id].phase.todo[0], reply)
    ensures var w := s.ops[id]; var cmd := w.phase.todo[0]; var d := CmdVerdict(w.auth, cmd, s.live);
            DoAct(s, id, w, reply).hub == Switched(s.hub, cmd.line, cmd.on, d, reply)
  {
    var w := s.ops[id];
    assert Shape(w) && CmdsOk(w, w.phase.todo);
    var cmd := w.phase.todo[0];
    var h := Switched(s.hub, cmd.line, cmd.on, CmdVerdict(w.auth, cmd, s.live), reply);
    if w.settled.Some? { assert h.ledger - {w.settled.value} == h.ledger; }
    if cmd.on { assert h.ledger - {cmd.line} == h.ledger || CmdVerdict(w.auth, cmd, s.live) != Apply || reply.Refused?; }
  }

  predicate OfKinds(l: Line, power: bool, data: bool) {
    (l.kind.Power? && power) || (l.kind.Data? && data)
  }

  /** A release takes all the client owes out of the table at once, and what it sets out to bring back is what
      is of the kinds it was told to restore; with nothing of those kinds there is nothing to do. */
  lemma AReleaseTakesTheKindsAsked(s: Daemon, e: Event, l: Line)
    requires e.BeginRelease? && s.nextOp !in s.ops
    ensures var s' := Step(s, e); var owed := Owed(s.owed, e.client);
            && s'.owed == s.owed - {e.client} && s'.hub == s.hub && s'.locks == s.locks
            && (s.nextOp in s'.ops <==> exists k :: k in owed && OfKinds(k, e.power, e.data))
            && (s.nextOp in s'.ops ==>
                 var op := s'.ops[s.nextOp];
                 op.Repay? && op.debt == owed && (l in op.wanted <==> l in owed && OfKinds(l, e.power, e.data)))
  {
    var wanted := Enabled(Owed(s.owed, e.client), e.power, e.data);
    assert forall k :: k in wanted <==> k in Owed(s.owed, e.client) && OfKinds(k, e.power, e.data);
    if wanted != {} {
      var k :| k in wanted;
      assert k in Owed(s.owed, e.client) && OfKinds(k, e.power, e.data);
    }
  }

  /** Switching a line on never depends on who is live where: the same command does the same to the daemon
      whatever the registry holds. */
  lemma SwitchingOnIgnoresTheRegistry(s: Daemon, id: nat, reply: Reply, other: set<int>)
    requires CanAct(s, id) && s.ops[id].phase.todo[0].on
    ensures Step(s.(live := other), Act(id, reply)) == Step(s, Act(id, reply)).(live := other)
  {}

  /** And a release's commands never do either. */
  lemma RestoringIgnoresTheRegistry(s: Daemon, id: nat, line: Line, reply: Reply, other: set<int>)
    ensures Step(s.(live := other), Restore(id, line, reply)) == Step(s, Restore(id, line, reply)).(live := other)
  {}

  /** Cutting does: after a heartbeat, an unconfirmed cut of a channel with a live session changes nothing
      on the hub, in any mode and whatever the hub would answer. */
  lemma AHeartbeatGuardsItsChannels(s: Daemon, id: nat, reply: Reply, sessions: set<int>)
    requires CanAct(s, id)
    requires var cmd := s.ops[id].phase.todo[0];
             !cmd.on && !cmd.forced && !s.ops[id].auth.confirm && cmd.line.chan in sessions
    ensures var s' := Step(Step(s, Heartbeat(sessions)), Act(id, reply));
            s'.hub.dark == s.hub.dark && s'.hub.ledger <= s.hub.ledger
  {}

  // What stays owed or in flight when operation `id` goes on to w'.
  lemma ActCovers(s: Daemon, s': Daemon, id: nat, l: Line)
    requires Coverage(s) && l in s.hub.ledger && s'.owed == s.owed && id in s.ops && id in s'.ops
    requires s'.ops == s.ops[id := s'.ops[id]] && (l in InFlight(s.ops[id]) ==> l in InFlight(s'.ops[id]))
    ensures Covered(s', l)
  {
    if OwedBySomeone(s, l) {
      assert OwedBySomeone(s', l);
    } else {
      var j :| j in s.ops && l in InFlight(s.ops[j]);
      assert j in s'.ops && l in InFlight(s'.ops[j]);
    }
  }

  lemma ActDebts(s: Daemon, id: nat, reply: Reply)
    requires Inv(s) && CanAct(s, id) && Clear(s.ops[id].phase.todo[0], reply)
    ensures Debts(DoAct(s, id, s.ops[id], reply))
  {
    var w := s.ops[id];
    var cmd := w.phase.todo[0];
    var s' := DoAct(s, id, w, reply);
    var w' := s'.ops[id];
    assert Shape(w) && CmdsOk(w, w.phase.todo);
    AfterCmdShape(w, s.live, reply);
    ActHub(s, id, reply);
    forall j | j in s'.ops && s'.ops[j].Write? && s'.ops[j].settled.Some?
      ensures s'.ops[j].settled.value !in s'.hub.ledger
    {
      if j != id { OthersStayLit(s, id, j, cmd.line); }
    }
    forall l | l in s'.hub.ledger ensures Covered(s', l) {
      if l in w'.cut {
        assert id in s'.ops && l in InFlight(s'.ops[id]);
      } else {
        ActCovers(s, s', id, l);
      }
    }
  }

  // ---- accounting

  ghost predicate CanReport(s: Daemon, id: nat) {
    id in s.ops && s.ops[id].Write? && s.ops[id].phase.Reporting?
  }

  lemma ReportKeys(s: Daemon, id: nat)
    requires Keys(s) && Separate(s) && CanReport(s, id)
    ensures Keys(DoReport(s, id, s.ops[id])) && Separate(DoReport(s, id, s.ops[id]))
  {
    NobodyHasTheNextTicket(s);
    assert TicketOk(s, s.ops[id]);
    KeysAfter(s, DoReport(s, id, s.ops[id]), id, s.locks.next);
  }

  lemma ReportDebts(s: Daemon, id: nat)
    requires Debts(s) && CanReport(s, id)
    ensures Debts(DoReport(s, id, s.ops[id]))
  {
    var w := s.ops[id];
    var s' := DoReport(s, id, w);
    forall l | OwedBySomeone(s, l) && l in s.hub.ledger ensures Covered(s', l) {
      var c :| c in s.owed && l in s.owed[c];
      assert c in s'.owed && l in s'.owed[c];
    }
    forall l | l in InFlight(w) ensures Covered(s', l) {
      assert w.client in s'.owed && l in s'.owed[w.client];
    }
    CoverageMoves(s, s', id);
  }

  // ---- paying back, putting back, letting go

  ghost predicate CanRestore(s: Daemon, id: nat, line: Line) {
    id in s.ops && s.ops[id].Repay? && s.ops[id].stage.Restoring? && line in s.ops[id].debt
  }

  lemma RestoreKeys(s: Daemon, id: nat, line: Line, reply: Reply)
    requires Keys(s) && Separate(s) && CanRestore(s, id, line)
    ensures var s' := DoRestore(s, id, s.ops[id], line, reply); Keys(s') && Separate(s')
  {
    NobodyHasTheNextTicket(s);
    assert TicketOk(s, s.ops[id]);
    KeysAfter(s, DoRestore(s, id, s.ops[id], line, reply), id, s.locks.next);
  }

  lemma RestoreDebts(s: Daemon, id: nat, line: Line)
    requires Debts(s) && CanRestore(s, id, line)
    ensures Debts(DoRestore(s, id, s.ops[id], line, Acked))
  {
    var s' := DoRestore(s, id, s.ops[id], line, Acked);
    assert Shape(s.ops[id]);
    forall l | l in s'.hub.ledger ensures Covered(s', l) {
      assert l in s.hub.ledger && l != line;
      if OwedBySomeone(s, l) {
        assert OwedBySomeone(s', l);
      } else {
        var j :| j in s.ops && l in InFlight(s.ops[j]);
        assert j in s'.ops && l in InFlight(s'.ops[j]);
      }
    }
  }

  lemma MergeBackKeys(s: Daemon, id: nat)
    requires Keys(s) && Separate(s) && id in s.ops && s.ops[id].Repay?
    ensures var s' := DoMergeBack(s, id, s.ops[id]); Keys(s') && Separate(s')
  {
    NobodyHasTheNextTicket(s);
    KeysAfter(s, DoMergeBack(s, id, s.ops[id]), id, s.locks.next);
  }

  lemma MergeBackDebts(s: Daemon, id: nat)
    requires Debts(s) && id in s.ops && s.ops[id].Repay?
    ensures Debts(DoMergeBack(s, id, s.ops[id]))
  {
    var op := s.ops[id];
    var s' := DoMergeBack(s, id, op);
    forall l | OwedBySomeone(s, l) ensures Covered(s', l) {
      var c :| c in s.owed && l in s.owed[c];
      assert c in s'.owed && l in s'.owed[c];
    }
    forall l | l in InFlight(op) ensures Covered(s', l) {
      assert op.client in s'.owed && l in s'.owed[op.client];
    }
    CoverageMoves(s, s', id);
  }

  ghost predicate CanUnlock(s: Daemon, id: nat) {
    id in s.ops && ((s.ops[id].Write? && s.ops[id].phase.Unlocking?) ||
                    (s.ops[id].Repay? && s.ops[id].stage.Restoring? && s.ops[id].debt == {}))
  }

  lemma UnlockKeys(s: Daemon, id: nat)
    requires Keys(s) && Separate(s) && CanUnlock(s, id)
    ensures Keys(DoUnlock(s, id, s.ops[id])) && Separate(DoUnlock(s, id, s.ops[id]))
  {
    var op := s.ops[id];
    if TicketOf(op).Some? {
      ReleaseFrame(s.locks, TicketOf(op).value);
      OwnTicketIsOnlyMine(s, id);
      KeysAfter(s, DoUnlock(s, id, op), id, TicketOf(op).value);
    } else {
      NobodyHasTheNextTicket(s);
      KeysAfter(s, DoUnlock(s, id, op), id, s.locks.next);
    }
  }

  lemma UnlockDebts(s: Daemon, id: nat)
    requires Debts(s) && CanUnlock(s, id)
    ensures Debts(DoUnlock(s, id, s.ops[id]))
  {
    var s' := DoUnlock(s, id, s.ops[id]);
    assert Shape(s.ops[id]);
    SameOwedSameCover(s, s');
    assert InFlight(s.ops[id]) == {};
    CoverageMoves(s, s', id);
  }

  // ---- leases

  ghost predicate CanRecord(s: Daemon, id: nat) {
    id in s.ops && s.ops[id].Leasing? && s.ops[id].granted
  }

  lemma RecordLeaseKeys(s: Daemon, id: nat)
    requires Keys(s) && CanRecord(s, id)
    ensures Keys(Step(s, RecordLease(id)))
  {
    assert TicketOk(s, s.ops[id]);
    OthersKeepTheirKeys(s, Step(s, RecordLease(id)), s.locks.next);
    NobodyHasTheNextTicket(s);
  }

  lemma RecordLeaseSeparate(s: Daemon, id: nat)
    requires Keys(s) && Separate(s) && CanRecord(s, id)
    ensures Separate(Step(s, RecordLease(id)))
  {
    OwnTicketIsOnlyMine(s, id);
  }

  lemma DropLeaseKeys(s: Daemon, k: nat)
    requires Keys(s) && Separate(s) && k in s.leases && Benign(s, DropLease(k))
    ensures Keys(Step(s, DropLease(k))) && Separate(Step(s, DropLease(k)))
  {
    var s' := Step(s, DropLease(k));
    ReleaseFrame(s.locks, s.leases[k].ticket);
    forall id | id in s.ops ensures TicketOk(s', s.ops[id]) {
      assert TicketOk(s, s.ops[id]) && !Uses(s.ops[id], k);
    }
  }

  lemma HeartbeatKeys(s: Daemon, sessions: set<int>)
    requires Keys(s) && Separate(s)
    ensures Keys(s.(live := sessions)) && Separate(s.(live := sessions))
  {
    var s' := s.(live := sessions);
    forall id | id in s.ops ensures TicketOk(s', s.ops[id]) { assert TicketOk(s, s.ops[id]); }
  }

  // A step that moves no line and no debt: operation `id`, if there is one, has nothing in flight
  // and goes.
  lemma SameDebts(s: Daemon, s': Daemon, id: nat)
    requires Debts(s) && s'.hub == s.hub && s'.owed == s.owed && OneOpChanged(s, s', id) && id !in s'.ops
    requires id in s.ops ==> InFlight(s.ops[id]) == {}
    ensures Debts(s')
  {
    SameOwedSameCover(s, s');
    CoverageMoves(s, s', id);
  }

  // ---------------------------------------------------------------- whole runs

  // The part of the fault model that leases need.
  ghost predicate RespectsLeases(s: Daemon, e: Event) {
    e.BeginWrite? || e.DropLease? ==> Benign(s, e)
  }

  ghost predicate LeasesRespected(s: Daemon, es: seq<Event>) {
    es == [] || (LeasesRespected(s, es[..|es| - 1]) && RespectsLeases(Play(s, es[..|es| - 1]), es[|es| - 1]))
  }

  lemma StepKeepsKeys(s: Daemon, e: Event)
    requires Keys(s) && Separate(s) && RespectsLeases(s, e)
    ensures Keys(Step(s, e)) && Separate(Step(s, e))
  {
    match e {
      case BeginWrite(_, job, _, _, _, expired) =>
        EnterFrame(s.locks, JobRequest(job), expired);
        BegunKeys(s, e, L.LockStep(s.locks, L.Enter(JobRequest(job), expired)),
                  L.EntryVerdict(s.locks, JobRequest(job), expired));
      case BeginRelease(_, _, _) => BeginReleaseKeys(s, e);
      case BeginLease(c, expired) =>
        EnterFrame(s.locks, L.All, expired);
        LeaseBegunKeys(s, c, L.LockStep(s.locks, L.Enter(L.All, expired)), L.EntryVerdict(s.locks, L.All, expired));
      case Heartbeat(sessions) => HeartbeatKeys(s, sessions);
      case DropLease(k) => if k in s.leases { DropLeaseKeys(s, k); }
      case _ => OpStepKeepsKeys(s, e);
    }
  }

  lemma OpStepKeepsKeys(s: Daemon, e: Event)
    requires Keys(s) && Separate(s)
    requires !e.BeginWrite? && !e.BeginRelease? && !e.BeginLease? && !e.Heartbeat? && !e.DropLease?
    ensures Keys(Step(s, e)) && Separate(Step(s, e))
  {
    if Step(s, e) != s {
      match e {
        case QueueRelease(id, expired) =>
          var r := L.Only(Chans(s.ops[id].wanted));
          EnterFrame(s.locks, r, expired);
          ReleaseQueuedKeys(s, id, L.LockStep(s.locks, L.Enter(r, expired)), L.EntryVerdict(s.locks, r, expired));
        case Wake(id, expired) => WakeKeys(s, id, expired);
        case Act(id, reply) => ActKeys(s, id, reply);
        case Report(id) => ReportKeys(s, id);
        case Unlock(id) => UnlockKeys(s, id);
        case Restore(id, line, reply) => RestoreKeys(s, id, line, reply);
        case MergeBack(id) => MergeBackKeys(s, id);
        case RecordLease(id) => RecordLeaseKeys(s, id); RecordLeaseSeparate(s, id);
      }
    }
  }

  lemma {:induction false} EveryRunKeepsKeys(channels: seq<int>, es: seq<Event>)
    requires LeasesRespected(Start(channels), es)
    ensures Keys(Play(Start(channels), es)) && Separate(Play(Start(channels), es))
  {
    if es != [] {
      EveryRunKeepsKeys(channels, es[..|es| - 1]);
      StepKeepsKeys(Play(Start(channels), es[..|es| - 1]), es[|es| - 1]);
    }
  }

  /** Mutual exclusion over whole runs, whatever the hub answers and whatever is released: as long as
      leases are used by one write at a time and not dropped under it, no two operations ever hold one
      channel, by a token or under a lease. */
  lemma {:induction false} EveryRunIsExclusive(channels: seq<int>, es: seq<Event>, i: nat, j: nat, c: int)
    requires LeasesRespected(Start(channels), es)
    requires var s := Play(Start(channels), es);
             && i in s.ops && j in s.ops && Holding(s.ops[i]) && Holding(s.ops[j])
             && Covers(RequestOf(s.ops[i]), c) && Covers(RequestOf(s.ops[j]), c)
    ensures i == j
  {
    EveryRunKeepsKeys(channels, es);
    OneHolderPerChannel(Play(Start(channels), es), i, j, c);
  }

  /** And while a lease is out its token is the only one held, so that nobody acts but its own write. */
  lemma {:induction false} ALeaseIsAlone(channels: seq<int>, es: seq<Event>, k: nat, id: nat)
    requires LeasesRespected(Start(channels), es)
    requires var s := Play(Start(channels), es); k in s.leases && id in s.ops && Holding(s.ops[id])
    ensures var s := Play(Start(channels), es);
            s.locks.held.Keys == {s.leases[k].ticket} && Uses(s.ops[id], k)
  {
    var s := Play(Start(channels), es);
    EveryRunKeepsKeys(channels, es);
    AllOverlaps(s, k);
    assert TicketOk(s, s.ops[id]);
    if s.ops[id].Write? && s.ops[id].key.UnderLease? {
      AllOverlaps(s, s.ops[id].key.lease);
    }
  }

  lemma AllOverlaps(s: Daemon, k: nat)
    requires Keys(s) && k in s.leases
    ensures s.locks.held.Keys == {s.leases[k].ticket}
  {
    var t := s.leases[k].ticket;
    forall u | u in s.locks.held ensures u == t {
      assert u != t ==> L.Overlap(s.locks.held[t], s.locks.held[u]);
    }
  }

  lemma StepKeepsDebts(s: Daemon, e: Event)
    requires Inv(s) && Benign(s, e)
    ensures Debts(Step(s, e))
  {
    assert s.nextOp !in s.ops;
    match e {
      case BeginWrite(_, job, _, _, _, expired) =>
        BegunDebts(s, e, L.LockStep(s.locks, L.Enter(JobRequest(job), expired)),
                   L.EntryVerdict(s.locks, JobRequest(job), expired));
      case BeginRelease(_, _, _) => BeginReleaseDebts(s, e);
      case BeginLease(c, expired) =>
        LeaseBegunDebts(s, c, L.LockStep(s.locks, L.Enter(L.All, expired)), L.EntryVerdict(s.locks, L.All, expired));
      case Heartbeat(sessions) => SameDebts(s, s.(live := sessions), s.nextOp);
      case DropLease(k) => if k in s.leases { SameDebts(s, Step(s, e), s.nextOp); }
      case _ => OpStepKeepsDebts(s, e);
    }
  }

  lemma OpStepKeepsDebts(s: Daemon, e: Event)
    requires Inv(s) && Benign(s, e)
    requires !e.BeginWrite? && !e.BeginRelease? && !e.BeginLease? && !e.Heartbeat? && !e.DropLease?
    ensures Debts(Step(s, e))
  {
    if Step(s, e) != s {
      match e {
        case QueueRelease(id, expired) =>
          var r := L.Only(Chans(s.ops[id].wanted));
          ReleaseQueuedDebts(s, id, L.LockStep(s.locks, L.Enter(r, expired)), L.EntryVerdict(s.locks, r, expired));
        case Wake(id, expired) => WakeDebts(s, id, expired);
        case Act(id, reply) => ActDebts(s, id, reply);
        case Report(id) => ReportDebts(s, id);
        case Unlock(id) => UnlockDebts(s, id);
        case Restore(id, line, reply) => RestoreDebts(s, id, line);
        case MergeBack(id) => MergeBackDebts(s, id);
        case RecordLease(id) => SameDebts(s, Step(s, e), id);
      }
    }
  }

  lemma StepKeepsInv(s: Daemon, e: Event)
    requires Inv(s) && Benign(s, e)
    ensures Inv(Step(s, e))
  {
    StepKeepsKeys(s, e);
    StepKeepsDebts(s, e);
  }

  /** Debt coverage: in every interleaving under the fault model, a line the daemon's commands left
      dark is owed by some client or belongs to an operation in flight, and the ledger is exact. */
  lemma {:induction false} EveryCutIsOwedOrInFlight(channels: seq<int>, es: seq<Event>)
    requires BenignRun(Start(channels), es)
    ensures Inv(Play(Start(channels), es))
  {
    if es != [] {
      EveryCutIsOwedOrInFlight(channels, es[..|es| - 1]);
      StepKeepsInv(Play(Start(channels), es[..|es| - 1]), es[|es| - 1]);
    }
  }

  /** So once nobody owes anything and nothing is in flight, every line is back on. */
  lemma NothingOwedNothingDark(channels: seq<int>, es: seq<Event>)
    requires BenignRun(Start(channels), es)
    requires var s := Play(Start(channels), es);
             s.ops == map[] && forall c :: c in s.owed ==> s.owed[c] == {}
    ensures Play(Start(channels), es).hub == Hub({}, {})
  {
    EveryCutIsOwedOrInFlight(channels, es);
    var s := Play(Start(channels), es);
    forall l ensures l !in s.hub.ledger {
      assert l in s.hub.ledger ==> Covered(s, l);
    }
  }
}
