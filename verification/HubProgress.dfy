/**
Nothing gets stuck: in every run of the daemon, faulty ones included, each held token and each
queue entry belongs to an operation in flight or a lease; and from every state a run under the
fault model reaches, the operations in flight can finish and every debt can be paid with no
timeout and no spurious wake-up, after which the locks are free and every line is back on.
*/
module HubProgress {
  import opened Options
  import G = HubGuard
  import opened HubManager
  import opened HubProtocol
  import L = HubLocks

  // ---------------------------------------------------------------- no token without an owner

  predicate Claims(op: Op, t: L.Ticket) {
    Holding(op) && TicketOf(op) == Some(t)
  }

  predicate Awaits(op: Op, t: L.Ticket) {
    Waiting(op) && TicketOf(op) == Some(t)
  }

  ghost predicate Claimed(s: Daemon, t: L.Ticket) {
    (exists id :: id in s.ops && Claims(s.ops[id], t)) || (exists k :: k in s.leases && s.leases[k].ticket == t)
  }

  ghost predicate Awaited(s: Daemon, t: L.Ticket) {
    exists id :: id in s.ops && Awaits(s.ops[id], t)
  }

  ghost predicate Owned(s: Daemon) {
    && L.Inv(s.locks)
    && (forall id :: id in s.ops ==> id < s.nextOp)
    && (forall k :: k in s.leases ==> k < s.nextLease)
    && (forall t :: t in s.locks.held ==> Claimed(s, t))
    && (forall t :: L.IsWaiting(s.locks, t) ==> Awaited(s, t))
  }

  // What one lock step on ticket t can add to the holders and to the queue.
  ghost predicate Adds(a: L.Locks, b: L.Locks, t: L.Ticket, v: L.Verdict) {
    && L.Inv(b)
    && (forall u :: u in b.held ==> u in a.held || (u == t && v.Granted?))
    && (forall u :: L.IsWaiting(b, u) ==> if u == t then v.Sleeping? else L.IsWaiting(a, u))
  }

  lemma CheckAdds(a: L.Locks, i: nat, expired: bool)
    requires i < |a.waiting| && L.TicketsDistinct(a) && L.Inv(L.CheckAt(a, i, expired))
    ensures Adds(a, L.CheckAt(a, i, expired), a.waiting[i].ticket, L.VerdictAt(a, i, expired))
  {
    var b, v, t := L.CheckAt(a, i, expired), L.VerdictAt(a, i, expired), a.waiting[i].ticket;
    forall u | L.IsWaiting(b, u) ensures if u == t then v.Sleeping? else L.IsWaiting(a, u) {
      L.CheckAddsNobody(a, i, expired, u);
      if !v.Sleeping? {
        L.CheckLeaves(a, i, expired);
        L.LeaverIsGone(a, b, i);
      }
    }
  }

  lemma EnterAdds(a: L.Locks, r: L.Request, expired: bool)
    requires L.Inv(a)
    ensures Adds(a, L.LockStep(a, L.Enter(r, expired)), a.next, L.EntryVerdict(a, r, expired))
  {
    L.StepKeepsInv(a, L.Enter(r, expired));
    L.QueueingAddsOne(a, r);
    CheckAdds(L.Queued(a, r), |a.waiting|, expired);
  }

  lemma WakeAdds(a: L.Locks, t: L.Ticket, expired: bool)
    requires L.Inv(a) && L.Position(a.waiting, t) < |a.waiting|
    ensures Adds(a, L.LockStep(a, L.Wake(t, expired)), t, L.VerdictAt(a, L.Position(a.waiting, t), expired))
  {
    L.StepKeepsInv(a, L.Wake(t, expired));
    CheckAdds(a, L.Position(a.waiting, t), expired);
  }

  lemma ReleaseAdds(a: L.Locks, t: L.Ticket)
    requires L.Inv(a)
    ensures var b := L.LockStep(a, L.Release(t));
            L.Inv(b) && t !in b.held && b.held.Keys <= a.held.Keys && forall u :: L.IsWaiting(b, u) ==> L.IsWaiting(a, u)
  {
    var b := L.LockStep(a, L.Release(t));
    L.StepKeepsInv(a, L.Release(t));
    forall u | L.IsWaiting(b, u) ensures L.IsWaiting(a, u) {
      var k :| 0 <= k < |b.waiting| && b.waiting[k].ticket == u;
      assert a.waiting[k].ticket == u;
    }
  }

  // One operation changes: every token it held or waited for is let go or still its own.
  lemma OwnedAfter(s: Daemon, s': Daemon, id: nat)
    requires Owned(s) && OneOpChanged(s, s', id) && L.Inv(s'.locks)
    requires s.leases == s'.leases && s'.nextLease == s.nextLease && s.nextOp <= s'.nextOp && (id in s'.ops ==> id < s'.nextOp)
    requires forall t :: t in s'.locks.held ==>
               (t in s.locks.held && !(id in s.ops && Claims(s.ops[id], t))) || (id in s'.ops && Claims(s'.ops[id], t))
    requires forall t :: L.IsWaiting(s'.locks, t) ==>
               (L.IsWaiting(s.locks, t) && !(id in s.ops && Awaits(s.ops[id], t))) || (id in s'.ops && Awaits(s'.ops[id], t))
    ensures Owned(s')
  {
    forall t | t in s'.locks.held ensures Claimed(s', t) {
      if !(id in s'.ops && Claims(s'.ops[id], t)) {
        assert Claimed(s, t);
        if j :| j in s.ops && Claims(s.ops[j], t) { assert j in s'.ops && Claims(s'.ops[j], t); }
      }
    }
    forall t | L.IsWaiting(s'.locks, t) ensures Awaited(s', t) {
      if !(id in s'.ops && Awaits(s'.ops[id], t)) {
        var j :| j in s.ops && Awaits(s.ops[j], t);
        assert j in s'.ops && Awaits(s'.ops[j], t);
      }
    }
  }

  lemma BegunOwned(s: Daemon, e: Event, locks: L.Locks, v: L.Verdict)
    requires Owned(s) && e.BeginWrite? && Adds(s.locks, locks, s.locks.next, v)
    ensures Owned(Begun(s, e, locks, v))
  {
    OwnedAfter(s, Begun(s, e, locks, v), s.nextOp);
  }

  lemma LeaseBegunOwned(s: Daemon, c: G.Client, locks: L.Locks, v: L.Verdict)
    requires Owned(s) && Adds(s.locks, locks, s.locks.next, v)
    ensures Owned(LeaseBegun(s, c, locks, v))
  {
    OwnedAfter(s, LeaseBegun(s, c, locks, v), s.nextOp);
  }

  lemma ReleaseQueuedOwned(s: Daemon, id: nat, locks: L.Locks, v: L.Verdict)
    requires Owned(s) && id in s.ops && s.ops[id].Repay? && s.ops[id].stage.Popped?
    requires Adds(s.locks, locks, s.locks.next, v)
    ensures Owned(ReleaseQueued(s, id, s.ops[id], locks, v))
  {
    OwnedAfter(s, ReleaseQueued(s, id, s.ops[id], locks, v), id);
  }

  lemma WokenOwned(s: Daemon, id: nat, locks: L.Locks, v: L.Verdict)
    requires Owned(s) && CanWake(s, id) && Adds(s.locks, locks, TicketOf(s.ops[id]).value, v)
    ensures Owned(Woken(s, id, s.ops[id], locks, v))
  {
    OwnedAfter(s, Woken(s, id, s.ops[id], locks, v), id);
  }

  lemma WakeOwned(s: Daemon, id: nat, expired: bool)
    requires Owned(s) && CanWake(s, id)
    ensures Owned(Step(s, Wake(id, expired)))
  {
    var t := TicketOf(s.ops[id]).value;
    var i := L.Position(s.locks.waiting, t);
    if i < |s.locks.waiting| {
      WakeAdds(s.locks, t, expired);
      WokenOwned(s, id, L.LockStep(s.locks, L.Wake(t, expired)), L.VerdictAt(s.locks, i, expired));
    }
  }

  lemma UnlockOwned(s: Daemon, id: nat)
    requires Owned(s) && CanUnlock(s, id)
    ensures Owned(DoUnlock(s, id, s.ops[id]))
  {
    if TicketOf(s.ops[id]).Some? { ReleaseAdds(s.locks, TicketOf(s.ops[id]).value); }
    OwnedAfter(s, DoUnlock(s, id, s.ops[id]), id);
  }

  lemma DropLeaseOwned(s: Daemon, k: nat)
    requires Owned(s) && k in s.leases
    ensures Owned(Step(s, DropLease(k)))
  {
    var s' := Step(s, DropLease(k));
    ReleaseAdds(s.locks, s.leases[k].ticket);
    forall t | t in s'.locks.held ensures Claimed(s', t) {
      assert Claimed(s, t);
      if m :| m in s.leases && s.leases[m].ticket == t { assert m in s'.leases && s'.leases[m].ticket == t; }
    }
    forall t | L.IsWaiting(s'.locks, t) ensures Awaited(s', t) {
      assert Awaited(s, t);
    }
  }

  lemma RecordLeaseOwned(s: Daemon, id: nat)
    requires Owned(s) && CanRecord(s, id)
    ensures Owned(Step(s, RecordLease(id)))
  {
    var s' := Step(s, RecordLease(id));
    forall t | t in s'.locks.held ensures Claimed(s', t) {
      if t == s.ops[id].ticket {
        assert s.nextLease in s'.leases && s'.leases[s.nextLease].ticket == t;
      } else if j :| j in s.ops && Claims(s.ops[j], t) {
        assert j in s'.ops && Claims(s'.ops[j], t);
      } else {
        var m :| m in s.leases && s.leases[m].ticket == t;
        assert m in s'.leases && s'.leases[m].ticket == t;
      }
    }
    forall t | L.IsWaiting(s'.locks, t) ensures Awaited(s', t) {
      var j :| j in s.ops && Awaits(s.ops[j], t);
      assert j in s'.ops && Awaits(s'.ops[j], t);
    }
  }

  lemma StepOwned(s: Daemon, e: Event)
    requires Owned(s)
    ensures Owned(Step(s, e))
  {
    match e {
      case BeginWrite(_, job, _, _, _, expired) =>
        var r := JobRequest(job);
        EnterAdds(s.locks, r, expired);
        BegunOwned(s, e, L.LockStep(s.locks, L.Enter(r, expired)), L.EntryVerdict(s.locks, r, expired));
      case BeginLease(c, expired) =>
        EnterAdds(s.locks, L.All, expired);
        LeaseBegunOwned(s, c, L.LockStep(s.locks, L.Enter(L.All, expired)), L.EntryVerdict(s.locks, L.All, expired));
      case QueueRelease(id, expired) =>
        if id in s.ops && s.ops[id].Repay? && s.ops[id].stage.Popped? {
          var r := L.Only(Chans(s.ops[id].wanted));
          EnterAdds(s.locks, r, expired);
          ReleaseQueuedOwned(s, id, L.LockStep(s.locks, L.Enter(r, expired)), L.EntryVerdict(s.locks, r, expired));
        }
      case Wake(id, expired) => if CanWake(s, id) { WakeOwned(s, id, expired); }
      case Unlock(id) => if CanUnlock(s, id) { UnlockOwned(s, id); }
      case DropLease(k) => if k in s.leases { DropLeaseOwned(s, k); }
      case RecordLease(id) => if CanRecord(s, id) { RecordLeaseOwned(s, id); }
      case BeginRelease(_, _, _) => OwnedAfter(s, Step(s, e), s.nextOp);
      case Heartbeat(_) => OwnedAfter(s, Step(s, e), s.nextOp);
      case _ => UnlockedStepOwned(s, e);
    }
  }

  // A step that leaves the locks alone and one operation with the token it had.
  lemma OwnedStill(s: Daemon, s': Daemon, id: nat)
    requires Owned(s) && OneOpChanged(s, s', id) && s'.locks == s.locks
    requires s.leases == s'.leases && s'.nextLease == s.nextLease && s.nextOp == s'.nextOp
    requires id in s.ops && !Waiting(s.ops[id])
    requires if id in s'.ops then Holding(s'.ops[id]) && TicketOf(s'.ops[id]) == TicketOf(s.ops[id]) else !Holding(s.ops[id])
    ensures Owned(s')
  {
    OwnedAfter(s, s', id);
  }

  lemma ActOwned(s: Daemon, id: nat, reply: Reply)
    requires Owned(s) && CanAct(s, id)
    ensures Owned(DoAct(s, id, s.ops[id], reply))
  {
    OwnedStill(s, DoAct(s, id, s.ops[id], reply), id);
  }

  lemma UnlockedStepOwned(s: Daemon, e: Event)
    requires Owned(s) && (e.Act? || e.Report? || e.Restore? || e.MergeBack?)
    ensures Owned(Step(s, e))
  {
    match e {
      case Act(id, reply) => if CanAct(s, id) { ActOwned(s, id, reply); }
      case Report(id) => if CanReport(s, id) { OwnedStill(s, DoReport(s, id, s.ops[id]), id); }
      case Restore(id, line, reply) =>
        if CanRestore(s, id, line) { OwnedStill(s, DoRestore(s, id, s.ops[id], line, reply), id); }
      case MergeBack(id) =>
        if id in s.ops && s.ops[id].Repay? && s.ops[id].stage.Deferred? { OwnedStill(s, DoMergeBack(s, id, s.ops[id]), id); }
    }
  }

  /** Every run: a token in `_held` is some operation's or some lease's, a queue entry some sleeping
      operation's. None is ever leaked. */
  lemma {:induction false} NoTokenLeaks(channels: seq<int>, es: seq<Event>)
    ensures Owned(Play(Start(channels), es))
  {
    if es != [] {
      NoTokenLeaks(channels, es[..|es| - 1]);
      StepOwned(Play(Start(channels), es[..|es| - 1]), es[|es| - 1]);
    }
  }

  /** So with nothing in flight and no lease out, the locks are free. */
  lemma IdleMeansFree(s: Daemon)
    requires Owned(s) && s.ops == map[] && s.leases == map[]
    ensures s.locks.held == map[] && s.locks.waiting == []
  {
    assert s.locks.waiting != [] ==> L.IsWaiting(s.locks, s.locks.waiting[0].ticket);
    forall t ensures t !in s.locks.held && !L.IsWaiting(s.locks, t) {
      assert t in s.locks.held ==> Claimed(s, t);
      assert L.IsWaiting(s.locks, t) ==> Awaited(s, t);
    }
  }

  // ---------------------------------------------------------------- what is left to do

  function Work(op: Op, channels: seq<int>): nat {
    match op
    case Write(_, job, _, _, phase, _, _) =>
      (match phase
       case Queued => 3 + |Script(job, channels)|
       case Acting(todo) => 2 + |todo|
       case Reporting => 2
       case Unlocking => 1)
    case Repay(_, debt, wanted, _, stage) =>
      (match stage
       case Popped => 3 + |wanted|
       case RepayQueued => 2 + |wanted|
       case Restoring => 1 + |debt|
       case Deferred => 1)
    case Leasing(_, _, granted) => if granted then 2 else 3
  }

  function Total(ops: map<nat, Op>, channels: seq<int>, n: nat): nat {
    if n == 0 then 0 else Total(ops, channels, n - 1) + if n - 1 in ops then Work(ops[n - 1], channels) else 0
  }

  function ToDo(s: Daemon): nat {
    Total(s.ops, s.channels, s.nextOp) + |s.leases|
  }

  function WorkAt(s: Daemon, id: nat): nat {
    if id in s.ops then Work(s.ops[id], s.channels) else 0
  }

  lemma {:induction false} TotalMoves(s: Daemon, s': Daemon, id: nat, n: nat)
    requires OneOpChanged(s, s', id) && s'.channels == s.channels
    ensures Total(s'.ops, s.channels, n) ==
            Total(s.ops, s.channels, n) + if id < n then WorkAt(s', id) - WorkAt(s, id) else 0
  {
    if n != 0 { TotalMoves(s, s', id, n - 1); }
  }

  // Events that start nothing but releases, time nothing out, lose nothing, and wake only who was
  // notified.
  ghost predicate Orderly(s: Daemon, e: Event) {
    match e
    case BeginWrite(_, _, _, _, _, _) => false
    case BeginLease(_, _) => false
    case Heartbeat(_) => false
    case QueueRelease(_, expired) => !expired
    case Wake(id, expired) =>
      && !expired && CanWake(s, id)
      && var i := L.Position(s.locks.waiting, TicketOf(s.ops[id]).value);
         i < |s.locks.waiting| && s.locks.waiting[i].notified
    case _ => Benign(s, e)
  }

  ghost predicate OrderlyRun(s: Daemon, es: seq<Event>) {
    es == [] || (OrderlyRun(s, es[..|es| - 1]) && Orderly(Play(s, es[..|es| - 1]), es[|es| - 1]))
  }

  ghost predicate Sound(s: Daemon) {
    Inv(s) && Owned(s)
  }

  lemma SoundStep(s: Daemon, e: Event)
    requires Sound(s) && Benign(s, e)
    ensures Sound(Step(s, e))
  {
    StepKeepsInv(s, e);
    StepOwned(s, e);
  }

  // An operation that waits for nobody has a next event.
  ghost function NextOf(s: Daemon, id: nat): (e: Event)
    requires id in s.ops && !Waiting(s.ops[id])
  {
    var op := s.ops[id];
    match op
    case Write(_, _, _, _, phase, _, _) =>
      if phase.Acting? then Act(id, Acked) else if phase.Reporting? then Report(id) else Unlock(id)
    case Repay(_, debt, _, _, stage) =>
      if stage.Popped? then QueueRelease(id, false)
      else if stage.Deferred? then MergeBack(id)
      else if debt == {} then Unlock(id)
      else (var l :| l in debt; Restore(id, l, Acked))
    case Leasing(_, _, _) => RecordLease(id)
  }

  // A step that leaves less to do.
  ghost predicate Advances(s: Daemon, e: Event) {
    Orderly(s, e) && ToDo(Step(s, e)) < ToDo(s)
  }

  lemma OneOpAdvances(s: Daemon, s': Daemon, id: nat)
    requires Owned(s) && id in s.ops && OneOpChanged(s, s', id)
    requires s'.channels == s.channels && s'.leases == s.leases && s'.nextOp == s.nextOp
    requires WorkAt(s', id) < WorkAt(s, id)
    ensures ToDo(s') < ToDo(s)
  {
    TotalMoves(s, s', id, s.nextOp);
  }

  lemma CommandAdvances(s: Daemon, id: nat)
    requires Owned(s) && CanAct(s, id)
    ensures Advances(s, Act(id, Acked))
  {
    OneOpAdvances(s, DoAct(s, id, s.ops[id], Acked), id);
  }

  lemma QueueingAdvances(s: Daemon, id: nat)
    requires Owned(s) && id in s.ops && s.ops[id].Repay? && s.ops[id].stage.Popped?
    ensures Advances(s, QueueRelease(id, false))
  {
    var r := L.Only(Chans(s.ops[id].wanted));
    var locks, v := L.LockStep(s.locks, L.Enter(r, false)), L.EntryVerdict(s.locks, r, false);
    OneOpAdvances(s, ReleaseQueued(s, id, s.ops[id], locks, v), id);
  }

  lemma OneMoreLease(leases: map<nat, Lease>, k: nat, lease: Lease)
    requires k !in leases
    ensures |leases[k := lease]| == |leases| + 1
  {
    assert leases[k := lease].Keys == leases.Keys + {k};
  }

  lemma RecordingAdvances(s: Daemon, id: nat)
    requires Owned(s) && CanRecord(s, id)
    ensures Advances(s, RecordLease(id))
  {
    var lease := Lease(s.ops[id].client, s.ops[id].ticket);
    var s' := DropOp(s.(leases := s.leases[s.nextLease := lease], nextLease := s.nextLease + 1), id);
    assert s' == Step(s, RecordLease(id));
    TotalMoves(s, s', id, s.nextOp);
    OneMoreLease(s.leases, s.nextLease, lease);
  }

  lemma RestoringAdvances(s: Daemon, id: nat, line: Line)
    requires Owned(s) && CanRestore(s, id, line)
    ensures Advances(s, Restore(id, line, Acked))
  {
    OneOpAdvances(s, DoRestore(s, id, s.ops[id], line, Acked), id);
  }

  lemma MergingAdvances(s: Daemon, id: nat)
    requires Owned(s) && id in s.ops && s.ops[id].Repay? && s.ops[id].stage.Deferred?
    ensures Advances(s, MergeBack(id))
  {
    OneOpAdvances(s, DoMergeBack(s, id, s.ops[id]), id);
  }

  lemma RepayingAdvances(s: Daemon, id: nat)
    requires Owned(s) && id in s.ops && s.ops[id].Repay? && !Waiting(s.ops[id])
    ensures Advances(s, NextOf(s, id))
  {
    match NextOf(s, id) {
      case QueueRelease(_, _) => QueueingAdvances(s, id);
      case MergeBack(_) => MergingAdvances(s, id);
      case Unlock(_) => UnlockingAdvances(s, id);
      case Restore(_, line, _) => RestoringAdvances(s, id, line);
    }
  }

  lemma AccountingAdvances(s: Daemon, id: nat)
    requires Owned(s) && CanReport(s, id)
    ensures Advances(s, Report(id))
  {
    OneOpAdvances(s, DoReport(s, id, s.ops[id]), id);
  }

  lemma UnlockingAdvances(s: Daemon, id: nat)
    requires Owned(s) && CanUnlock(s, id)
    ensures Advances(s, Unlock(id))
  {
    OneOpAdvances(s, DoUnlock(s, id, s.ops[id]), id);
  }

  /** An operation that is not asleep always has a next step, and it brings the end nearer. */
  lemma NextAdvances(s: Daemon, id: nat)
    requires Sound(s) && id in s.ops && !Waiting(s.ops[id])
    ensures Advances(s, NextOf(s, id))
  {
    assert Shape(s.ops[id]);
    match s.ops[id] {
      case Write(_, _, _, _, phase, _, _) =>
        if phase.Acting? {
          assert CmdsOk(s.ops[id], phase.todo);
          CommandAdvances(s, id);
        } else if phase.Reporting? {
          AccountingAdvances(s, id);
        } else {
          UnlockingAdvances(s, id);
        }
      case Repay(_, _, _, _, _) => RepayingAdvances(s, id);
      case Leasing(_, _, _) => RecordingAdvances(s, id);
    }
  }

  ghost predicate AllAsleep(s: Daemon) {
    forall id :: id in s.ops ==> Waiting(s.ops[id])
  }

  lemma DroppingAdvances(s: Daemon, k: nat)
    requires Sound(s) && AllAsleep(s) && k in s.leases
    ensures Advances(s, DropLease(k))
  {
    forall id | id in s.ops ensures !Uses(s.ops[id], k) {
      assert TicketOk(s, s.ops[id]);
    }
    var s' := Step(s, DropLease(k));
    assert s'.leases.Keys == s.leases.Keys - {k};
  }

  lemma NothingHeld(s: Daemon)
    requires Owned(s) && AllAsleep(s) && s.leases == map[]
    ensures s.locks.held == map[]
  {
    forall t ensures t !in s.locks.held {
      assert t in s.locks.held ==> Claimed(s, t);
    }
  }

  lemma HeadHasAnOwner(s: Daemon, any: nat) returns (id: nat)
    requires Sound(s) && AllAsleep(s) && s.leases == map[] && any in s.ops
    ensures s.locks.held == map[] && s.locks.waiting != [] && CanWake(s, id)
    ensures TicketOf(s.ops[id]).value == s.locks.waiting[0].ticket && s.locks.waiting[0].notified
  {
    NothingHeld(s);
    assert TicketOk(s, s.ops[any]);
    var t := s.locks.waiting[0].ticket;
    assert L.IsWaiting(s.locks, t);
    assert !L.BlockedAt(s.locks, 0);
    id :| id in s.ops && Awaits(s.ops[id], t);
  }

  lemma WakingAdvances(s: Daemon, id: nat, locks: L.Locks)
    requires Owned(s) && CanWake(s, id)
    ensures ToDo(Woken(s, id, s.ops[id], locks, L.Granted)) < ToDo(s)
  {
    OneOpAdvances(s, Woken(s, id, s.ops[id], locks, L.Granted), id);
  }

  /** No deadlock: when every operation is asleep and no lease is out, the head of the queue has its
      wake-up pending, and that wake-up grants it. */
  lemma HeadAdvances(s: Daemon, any: nat) returns (id: nat)
    requires Sound(s) && AllAsleep(s) && s.leases == map[] && any in s.ops
    ensures Advances(s, Wake(id, false))
  {
    id := HeadHasAnOwner(s, any);
    var t := s.locks.waiting[0].ticket;
    assert L.Position(s.locks.waiting, t) == 0;
    assert L.VerdictAt(s.locks, 0, false).Granted?;
    WakingAdvances(s, id, L.LockStep(s.locks, L.Wake(t, false)));
  }

  // ---------------------------------------------------------------- winding up

  // A run from s0, with the state it has reached.
  ghost predicate At(s0: Daemon, es: seq<Event>, s: Daemon) {
    Play(s0, es) == s && OrderlyRun(s0, es) && Sound(s)
  }

  lemma Go(s0: Daemon, es: seq<Event>, s: Daemon, e: Event) returns (longer: seq<Event>, s': Daemon)
    requires At(s0, es, s) && Orderly(s, e)
    ensures longer == es + [e] && s' == Step(s, e) && At(s0, longer, s')
  {
    longer, s' := es + [e], Step(s, e);
    assert longer[..|es|] == es;
    SoundStep(s, e);
  }

  lemma Drain(s0: Daemon, es: seq<Event>, s: Daemon) returns (longer: seq<Event>, s': Daemon)
    requires At(s0, es, s)
    ensures At(s0, longer, s') && s'.ops == map[] && s'.leases == map[]
    decreases ToDo(s)
  {
    if id :| id in s.ops && !Waiting(s.ops[id]) {
      NextAdvances(s, id);
      longer, s' := Go(s0, es, s, NextOf(s, id));
      longer, s' := Drain(s0, longer, s');
    } else if k :| k in s.leases {
      DroppingAdvances(s, k);
      longer, s' := Go(s0, es, s, DropLease(k));
      longer, s' := Drain(s0, longer, s');
    } else if any :| any in s.ops {
      var id := HeadAdvances(s, any);
      longer, s' := Go(s0, es, s, Wake(id, false));
      longer, s' := Drain(s0, longer, s');
    } else {
      longer, s' := es, s;
    }
  }

  // The only operation is a release on its way: it is never deferred.
  ghost predicate OnlyRepaying(s: Daemon, id: nat) {
    s.ops.Keys == {id} && s.ops[id].Repay? && (s.ops[id].stage.Popped? || s.ops[id].stage.Restoring?) && s.leases == map[]
  }

  lemma LocksAreFree(s: Daemon, id: nat)
    requires Owned(s) && OnlyRepaying(s, id) && s.ops[id].stage.Popped?
    ensures s.locks.held == map[] && s.locks.waiting == []
  {
    assert s.locks.waiting != [] ==> L.IsWaiting(s.locks, s.locks.waiting[0].ticket);
    forall t ensures t !in s.locks.held && !L.IsWaiting(s.locks, t) {
      assert t in s.locks.held ==> Claimed(s, t);
      assert L.IsWaiting(s.locks, t) ==> Awaited(s, t);
    }
  }

  lemma RepayGranted(s: Daemon, id: nat)
    requires Sound(s) && OnlyRepaying(s, id) && s.ops[id].stage.Popped?
    ensures var s' := Step(s, QueueRelease(id, false)); OnlyRepaying(s', id) && s'.owed == s.owed
  {
    LocksAreFree(s, id);
    var r := L.Only(Chans(s.ops[id].wanted));
    L.GrantedOnEntryIffNothingOverlaps(s.locks, r, false);
    var s' := ReleaseQueued(s, id, s.ops[id], L.LockStep(s.locks, L.Enter(r, false)), L.Granted);
    assert s'.ops.Keys == s.ops.Keys;
  }

  lemma RepayGoesOn(s: Daemon, id: nat)
    requires Sound(s) && OnlyRepaying(s, id)
    ensures var s' := Step(s, NextOf(s, id));
            (s'.ops == map[] || OnlyRepaying(s', id)) && s'.owed == s.owed && s'.leases == map[]
  {
    if s.ops[id].stage.Popped? {
      RepayGranted(s, id);
    } else if s.ops[id].debt == {} {
      assert DoUnlock(s, id, s.ops[id]).ops.Keys == {};
    }
  }

  lemma FinishRepay(s0: Daemon, es: seq<Event>, s: Daemon, id: nat) returns (longer: seq<Event>, s': Daemon)
    requires At(s0, es, s) && OnlyRepaying(s, id)
    ensures At(s0, longer, s') && s'.ops == map[] && s'.leases == map[] && s'.owed == s.owed
    decreases ToDo(s)
  {
    NextAdvances(s, id);
    RepayGoesOn(s, id);
    longer, s' := Go(s0, es, s, NextOf(s, id));
    if s'.ops != map[] {
      longer, s' := FinishRepay(s0, longer, s', id);
    }
  }

  lemma PayOff(s0: Daemon, es: seq<Event>, s: Daemon, c: G.Client) returns (longer: seq<Event>, s': Daemon)
    requires At(s0, es, s) && s.ops == map[] && s.leases == map[]
    ensures At(s0, longer, s') && s'.ops == map[] && s'.leases == map[] && s'.owed == s.owed - {c}
  {
    longer, s' := Go(s0, es, s, BeginRelease(c, true, true));
    if s'.ops != map[] {
      longer, s' := FinishRepay(s0, longer, s', s.nextOp);
    }
  }

  lemma PayAll(s0: Daemon, es: seq<Event>, s: Daemon) returns (longer: seq<Event>, s': Daemon)
    requires At(s0, es, s) && s.ops == map[] && s.leases == map[]
    ensures At(s0, longer, s') && s'.ops == map[] && s'.leases == map[] && s'.owed == map[]
    decreases |s.owed|
  {
    if c :| c in s.owed {
      longer, s' := PayOff(s0, es, s, c);
      assert s'.owed.Keys == s.owed.Keys - {c};
      longer, s' := PayAll(s0, longer, s');
    } else {
      longer, s' := es, s;
    }
  }

  /** From wherever a run under the fault model has got to, the operations in flight can finish and
      the clients release, with no timeout and no wake-up but the pending ones; and then no token is
      held, nobody waits, nobody owes anything, and every line is on. */
  lemma EveryRunCanBeWoundUp(channels: seq<int>, es: seq<Event>) returns (more: seq<Event>)
    requires BenignRun(Start(channels), es)
    ensures OrderlyRun(Play(Start(channels), es), more)
    ensures var s := Play(Play(Start(channels), es), more);
            && s.ops == map[] && s.leases == map[] && s.owed == map[]
            && s.locks.held == map[] && s.locks.waiting == []
            && s.hub == Hub({}, {})
  {
    var s0 := Play(Start(channels), es);
    EveryCutIsOwedOrInFlight(channels, es);
    NoTokenLeaks(channels, es);
    var s;
    more, s := Drain(s0, [], s0);
    more, s := PayAll(s0, more, s);
    IdleMeansFree(s);
    forall l ensures l !in s.hub.ledger {
      assert l in s.hub.ledger ==> Covered(s, l);
    }
  }
}
