/**
The daemon's channel locks (hub_locks.py): token-owned locks over sets of channels, FIFO
among conflicting requests, on one condition variable.

Everything `acquire` and `release` do between two points where they give up the condition's
mutex happens at once for the other threads. So the lock is a transition system with three
kinds of step: a request enters (and checks once), a waiter comes back from `cond.wait` (and
checks again), a token is released. `LockStep` plays one of them, `Play` any sequence of them.
The class below performs the same steps in place.
*/
module HubLocks {
  import opened Options

  // `None` in the source means every channel.
  datatype Request = All | Only(channels: set<int>)

  predicate Overlap(a: Request, b: Request) {
    a.All? || b.All? || a.channels * b.channels != {}
  }

  type Ticket = nat

  // A queued request. `notified` is false from the moment the thread goes to sleep in
  // `cond.wait` until somebody calls `notify_all`.
  datatype Waiter = Waiter(ticket: Ticket, wanted: Request, notified: bool)

  // `next` numbers the next `object()` used as a ticket.
  datatype Locks = Locks(held: map<Ticket, Request>, waiting: seq<Waiter>, next: nat)

  const EMPTY := Locks(map[], [], 0)

  datatype Verdict = Granted | TimedOut | Sleeping

  // What one pass of the `while True` loop decides for the waiter at position i.
  predicate BlockedAt(s: Locks, i: nat)
    requires i < |s.waiting|
  {
    || (exists t :: t in s.held && Overlap(s.waiting[i].wanted, s.held[t]))
    || (exists j :: 0 <= j < i && Overlap(s.waiting[i].wanted, s.waiting[j].wanted))
  }

  function NotifyAll(ws: seq<Waiter>): (r: seq<Waiter>) {
    seq(|ws|, k requires 0 <= k < |ws| => ws[k].(notified := true))
  }

  function Without(ws: seq<Waiter>, i: nat): seq<Waiter>
    requires i < |ws|
  {
    ws[..i] + ws[i + 1..]
  }

  function VerdictAt(s: Locks, i: nat, expired: bool): Verdict
    requires i < |s.waiting|
  {
    if !BlockedAt(s, i) then Granted else if expired then TimedOut else Sleeping
  }

  function CheckAt(s: Locks, i: nat, expired: bool): Locks
    requires i < |s.waiting|
  {
    var w := s.waiting[i];
    match VerdictAt(s, i, expired)
    case Granted => Locks(s.held[w.ticket := w.wanted], NotifyAll(Without(s.waiting, i)), s.next)
    case TimedOut => s.(waiting := NotifyAll(Without(s.waiting, i)))
    case Sleeping => s.(waiting := s.waiting[i := w.(notified := false)])
  }

  function Queued(s: Locks, wanted: Request): Locks {
    Locks(s.held, s.waiting + [Waiter(s.next, wanted, false)], s.next + 1)
  }

  function Entered(s: Locks, wanted: Request, expired: bool): Locks {
    CheckAt(Queued(s, wanted), |s.waiting|, expired)
  }

  function EntryVerdict(s: Locks, wanted: Request, expired: bool): Verdict {
    VerdictAt(Queued(s, wanted), |s.waiting|, expired)
  }

  function Released(s: Locks, token: Ticket): Locks {
    Locks(s.held - {token}, NotifyAll(s.waiting), s.next)
  }

  predicate IsWaiting(s: Locks, t: Ticket) {
    exists i :: 0 <= i < |s.waiting| && s.waiting[i].ticket == t
  }

  // The queue position of a ticket, or the queue's length when it is not there.
  function Position(ws: seq<Waiter>, t: Ticket): (i: nat)
    ensures i <= |ws|
    ensures i < |ws| ==> ws[i].ticket == t
    ensures forall k :: 0 <= k < i ==> ws[k].ticket != t
  {
    if |ws| == 0 || ws[0].ticket == t then 0 else 1 + Position(ws[1..], t)
  }

  datatype Event =
    | Enter(wanted: Request, expired: bool)
    | Wake(ticket: Ticket, expired: bool)
    | Release(token: Ticket)

  // A wake-up of a ticket that is not queued is nobody's step and changes nothing.
  function LockStep(s: Locks, e: Event): Locks {
    match e
    case Enter(wanted, expired) => Entered(s, wanted, expired)
    case Wake(t, expired) =>
      var i := Position(s.waiting, t);
      if i < |s.waiting| then CheckAt(s, i, expired) else s
    case Release(token) => Released(s, token)
  }

  function Play(s: Locks, es: seq<Event>): Locks {
    if es == [] then s else LockStep(Play(s, es[..|es| - 1]), es[|es| - 1])
  }

  /** Runs compose, and a run of one event is that step. */
  lemma {:induction false} RunsCompose(s: Locks, es: seq<Event>, more: seq<Event>, e: Event)
    ensures Play(s, []) == s && Play(s, [e]) == LockStep(s, e)
    ensures Play(s, es + more) == Play(Play(s, es), more)
    decreases |more|
  {
    assert [e][..0] == [];
    if more == [] {
      assert es + more == es;
    } else {
      var n := |more| - 1;
      assert (es + more)[..|es + more| - 1] == es + more[..n];
      RunsCompose(s, es, more[..n], e);
    }
  }

  // ---------------------------------------------------------------- the invariant

  ghost predicate TicketsDistinct(s: Locks) {
    && (forall i, j :: 0 <= i < j < |s.waiting| ==> s.waiting[i].ticket != s.waiting[j].ticket)
    && (forall i :: 0 <= i < |s.waiting| ==> s.waiting[i].ticket < s.next)
    && (forall i :: 0 <= i < |s.waiting| ==> s.waiting[i].ticket !in s.held)
    && (forall t :: t in s.held ==> t < s.next)
  }

  ghost predicate Exclusive(s: Locks) {
    forall t, u :: t in s.held && u in s.held && t != u ==> !Overlap(s.held[t], s.held[u])
  }

  // A waiter that sleeps with no wake-up pending cannot be granted.
  ghost predicate NoneForgotten(s: Locks) {
    forall i :: 0 <= i < |s.waiting| && !s.waiting[i].notified ==> BlockedAt(s, i)
  }

  ghost predicate Inv(s: Locks) {
    TicketsDistinct(s) && Exclusive(s) && NoneForgotten(s)
  }

  lemma CheckKeepsInv(s: Locks, i: nat, expired: bool)
    requires i < |s.waiting| && TicketsDistinct(s) && Exclusive(s)
    requires forall k :: 0 <= k < |s.waiting| && k != i && !s.waiting[k].notified ==> BlockedAt(s, k)
    ensures Inv(CheckAt(s, i, expired))
  {
    var r := CheckAt(s, i, expired);
    match VerdictAt(s, i, expired) {
      case Granted =>
        var w := s.waiting[i];
        forall t, u | t in r.held && u in r.held && t != u ensures !Overlap(r.held[t], r.held[u]) {
          if t == w.ticket {
            assert !Overlap(w.wanted, s.held[u]);
          } else if u == w.ticket {
            assert !Overlap(w.wanted, s.held[t]);
          }
        }
      case TimedOut =>
      case Sleeping =>
        forall k | 0 <= k < |r.waiting| && !r.waiting[k].notified ensures BlockedAt(r, k) {
          assert BlockedAt(s, k);
          if j :| 0 <= j < k && Overlap(s.waiting[k].wanted, s.waiting[j].wanted) {
            assert Overlap(r.waiting[k].wanted, r.waiting[j].wanted);
          }
        }
    }
  }

  lemma EnterKeepsInv(s: Locks, wanted: Request, expired: bool)
    requires Inv(s)
    ensures Inv(Entered(s, wanted, expired))
  {
    var q := Queued(s, wanted);
    forall k | 0 <= k < |q.waiting| && k != |s.waiting| && !q.waiting[k].notified ensures BlockedAt(q, k) {
      assert BlockedAt(s, k);
      if j :| 0 <= j < k && Overlap(s.waiting[k].wanted, s.waiting[j].wanted) {
        assert Overlap(q.waiting[k].wanted, q.waiting[j].wanted);
      }
    }
    CheckKeepsInv(q, |s.waiting|, expired);
  }

  lemma StepKeepsInv(s: Locks, e: Event)
    requires Inv(s)
    ensures Inv(LockStep(s, e))
  {
    match e {
      case Enter(wanted, expired) => EnterKeepsInv(s, wanted, expired);
      case Wake(t, expired) =>
        var i := Position(s.waiting, t);
        if i < |s.waiting| { CheckKeepsInv(s, i, expired); }
      case Release(token) =>
    }
  }

  /** Mutual exclusion and no lost wake-up, in every state any sequence of steps leads to. */
  lemma {:induction false} EveryReachableStateIsSafe(es: seq<Event>)
    ensures Inv(Play(EMPTY, es))
  {
    if es != [] {
      EveryReachableStateIsSafe(es[..|es| - 1]);
      StepKeepsInv(Play(EMPTY, es[..|es| - 1]), es[|es| - 1]);
    }
  }

  /** A rack-wide token is alone. */
  lemma {:induction false} AllIsAlone(es: seq<Event>, t: Ticket, u: Ticket)
    requires var s := Play(EMPTY, es); t in s.held && u in s.held && s.held[t].All?
    ensures t == u
  {
    EveryReachableStateIsSafe(es);
  }

  /** With nothing held, the head of the queue has a wake-up pending and will be granted by it:
      the queue cannot be stuck. */
  lemma {:induction false} IdleRackServesTheHead(es: seq<Event>, expired: bool)
    requires var s := Play(EMPTY, es); s.held == map[] && s.waiting != []
    ensures var s := Play(EMPTY, es);
            s.waiting[0].notified && VerdictAt(s, 0, expired) == Granted
  {
    EveryReachableStateIsSafe(es);
  }

  // ---------------------------------------------------------------- FIFO among conflicts

  // Who a queued ticket waits for: overlapping holders and overlapping earlier waiters.
  ghost function AheadAt(s: Locks, i: nat): set<Ticket>
    requires i < |s.waiting|
  {
    (set t | t in s.held && Overlap(s.waiting[i].wanted, s.held[t])) +
    (set j | 0 <= j < i && Overlap(s.waiting[i].wanted, s.waiting[j].wanted) :: s.waiting[j].ticket)
  }

  ghost function Ahead(s: Locks, t: Ticket): set<Ticket> {
    var i := Position(s.waiting, t);
    if i < |s.waiting| then AheadAt(s, i) else {}
  }

  ghost predicate Present(s: Locks, t: Ticket) {
    t in s.held || IsWaiting(s, t)
  }

  lemma BlockedIffSomeoneAhead(s: Locks, i: nat)
    requires i < |s.waiting|
    ensures BlockedAt(s, i) <==> AheadAt(s, i) != {}
  {
    if BlockedAt(s, i) {
      if j :| 0 <= j < i && Overlap(s.waiting[i].wanted, s.waiting[j].wanted) {
        assert s.waiting[j].ticket in AheadAt(s, i);
      } else {
        var t :| t in s.held && Overlap(s.waiting[i].wanted, s.held[t]);
        assert t in AheadAt(s, i);
      }
    }
  }

  lemma PositionIs(ws: seq<Waiter>, i: nat)
    requires i < |ws|
    requires forall k :: 0 <= k < i ==> ws[k].ticket != ws[i].ticket
    ensures Position(ws, ws[i].ticket) == i
  {}

  /** A check grants exactly when nobody is ahead any more; an expired one gives up otherwise. */
  lemma GrantedIffNobodyAhead(s: Locks, t: Ticket, expired: bool)
    requires Inv(s) && IsWaiting(s, t)
    ensures var s' := LockStep(s, Wake(t, expired));
            && (t in s'.held <==> Ahead(s, t) == {})
            && (IsWaiting(s', t) <==> Ahead(s, t) != {} && !expired)
  {
    var i := Position(s.waiting, t);
    BlockedIffSomeoneAhead(s, i);
    var s' := CheckAt(s, i, expired);
    if VerdictAt(s, i, expired).Sleeping? {
      assert s'.waiting[i].ticket == t;
    } else {
      forall k | 0 <= k < |s'.waiting| ensures s'.waiting[k].ticket != t {
        assert s'.waiting[k].ticket == Without(s.waiting, i)[k].ticket;
      }
    }
  }

  /** A request that overlaps no holder and no queued request is granted at its first check,
      and only then. */
  lemma GrantedOnEntryIffNothingOverlaps(s: Locks, wanted: Request, expired: bool)
    ensures EntryVerdict(s, wanted, expired) == Granted <==>
            && (forall t :: t in s.held ==> !Overlap(wanted, s.held[t]))
            && (forall j :: 0 <= j < |s.waiting| ==> !Overlap(wanted, s.waiting[j].wanted))
  {
    var q := Queued(s, wanted);
    assert q.waiting[|s.waiting|].wanted == wanted;
    if j :| 0 <= j < |s.waiting| && Overlap(wanted, s.waiting[j].wanted) {
      assert Overlap(q.waiting[|s.waiting|].wanted, q.waiting[j].wanted);
    }
  }

  /** In terms of channels: a rack-wide request is granted at its first check exactly when nothing is held
      or queued, any other exactly when nothing held or queued is rack-wide or shares a channel with it.
      Requests for different channels leave each other alone. */
  lemma GrantedOnEntryIffChannelsAreFree(s: Locks, wanted: Request, expired: bool)
    ensures EntryVerdict(s, wanted, expired) == Granted <==> ChannelsFree(s, wanted)
    ensures EntryVerdict(s, wanted, expired) != Granted ==> EntryVerdict(s, wanted, expired) == if expired then TimedOut else Sleeping
  {
    GrantedOnEntryIffNothingOverlaps(s, wanted, expired);
    forall r: Request ensures Overlap(wanted, r) <==> !Apart(wanted, r) { SharingIsOverlapping(wanted, r); }
    if s.held != map[] { var t :| t in s.held; assert wanted.All? ==> Overlap(wanted, s.held[t]); }
    if s.waiting != [] { assert wanted.All? ==> Overlap(wanted, s.waiting[0].wanted); }
    if ChannelsFree(s, wanted) {
      assert forall t :: t in s.held ==> Apart(wanted, s.held[t]);
      assert forall j :: 0 <= j < |s.waiting| ==> Apart(wanted, s.waiting[j].wanted);
    }
  }

  // Two requests with no channel in common, neither of them rack-wide.
  predicate Apart(a: Request, b: Request) {
    a.Only? && b.Only? && forall c :: c in a.channels ==> c !in b.channels
  }

  lemma CommonElement<T>(a: set<T>, b: set<T>) returns (x: T)
    requires a * b != {}
    ensures x in a && x in b
  {
    x :| x in a * b;
  }

  lemma SharingIsOverlapping(a: Request, b: Request)
    ensures Overlap(a, b) <==> !Apart(a, b)
  {
    if a.Only? && b.Only? {
      if a.channels * b.channels != {} {
        var c := CommonElement(a.channels, b.channels);
      }
      if c :| c in a.channels && c in b.channels { assert c in a.channels * b.channels; }
    }
  }

  // Nobody holds or has queued for a channel of this request, or for all of them.
  predicate ChannelsFree(s: Locks, wanted: Request) {
    match wanted
    case All => s.held == map[] && s.waiting == []
    case Only(_) =>
      && (forall t :: t in s.held ==> Apart(wanted, s.held[t]))
      && (forall j :: 0 <= j < |s.waiting| ==> Apart(wanted, s.waiting[j].wanted))
  }

  // Who of a set is still a holder or a waiter.
  ghost function Remaining(s: Locks, ts: set<Ticket>): set<Ticket> {
    set t | t in ts && Present(s, t)
  }

  // The queue of s' is that of s without position i, up to wake-up flags.
  ghost predicate QueueLost(s: Locks, s': Locks, i: nat) {
    && i < |s.waiting| == |s'.waiting| + 1
    && forall k :: 0 <= k < |s'.waiting| ==>
         && s'.waiting[k].ticket == s.waiting[if k < i then k else k + 1].ticket
         && s'.waiting[k].wanted == s.waiting[if k < i then k else k + 1].wanted
  }

  // The waiter at i has left, for `held` if nobody was ahead of it.
  ghost predicate Left(s: Locks, s': Locks, i: nat) {
    && QueueLost(s, s', i)
    && var w := s.waiting[i];
       s'.held == s.held || (!BlockedAt(s, i) && s'.held == s.held[w.ticket := w.wanted])
  }

  lemma LeaverIsGone(s: Locks, s': Locks, i: nat)
    requires QueueLost(s, s', i) && TicketsDistinct(s)
    ensures !IsWaiting(s', s.waiting[i].ticket)
  {
    forall k | 0 <= k < |s'.waiting| ensures s'.waiting[k].ticket != s.waiting[i].ticket {
      assert s'.waiting[k].ticket == s.waiting[if k < i then k else k + 1].ticket;
    }
  }

  lemma LeavingKeepsThoseAhead(s: Locks, s': Locks, i: nat, p: nat, u: Ticket)
    requires Left(s, s', i) && TicketsDistinct(s) && p < |s.waiting| && p != i
    requires u in AheadAt(s, p) && Present(s', u)
    ensures u in AheadAt(s', if p < i then p else p - 1)
  {
    var p' := if p < i then p else p - 1;
    assert s'.waiting[p'].wanted == s.waiting[p].wanted;
    LeaverIsGone(s, s', i);
    if u in s.held && Overlap(s.waiting[p].wanted, s.held[u]) {
      assert u in s'.held;
    } else {
      var j :| 0 <= j < p && Overlap(s.waiting[p].wanted, s.waiting[j].wanted) && s.waiting[j].ticket == u;
      if j == i {
        assert u in s'.held;
      } else {
        var j' := if j < i then j else j - 1;
        assert s'.waiting[j'].ticket == u && Overlap(s'.waiting[p'].wanted, s'.waiting[j'].wanted);
      }
    }
  }

  lemma LeavingAddsNobodyAhead(s: Locks, s': Locks, i: nat, p: nat, u: Ticket)
    requires Left(s, s', i) && p < |s.waiting| && p != i
    requires u in AheadAt(s', if p < i then p else p - 1)
    ensures u in AheadAt(s, p) && Present(s', u)
  {
    var p' := if p < i then p else p - 1;
    var w := s.waiting[i];
    if u in s'.held && Overlap(s'.waiting[p'].wanted, s'.held[u]) {
      if s'.held != s.held && u == w.ticket {
        assert !(p < i && Overlap(s.waiting[i].wanted, s.waiting[p].wanted));
        assert Overlap(s.waiting[p].wanted, s.waiting[i].wanted);
      }
    } else {
      var j' :| 0 <= j' < p' && Overlap(s'.waiting[p'].wanted, s'.waiting[j'].wanted) && s'.waiting[j'].ticket == u;
      var j := if j' < i then j' else j' + 1;
      assert s.waiting[j].ticket == u && Overlap(s.waiting[p].wanted, s.waiting[j].wanted) && j < p;
    }
  }

  lemma PositionAfterLeaving(s: Locks, s': Locks, i: nat, t: Ticket)
    requires QueueLost(s, s', i) && TicketsDistinct(s) && IsWaiting(s, t) && IsWaiting(s', t)
    ensures var p := Position(s.waiting, t);
            p != i && Position(s'.waiting, t) == if p < i then p else p - 1
  {
    LeaverIsGone(s, s', i);
    var p := Position(s.waiting, t);
    var k := if p < i then p else p - 1;
    assert s'.waiting[k].ticket == t;
    forall j | 0 <= j < k ensures s'.waiting[j].ticket != t {
      assert s'.waiting[j].ticket == s.waiting[if j < i then j else j + 1].ticket;
    }
    PositionIs(s'.waiting, k);
  }

  lemma LeavingOnlyRemoves(s: Locks, s': Locks, i: nat, t: Ticket)
    requires Left(s, s', i) && TicketsDistinct(s) && IsWaiting(s, t) && IsWaiting(s', t)
    ensures Ahead(s', t) == Remaining(s', Ahead(s, t))
  {
    PositionAfterLeaving(s, s', i, t);
    var p, k := Position(s.waiting, t), Position(s'.waiting, t);
    forall u | u in AheadAt(s, p) && Present(s', u) ensures u in AheadAt(s', k) {
      LeavingKeepsThoseAhead(s, s', i, p, u);
    }
    forall u | u in AheadAt(s', k) ensures u in Remaining(s', AheadAt(s, p)) {
      LeavingAddsNobodyAhead(s, s', i, p, u);
    }
  }

  // Going to sleep changes one wake-up flag and nothing anybody waits for.
  lemma SleepingChangesNoView(s: Locks, i: nat, t: Ticket)
    requires i < |s.waiting| && TicketsDistinct(s) && IsWaiting(s, t)
    ensures var s' := s.(waiting := s.waiting[i := s.waiting[i].(notified := false)]);
            Ahead(s', t) == Remaining(s', Ahead(s, t))
  {
    var s' := s.(waiting := s.waiting[i := s.waiting[i].(notified := false)]);
    var p := Position(s.waiting, t);
    assert forall j :: 0 <= j < |s.waiting| ==>
      s'.waiting[j].wanted == s.waiting[j].wanted && s'.waiting[j].ticket == s.waiting[j].ticket;
    PositionIs(s'.waiting, p);
    assert AheadAt(s', p) == AheadAt(s, p);
    forall u | u in AheadAt(s, p) && u !in s.held ensures Present(s', u) {
      var j :| 0 <= j < p && Overlap(s.waiting[p].wanted, s.waiting[j].wanted) && s.waiting[j].ticket == u;
      assert s'.waiting[j].ticket == u;
    }
  }

  lemma CheckLeaves(s: Locks, i: nat, expired: bool)
    requires i < |s.waiting| && !VerdictAt(s, i, expired).Sleeping?
    ensures Left(s, CheckAt(s, i, expired), i)
  {}

  lemma CheckOnlyRemoves(s: Locks, i: nat, expired: bool, t: Ticket)
    requires i < |s.waiting| && TicketsDistinct(s) && IsWaiting(s, t)
    requires IsWaiting(CheckAt(s, i, expired), t)
    ensures var s' := CheckAt(s, i, expired); Ahead(s', t) == Remaining(s', Ahead(s, t))
  {
    if VerdictAt(s, i, expired).Sleeping? {
      SleepingChangesNoView(s, i, t);
    } else {
      CheckLeaves(s, i, expired);
      LeavingOnlyRemoves(s, CheckAt(s, i, expired), i, t);
    }
  }

  lemma QueueingChangesNoView(s: Locks, wanted: Request, t: Ticket)
    requires Inv(s) && IsWaiting(s, t)
    ensures var q := Queued(s, wanted);
            TicketsDistinct(q) && IsWaiting(q, t) && Ahead(q, t) == Ahead(s, t)
  {
    var q := Queued(s, wanted);
    var p := Position(s.waiting, t);
    assert q.waiting[p].ticket == t;
    PositionIs(q.waiting, p);
    assert forall j :: 0 <= j < |s.waiting| ==> q.waiting[j] == s.waiting[j];
    assert AheadAt(q, p) == AheadAt(s, p);
  }

  lemma ReleaseOnlyRemoves(s: Locks, token: Ticket, t: Ticket)
    requires Inv(s) && IsWaiting(s, t)
    ensures var s' := Released(s, token);
            IsWaiting(s', t) && Ahead(s', t) == Remaining(s', Ahead(s, t))
  {
    var s' := Released(s, token);
    var p := Position(s.waiting, t);
    assert s'.waiting[p].ticket == t;
    PositionIs(s'.waiting, p);
    forall u | u in Ahead(s, t) && Present(s', u) ensures u in AheadAt(s', p) {
      if u !in s.held {
        var j :| 0 <= j < p && Overlap(s.waiting[p].wanted, s.waiting[j].wanted) && s.waiting[j].ticket == u;
        assert s'.waiting[j].ticket == u && Overlap(s'.waiting[p].wanted, s'.waiting[j].wanted);
      }
    }
    forall u | u in AheadAt(s', p) ensures u in Ahead(s, t) && Present(s', u) {
      if u !in s'.held {
        var j :| 0 <= j < p && Overlap(s'.waiting[p].wanted, s'.waiting[j].wanted) && s'.waiting[j].ticket == u;
        assert s.waiting[j].ticket == u && Overlap(s.waiting[p].wanted, s.waiting[j].wanted);
      }
    }
  }

  /** One step changes who a waiter waits for only by departures: nobody is ever added. */
  lemma StepOnlyRemoves(s: Locks, e: Event, t: Ticket)
    requires Inv(s) && t < s.next && IsWaiting(LockStep(s, e), t)
    ensures IsWaiting(s, t)
    ensures Ahead(LockStep(s, e), t) == Remaining(LockStep(s, e), Ahead(s, t))
  {
    WaitingWasWaiting(s, e, t);
    match e {
      case Enter(wanted, expired) =>
        QueueingChangesNoView(s, wanted, t);
        CheckOnlyRemoves(Queued(s, wanted), |s.waiting|, expired, t);
      case Wake(u, expired) =>
        var i := Position(s.waiting, u);
        if i < |s.waiting| {
          CheckOnlyRemoves(s, i, expired, t);
        } else {
          ReleaseOnlyRemovesNothing(s, t);
        }
      case Release(token) => ReleaseOnlyRemoves(s, token, t);
    }
  }

  lemma ReleaseOnlyRemovesNothing(s: Locks, t: Ticket)
    requires Inv(s) && IsWaiting(s, t)
    ensures Ahead(s, t) == Remaining(s, Ahead(s, t))
  {
    var p := Position(s.waiting, t);
    forall u | u in AheadAt(s, p) ensures Present(s, u) {
      if u !in s.held {
        var j :| 0 <= j < p && Overlap(s.waiting[p].wanted, s.waiting[j].wanted) && s.waiting[j].ticket == u;
        assert s.waiting[j].ticket == u;
      }
    }
  }

  lemma QueueingAddsOne(s: Locks, wanted: Request)
    requires TicketsDistinct(s)
    ensures var q := Queued(s, wanted);
            TicketsDistinct(q) && forall t :: IsWaiting(q, t) && t != s.next ==> IsWaiting(s, t)
  {
    var q := Queued(s, wanted);
    forall t | IsWaiting(q, t) && t != s.next ensures IsWaiting(s, t) {
      var k :| 0 <= k < |q.waiting| && q.waiting[k].ticket == t;
      assert s.waiting[k].ticket == t;
    }
  }

  lemma CheckAddsNobody(s: Locks, i: nat, expired: bool, t: Ticket)
    requires i < |s.waiting| && IsWaiting(CheckAt(s, i, expired), t)
    ensures IsWaiting(s, t)
  {
    var ws := CheckAt(s, i, expired).waiting;
    var k :| 0 <= k < |ws| && ws[k].ticket == t;
    if VerdictAt(s, i, expired).Sleeping? {
      assert s.waiting[k].ticket == t;
    } else {
      assert s.waiting[if k < i then k else k + 1].ticket == t;
    }
  }

  // A ticket that left the queue never comes back to it.
  lemma WaitingWasWaiting(s: Locks, e: Event, t: Ticket)
    requires t < s.next && IsWaiting(LockStep(s, e), t)
    ensures IsWaiting(s, t)
  {
    match e {
      case Enter(wanted, expired) =>
        var q := Queued(s, wanted);
        CheckAddsNobody(q, |s.waiting|, expired, t);
        var k :| 0 <= k < |q.waiting| && q.waiting[k].ticket == t;
        assert s.waiting[k].ticket == t;
      case Wake(u, expired) =>
        var i := Position(s.waiting, u);
        if i < |s.waiting| { CheckAddsNobody(s, i, expired, t); }
      case Release(token) =>
        var k :| 0 <= k < |s.waiting| && NotifyAll(s.waiting)[k].ticket == t;
        assert s.waiting[k].ticket == t;
    }
  }

  // Once gone, a ticket stays gone.
  lemma GoneStaysGone(s: Locks, e: Event, t: Ticket)
    requires Inv(s) && t < s.next && !Present(s, t)
    ensures !Present(LockStep(s, e), t)
  {
    if IsWaiting(LockStep(s, e), t) { WaitingWasWaiting(s, e, t); }
    if e.Wake? {
      var i := Position(s.waiting, e.ticket);
      if i < |s.waiting| { assert s.waiting[i].ticket != t; }
    }
  }

  lemma {:induction false} TicketsGrowInPlay(s: Locks, es: seq<Event>)
    ensures Play(s, es).next >= s.next
  {
    if es != [] { TicketsGrowInPlay(s, es[..|es| - 1]); }
  }

  /** No overtaking, over whole runs: while a ticket stays queued, the set it waits for is what
      it was at the start, less whoever has left. No later request ever gets in front. */
  lemma {:induction false} NobodyOvertakes(before: seq<Event>, es: seq<Event>, t: Ticket)
    requires t < Play(EMPTY, before).next
    requires IsWaiting(Play(Play(EMPTY, before), es), t)
    ensures IsWaiting(Play(EMPTY, before), t)
    ensures var s := Play(EMPTY, before); var s' := Play(s, es);
            Ahead(s', t) == Remaining(s', Ahead(s, t))
  {
    var s := Play(EMPTY, before);
    EveryReachableStateIsSafe(before);
    if es == [] {
      ReleaseOnlyRemovesNothing(s, t);
    } else {
      var es0 := es[..|es| - 1];
      var e := es[|es| - 1];
      var m := Play(s, es0);
      PlayKeepsInv(s, es0);
      TicketsGrowInPlay(s, es0);
      StepOnlyRemoves(m, e, t);
      NobodyOvertakes(before, es0, t);
      var s' := LockStep(m, e);
      forall u | u in Ahead(s, t) && Present(s', u) ensures Present(m, u) {
        AheadIsOld(s, t, u);
        if !Present(m, u) { GoneStaysGone(m, e, u); }
      }
    }
  }

  lemma AheadIsOld(s: Locks, t: Ticket, u: Ticket)
    requires Inv(s) && u in Ahead(s, t)
    ensures u < s.next
  {
    var p := Position(s.waiting, t);
    if u !in s.held {
      var j :| 0 <= j < p && Overlap(s.waiting[p].wanted, s.waiting[j].wanted) && s.waiting[j].ticket == u;
    }
  }

  lemma {:induction false} PlayKeepsInv(s: Locks, es: seq<Event>)
    requires Inv(s)
    ensures Inv(Play(s, es))
  {
    if es != [] {
      PlayKeepsInv(s, es[..|es| - 1]);
      StepKeepsInv(Play(s, es[..|es| - 1]), es[|es| - 1]);
    }
  }

  /** So a queued ticket's next check grants it exactly when everybody who was ahead of it at any
      earlier moment has left; what came in since makes no difference. */
  lemma GrantedOnceThoseAheadLeft(before: seq<Event>, es: seq<Event>, t: Ticket, expired: bool)
    requires t < Play(EMPTY, before).next
    requires IsWaiting(Play(Play(EMPTY, before), es), t)
    ensures var s := Play(EMPTY, before); var s' := Play(s, es);
            t in LockStep(s', Wake(t, expired)).held <==>
            forall u :: u in Ahead(s, t) ==> !Present(s', u)
  {
    var s := Play(EMPTY, before);
    var s' := Play(s, es);
    EveryReachableStateIsSafe(before);
    PlayKeepsInv(s, es);
    NobodyOvertakes(before, es, t);
    GrantedIffNobodyAhead(s', t, expired);
    if forall u :: u in Ahead(s, t) ==> !Present(s', u) {
      assert Remaining(s', Ahead(s, t)) == {};
    } else {
      var u :| u in Ahead(s, t) && Present(s', u);
      assert u in Remaining(s', Ahead(s, t));
    }
  }

  // ---------------------------------------------------------------- what a step does to a request

  // ---------------------------------------------------------------- a rack-wide token and the queue

  // The queue is in order of arrival, and whoever waits beside a rack-wide token arrived after it.
  ghost predicate InOrder(s: Locks) {
    && (forall i, j :: 0 <= i < j < |s.waiting| ==> s.waiting[i].ticket < s.waiting[j].ticket)
    && (forall t, i :: t in s.held && s.held[t].All? && 0 <= i < |s.waiting| ==> t < s.waiting[i].ticket)
  }

  lemma CheckKeepsOrder(s: Locks, i: nat, expired: bool)
    requires i < |s.waiting| && (forall k, j :: 0 <= k < j < |s.waiting| ==> s.waiting[k].ticket < s.waiting[j].ticket)
    requires forall t, k :: t in s.held && s.held[t].All? && 0 <= k < |s.waiting| ==> t < s.waiting[k].ticket
    ensures InOrder(CheckAt(s, i, expired))
  {
    if VerdictAt(s, i, expired).Granted? && s.waiting[i].wanted.All? && i > 0 {
      assert Overlap(s.waiting[i].wanted, s.waiting[0].wanted);
    }
  }

  lemma StepKeepsOrder(s: Locks, e: Event)
    requires TicketsDistinct(s) && InOrder(s)
    ensures InOrder(LockStep(s, e))
  {
    match e {
      case Enter(wanted, expired) => CheckKeepsOrder(Queued(s, wanted), |s.waiting|, expired);
      case Wake(t, expired) =>
        var i := Position(s.waiting, t);
        if i < |s.waiting| { CheckKeepsOrder(s, i, expired); }
      case Release(token) =>
    }
  }

  /** While somebody has every channel, everybody in the queue came later: all who came before have had
      their turn or given up. */
  lemma {:induction false} WhoeverWaitsCameLater(es: seq<Event>, t: Ticket, i: nat)
    requires var s := Play(EMPTY, es); t in s.held && s.held[t].All? && i < |s.waiting|
    ensures Play(EMPTY, es).waiting[i].ticket > t
  {
    EveryRunIsInOrder(es);
  }

  lemma {:induction false} EveryRunIsInOrder(es: seq<Event>)
    ensures InOrder(Play(EMPTY, es)) && Inv(Play(EMPTY, es))
  {
    if es != [] {
      EveryRunIsInOrder(es[..|es| - 1]);
      StepKeepsOrder(Play(EMPTY, es[..|es| - 1]), es[|es| - 1]);
      StepKeepsInv(Play(EMPTY, es[..|es| - 1]), es[|es| - 1]);
    }
  }

  predicate WaitsFor(s: Locks, t: Ticket, r: Request) {
    exists i :: 0 <= i < |s.waiting| && s.waiting[i].ticket == t && s.waiting[i].wanted == r
  }

  lemma StillQueued(s: Locks, s': Locks, i: nat, t: Ticket, r: Request)
    requires QueueLost(s, s', i) && WaitsFor(s, t, r) && s.waiting[i].ticket != t
    ensures WaitsFor(s', t, r)
  {
    var k :| 0 <= k < |s.waiting| && s.waiting[k].ticket == t && s.waiting[k].wanted == r;
    assert s'.waiting[if k < i then k else k - 1].ticket == t;
  }

  lemma CheckOutcome(s: Locks, i: nat, expired: bool)
    requires i < |s.waiting| && TicketsDistinct(s)
    ensures var s' := CheckAt(s, i, expired); var w := s.waiting[i];
            && s'.next == s.next
            && s'.held == (if VerdictAt(s, i, expired).Granted? then s.held[w.ticket := w.wanted] else s.held)
            && (VerdictAt(s, i, expired).Sleeping? ==> WaitsFor(s', w.ticket, w.wanted))
            && (forall t, r :: t != w.ticket && WaitsFor(s, t, r) ==> WaitsFor(s', t, r))
  {
    var s' := CheckAt(s, i, expired);
    var w := s.waiting[i];
    if VerdictAt(s, i, expired).Sleeping? {
      assert s'.waiting[i].ticket == w.ticket && s'.waiting[i].wanted == w.wanted;
      forall t, r | t != w.ticket && WaitsFor(s, t, r) ensures WaitsFor(s', t, r) {
        var k :| 0 <= k < |s.waiting| && s.waiting[k].ticket == t && s.waiting[k].wanted == r;
        assert s'.waiting[k].ticket == t;
      }
    } else {
      forall t, r | t != w.ticket && WaitsFor(s, t, r) ensures WaitsFor(s', t, r) {
        StillQueued(s, s', i, t, r);
      }
    }
  }

  lemma EnterOutcome(s: Locks, wanted: Request, expired: bool)
    requires Inv(s)
    ensures var s' := Entered(s, wanted, expired); var v := EntryVerdict(s, wanted, expired);
            && s'.next == s.next + 1
            && s'.held == (if v.Granted? then s.held[s.next := wanted] else s.held)
            && (v.Sleeping? ==> WaitsFor(s', s.next, wanted))
            && (forall t, r :: WaitsFor(s, t, r) ==> WaitsFor(s', t, r))
  {
    var q := Queued(s, wanted);
    CheckOutcome(q, |s.waiting|, expired);
    forall t, r | WaitsFor(s, t, r) ensures t != s.next && WaitsFor(q, t, r) {
      var k :| 0 <= k < |s.waiting| && s.waiting[k].ticket == t && s.waiting[k].wanted == r;
      assert q.waiting[k] == s.waiting[k];
    }
  }

  lemma WakeOutcome(s: Locks, t: Ticket, r: Request, expired: bool)
    requires Inv(s) && WaitsFor(s, t, r)
    ensures var s' := LockStep(s, Wake(t, expired)); var i := Position(s.waiting, t);
            && i < |s.waiting| && s.waiting[i].wanted == r
            && s'.next == s.next
            && s'.held == (if VerdictAt(s, i, expired).Granted? then s.held[t := r] else s.held)
            && (VerdictAt(s, i, expired).Sleeping? ==> WaitsFor(s', t, r))
            && (forall u, q :: u != t && WaitsFor(s, u, q) ==> WaitsFor(s', u, q))
  {
    CheckOutcome(s, Position(s.waiting, t), expired);
  }

  lemma ReleaseOutcome(s: Locks, token: Ticket)
    ensures forall t, r :: WaitsFor(s, t, r) ==> WaitsFor(Released(s, token), t, r)
  {
    forall t, r | WaitsFor(s, t, r) ensures WaitsFor(Released(s, token), t, r) {
      var k :| 0 <= k < |s.waiting| && s.waiting[k].ticket == t && s.waiting[k].wanted == r;
      assert Released(s, token).waiting[k].ticket == t;
    }
  }

  // ---------------------------------------------------------------- the class

  class ChannelLocks {
    var held: map<Ticket, Request>
    var waiting: seq<Waiter>
    var next: nat

    ghost function State(): Locks
      reads this
    {
      Locks(held, waiting, next)
    }

    constructor ()
      ensures State() == EMPTY
    {
      held, waiting, next := map[], [], 0;
    }

    // The two `any(...)` scans of one pass.
    method Blocked(i: nat) returns (blocked: bool)
      requires i < |waiting|
      ensures blocked == BlockedAt(State(), i)
    {
      var wanted := waiting[i].wanted;
      var tokens := held.Keys;
      while tokens != {}
        invariant tokens <= held.Keys
        invariant forall t :: t in held.Keys - tokens ==> !Overlap(wanted, held[t])
        decreases |tokens|
      {
        var t :| t in tokens;
        if Overlap(wanted, held[t]) {
          return true;
        }
        tokens := tokens - {t};
      }
      for j := 0 to i
        invariant forall k :: 0 <= k < j ==> !Overlap(wanted, waiting[k].wanted)
      {
        if Overlap(wanted, waiting[j].wanted) {
          return true;
        }
      }
      return false;
    }

    method NotifyEveryone()
      modifies this`waiting
      ensures waiting == NotifyAll(old(waiting))
    {
      var k := 0;
      while k < |waiting|
        invariant 0 <= k <= |waiting| == old(|waiting|)
        invariant forall j :: 0 <= j < k ==> waiting[j] == NotifyAll(old(waiting))[j]
        invariant forall j :: k <= j < |waiting| ==> waiting[j] == old(waiting)[j]
      {
        waiting := waiting[k := waiting[k].(notified := true)];
        k := k + 1;
      }
    }

    // One pass of the loop in `acquire`, with the `finally` clause when it leaves.
    method Check(i: nat, expired: bool) returns (verdict: Verdict)
      requires i < |waiting|
      modifies this
      ensures State() == CheckAt(old(State()), i, expired)
      ensures verdict == VerdictAt(old(State()), i, expired)
    {
      var w := waiting[i];
      var blocked := Blocked(i);
      if blocked && !expired {
        waiting := waiting[i := w.(notified := false)];
        return Sleeping;
      }
      if !blocked {
        held := held[w.ticket := w.wanted];
      }
      waiting := waiting[..i] + waiting[i + 1..];
      NotifyEveryone();
      verdict := if blocked then TimedOut else Granted;
    }

    method Acquire(wanted: Request, expired: bool) returns (ticket: Ticket, verdict: Verdict)
      modifies this
      ensures State() == LockStep(old(State()), Enter(wanted, expired))
      ensures ticket == old(next)
      ensures verdict == EntryVerdict(old(State()), wanted, expired)
      ensures verdict == if ChannelsFree(old(State()), wanted) then Granted else if expired then TimedOut else Sleeping
    {
      GrantedOnEntryIffChannelsAreFree(State(), wanted, expired);
      ticket := next;
      waiting := waiting + [Waiter(ticket, wanted, false)];
      next := next + 1;
      label queued:
      assert State() == Queued(old(State()), wanted);
      verdict := Check(|waiting| - 1, expired);
    }

    // A thread returning from `cond.wait`, notified or out of time.
    method Resume(ticket: Ticket, expired: bool) returns (verdict: Verdict)
      requires IsWaiting(State(), ticket)
      modifies this
      ensures State() == LockStep(old(State()), Wake(ticket, expired))
      ensures verdict == VerdictAt(old(State()), Position(old(waiting), ticket), expired)
    {
      var i := 0;
      while waiting[i].ticket != ticket
        invariant 0 <= i <= Position(waiting, ticket) < |waiting|
        decreases |waiting| - i
      {
        i := i + 1;
      }
      verdict := Check(i, expired);
    }

    // `None` is the "no token" of a write that runs under a lease.
    method Free(token: Option<Ticket>)
      modifies this
      ensures token.None? ==> State() == old(State())
      ensures token.Some? ==> State() == LockStep(old(State()), Release(token.value))
    {
      if token.Some? {
        held := held - {token.value};
        NotifyEveryone();
      }
    }
  }
}
