/**
The daemon's tables as its handlers update them in place (hub_daemon.py): the debts of every
client, the leases, and what a release does to the hub. Each method below is one section the
source runs under `_meta_lock` or with the release's channels held; the protocol of
HubProtocol interleaves them.
*/
module HubDaemon {
  import opened Options
  import opened HubGuard
  import opened HubManager
  import P = HubProtocol
  import L = HubLocks

  // What the source keeps of a lease beside its token.
  datatype Entry = Entry(client: Client, token: L.Ticket, expiresAt: int)

  // ---------------------------------------------------------------- a release, in one piece

  // A ledger line of the release whose "on" was sent.
  predicate Sent(h: Hub, wanted: set<Line>, answers: Line -> Reply, l: Line) {
    l in wanted && l in h.ledger && !answers(l).Refused?
  }

  function RestoredHub(h: Hub, wanted: set<Line>, answers: Line -> Reply): Hub {
    Hub(set l | l in h.dark && !(Sent(h, wanted, answers, l) && answers(l).Effective()),
        set l | l in h.ledger && !Sent(h, wanted, answers, l))
  }

  function RestoreOne(h: Hub, line: Line, reply: Reply): Hub {
    if line in h.ledger then Switched(h, line, true, Apply, reply) else h
  }

  function Elements(lines: seq<Line>): set<Line> {
    set l | l in lines
  }

  function RestoreInOrder(h: Hub, lines: seq<Line>, answers: Line -> Reply): Hub {
    if lines == [] then h
    else RestoreOne(RestoreInOrder(h, lines[..|lines| - 1], answers), lines[|lines| - 1], answers(lines[|lines| - 1]))
  }

  lemma OneMoreRestored(h: Hub, done: set<Line>, line: Line, answers: Line -> Reply)
    requires line !in done
    ensures RestoreOne(RestoredHub(h, done, answers), line, answers(line)) == RestoredHub(h, done + {line}, answers)
  {
    var one := RestoreOne(RestoredHub(h, done, answers), line, answers(line));
    var all := RestoredHub(h, done + {line}, answers);
    assert forall l :: l != line ==> (Sent(h, done, answers, l) <==> Sent(h, done + {line}, answers, l));
    assert line in RestoredHub(h, done, answers).ledger <==> line in h.ledger;
    assert one.ledger == all.ledger;
    assert one.dark == all.dark;
  }

  // The lines a release reports as restored (`good`) or failed.
  function Answered(h: Hub, wanted: set<Line>, answers: Line -> Reply, good: bool): set<Line> {
    set l | l in wanted && l in h.ledger && answers(l).Acked? == good
  }

  // A release that has walked the lines `done`.
  ghost predicate Walked(h: Hub, done: set<Line>, answers: Line -> Reply, h': Hub, restored: set<Line>,
                         failed: set<Line>) {
    && h' == RestoredHub(h, done, answers)
    && restored == Answered(h, done, answers, true)
    && failed == Answered(h, done, answers, false)
  }

  lemma NothingWalked(h: Hub, answers: Line -> Reply)
    ensures Walked(h, {}, answers, h, {}, {})
  {
    assert RestoredHub(h, {}, answers) == h;
  }

  lemma WalkingOneMore(h: Hub, done: set<Line>, answers: Line -> Reply, h': Hub, restored: set<Line>,
                       failed: set<Line>, l: Line)
    requires Walked(h, done, answers, h', restored, failed) && l !in done
    ensures l in h'.ledger <==> l in h.ledger
    ensures Walked(h, done + {l}, answers, RestoreOne(h', l, answers(l)),
                   if l in h.ledger && answers(l).Acked? then restored + {l} else restored,
                   if l in h.ledger && !answers(l).Acked? then failed + {l} else failed)
  {
    OneMoreRestored(h, done, l, answers);
  }

  /** The order in which a release walks its lines makes no difference. */
  lemma {:induction false} RestoreOrderIsIrrelevant(h: Hub, lines: seq<Line>, answers: Line -> Reply)
    requires forall i, j :: 0 <= i < j < |lines| ==> lines[i] != lines[j]
    ensures RestoreInOrder(h, lines, answers) == RestoredHub(h, Elements(lines), answers)
  {
    if lines == [] {
      assert RestoredHub(h, {}, answers) == h;
    } else {
      var n := |lines| - 1;
      RestoreOrderIsIrrelevant(h, lines[..n], answers);
      var done := Elements(lines[..n]);
      assert lines == lines[..n] + [lines[n]];
      assert Elements(lines) == done + {lines[n]};
      OneMoreRestored(h, done, lines[n], answers);
    }
  }

  /** A release brings every line it owes back on, for an exact ledger, exactly when each of its
      dark lines gets a command that takes effect; no other line is touched by it. */
  lemma ReleasePaysIff(h: Hub, wanted: set<Line>, answers: Line -> Reply)
    requires h.dark == h.ledger
    ensures var h' := RestoredHub(h, wanted, answers);
            && (wanted !! h'.dark <==> forall l :: l in wanted && l in h.dark ==> answers(l).Effective())
            && (forall l :: l !in wanted ==> (l in h'.dark <==> l in h.dark) && (l in h'.ledger <==> l in h.ledger))
  {
    var h' := RestoredHub(h, wanted, answers);
    if l :| l in wanted && l in h.dark && !answers(l).Effective() {
      assert l in h'.dark;
    }
  }

  // A restore step of the protocol is one step of this loop.
  lemma ProtocolRestoresOneLine(s: P.Daemon, id: nat, line: Line, reply: Reply)
    requires P.CanRestore(s, id, line)
    ensures var s' := P.Step(s, P.Restore(id, line, reply));
            && s'.hub == RestoreOne(s.hub, line, reply)
            && s'.ops == s.ops[id := s.ops[id].(debt := s.ops[id].debt - {line})]
            && s' == s.(hub := s'.hub, ops := s'.ops)
  {}

  function Restores(id: nat, lines: seq<Line>, answers: Line -> Reply): seq<P.Event> {
    seq(|lines|, k requires 0 <= k < |lines| => P.Restore(id, lines[k], answers(lines[k])))
  }

  // The protocol's release `id` has tried the lines `done` and nothing else has happened.
  ghost predicate Tried(s: P.Daemon, s': P.Daemon, id: nat, done: set<Line>, answers: Line -> Reply)
    requires id in s.ops && s.ops[id].Repay?
  {
    && s'.hub == RestoredHub(s.hub, done, answers)
    && s' == s.(hub := s'.hub, ops := s.ops[id := s.ops[id].(debt := s.ops[id].debt - done)])
  }

  lemma NothingTried(s: P.Daemon, id: nat, answers: Line -> Reply)
    requires id in s.ops && s.ops[id].Repay?
    ensures Tried(s, s, id, {}, answers)
  {
    NothingWalked(s.hub, answers);
    assert s.ops[id].debt - {} == s.ops[id].debt;
    assert s.ops[id].(debt := s.ops[id].debt - {}) == s.ops[id];
    assert s.ops[id := s.ops[id]] == s.ops;
  }

  lemma TryingOneMore(s: P.Daemon, m: P.Daemon, id: nat, done: set<Line>, answers: Line -> Reply, l: Line)
    requires id in s.ops && s.ops[id].Repay? && s.ops[id].stage.Restoring? && l in s.ops[id].debt && l !in done
    requires Tried(s, m, id, done, answers)
    ensures Tried(s, P.Step(m, P.Restore(id, l, answers(l))), id, done + {l}, answers)
  {
    ProtocolRestoresOneLine(m, id, l, answers(l));
    OneMoreRestored(s.hub, done, l, answers);
    assert s.ops[id].debt - done - {l} == s.ops[id].debt - (done + {l});
  }

  /** A release that holds its channels, left to itself, is the protocol's restore steps one line at a time,
      in any order: they bring the hub where the release's loops do and leave none of it to restore. */
  lemma {:induction false} ReleaseIsTheProtocols(s: P.Daemon, id: nat, lines: seq<Line>, answers: Line -> Reply)
    requires id in s.ops && s.ops[id].Repay? && s.ops[id].stage.Restoring? && Elements(lines) <= s.ops[id].debt
    requires forall i, j :: 0 <= i < j < |lines| ==> lines[i] != lines[j]
    ensures Tried(s, P.Play(s, Restores(id, lines, answers)), id, Elements(lines), answers)
  {
    if lines == [] {
      NothingTried(s, id, answers);
      assert Elements(lines) == {};
    } else {
      var n := |lines| - 1;
      assert Restores(id, lines, answers)[..n] == Restores(id, lines[..n], answers);
      assert lines == lines[..n] + [lines[n]];
      assert Elements(lines) == Elements(lines[..n]) + {lines[n]};
      ReleaseIsTheProtocols(s, id, lines[..n], answers);
      TryingOneMore(s, P.Play(s, Restores(id, lines[..n], answers)), id, Elements(lines[..n]), answers, lines[n]);
    }
  }

  /** `stop`, at the moment it closes the hub: whatever is in flight then, and whether or not the daemon
      got the rack-wide lock within its ten seconds, nothing is dark that the daemon cut. What the calls
      it leaves running may still do is HubShutdown's. */
  lemma StopLightsEverything(channels: seq<int>, es: seq<P.Event>, answers: Line -> Reply)
    requires P.BenignRun(P.Start(channels), es)
    requires forall l :: answers(l).Acked?
    ensures Closed(P.Play(P.Start(channels), es).hub, true, true, answers) == Hub({}, {})
  {
    P.EveryCutIsOwedOrInFlight(channels, es);
    var h := P.Play(P.Start(channels), es).hub;
    CloseRestoresIff(h, true, true, answers);
  }

  // `maintain`'s verdict on leaving an idle daemon.
  predicate ShouldExit(ledger: set<Line>, idleExit: Option<nat>, idleFor: int) {
    idleExit.Some? && idleExit.value != 0 && ledger == {} && idleFor > idleExit.value
  }

  /** At the moment `maintain` decides that the daemon should exit, no line is dark. */
  lemma ExitsOnlyLit(channels: seq<int>, es: seq<P.Event>, idleExit: Option<nat>, idleFor: int)
    requires P.BenignRun(P.Start(channels), es)
    requires ShouldExit(P.Play(P.Start(channels), es).hub.ledger, idleExit, idleFor)
    ensures P.Play(P.Start(channels), es).hub.dark == {}
  {
    P.EveryCutIsOwedOrInFlight(channels, es);
  }

  /** And it does decide so: exactly when leaving is configured with a limit that is not zero, no line is
      recorded as off, and nobody has been heard of for longer than that. */
  lemma ExitsOnceIdle(channels: seq<int>, es: seq<P.Event>, limit: nat, idleFor: int)
    requires P.BenignRun(P.Start(channels), es)
    ensures var h := P.Play(P.Start(channels), es).hub;
            && (h.dark == {} && limit > 0 && idleFor >= limit + 1 ==> ShouldExit(h.ledger, Some(limit), idleFor))
            && (h.dark != {} || limit == 0 || idleFor <= limit ==> !ShouldExit(h.ledger, Some(limit), idleFor))
            && !ShouldExit(h.ledger, None, idleFor)
  {
    P.EveryCutIsOwedOrInFlight(channels, es);
  }

  // ---------------------------------------------------------------- accounting

  function Settled(owed: map<Client, set<Line>>, line: Line): map<Client, set<Line>> {
    map d | d in owed :: owed[d] - {line}
  }

  // Whether d owes l after an accounting: the caller for what it has cut, and anybody for what they owed,
  // unless it is the line just paid.
  ghost predicate ChargedFor(owed: map<Client, set<Line>>, owed': map<Client, set<Line>>, c: Client,
                             settled: Option<Line>, cut: set<Line>, d: Client, l: Line) {
    l in P.Owed(owed', d) <==> (d == c && l in cut) || (l in P.Owed(owed, d) && Some(l) != settled)
  }

  ghost predicate Charged(owed: map<Client, set<Line>>, owed': map<Client, set<Line>>, c: Client,
                          settled: Option<Line>, cut: set<Line>) {
    forall d, l :: ChargedFor(owed, owed', c, settled, cut, d, l)
  }

  lemma WhoOwesAfterwards(owed: map<Client, set<Line>>, c: Client, settled: Option<Line>, cut: set<Line>)
    ensures Charged(owed, P.Account(owed, c, settled, cut), c, settled, cut)
  {
    forall d, l ensures ChargedFor(owed, P.Account(owed, c, settled, cut), c, settled, cut, d, l) {}
  }

  // ---------------------------------------------------------------- leases

  // The lock after each of these leases' tokens was released, in any order.
  ghost predicate FreedOf(before: L.Locks, after: L.Locks, tokens: set<L.Ticket>) {
    && after.held == before.held - tokens && after.next == before.next
    && (tokens == {} ==> after == before)
    && (tokens != {} ==> after.waiting == L.NotifyAll(before.waiting))
  }

  lemma FreeingOneMore(a: L.Locks, b: L.Locks, tokens: set<L.Ticket>, t: L.Ticket)
    requires FreedOf(a, b, tokens)
    ensures FreedOf(a, L.Released(b, t), tokens + {t})
  {
    assert a.held - tokens - {t} == a.held - (tokens + {t});
    assert L.NotifyAll(L.NotifyAll(a.waiting)) == L.NotifyAll(a.waiting);
  }

  // Dropping the leases in `gone` makes the same difference as releasing their tokens.
  ghost predicate Dropped(leases: map<nat, Entry>, locks: L.Locks, gone: set<nat>,
                          leases': map<nat, Entry>, locks': L.Locks) {
    leases' == leases - gone && FreedOf(locks, locks', set k | k in gone && k in leases :: leases[k].token)
  }

  lemma DroppingOneMore(leases: map<nat, Entry>, locks: L.Locks, gone: set<nat>,
                        leases': map<nat, Entry>, locks': L.Locks, k: nat)
    requires Dropped(leases, locks, gone, leases', locks') && k in leases && k !in gone
    ensures Dropped(leases, locks, gone + {k}, leases' - {k}, L.Released(locks', leases[k].token))
  {
    var tokens := set j | j in gone && j in leases :: leases[j].token;
    FreeingOneMore(locks, locks', tokens, leases[k].token);
    assert (set j | j in gone + {k} && j in leases :: leases[j].token) == tokens + {leases[k].token};
    assert leases - gone - {k} == leases - (gone + {k});
  }

  class HubDaemon {
    var owed: map<Client, set<Line>>
    var leases: map<nat, Entry>
    const locks: L.ChannelLocks
    const manager: HubManager

    constructor (channels: seq<int>)
      ensures owed == map[] && leases == map[]
      ensures fresh(locks) && fresh(manager) && locks.State() == L.EMPTY && manager.State() == Hub({}, {})
    {
      owed, leases := map[], map[];
      locks := new L.ChannelLocks();
      manager := new HubManager(channels);
    }

    // Whoever turns a line back on settles the debt, whoever owed it.
    method Settle(line: Line)
      modifies this`owed
      ensures owed == Settled(old(owed), line)
    {
      var clients := owed.Keys;
      while clients != {}
        invariant clients <= owed.Keys == old(owed).Keys
        invariant forall d :: d in owed ==> owed[d] == if d in clients then old(owed)[d] else old(owed)[d] - {line}
        decreases |clients|
      {
        var other :| other in clients;
        owed := owed[other := owed[other] - {line}];
        clients := clients - {other};
      }
    }

    // `_account_locked`
    method AccountLocked(client: Client, settled: Option<Line>, cut: set<Line>)
      modifies this`owed
      ensures owed == P.Account(old(owed), client, settled, cut)
      ensures Charged(old(owed), owed, client, settled, cut)
    {
      if client !in owed {
        owed := owed[client := {}];
      }
      assert owed == old(owed)[client := P.Owed(old(owed), client)];
      if settled.Some? {
        Settle(settled.value);
      }
      owed := owed[client := owed[client] + cut];
      WhoOwesAfterwards(old(owed), client, settled, cut);
    }

    // The head of `_release`: the debt leaves the table before the channels are asked for.
    method PopDebt(client: Client, power: bool, data: bool) returns (debt: set<Line>, wanted: set<Line>)
      modifies this`owed
      ensures owed == old(owed) - {client}
      ensures debt == P.Owed(old(owed), client) && wanted == P.Enabled(debt, power, data)
      ensures forall l :: l in wanted <==> client in old(owed) && l in old(owed)[client] && if l.kind.Power? then power else data
    {
      debt := if client in owed then owed[client] else {};
      owed := owed - {client};
      wanted := P.Enabled(debt, power, data);
    }

    // The deferred branch: what was popped goes back in full, on top of what came in meanwhile.
    method KeepDebt(client: Client, debt: set<Line>)
      modifies this`owed
      ensures owed == old(owed)[client := P.Owed(old(owed), client) + debt]
    {
      if client !in owed {
        owed := owed[client := {}];
      }
      owed := owed[client := owed[client] + debt];
    }

    // One turn of those loops: None when the line is on already.
    method RestoreLine(l: Line, reply: Reply) returns (outcome: Option<Outcome>)
      modifies manager`dark, manager`turnedOff, manager`disconnected
      ensures manager.State() == RestoreOne(old(manager.State()), l, reply)
      ensures outcome == if l in old(manager.State()).ledger then Some(SwitchOutcome(Apply, reply)) else None
    {
      LedgerMembers(manager.turnedOff, manager.disconnected);
      var stillOff := if l.kind.Power? then l.chan in manager.turnedOff else l.chan in manager.disconnected;
      if !stillOff {
        return None;
      }
      var o := manager.Switch(l, true, DEFAULT_MODE, true, false, reply);
      return Some(o);
    }

    // The two loops of `_release`, with its channels held.
    method RestoreDebt(wanted: set<Line>, answers: Line -> Reply) returns (restored: set<Line>, failed: set<Line>)
      modifies manager`dark, manager`turnedOff, manager`disconnected
      ensures Walked(old(manager.State()), wanted, answers, manager.State(), restored, failed)
      ensures forall l :: l in restored <==> l in wanted && l in old(manager.State()).ledger && answers(l).Acked?
      ensures forall l :: l in failed <==> l in wanted && l in old(manager.State()).ledger && !answers(l).Acked?
      ensures forall l :: l in restored ==> l !in manager.State().dark && l !in manager.State().ledger
    {
      restored, failed := {}, {};
      var todo, done: set<Line> := wanted, {};
      NothingWalked(manager.State(), answers);
      while todo != {}
        invariant todo !! done && todo + done == wanted
        invariant Walked(old(manager.State()), done, answers, manager.State(), restored, failed)
        decreases |todo|
      {
        var l :| l in todo;
        WalkingOneMore(old(manager.State()), done, answers, manager.State(), restored, failed, l);
        todo, done := todo - {l}, done + {l};
        var outcome := RestoreLine(l, answers(l));
        if outcome.Some? {
          if outcome.value.Applied? {
            restored := restored + {l};
          } else {
            failed := failed + {l};
          }
        }
      }
    }

    // `_holds_lease`
    method HoldsLease(client: Client, lease: Option<nat>, now: int) returns (holds: bool)
      ensures holds <==> lease.Some? && lease.value in leases && leases[lease.value].client == client &&
                         leases[lease.value].expiresAt > now
    {
      if lease.None? || lease.value !in leases {
        return false;
      }
      var entry := leases[lease.value];
      return entry.client == client && entry.expiresAt > now;
    }

    // `_drop_lease`: a lease that is gone already is not released twice.
    method DropLease(k: nat)
      modifies this`leases, locks
      ensures if k in old(leases) then leases == old(leases) - {k} &&
                locks.State() == L.Released(old(locks.State()), old(leases)[k].token)
              else leases == old(leases) && locks.State() == old(locks.State())
    {
      if k in leases {
        var token := leases[k].token;
        leases := leases - {k};
        locks.Free(Some(token));
      }
    }

    // The loop shared by `_drop_leases_of` and `maintain`.
    method DropAll(ids: set<nat>)
      requires ids <= leases.Keys
      modifies this`leases, locks
      ensures Dropped(old(leases), old(locks.State()), ids, leases, locks.State())
    {
      var todo := ids;
      assert ids - todo == {};
      assert old(leases) - {} == old(leases);
      while todo != {}
        invariant todo <= ids
        invariant Dropped(old(leases), old(locks.State()), ids - todo, leases, locks.State())
        decreases |todo|
      {
        var k: nat :| k in todo;
        DroppingOneMore(old(leases), old(locks.State()), ids - todo, leases, locks.State(), k);
        assert ids - (todo - {k}) == ids - todo + {k};
        DropLease(k);
        todo := todo - {k};
      }
      assert ids - {} == ids;
    }

    // `_drop_leases_of`
    method DropLeasesOf(client: Client)
      modifies this`leases, locks
      ensures forall k :: k in leases <==> k in old(leases) && old(leases)[k].client != client
      ensures forall k :: k in leases ==> leases[k] == old(leases)[k]
      ensures locks.State().held ==
              old(locks.State()).held - (set k | k in old(leases) && old(leases)[k].client == client :: old(leases)[k].token)
    {
      var ids := set k | k in leases && leases[k].client == client;
      ghost var tokens := set k | k in ids && k in leases :: leases[k].token;
      assert tokens == set k | k in leases && leases[k].client == client :: leases[k].token;
      DropAll(ids);
    }

    // The first loop of `maintain`: no lease outlives its deadline by more than one pass.
    method DropExpired(now: int)
      modifies this`leases, locks
      ensures forall k :: k in leases <==> k in old(leases) && old(leases)[k].expiresAt > now
      ensures forall k :: k in leases ==> leases[k] == old(leases)[k]
      ensures locks.State().held ==
              old(locks.State()).held - (set k | k in old(leases) && old(leases)[k].expiresAt <= now :: old(leases)[k].token)
    {
      var ids := set k | k in leases && leases[k].expiresAt <= now;
      ghost var tokens := set k | k in ids && k in leases :: leases[k].token;
      assert tokens == set k | k in leases && leases[k].expiresAt <= now :: leases[k].token;
      DropAll(ids);
    }
  }
}
