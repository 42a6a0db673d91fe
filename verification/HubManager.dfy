/**
The one owner of the hub connection (hub.py, HubManager): switching a port's power or data
line under the guard, exclusive isolation, power cycles, and the two ledgers that remember what
this process switched off.

The hardware is the set of lines that are dark. `Reply` is what the hub does with a command;
`Lost` is a command without acknowledgement, which may or may not have taken effect, and
`Refused` is an exception raised before any command is sent (no link, no such channel,
interlock mode).
*/
module HubManager {
  import opened Options
  import opened HubGuard

  datatype Kind = Power | Data
  datatype Line = Line(kind: Kind, chan: int)

  datatype Reply = Acked | Lost(took: bool) | Refused {
    predicate Effective() { Acked? || (Lost? && took) }
  }

  // `Denied` is HubGuardError from the guard, `Unavailable` an exception from the hub.
  datatype Outcome = Applied | DryRunOnly | Denied | Unavailable {
    predicate Raises() { Denied? || Unavailable? }
  }

  datatype Hub = Hub(dark: set<Line>, ledger: set<Line>)

  // The guard's verdict on one switch: only cuts consult the registry of live sessions.
  function Verdict(mode: Mode, confirm: bool, named: bool, on: bool, registered: bool): Decision {
    Evaluate(mode, confirm, named || (!on && registered))
  }

  function Switched(h: Hub, line: Line, on: bool, d: Decision, reply: Reply): Hub {
    if reply.Refused? || d != Apply then h
    else Hub(
      if !reply.Effective() then h.dark else if on then h.dark - {line} else h.dark + {line},
      if on then h.ledger - {line} else if reply.Acked? then h.ledger + {line} else h.ledger)
  }

  function SwitchOutcome(d: Decision, reply: Reply): Outcome {
    if reply.Refused? then Unavailable
    else match d
      case Blocked => Denied
      case Simulated => DryRunOnly
      case Apply => if reply.Acked? then Applied else Unavailable
  }

  /** With a hub that acknowledges, the ledger is exactly what was dark by this process's doing:
      if it was so before a switch, it is so after. */
  lemma AcknowledgedSwitchKeepsTheLedgerExact(h: Hub, line: Line, on: bool, d: Decision, reply: Reply)
    requires h.dark == h.ledger
    ensures var h' := Switched(h, line, on, d, reply);
            h'.dark == h'.ledger <==>
            (reply.Lost? && d == Apply ==> if on then reply.took || line !in h.dark
                                           else !reply.took || line in h.ledger)
  {
    var h' := Switched(h, line, on, d, reply);
    if reply.Lost? && d == Apply {
      if on {
        assert line !in h'.ledger;
        if !reply.took && line in h.dark { assert line in h'.dark; }
      } else if reply.took && line !in h.ledger {
        assert line in h'.dark && line !in h'.ledger;
      }
    }
  }

  // ---------------------------------------------------------------- exclusive isolation

  // What the caller passed along; `live` is the registry as each lookup finds it.
  datatype Terms = Terms(mode: Mode, confirm: bool, live: set<int>)

  // Each neighbour is judged on its own: no session name, its own registry lookup.
  function NeighbourVerdict(terms: Terms, c: int): Decision {
    Verdict(terms.mode, terms.confirm, false, false, c in terms.live)
  }

  function Neighbours(channels: seq<int>, target: int): seq<int> {
    if channels == [] then []
    else
      var init := Neighbours(channels[..|channels| - 1], target);
      if channels[|channels| - 1] == target then init else init + [channels[|channels| - 1]]
  }

  function IsolatedFrom(h: Hub, others: seq<int>, terms: Terms, answers: int -> Reply): Hub {
    if others == [] then h
    else
      var c := others[|others| - 1];
      Switched(IsolatedFrom(h, others[..|others| - 1], terms, answers),
               Line(Data, c), false, NeighbourVerdict(terms, c), answers(c))
  }

  function CutOff(terms: Terms, answers: int -> Reply, c: int): bool {
    SwitchOutcome(NeighbourVerdict(terms, c), answers(c)) == Applied
  }

  // Splits the neighbours into those cut (`data_off_channels`) and the rest.
  function Cuts(others: seq<int>, terms: Terms, answers: int -> Reply, wanted: bool): seq<int> {
    if others == [] then []
    else
      var init := Cuts(others[..|others| - 1], terms, answers, wanted);
      var c := others[|others| - 1];
      if CutOff(terms, answers, c) == wanted then init + [c] else init
  }

  lemma {:induction false} NeighboursAreTheOthers(channels: seq<int>, target: int)
    ensures forall c :: c in Neighbours(channels, target) <==> c in channels && c != target
  {
    if channels != [] {
      var n := |channels| - 1;
      NeighboursAreTheOthers(channels[..n], target);
      assert channels == channels[..n] + [channels[n]];
    }
  }

  lemma {:induction false} CutsAreThoseAcknowledged(others: seq<int>, terms: Terms, answers: int -> Reply, wanted: bool)
    ensures forall c :: c in Cuts(others, terms, answers, wanted) <==>
                        c in others && CutOff(terms, answers, c) == wanted
  {
    if others != [] {
      var n := |others| - 1;
      CutsAreThoseAcknowledged(others[..n], terms, answers, wanted);
      assert others == others[..n] + [others[n]];
    }
  }

  /** What isolation does to the rack, in one piece: a neighbour's line goes dark exactly when the
      guard let that neighbour through and the command took effect, and enters the ledger exactly
      when it was also acknowledged. */
  lemma {:induction false} IsolationInOnePiece(h: Hub, others: seq<int>, terms: Terms, answers: int -> Reply)
    ensures var h' := IsolatedFrom(h, others, terms, answers);
            forall l :: l in h'.dark <==>
              l in h.dark || (l.kind.Data? && l.chan in others &&
                              NeighbourVerdict(terms, l.chan) == Apply && answers(l.chan).Effective())
    ensures var h' := IsolatedFrom(h, others, terms, answers);
            forall l :: l in h'.ledger <==>
              l in h.ledger || (l.kind.Data? && l.chan in others && CutOff(terms, answers, l.chan))
  {
    if others != [] {
      var n := |others| - 1;
      IsolationInOnePiece(h, others[..n], terms, answers);
      assert others == others[..n] + [others[n]];
      var c := others[n];
      forall l: Line ensures (l.kind.Data? && l.chan == c) <==> l == Line(Data, c) {}
    }
  }

  datatype DataResult = DataResult(outcome: Outcome, exclusive: Option<bool>, dataOff: seq<int>, failed: seq<int>)

  // `data(channel, state, exclusive)`: the target, then its neighbours if that was applied.
  function SetData(h: Hub, channels: seq<int>, c: int, on: bool, exclusive: bool, named: bool,
                   terms: Terms, targetReply: Reply, answers: int -> Reply): (Hub, DataResult) {
    var d := Verdict(terms.mode, terms.confirm, named, on, c in terms.live);
    var h1 := Switched(h, Line(Data, c), on, d, targetReply);
    var o := SwitchOutcome(d, targetReply);
    if !exclusive || !on || o.Raises() then (h1, DataResult(o, None, [], []))
    else if o != Applied then (h1, DataResult(o, Some(false), [], []))
    else
      var others := Neighbours(channels, c);
      var h2 := IsolatedFrom(h1, others, terms, answers);
      var off := Cuts(others, terms, answers, true);
      var failed := Cuts(others, terms, answers, false);
      (h2.(ledger := h2.ledger - {Line(Data, c)}), DataResult(o, Some(failed == []), off, failed))
  }

  /** A data call touches another channel's line only if it was asked to isolate, was switching on, and did:
      otherwise every other line is as it was, nothing is listed, and `exclusive` is reported, as false,
      only for a dry run of an isolation. */
  lemma OnlyIsolationsTouchOthers(h: Hub, channels: seq<int>, c: int, on: bool, exclusive: bool, named: bool,
                                  terms: Terms, targetReply: Reply, answers: int -> Reply)
    ensures var (h', r) := SetData(h, channels, c, on, exclusive, named, terms, targetReply, answers);
            !(exclusive && on && r.outcome.Applied?) ==>
              && (forall l :: l != Line(Data, c) ==> (l in h'.dark <==> l in h.dark) && (l in h'.ledger <==> l in h.ledger))
              && r.dataOff == [] && r.failed == []
              && r.exclusive == if exclusive && on && r.outcome.DryRunOnly? then Some(false) else None
  {}

  /** `exclusive` is reported exactly when the target was switched and every other channel was
      cut with acknowledgement. */
  lemma ExclusiveIffAllCut(h: Hub, channels: seq<int>, c: int, named: bool,
                           terms: Terms, targetReply: Reply, answers: int -> Reply)
    ensures var (h', r) := SetData(h, channels, c, true, true, named, terms, targetReply, answers);
            r.exclusive == Some(true) <==>
              r.outcome == Applied && forall o :: o in channels && o != c ==> CutOff(terms, answers, o)
  {
    NeighboursAreTheOthers(channels, c);
    var others := Neighbours(channels, c);
    CutsAreThoseAcknowledged(others, terms, answers, false);
    var failed := Cuts(others, terms, answers, false);
    if failed == [] {
      forall o | o in channels && o != c ensures CutOff(terms, answers, o) {
        assert o in others && o !in failed;
      }
    } else {
      var o := failed[0];
      assert o in failed && o in channels && o != c && !CutOff(terms, answers, o);
    }
  }

  /** An isolation that reports `exclusive` leaves the target's data line up and every other
      channel's down, each of those recorded as owed. */
  lemma ExclusiveMeansIsolated(h: Hub, channels: seq<int>, c: int, named: bool,
                               terms: Terms, targetReply: Reply, answers: int -> Reply)
    requires SetData(h, channels, c, true, true, named, terms, targetReply, answers).1.exclusive == Some(true)
    ensures var h' := SetData(h, channels, c, true, true, named, terms, targetReply, answers).0;
            && Line(Data, c) !in h'.dark && Line(Data, c) !in h'.ledger
            && forall o :: o in channels && o != c ==> Line(Data, o) in h'.dark && Line(Data, o) in h'.ledger
  {
    ExclusiveIffAllCut(h, channels, c, named, terms, targetReply, answers);
    var d := Verdict(terms.mode, terms.confirm, named, true, c in terms.live);
    AllNeighboursCut(Switched(h, Line(Data, c), true, d, targetReply), channels, c, terms, answers);
  }

  lemma AllNeighboursCut(h: Hub, channels: seq<int>, c: int, terms: Terms, answers: int -> Reply)
    requires Line(Data, c) !in h.dark && Line(Data, c) !in h.ledger
    requires forall o :: o in channels && o != c ==> CutOff(terms, answers, o)
    ensures var h' := IsolatedFrom(h, Neighbours(channels, c), terms, answers);
            && Line(Data, c) !in h'.dark && Line(Data, c) !in h'.ledger
            && forall o :: o in channels && o != c ==> Line(Data, o) in h'.dark && Line(Data, o) in h'.ledger
  {
    NeighboursAreTheOthers(channels, c);
    IsolationInOnePiece(h, Neighbours(channels, c), terms, answers);
  }

  /** Whatever an isolation reports, the channels it lists as cut are dark and recorded as owed,
      are not the target, and no power line has moved. */
  lemma IsolationTouchesOnlyWhatItLists(h: Hub, channels: seq<int>, c: int, named: bool,
                                        terms: Terms, targetReply: Reply, answers: int -> Reply)
    ensures var (h', r) := SetData(h, channels, c, true, true, named, terms, targetReply, answers);
            && (forall o :: o in r.dataOff ==> o in channels && o != c &&
                                               Line(Data, o) in h'.dark && Line(Data, o) in h'.ledger)
            && (forall l: Line :: l.kind.Power? ==> (l in h'.dark <==> l in h.dark) && (l in h'.ledger <==> l in h.ledger))
  {
    NeighboursAreTheOthers(channels, c);
    var others := Neighbours(channels, c);
    CutsAreThoseAcknowledged(others, terms, answers, true);
    var d := Verdict(terms.mode, terms.confirm, named, true, c in terms.live);
    IsolationInOnePiece(Switched(h, Line(Data, c), true, d, targetReply), others, terms, answers);
  }

  /** A neighbour with a live session is never cut without confirmation, even in `allow` mode and
      even when the target's own switch was let through. */
  lemma {:induction false} LiveNeighbourNeedsConfirmation(terms: Terms, answers: int -> Reply, others: seq<int>, o: int)
    requires o in terms.live && !terms.confirm
    ensures o !in Cuts(others, terms, answers, true)
  {
    CutsAreThoseAcknowledged(others, terms, answers, true);
  }

  // ---------------------------------------------------------------- power cycles

  function Cycled(h: Hub, c: int, named: bool, terms: Terms, offReply: Reply, onReply: Reply): (Hub, Outcome) {
    var line := Line(Power, c);
    var d := Verdict(terms.mode, terms.confirm, named, false, c in terms.live);
    var h1 := Switched(h, line, false, d, offReply);
    var o1 := SwitchOutcome(d, offReply);
    if o1.Raises() then (h1, o1)
    else
      var d2 := Verdict(terms.mode, true, false, true, c in terms.live);
      (Switched(h1, line, true, d2, onReply), SwitchOutcome(d2, onReply))
  }

  // What a cycle leaves of its port, for every state it starts in and every pair of replies: dark when a
  // cut took effect and was not put back; in the ledger, when a cut was acknowledged, exactly if the
  // second command was never sent. A cycle that does not raise was a dry run or left the port on.
  ghost predicate LeavesOfAPort(h: Hub, h': Hub, c: int, named: bool, terms: Terms, offReply: Reply, onReply: Reply,
                                o: Outcome) {
    var line := Line(Power, c);
    var cut := Verdict(terms.mode, terms.confirm, named, false, c in terms.live) == Apply;
    && h'.dark - {line} == h.dark - {line} && h'.ledger - {line} == h.ledger - {line}
    && (line in h'.dark <==>
          if !cut || offReply.Refused? then line in h.dark
          else if offReply.Lost? then offReply.took || line in h.dark else !onReply.Effective())
    && (line in h'.ledger <==> if cut && offReply.Acked? then onReply.Refused? else line in h.ledger)
    && (!o.Raises() <==> !offReply.Refused? && !onReply.Refused? &&
                         (terms.mode.DryRun? || (cut && offReply.Acked? && onReply.Acked?)))
  }

  // ---------------------------------------------------------------- close

  // `close`: both ledgers are cleared whether or not the commands worked.
  function Closed(h: Hub, power: bool, data: bool, answers: Line -> Reply): Hub {
    Hub(set l | l in h.dark && !(l in h.ledger && (if l.kind.Power? then power else data) && answers(l).Effective()),
        {})
  }

  /** Closing brings back every line in the ledger exactly when both kinds are restored as far as
      needed and every command it sends takes effect. */
  lemma CloseRestoresIff(h: Hub, power: bool, data: bool, answers: Line -> Reply)
    ensures (forall l :: l in h.ledger ==> l !in Closed(h, power, data, answers).dark) <==>
            (forall l :: l in h.ledger && l in h.dark ==>
               (if l.kind.Power? then power else data) && answers(l).Effective())
  {
    if l :| l in h.ledger && l in h.dark && !((if l.kind.Power? then power else data) && answers(l).Effective()) {
      assert l in Closed(h, power, data, answers).dark;
    }
  }

  // ---------------------------------------------------------------- the class

  function LedgerOf(off: set<int>, disconnected: set<int>): set<Line> {
    (set c | c in off :: Line(Power, c)) + (set c | c in disconnected :: Line(Data, c))
  }

  lemma LedgerMembers(off: set<int>, disconnected: set<int>)
    ensures forall l :: l in LedgerOf(off, disconnected) <==>
                        if l.kind.Power? then l.chan in off else l.chan in disconnected
  {
    forall l: Line ensures l == Line(l.kind, l.chan) {}
  }

  function Acknowledged(lines: set<Line>, answers: Line -> Reply): set<Line> {
    set l | l in lines && answers(l).Acked?
  }

  function Working(lines: set<Line>, answers: Line -> Reply): set<Line> {
    set l | l in lines && answers(l).Effective()
  }

  lemma OneMoreLine(lines: set<Line>, l: Line, answers: Line -> Reply)
    ensures Working(lines + {l}, answers) == Working(lines, answers) + if answers(l).Effective() then {l} else {}
    ensures Acknowledged(lines + {l}, answers) == Acknowledged(lines, answers) + if answers(l).Acked? then {l} else {}
  {}

  class HubManager {
    var dark: set<Line>           // the hardware
    var turnedOff: set<int>       // `_we_turned_off`
    var disconnected: set<int>    // `_we_disconnected`
    var channels: seq<int>
    var live: set<int>            // what `live_session_for` answers

    ghost function State(): Hub
      reads this
    {
      Hub(dark, LedgerOf(turnedOff, disconnected))
    }

    constructor (channels: seq<int>)
      ensures State() == Hub({}, {}) && this.channels == channels && live == {}
    {
      dark, turnedOff, disconnected, live := {}, {}, {}, {};
      this.channels := channels;
    }

    method Switch(line: Line, on: bool, mode: Mode, confirm: bool, named: bool, reply: Reply)
      returns (outcome: Outcome)
      modifies this`dark, this`turnedOff, this`disconnected
      ensures var d := Verdict(mode, confirm, named, on, line.chan in live);
              && State() == Switched(old(State()), line, on, d, reply)
              && outcome == SwitchOutcome(d, reply)
      ensures outcome.Denied? <==>
              !reply.Refused? && !mode.DryRun? && !confirm && (mode.Confirm? || named || (!on && line.chan in live))
      ensures outcome.DryRunOnly? <==> !reply.Refused? && mode.DryRun?
      ensures outcome.Denied? || outcome.DryRunOnly? || reply.Refused? ==> State() == old(State())
      ensures !outcome.Denied? && !outcome.DryRunOnly? ==> (outcome.Applied? <==> reply.Acked?)
    {
      if reply.Refused? {
        return Unavailable;
      }
      var liveSession := named;
      if !liveSession && !on {
        liveSession := line.chan in live;
      }
      var d := Evaluate(mode, confirm, liveSession);
      if d.Blocked? {
        return Denied;
      }
      if d.Simulated? {
        return DryRunOnly;
      }
      LedgerMembers(turnedOff, disconnected);
      if reply.Effective() {
        dark := if on then dark - {line} else dark + {line};
      }
      var c := line.chan;
      if line.kind.Power? {
        if !on && reply.Acked? {
          turnedOff := turnedOff + {c};
        } else if on {
          turnedOff := turnedOff - {c};
        }
      } else {
        if !on && reply.Acked? {
          disconnected := disconnected + {c};
        } else if on {
          disconnected := disconnected - {c};
        }
      }
      LedgerMembers(turnedOff, disconnected);
      assert LedgerOf(turnedOff, disconnected) ==
             Switched(old(State()), line, on, d, reply).ledger;
      return if reply.Acked? then Applied else Unavailable;
    }

    // The loop over the other channels of an exclusive isolation.
    method CutOthers(c: int, mode: Mode, confirm: bool, answers: int -> Reply) returns (off: seq<int>, failed: seq<int>)
      modifies this`dark, this`turnedOff, this`disconnected
      ensures var terms := Terms(mode, confirm, live); var others := Neighbours(channels, c);
              && State() == IsolatedFrom(old(State()), others, terms, answers)
              && off == Cuts(others, terms, answers, true)
              && failed == Cuts(others, terms, answers, false)
    {
      ghost var h1 := State();
      ghost var terms := Terms(mode, confirm, live);
      off, failed := [], [];
      var i := 0;
      while i < |channels|
        invariant 0 <= i <= |channels|
        invariant State() == IsolatedFrom(h1, Neighbours(channels[..i], c), terms, answers)
        invariant off == Cuts(Neighbours(channels[..i], c), terms, answers, true)
        invariant failed == Cuts(Neighbours(channels[..i], c), terms, answers, false)
      {
        assert channels[..i + 1][..i] == channels[..i];
        var other := channels[i];
        if other != c {
          ghost var before := Neighbours(channels[..i], c);
          assert Neighbours(channels[..i + 1], c) == before + [other];
          assert (before + [other])[..|before|] == before;
          var one := Switch(Line(Data, other), false, mode, confirm, false, answers(other));
          if one == Applied {
            off := off + [other];
          } else {
            failed := failed + [other];
          }
        }
        i := i + 1;
      }
      assert channels[..|channels|] == channels;
    }

    method SetDataLine(c: int, on: bool, exclusive: bool, named: bool, mode: Mode, confirm: bool,
                       targetReply: Reply, answers: int -> Reply)
      returns (r: DataResult)
      modifies this`dark, this`turnedOff, this`disconnected
      ensures (State(), r) == SetData(old(State()), channels, c, on, exclusive, named,
                                      Terms(mode, confirm, live), targetReply, answers)
    {
      var o := Switch(Line(Data, c), on, mode, confirm, named, targetReply);
      if !exclusive || !on || o.Raises() {
        return DataResult(o, None, [], []);
      }
      if o != Applied {
        return DataResult(o, Some(false), [], []);
      }
      var off, failed := CutOthers(c, mode, confirm, answers);
      ghost var cutLedger := State().ledger;
      LedgerMembers(turnedOff, disconnected);
      disconnected := disconnected - {c};
      LedgerMembers(turnedOff, disconnected);
      assert State().ledger == cutLedger - {Line(Data, c)};
      return DataResult(o, Some(failed == []), off, failed);
    }

    method PowerCycle(c: int, named: bool, mode: Mode, confirm: bool, offReply: Reply, onReply: Reply)
      returns (outcome: Outcome)
      modifies this`dark, this`turnedOff, this`disconnected
      ensures (State(), outcome) == Cycled(old(State()), c, named, Terms(mode, confirm, live), offReply, onReply)
      ensures LeavesOfAPort(old(State()), State(), c, named, Terms(mode, confirm, live), offReply, onReply, outcome)
    {
      outcome := Switch(Line(Power, c), false, mode, confirm, named, offReply);
      if outcome.Raises() {
        return;
      }
      outcome := Switch(Line(Power, c), true, mode, true, false, onReply);
    }

    // One kind's loop of `close`, over the lines that kind's ledger stands for.
    method RestoreLines(lines: set<Line>, answers: Line -> Reply) returns (restored: set<Line>)
      modifies this`dark
      ensures dark == old(dark) - Working(lines, answers)
      ensures restored == Acknowledged(lines, answers)
      ensures forall l :: l in dark <==> l in old(dark) && !(l in lines && answers(l).Effective())
      ensures forall l :: l in restored <==> l in lines && answers(l).Acked?
    {
      restored := {};
      var todo := lines;
      assert lines - todo == {};
      while todo != {}
        invariant todo <= lines
        invariant dark == old(dark) - Working(lines - todo, answers)
        invariant restored == Acknowledged(lines - todo, answers)
        decreases |todo|
      {
        var l :| l in todo;
        OneMoreLine(lines - todo, l, answers);
        assert lines - (todo - {l}) == lines - todo + {l};
        todo := todo - {l};
        if answers(l).Effective() {
          dark := dark - {l};
        }
        if answers(l).Acked? {
          restored := restored + {l};
        }
      }
    }

    method Close(power: bool, data: bool, answers: Line -> Reply) returns (restored: set<Line>, reconnected: set<Line>)
      modifies this`dark, this`turnedOff, this`disconnected
      ensures State() == Closed(old(State()), power, data, answers)
      ensures restored == if power then Acknowledged(LedgerOf(old(turnedOff), {}), answers) else {}
      ensures reconnected == if data then Acknowledged(LedgerOf({}, old(disconnected)), answers) else {}
      ensures forall l :: l in restored <==> power && l.kind.Power? && l.chan in old(turnedOff) && answers(l).Acked?
      ensures forall l :: l in reconnected <==> data && l.kind.Data? && l.chan in old(disconnected) && answers(l).Acked?
      ensures turnedOff == {} && disconnected == {}
      ensures forall l: Line :: l.kind.Power? ==>
                (l in dark <==> l in old(dark) && !(power && l.chan in old(turnedOff) && answers(l).Effective()))
      ensures forall l: Line :: l.kind.Data? ==>
                (l in dark <==> l in old(dark) && !(data && l.chan in old(disconnected) && answers(l).Effective()))
    {
      restored, reconnected := {}, {};
      LedgerMembers(turnedOff, disconnected);
      LedgerMembers(turnedOff, {});
      LedgerMembers({}, disconnected);
      if power {
        restored := RestoreLines(LedgerOf(turnedOff, {}), answers);
      }
      if data {
        reconnected := RestoreLines(LedgerOf({}, disconnected), answers);
      }
      assert dark == Closed(old(State()), power, data, answers).dark;
      turnedOff, disconnected := {}, {};
    }
  }
}
