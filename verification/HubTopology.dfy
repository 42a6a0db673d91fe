/**
Discovery of which hub channel each debug probe is plugged into (hub_topology.py): drop each
channel's data line in turn and see which probe of the baseline disappears.
*/
module HubTopology {
  import opened HubManager

  type Probe = string

  // Where probes are plugged in; those absent from the map are not on the hub at all.
  type Placement = map<Probe, int>

  predicate Hidden(at: Placement, dark: set<int>, p: Probe) {
    p in at && at[p] in dark
  }

  // What `detect` reports among the probes there are.
  function Visible(at: Placement, dark: set<int>, probes: set<Probe>): set<Probe> {
    set p | p in probes && !Hidden(at, dark, p)
  }

  // The baseline probes on one channel.
  function OnChannel(at: Placement, baseline: set<Probe>, c: int): set<Probe> {
    set p | p in baseline && p in at && at[p] == c
  }

  datatype Note = CouldNotDisconnect(chan: int) | CouldNotReconnect(chan: int) | SeveralVanished(chan: int, probes: set<Probe>)

  // How the environment answers the toggling of one channel.
  datatype Answer = Answer(off: Reply, detects: bool, on: Reply)

  // `raised`: detection blew up; the loop has ended there.
  datatype Found = Found(dark: set<int>, mapped: map<int, Probe>, notes: seq<Note>, matched: set<Probe>, raised: bool)

  function OnlyOf(s: set<Probe>): (p: Probe)
    requires |s| == 1
    ensures s == {p}
  {
    OnlyElement(s);
    var p :| p in s;
    p
  }

  lemma OnlyElement(s: set<Probe>)
    requires |s| == 1
    ensures s != {} && forall p, q :: p in s && q in s ==> p == q
  {
    var p :| p in s;
    assert |s - {p}| == 0;
    forall q, r | q in s && r in s ensures q == r {
      assert q !in s - {p} && r !in s - {p};
    }
  }

  function NotesOf(c: int, vanished: set<Probe>, on: Reply): seq<Note> {
    (if on.Acked? then [] else [CouldNotReconnect(c)]) +
    (if |vanished| > 1 then [SeveralVanished(c, vanished)] else [])
  }

  // One turn of the loop.
  function Toggled(at: Placement, baseline: set<Probe>, f: Found, c: int, a: Answer): Found {
    if f.raised then f
    else if !a.off.Acked? then
      f.(dark := if a.off.Effective() then f.dark + {c} else f.dark, notes := f.notes + [CouldNotDisconnect(c)])
    else
      var down := f.dark + {c};
      var dark := if a.on.Effective() then down - {c} else down;
      if !a.detects then
        f.(dark := dark, notes := f.notes + NotesOf(c, {}, a.on), raised := true)
      else
        var vanished := baseline - Visible(at, down, baseline);
        Found(dark, if |vanished| == 1 then f.mapped[c := OnlyOf(vanished)] else f.mapped,
              f.notes + NotesOf(c, vanished, a.on),
              if |vanished| == 1 then f.matched + vanished else f.matched, false)
  }

  function Discover(at: Placement, baseline: set<Probe>, dark: set<int>, channels: seq<int>,
                    answers: seq<Answer>): Found
    requires |channels| == |answers|
  {
    if channels == [] then Found(dark, map[], [], {}, false)
    else
      var n := |channels| - 1;
      Toggled(at, baseline, Discover(at, baseline, dark, channels[..n], answers[..n]), channels[n], answers[n])
  }

  /** A channel's verdict is about that channel exactly when no other line with a baseline probe is
      down at that moment. */
  lemma VanishedIsOnChannelIff(at: Placement, baseline: set<Probe>, dark: set<int>, c: int)
    ensures baseline - Visible(at, dark + {c}, baseline) == OnChannel(at, baseline, c) <==>
            forall p :: p in baseline && Hidden(at, dark, p) ==> at[p] == c
  {
    var vanished := baseline - Visible(at, dark + {c}, baseline);
    if p :| p in baseline && Hidden(at, dark, p) && at[p] != c {
      assert p in vanished && p !in OnChannel(at, baseline, c);
    } else {
      assert vanished == OnChannel(at, baseline, c);
    }
  }

  // A line that went down came back: every "off" was acknowledged or did nothing, every "on" took
  // effect.
  predicate Faithful(answers: seq<Answer>) {
    forall k :: 0 <= k < |answers| ==> (answers[k].off.Acked? && answers[k].on.Effective()) || !answers[k].off.Effective()
  }

  predicate AllDetected(answers: seq<Answer>) {
    forall k :: 0 <= k < |answers| ==> answers[k].detects
  }

  // c was toggled by some turn of the loop.
  ghost predicate WasToggled(channels: seq<int>, answers: seq<Answer>, c: int)
    requires |channels| == |answers|
  {
    exists k :: 0 <= k < |channels| && channels[k] == c && answers[k].off.Acked?
  }

  lemma ToggledOneMore(channels: seq<int>, answers: seq<Answer>, c: int)
    requires |channels| == |answers| && channels != []
    ensures var n := |channels| - 1;
            WasToggled(channels, answers, c) <==>
            WasToggled(channels[..n], answers[..n], c) || (channels[n] == c && answers[n].off.Acked?)
  {
    var n := |channels| - 1;
    if k :| 0 <= k < n && channels[k] == c && answers[k].off.Acked? {
      assert channels[..n][k] == c && answers[..n][k].off.Acked?;
    }
    if WasToggled(channels[..n], answers[..n], c) {
      var k :| 0 <= k < n && channels[..n][k] == c && answers[..n][k].off.Acked?;
      assert channels[k] == c && answers[k].off.Acked?;
    }
  }

  /** No line is left down by discovery, even when detection blows up half-way: what is dark
      afterwards was dark before and was not toggled. */
  lemma {:induction false} EveryLineEndsOn(at: Placement, baseline: set<Probe>, dark: set<int>,
                                           channels: seq<int>, answers: seq<Answer>)
    requires |channels| == |answers| && Faithful(answers)
    ensures var f := Discover(at, baseline, dark, channels, answers);
            && f.dark <= dark
            && (!f.raised ==> forall c :: c in f.dark <==> c in dark && !WasToggled(channels, answers, c))
  {
    if channels != [] {
      var n := |channels| - 1;
      EveryLineEndsOn(at, baseline, dark, channels[..n], answers[..n]);
      forall c ensures WasToggled(channels, answers, c) <==>
                       WasToggled(channels[..n], answers[..n], c) || (channels[n] == c && answers[n].off.Acked?) {
        ToggledOneMore(channels, answers, c);
      }
    }
  }

  ghost predicate ExactAt(at: Placement, baseline: set<Probe>, channels: seq<int>, answers: seq<Answer>,
                          f: Found, c: int)
    requires |channels| == |answers|
  {
    && (c in f.mapped <==> WasToggled(channels, answers, c) && |OnChannel(at, baseline, c)| == 1)
    && (c in f.mapped ==> OnChannel(at, baseline, c) == {f.mapped[c]})
    && ((exists ps :: SeveralVanished(c, ps) in f.notes) <==>
         WasToggled(channels, answers, c) && |OnChannel(at, baseline, c)| > 1)
  }

  // Whether the loop gets to the k-th channel: detection has not blown up before.
  predicate Gets(answers: seq<Answer>, k: nat)
    requires k <= |answers|
  {
    forall j :: 0 <= j < k ==> !(answers[j].off.Acked? && !answers[j].detects)
  }

  // The loop got to channel c and could not take its line down.
  ghost predicate StayedUp(channels: seq<int>, answers: seq<Answer>, c: int)
    requires |channels| == |answers|
  {
    exists k :: 0 <= k < |channels| && channels[k] == c && Gets(answers, k) && !answers[k].off.Acked?
  }

  // It took the line down and its way up again was not acknowledged.
  ghost predicate MayBeDown(channels: seq<int>, answers: seq<Answer>, c: int)
    requires |channels| == |answers|
  {
    exists k :: 0 <= k < |channels| && channels[k] == c && Gets(answers, k) && answers[k].off.Acked? && !answers[k].on.Acked?
  }

  lemma OneMoreTrouble(channels: seq<int>, answers: seq<Answer>, c: int)
    requires |channels| == |answers| && channels != []
    ensures var n := |channels| - 1; var a := answers[n];
            && (Gets(answers, n + 1) <==> Gets(answers[..n], n) && !(a.off.Acked? && !a.detects))
            && (StayedUp(channels, answers, c) <==>
                StayedUp(channels[..n], answers[..n], c) || (channels[n] == c && Gets(answers[..n], n) && !a.off.Acked?))
            && (MayBeDown(channels, answers, c) <==>
                MayBeDown(channels[..n], answers[..n], c) ||
                (channels[n] == c && Gets(answers[..n], n) && a.off.Acked? && !a.on.Acked?))
  {
    var n := |channels| - 1;
    assert forall j :: 0 <= j < n ==> answers[..n][j] == answers[j] && channels[..n][j] == channels[j];
    forall k | 0 <= k <= n ensures Gets(answers, k) <==> Gets(answers[..n], k) {}
    if k :| 0 <= k < n && channels[k] == c && Gets(answers, k) && !answers[k].off.Acked? {
      assert channels[..n][k] == c && Gets(answers[..n], k) && !answers[..n][k].off.Acked?;
    }
    if k :| 0 <= k < n && channels[k] == c && Gets(answers, k) && answers[k].off.Acked? && !answers[k].on.Acked? {
      assert channels[..n][k] == c && Gets(answers[..n], k) && answers[..n][k].off.Acked? && !answers[..n][k].on.Acked?;
    }
    if k :| 0 <= k < n && channels[..n][k] == c && Gets(answers[..n], k) && !answers[..n][k].off.Acked? {
      assert channels[k] == c && Gets(answers, k) && !answers[k].off.Acked?;
    }
    if k :| 0 <= k < n && channels[..n][k] == c && Gets(answers[..n], k) && answers[..n][k].off.Acked? && !answers[..n][k].on.Acked? {
      assert channels[k] == c && Gets(answers, k) && answers[k].off.Acked? && !answers[k].on.Acked?;
    }
  }

  /** Whatever the hub answers and wherever detection ends: a channel is reported as one that could not be
      disconnected, or not reconnected, exactly when that happened to it, even when the loop is cut short. */
  lemma {:induction false} TroubleIsReported(at: Placement, baseline: set<Probe>, dark: set<int>,
                                             channels: seq<int>, answers: seq<Answer>, c: int)
    requires |channels| == |answers|
    ensures var f := Discover(at, baseline, dark, channels, answers);
            && (f.raised <==> !Gets(answers, |answers|))
            && (CouldNotDisconnect(c) in f.notes <==> StayedUp(channels, answers, c))
            && (CouldNotReconnect(c) in f.notes <==> MayBeDown(channels, answers, c))
  {
    if channels != [] {
      var n := |channels| - 1;
      TroubleIsReported(at, baseline, dark, channels[..n], answers[..n], c);
      OneMoreTrouble(channels, answers, c);
      OneMoreNote(at, baseline, Discover(at, baseline, dark, channels[..n], answers[..n]), channels[n], answers[n], c);
    }
  }

  lemma OneMoreNote(at: Placement, baseline: set<Probe>, f: Found, d: int, a: Answer, c: int)
    ensures var f' := Toggled(at, baseline, f, d, a);
            && (f'.raised <==> f.raised || (a.off.Acked? && !a.detects))
            && (CouldNotDisconnect(c) in f'.notes <==> CouldNotDisconnect(c) in f.notes || (!f.raised && d == c && !a.off.Acked?))
            && (CouldNotReconnect(c) in f'.notes <==>
                CouldNotReconnect(c) in f.notes || (!f.raised && d == c && a.off.Acked? && !a.on.Acked?))
  {}

  ghost predicate MatchedOk(at: Placement, baseline: set<Probe>, f: Found) {
    && (forall p :: p in f.matched <==> exists c :: c in f.mapped && f.mapped[c] == p)
    && (forall c :: c in f.mapped ==> OnChannel(at, baseline, c) == {f.mapped[c]})
  }

  /** Discovery is exact for a fixed placement and a faithful hub: a channel maps to the only baseline
      probe on it, is reported as ambiguous when there are several, and nothing else is reported. */
  lemma {:induction false} DiscoveryIsExact(at: Placement, probes: set<Probe>, dark: set<int>,
                                            channels: seq<int>, answers: seq<Answer>, c: int)
    requires |channels| == |answers| && Faithful(answers) && AllDetected(answers)
    ensures var baseline := Visible(at, dark, probes);
            var f := Discover(at, baseline, dark, channels, answers);
            !f.raised && ExactAt(at, baseline, channels, answers, f, c)
  {
    if channels != [] {
      var baseline := Visible(at, dark, probes);
      var n := |channels| - 1;
      var f0 := Discover(at, baseline, dark, channels[..n], answers[..n]);
      DiscoveryIsExact(at, probes, dark, channels[..n], answers[..n], c);
      EveryLineEndsOn(at, baseline, dark, channels[..n], answers[..n]);
      ToggledOneMore(channels, answers, c);
      VanishedIsOnChannelIff(at, baseline, f0.dark, channels[n]);
      OneMoreTurn(at, baseline, f0, channels[n], answers[n], c);
    }
  }

  lemma OneOnChannel(at: Placement, probes: set<Probe>, dark: set<int>, c: int, p: Probe)
    ensures OnChannel(at, Visible(at, dark, probes), c) == {p} <==>
              c !in dark && p in probes && p in at && at[p] == c && forall q :: q in probes && q in at && at[q] == c ==> q == p
  {
    var on := OnChannel(at, Visible(at, dark, probes), c);
    assert forall q :: q in on <==> c !in dark && q in probes && q in at && at[q] == c;
    if on == {p} { assert p in on; }
  }

  /** In terms of where the probes are: a channel is given a probe exactly when its line was up and was taken
      down, and the probe is the one probe plugged in there. */
  lemma OneProbePerChannel(at: Placement, probes: set<Probe>, dark: set<int>, channels: seq<int>, answers: seq<Answer>,
                           c: int, p: Probe)
    requires |channels| == |answers| && Faithful(answers) && AllDetected(answers)
    ensures var f := Discover(at, Visible(at, dark, probes), dark, channels, answers);
            (c in f.mapped && f.mapped[c] == p) <==>
              && (exists k :: 0 <= k < |channels| && channels[k] == c && answers[k].off.Acked?) && c !in dark
              && p in probes && p in at && at[p] == c && forall q :: q in probes && q in at && at[q] == c ==> q == p
  {
    DiscoveryIsExact(at, probes, dark, channels, answers, c);
    OneOnChannel(at, probes, dark, c, p);
    assert |{p}| == 1;
  }

  lemma OneMoreTurn(at: Placement, baseline: set<Probe>, f: Found, c: int, a: Answer, d: int)
    requires !f.raised && a.detects
    requires baseline - Visible(at, f.dark + {c}, baseline) == OnChannel(at, baseline, c)
    ensures var f' := Toggled(at, baseline, f, c, a);
            && (d in f'.mapped <==> d in f.mapped || (d == c && a.off.Acked? && |OnChannel(at, baseline, c)| == 1))
            && (d in f'.mapped ==> (d in f.mapped && f'.mapped[d] == f.mapped[d]) ||
                                   (d == c && OnChannel(at, baseline, c) == {f'.mapped[d]}))
            && ((exists ps :: SeveralVanished(d, ps) in f'.notes) <==>
                 (exists ps :: SeveralVanished(d, ps) in f.notes) || (d == c && a.off.Acked? && |OnChannel(at, baseline, c)| > 1))
  {
    var f' := Toggled(at, baseline, f, c, a);
    var vanished := OnChannel(at, baseline, c);
    if ps :| SeveralVanished(d, ps) in f.notes { assert SeveralVanished(d, ps) in f'.notes; }
    if d == c && a.off.Acked? && |vanished| > 1 {
      assert SeveralVanished(c, vanished) in NotesOf(c, vanished, a.on);
      assert SeveralVanished(d, vanished) in f'.notes;
    }
  }

  lemma {:induction false} MatchedAreTheMapped(at: Placement, probes: set<Probe>, dark: set<int>,
                                               channels: seq<int>, answers: seq<Answer>)
    requires |channels| == |answers| && Faithful(answers) && AllDetected(answers)
    ensures var baseline := Visible(at, dark, probes);
            MatchedOk(at, baseline, Discover(at, baseline, dark, channels, answers))
  {
    if channels != [] {
      var baseline := Visible(at, dark, probes);
      var n := |channels| - 1;
      var f0 := Discover(at, baseline, dark, channels[..n], answers[..n]);
      DiscoveryIsExact(at, probes, dark, channels[..n], answers[..n], 0);
      MatchedAreTheMapped(at, probes, dark, channels[..n], answers[..n]);
      EveryLineEndsOn(at, baseline, dark, channels[..n], answers[..n]);
      VanishedIsOnChannelIff(at, baseline, f0.dark, channels[n]);
      OneMoreMatched(at, baseline, f0, channels[n], answers[n]);
    }
  }

  lemma OneMoreMatched(at: Placement, baseline: set<Probe>, f: Found, c: int, a: Answer)
    requires !f.raised && a.detects && MatchedOk(at, baseline, f)
    requires baseline - Visible(at, f.dark + {c}, baseline) == OnChannel(at, baseline, c)
    ensures MatchedOk(at, baseline, Toggled(at, baseline, f, c, a))
  {
    var f' := Toggled(at, baseline, f, c, a);
    var vanished := OnChannel(at, baseline, c);
    if a.off.Acked? && |vanished| == 1 {
      var q := OnlyOf(vanished);
      forall p ensures p in f'.matched <==> exists d :: d in f'.mapped && f'.mapped[d] == p {
        if p == q { assert c in f'.mapped && f'.mapped[c] == p; }
        if p in f.matched {
          var d :| d in f.mapped && f.mapped[d] == p;
          assert d in f'.mapped && f'.mapped[d] == p;
        }
      }
    }
  }

  /** The unmapped probes are the rest of the baseline: those that are not alone on a toggled channel. */
  lemma {:induction false} UnmappedAreTheRest(at: Placement, probes: set<Probe>, dark: set<int>,
                                              channels: seq<int>, answers: seq<Answer>, p: Probe)
    requires |channels| == |answers| && Faithful(answers) && AllDetected(answers)
    ensures var baseline := Visible(at, dark, probes);
            var f := Discover(at, baseline, dark, channels, answers);
            p in baseline - f.matched <==>
            p in baseline && !(p in at && WasToggled(channels, answers, at[p]) && OnChannel(at, baseline, at[p]) == {p})
  {
    var baseline := Visible(at, dark, probes);
    var f := Discover(at, baseline, dark, channels, answers);
    MatchedAreTheMapped(at, probes, dark, channels, answers);
    if p in f.matched {
      var c :| c in f.mapped && f.mapped[c] == p;
      DiscoveryIsExact(at, probes, dark, channels, answers, c);
      assert p in OnChannel(at, baseline, c);
    }
    if p in at && WasToggled(channels, answers, at[p]) && OnChannel(at, baseline, at[p]) == {p} {
      DiscoveryIsExact(at, probes, dark, channels, answers, at[p]);
      assert at[p] in f.mapped && f.mapped[at[p]] == p;
    }
  }

  /** An "off" that is not acknowledged but works leaves its line down and the next channel's verdict
      wrong: here channel 2, which is empty, is given channel 1's probe. */
  lemma UnacknowledgedOffMisattributes(p: Probe)
    ensures var at: Placement := map[p := 1];
            var f := Discover(at, {p}, {}, [1, 2], [Answer(Lost(true), true, Acked), Answer(Acked, true, Acked)]);
            2 in f.mapped && f.mapped[2] == p && 1 in f.dark && OnChannel(at, {p}, 2) == {}
  {
    var at: Placement := map[p := 1];
    var lost, fine := Answer(Lost(true), true, Acked), Answer(Acked, true, Acked);
    OneMoreChannel(at, {p}, {}, [], [], 1, lost);
    OneMoreChannel(at, {p}, {}, [1], [lost], 2, fine);
    assert [] + [1] == [1] && [] + [lost] == [lost] && [1] + [2] == [1, 2] && [lost] + [fine] == [lost, fine];
    var f1 := Discover(at, {p}, {}, [1], [lost]);
    assert f1.dark == {1} && !f1.raised;
    assert {p} - Visible(at, {1} + {2}, {p}) == {p};
  }

  lemma OneMoreChannel(at: Placement, baseline: set<Probe>, dark: set<int>, channels: seq<int>,
                       answers: seq<Answer>, c: int, a: Answer)
    requires |channels| == |answers|
    ensures Discover(at, baseline, dark, channels + [c], answers + [a]) ==
            Toggled(at, baseline, Discover(at, baseline, dark, channels, answers), c, a)
  {
    assert (channels + [c])[..|channels|] == channels && (answers + [a])[..|answers|] == answers;
  }

  // ---------------------------------------------------------------- the loop

  class Rack {
    var dark: set<int>
    const at: Placement
    const probes: set<Probe>

    constructor (at: Placement, probes: set<Probe>, dark: set<int>)
      ensures this.at == at && this.probes == probes && this.dark == dark
    {
      this.at, this.probes, this.dark := at, probes, dark;
    }

    // `hub.data(channel, state, confirm=True)`; false stands for an exception.
    method Data(c: int, on: bool, reply: Reply) returns (ok: bool)
      modifies this`dark
      ensures ok == reply.Acked?
      ensures dark == if !reply.Effective() then old(dark) else if on then old(dark) - {c} else old(dark) + {c}
    {
      if reply.Effective() {
        dark := if on then dark - {c} else dark + {c};
      }
      return reply.Acked?;
    }

    method Detect() returns (present: set<Probe>)
      ensures present == Visible(at, dark, probes)
      ensures forall p :: p in present <==> p in probes && (p in at ==> at[p] !in dark)
    {
      present := Visible(at, dark, probes);
    }

    // The body of the loop, on what has been found so far.
    method Toggle(baseline: set<Probe>, f: Found, c: int, a: Answer) returns (f': Found)
      requires f.dark == dark && !f.raised && baseline <= probes
      modifies this`dark
      ensures f' == Toggled(at, baseline, f, c, a) && dark == f'.dark
      ensures c in dark <==> if a.off.Acked? then !a.on.Effective() else c in old(dark) || a.off.Effective()
      ensures forall d :: d != c ==> (d in dark <==> d in old(dark))
    {
      var ok := Data(c, false, a.off);
      if !ok {
        return f.(dark := dark, notes := f.notes + [CouldNotDisconnect(c)]);
      }
      var down := dark;
      var present: set<Probe> := {};
      if a.detects {
        present := Detect();
      }
      var notes: seq<Note> := [];
      ok := Data(c, true, a.on);
      if !ok {
        notes := notes + [CouldNotReconnect(c)];
      }
      if !a.detects {
        assert notes == NotesOf(c, {}, a.on);
        return f.(dark := dark, notes := f.notes + notes, raised := true);
      }
      var vanished := baseline - present;
      assert vanished == baseline - Visible(at, down, baseline);
      var mapped, matched := f.mapped, f.matched;
      if |vanished| == 1 {
        mapped, matched := mapped[c := OnlyOf(vanished)], matched + vanished;
      } else if |vanished| > 1 {
        notes := notes + [SeveralVanished(c, vanished)];
      }
      assert notes == NotesOf(c, vanished, a.on);
      return Found(dark, mapped, f.notes + notes, matched, false);
    }

    method DiscoverByToggle(channels: seq<int>, answers: seq<Answer>) returns (baseline: set<Probe>, found: Found)
      requires |channels| == |answers|
      modifies this`dark
      ensures baseline == Visible(at, old(dark), probes)
      ensures found == Discover(at, baseline, old(dark), channels, answers) && dark == found.dark
    {
      baseline := Detect();
      found := Found(dark, map[], [], {}, false);
      var i := 0;
      while i < |channels| && !found.raised
        invariant 0 <= i <= |channels| && dark == found.dark
        invariant found == Discover(at, baseline, old(dark), channels[..i], answers[..i])
      {
        OneMoreChannel(at, baseline, old(dark), channels[..i], answers[..i], channels[i], answers[i]);
        assert channels[..i] + [channels[i]] == channels[..i + 1] && answers[..i] + [answers[i]] == answers[..i + 1];
        found := Toggle(baseline, found, channels[i], answers[i]);
        i := i + 1;
      }
      assert channels[..|channels|] == channels && answers[..|answers|] == answers;
      if i < |channels| {
        RaisedStays(at, baseline, old(dark), channels, answers, i);
      }
    }
  }

  lemma {:induction false} RaisedStays(at: Placement, baseline: set<Probe>, dark: set<int>, channels: seq<int>,
                                       answers: seq<Answer>, i: nat)
    requires i <= |channels| == |answers| && Discover(at, baseline, dark, channels[..i], answers[..i]).raised
    ensures Discover(at, baseline, dark, channels, answers) == Discover(at, baseline, dark, channels[..i], answers[..i])
    decreases |channels|
  {
    if i == |channels| {
      assert channels[..i] == channels && answers[..i] == answers;
    } else {
      var n := |channels| - 1;
      assert channels[..n][..i] == channels[..i] && answers[..n][..i] == answers[..i];
      RaisedStays(at, baseline, dark, channels[..n], answers[..n], i);
    }
  }
}
