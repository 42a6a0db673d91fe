/**
The confirmation policy (hub.py, HubPowerGuard). One guard object serves every client of the
daemon at once; `acting_as` puts the calling client's mode in a thread-local context, nested
calls restore the previous one, and `evaluate` decides under the context of its own thread.
*/
module HubGuard {
  import opened Options

  datatype Mode = Allow | Confirm | DryRun
  const DEFAULT_MODE := Confirm

  datatype Decision = Apply | Blocked | Simulated

  // `live`: some session has a live GDB server on the channel.
  function Evaluate(mode: Mode, confirm: bool, live: bool): (d: Decision)
    ensures d == Apply <==> !mode.DryRun? && (confirm || (mode.Allow? && !live))
    ensures d == Simulated <==> mode.DryRun?
  {
    if mode.DryRun? then Simulated
    else if live && !confirm then Blocked
    else if mode.Confirm? && !confirm then Blocked
    else Apply
  }

  type Thread = nat
  type Client = string

  datatype Context = Context(mode: Option<Mode>, client: Client)

  datatype Entry = Entry(thread: Thread, client: Option<Client>, decision: Decision)

  // A thread's stack of contexts: the saved ones, then the current one. The bottom is the
  // state before any `acting_as`, where there is no context.
  datatype Guard = Guard(mode: Mode, stacks: map<Thread, seq<Context>>, audit: seq<Entry>)

  function StackOf(g: Guard, t: Thread): seq<Context> {
    if t in g.stacks then g.stacks[t] else []
  }

  function CurrentOf(g: Guard, t: Thread): Option<Context> {
    var s := StackOf(g, t);
    if s == [] then None else Some(s[|s| - 1])
  }

  function EffectiveMode(g: Guard, t: Thread): Mode {
    match CurrentOf(g, t)
    case Some(Context(Some(m), _)) => m
    case _ => g.mode
  }

  function ClientOf(g: Guard, t: Thread): Option<Client> {
    match CurrentOf(g, t)
    case Some(c) => Some(c.client)
    case None => None
  }

  datatype Event =
    | ActAs(thread: Thread, acting: Option<Mode>, client: Client)
    | Leave(thread: Thread)
    | Decide(thread: Thread, confirm: bool, live: bool)
    | SetPolicy(policy: Mode)

  function Decided(g: Guard, e: Event): Entry
    requires e.Decide?
  {
    var t := e.thread;
    Entry(t, ClientOf(g, t), Evaluate(EffectiveMode(g, t), e.confirm, e.live))
  }

  function Step(g: Guard, e: Event): Guard {
    match e
    case ActAs(t, m, c) => g.(stacks := g.stacks[t := StackOf(g, t) + [Context(m, c)]])
    case Leave(t) =>
      var s := StackOf(g, t);
      if s == [] then g else g.(stacks := g.stacks[t := s[..|s| - 1]])
    case Decide(t, confirm, live) =>
      g.(audit := g.audit + [Decided(g, e)])
    case SetPolicy(m) => g.(mode := m)
  }

  function Play(g: Guard, es: seq<Event>): Guard {
    if es == [] then g else Step(Play(g, es[..|es| - 1]), es[|es| - 1])
  }

  predicate Concerns(e: Event, t: Thread) {
    e.SetPolicy? || e.thread == t
  }

  // What thread t would see if no other thread existed.
  function Project(es: seq<Event>, t: Thread): seq<Event> {
    if es == [] then []
    else
      var init := Project(es[..|es| - 1], t);
      if Concerns(es[|es| - 1], t) then init + [es[|es| - 1]] else init
  }

  function EntriesOf(audit: seq<Entry>, t: Thread): seq<Entry> {
    if audit == [] then []
    else
      var init := EntriesOf(audit[..|audit| - 1], t);
      if audit[|audit| - 1].thread == t then init + [audit[|audit| - 1]] else init
  }

  lemma EntriesOfAppended(audit: seq<Entry>, entry: Entry, t: Thread)
    ensures EntriesOf(audit + [entry], t) == EntriesOf(audit, t) + if entry.thread == t then [entry] else []
  {
    assert (audit + [entry])[..|audit|] == audit;
  }

  lemma StepKeepsTheView(g: Guard, h: Guard, e: Event, t: Thread)
    requires g.mode == h.mode && StackOf(g, t) == StackOf(h, t)
    requires EntriesOf(g.audit, t) == EntriesOf(h.audit, t)
    ensures var g' := Step(g, e); var h' := if Concerns(e, t) then Step(h, e) else h;
            && g'.mode == h'.mode && StackOf(g', t) == StackOf(h', t)
            && EntriesOf(g'.audit, t) == EntriesOf(h'.audit, t)
  {
    if e.Decide? {
      DecisionKeepsTheView(g, h, e, t);
    } else {
      assert Step(g, e).audit == g.audit && Step(h, e).audit == h.audit;
    }
  }

  lemma DecisionKeepsTheView(g: Guard, h: Guard, e: Event, t: Thread)
    requires e.Decide? && g.mode == h.mode && StackOf(g, t) == StackOf(h, t)
    requires EntriesOf(g.audit, t) == EntriesOf(h.audit, t)
    ensures var g' := Step(g, e); var h' := if Concerns(e, t) then Step(h, e) else h;
            EntriesOf(g'.audit, t) == EntriesOf(h'.audit, t)
  {
    var entry := Decided(g, e);
    EntriesOfAppended(g.audit, entry, t);
    if e.thread == t {
      assert Decided(h, e) == entry;
      EntriesOfAppended(h.audit, entry, t);
    } else {
      assert EntriesOf(g.audit, t) + [] == EntriesOf(g.audit, t);
    }
  }

  /** Non-interference: whatever the other threads do and however they interleave, a thread's
      contexts and every decision audited for it are those of a run in which it is alone. */
  lemma {:induction false} OtherThreadsDoNotInterfere(g: Guard, es: seq<Event>, t: Thread)
    ensures var all := Play(g, es); var alone := Play(g, Project(es, t));
            && all.mode == alone.mode
            && StackOf(all, t) == StackOf(alone, t)
            && EntriesOf(all.audit, t) == EntriesOf(alone.audit, t)
  {
    if es != [] {
      var init, e := es[..|es| - 1], es[|es| - 1];
      OtherThreadsDoNotInterfere(g, init, t);
      StepKeepsTheView(Play(g, init), Play(g, Project(init, t)), e, t);
      if Concerns(e, t) {
        var p := Project(es, t);
        assert p[..|p| - 1] == Project(init, t);
      }
    }
  }

  // How many contexts of t the events open, less those they close.
  function Depth(es: seq<Event>, t: Thread): int {
    if es == [] then 0
    else Depth(es[..|es| - 1], t) + match es[|es| - 1] {
      case ActAs(u, _, _) => if u == t then 1 else 0
      case Leave(u) => if u == t then -1 else 0
      case _ => 0
    }
  }

  ghost predicate NeverBelow(es: seq<Event>, t: Thread) {
    forall k :: 0 <= k <= |es| ==> Depth(es[..k], t) >= 0
  }

  lemma {:induction false} ContextsNest(g: Guard, es: seq<Event>, t: Thread)
    requires NeverBelow(es, t)
    ensures var s := StackOf(g, t); var s' := StackOf(Play(g, es), t);
            |s'| == |s| + Depth(es, t) && s <= s'
  {
    assert es[..|es|] == es;
    if es != [] {
      var init := es[..|es| - 1];
      forall k | 0 <= k <= |init| ensures Depth(init[..k], t) >= 0 {
        assert init[..k] == es[..k];
      }
      ContextsNest(g, init, t);
      assert Depth(es, t) >= 0;
    }
  }

  /** Properly bracketed `acting_as` blocks of a thread leave its context as they found it, with
      any other threads' events in between. */
  lemma BracketsRestoreTheContext(g: Guard, es: seq<Event>, t: Thread)
    requires NeverBelow(es, t) && Depth(es, t) == 0
    ensures StackOf(Play(g, es), t) == StackOf(g, t)
  {
    ContextsNest(g, es, t);
  }

  /** Inside a client's own `acting_as(mode)` the decision is that mode's, whatever the shared
      mode is and whatever modes other threads are acting under. */
  lemma DecidesUnderTheCallersMode(g: Guard, m: Mode, c: Client, others: seq<Event>, t: Thread,
                                   confirm: bool, live: bool)
    requires forall k :: 0 <= k < |others| ==> others[k].SetPolicy? || others[k].thread != t
    ensures var g' := Play(Step(g, ActAs(t, Some(m), c)), others);
            && EffectiveMode(g', t) == m
            && Step(g', Decide(t, confirm, live)).audit == g'.audit + [Entry(t, Some(c), Evaluate(m, confirm, live))]
  {
    var start := Step(g, ActAs(t, Some(m), c));
    OthersKeepTheStack(start, others, t);
  }

  lemma {:induction false} OthersKeepTheStack(g: Guard, others: seq<Event>, t: Thread)
    requires forall k :: 0 <= k < |others| ==> others[k].SetPolicy? || others[k].thread != t
    ensures StackOf(Play(g, others), t) == StackOf(g, t)
  {
    if others != [] {
      OthersKeepTheStack(g, others[..|others| - 1], t);
    }
  }

  class HubPowerGuard {
    var mode: Mode
    var stacks: map<Thread, seq<Context>>
    var auditLog: seq<Entry>

    ghost function State(): Guard
      reads this
    {
      Guard(mode, stacks, auditLog)
    }

    constructor (mode: Mode)
      ensures State() == Guard(mode, map[], [])
    {
      this.mode, stacks, auditLog := mode, map[], [];
    }

    // The two halves of the `acting_as` context manager.
    method EnterAs(t: Thread, m: Option<Mode>, client: Client)
      modifies this`stacks
      ensures State() == Step(old(State()), ActAs(t, m, client))
    {
      var previous := if t in stacks then stacks[t] else [];
      stacks := stacks[t := previous + [Context(m, client)]];
    }

    method LeaveAs(t: Thread)
      modifies this`stacks
      ensures State() == Step(old(State()), Leave(t))
    {
      if t in stacks && stacks[t] != [] {
        stacks := stacks[t := stacks[t][..|stacks[t]| - 1]];
      }
    }

    method SetMode(m: Mode)
      modifies this`mode
      ensures State() == Step(old(State()), SetPolicy(m))
    {
      mode := m;
    }

    method EvaluateAndAudit(t: Thread, confirm: bool, live: bool) returns (d: Decision)
      modifies this`auditLog
      ensures State() == Step(old(State()), Decide(t, confirm, live))
      ensures d == Evaluate(EffectiveMode(old(State()), t), confirm, live)
    {
      var client: Option<Client> := None;
      var effective := mode;
      if t in stacks && stacks[t] != [] {
        var current := stacks[t][|stacks[t]| - 1];
        client := Some(current.client);
        if current.mode.Some? {
          effective := current.mode.value;
        }
      }
      d := Evaluate(effective, confirm, live);
      auditLog := auditLog + [Entry(t, client, d)];
    }
  }
}
