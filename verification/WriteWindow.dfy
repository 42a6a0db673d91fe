/**
GDB's write permissions (gdb_client.py): switched off when a session starts, lifted by nested
write windows, and switched off again whatever happens inside. Any command may fail; a failed
"set" may or may not have taken effect, an acknowledged one has.
*/
module WriteWindow {
  import opened Options

  datatype Reply = Ok | Failed(took: bool)

  datatype Permission = Memory | Registers | Calls

  // What GDB, when there is one, permits; the manager's two counters; and how many replies of
  // the environment have been consumed.
  datatype Session = Session(alive: bool, permits: set<Permission>, depth: nat, regDepth: nat, tick: nat)

  datatype Error = CommandFailed | LockdownError | BodyError(code: int)

  // A step's new session and what it raises.
  datatype Outcome = Outcome(session: Session, raised: Option<Error>)

  const LOCKED := [Memory, Registers, Calls]
  const LIFTABLE := [Memory, Registers]

  function SetPermission(s: Session, p: Permission, on: bool, answers: nat -> Reply): Outcome {
    if !s.alive then Outcome(s, Some(CommandFailed))
    else
      var took := answers(s.tick).Ok? || answers(s.tick).took;
      Outcome(s.(permits := if !took then s.permits else if on then s.permits + {p} else s.permits - {p}, tick := s.tick + 1),
              if answers(s.tick).Ok? then None else Some(CommandFailed))
  }

  // The last clause stands for the value the "show" reports.
  function ShowPermission(s: Session, answers: nat -> Reply): Outcome {
    if !s.alive then Outcome(s, Some(CommandFailed))
    else Outcome(s.(tick := s.tick + 1), if answers(s.tick).Ok? then None else Some(CommandFailed))
  }

  function Stopped(s: Session): Session {
    s.(alive := false)
  }

  // `for name in names: set name off`, up to the first failure.
  function TurnOff(s: Session, names: seq<Permission>, answers: nat -> Reply): Outcome
    decreases names
  {
    if names == [] then Outcome(s, None)
    else
      var first := SetPermission(s, names[0], false, answers);
      if first.raised.Some? then first else TurnOff(first.session, names[1..], answers)
  }

  function ShowAll(s: Session, n: nat, answers: nat -> Reply): Outcome
    decreases n
  {
    if n == 0 then Outcome(s, None)
    else
      var first := ShowPermission(s, answers);
      if first.raised.Some? then first else ShowAll(first.session, n - 1, answers)
  }

  // `assert_target_write_lockdown`
  function Verified(s: Session, answers: nat -> Reply): Outcome {
    if s.depth > 0 then Outcome(s, None)
    else
      var shown := ShowAll(s, |LOCKED|, answers);
      if shown.raised.Some? then shown
      else Outcome(shown.session, if s.permits == {} then None else Some(LockdownError))
  }

  // `start_gdb`: the first reply it consumes says whether the process could be spawned; GDB comes
  // up permitting everything.
  function Started(s: Session, answers: nat -> Reply): Outcome {
    var blank := Session(false, s.permits, 0, 0, s.tick + 1);
    if !answers(s.tick).Ok? then Outcome(blank, Some(CommandFailed))
    else
      var off := TurnOff(blank.(alive := true, permits := {Memory, Registers, Calls}), LOCKED, answers);
      if off.raised.Some? then Outcome(Stopped(off.session), Some(LockdownError)) else Verified(off.session, answers)
  }

  // One check of the lift, before the body runs.
  function Lifted(s: Session, p: Permission, answers: nat -> Reply): Outcome {
    var shown := ShowPermission(s, answers);
    if shown.raised.Some? then shown
    else Outcome(shown.session, if p in s.permits then None else Some(LockdownError))
  }

  // The part of `write_window` before its `yield`.
  function Lift(s: Session, registers: bool, answers: nat -> Reply): Outcome {
    var outermost := s.depth == 0;
    var s0 := s.(depth := s.depth + 1, regDepth := if registers then s.regDepth + 1 else s.regDepth);
    var o1 := if outermost then SetPermission(s0, Memory, true, answers) else Outcome(s0, None);
    if o1.raised.Some? then o1
    else
      var o2 := if registers && s0.regDepth == 1 then SetPermission(o1.session, Registers, true, answers) else o1;
      if o2.raised.Some? || !outermost then o2
      else
        var o3 := Lifted(o2.session, Memory, answers);
        if o3.raised.Some? || !registers then o3 else Lifted(o3.session, Registers, answers)
  }

  function Less(n: nat): nat {
    if n == 0 then 0 else n - 1
  }

  // Its `finally`.
  function Restored(s: Session, registers: bool, answers: nat -> Reply): Session {
    var s0 := s.(depth := Less(s.depth), regDepth := if registers then Less(s.regDepth) else s.regDepth);
    if s0.depth == 0 && s0.alive then
      var off := TurnOff(s0, LIFTABLE, answers);
      if off.raised.Some? then Stopped(off.session) else off.session
    else s0
  }

  // ---------------------------------------------------------------- programs that use windows

  // `Fail` is a body that raises; `Attempt` catches what its body raises.
  datatype Prog =
    | Skip
    | Fail(code: int)
    | Then(first: Prog, second: Prog)
    | Attempt(body: Prog)
    | Window(registers: bool, body: Prog)
    | Start
    | Stop
    | Verify

  function Run(p: Prog, s: Session, answers: nat -> Reply): Outcome {
    match p
    case Skip => Outcome(s, None)
    case Fail(code) => Outcome(s, Some(BodyError(code)))
    case Then(a, b) =>
      var o := Run(a, s, answers);
      if o.raised.Some? then o else Run(b, o.session, answers)
    case Attempt(body) => Outcome(Run(body, s, answers).session, None)
    case Window(registers, body) =>
      var o := Lift(s, registers, answers);
      var o' := if o.raised.Some? then o else Run(body, o.session, answers);
      Outcome(Restored(o'.session, registers, answers), o'.raised)
    case Start => Started(s, answers)
    case Stop => Outcome(Stopped(s), None)
    case Verify => Verified(s, answers)
  }

  // ---------------------------------------------------------------- what holds between steps

  /** No function call is ever permitted; outside every window nothing is; inside one, on a live
      session, memory writes are, and register writes if a window asked for them. */
  predicate Guarded(s: Session) {
    && s.regDepth <= s.depth
    && (s.alive ==>
          && Calls !in s.permits
          && (s.depth == 0 ==> s.permits == {})
          && (s.depth > 0 ==> Memory in s.permits)
          && (s.regDepth > 0 ==> Registers in s.permits))
  }

  lemma {:induction false} OffMeansOff(s: Session, names: seq<Permission>, answers: nat -> Reply)
    ensures var o := TurnOff(s, names, answers);
            && o.session.alive == s.alive && o.session.depth == s.depth && o.session.regDepth == s.regDepth
            && o.session.permits <= s.permits
            && (o.raised.None? ==> forall k :: 0 <= k < |names| ==> names[k] !in o.session.permits)
    decreases names
  {
    if names != [] {
      var first := SetPermission(s, names[0], false, answers);
      if first.raised.None? { OffMeansOff(first.session, names[1..], answers); }
    }
  }

  lemma {:induction false} ShowingChangesNothing(s: Session, n: nat, answers: nat -> Reply)
    ensures var s' := ShowAll(s, n, answers).session; s'.(tick := s.tick) == s
    decreases n
  {
    if n != 0 {
      var first := ShowPermission(s, answers);
      if first.raised.None? { ShowingChangesNothing(first.session, n - 1, answers); }
    }
  }

  lemma VerifyingChangesNothing(s: Session, answers: nat -> Reply)
    ensures Verified(s, answers).session.(tick := s.tick) == s
  {
    ShowingChangesNothing(s, |LOCKED|, answers);
  }

  lemma NothingPermitted(permits: set<Permission>)
    requires Memory !in permits && Registers !in permits && Calls !in permits
    ensures permits == {}
  {
    forall p ensures p !in permits {
      match p { case Memory => case Registers => case Calls => }
    }
  }

  /** Starting a session leaves it locked, or there is none. */
  lemma StartedIsGuarded(s: Session, answers: nat -> Reply)
    ensures var o := Started(s, answers);
            Guarded(o.session) && o.session.depth == 0 && (o.raised.None? ==> o.session.alive)
  {
    var up := Session(true, {Memory, Registers, Calls}, 0, 0, s.tick + 1);
    OffMeansOff(up, LOCKED, answers);
    var off := TurnOff(up, LOCKED, answers);
    VerifyingChangesNothing(off.session, answers);
    assert LOCKED[0] == Memory && LOCKED[1] == Registers && LOCKED[2] == Calls;
    if off.raised.None? { NothingPermitted(off.session.permits); }
  }

  // What the `finally` of a window needs to find.
  predicate Callless(s: Session) {
    s.alive ==> Calls !in s.permits
  }

  lemma LiftKeepsCallsOff(s: Session, registers: bool, answers: nat -> Reply)
    requires Guarded(s)
    ensures var o := Lift(s, registers, answers);
            && Callless(o.session) && o.session.alive == s.alive
            && o.session.depth == s.depth + 1 && o.session.regDepth == s.regDepth + (if registers then 1 else 0)
            && s.permits <= o.session.permits
  {}

  /** A body runs only under a lift that took effect: an outermost window, and a nested one on a live
      session, has memory writes on, and register writes when it asked for them. */
  lemma BodyRunsLifted(s: Session, registers: bool, answers: nat -> Reply)
    requires Guarded(s) && Lift(s, registers, answers).raised.None?
    ensures var s' := Lift(s, registers, answers).session;
            && Guarded(s')
            && (s.depth == 0 ==> s'.alive)
            && (s'.alive ==> Memory in s'.permits && (registers ==> Registers in s'.permits))
  {}

  predicate SameCounters(s: Session, s0: Session) {
    (s.depth == s0.depth && s.regDepth == s0.regDepth) || (s.depth == 0 && s.regDepth == 0)
  }

  // s is what a window of s0 comes to its `finally` with. The counters are as it left them, or a
  // restart inside has zeroed them.
  predicate Leaving(s: Session, s0: Session, registers: bool) {
    && Guarded(s0) && Callless(s)
    && SameCounters(s, s0.(depth := s0.depth + 1, regDepth := s0.regDepth + if registers then 1 else 0))
    && (s.alive && s0.depth > 0 && s.depth != 0 ==>
          Memory in s.permits && (s0.regDepth > 0 ==> Registers in s.permits))
  }

  lemma RestoredIsGuarded(s: Session, s0: Session, registers: bool, answers: nat -> Reply)
    requires Leaving(s, s0, registers)
    ensures var s' := Restored(s, registers, answers); Guarded(s') && SameCounters(s', s0)
  {
    var mid := s.(depth := Less(s.depth), regDepth := if registers then Less(s.regDepth) else s.regDepth);
    var off := TurnOff(mid, LIFTABLE, answers);
    OffMeansOff(mid, LIFTABLE, answers);
    assert LIFTABLE[0] == Memory && LIFTABLE[1] == Registers;
    if mid.depth == 0 && mid.alive && off.raised.None? { NothingPermitted(off.session.permits); }
  }

  /** Whatever a program does, nesting windows, raising in them, restarting or stopping the session
      inside them, and however commands fail: the guard holds afterwards, and every window it opened
      is closed. */
  lemma {:induction false} EveryProgramIsGuarded(p: Prog, s: Session, answers: nat -> Reply)
    requires Guarded(s)
    ensures var s' := Run(p, s, answers).session; Guarded(s') && SameCounters(s', s)
    decreases p
  {
    match p {
      case Then(a, b) =>
        EveryProgramIsGuarded(a, s, answers);
        EveryProgramIsGuarded(b, Run(a, s, answers).session, answers);
      case Attempt(body) => EveryProgramIsGuarded(body, s, answers);
      case Window(registers, body) =>
        LiftKeepsCallsOff(s, registers, answers);
        var o := Lift(s, registers, answers);
        if o.raised.None? {
          BodyRunsLifted(s, registers, answers);
          EveryProgramIsGuarded(body, o.session, answers);
          RestoredIsGuarded(Run(body, o.session, answers).session, s, registers, answers);
        } else {
          RestoredIsGuarded(o.session, s, registers, answers);
        }
      case Start => StartedIsGuarded(s, answers);
      case Verify => VerifyingChangesNothing(s, answers);
      case _ =>
    }
  }

  /** So from the manager's birth on, whenever no window is open the session is dead or permits
      nothing. */
  lemma LockedOutsideWindows(p: Prog, answers: nat -> Reply)
    ensures var s := Run(p, Session(false, {}, 0, 0, 0), answers).session;
            s.depth == 0 && s.regDepth == 0 && (s.alive ==> s.permits == {})
  {
    EveryProgramIsGuarded(p, Session(false, {}, 0, 0, 0), answers);
  }

  /** The lockdown check, made at any point between programs, complains only when a "show" itself
      fails: it never finds a permission left on. */
  lemma VerifyFindsNothing(p: Prog, answers: nat -> Reply)
    ensures var s := Run(p, Session(false, {}, 0, 0, 0), answers).session;
            s.alive ==> Verified(s, answers).raised != Some(LockdownError)
  {
    LockedOutsideWindows(p, answers);
    var s := Run(p, Session(false, {}, 0, 0, 0), answers).session;
    ShowsOnlyFail(s, |LOCKED|, answers);
  }

  lemma {:induction false} ShowsOnlyFail(s: Session, n: nat, answers: nat -> Reply)
    ensures ShowAll(s, n, answers).raised != Some(LockdownError)
    decreases n
  {
    if n != 0 {
      var first := ShowPermission(s, answers);
      if first.raised.None? { ShowsOnlyFail(first.session, n - 1, answers); }
    }
  }

  /** Restoring can fail: then an outermost window ends with no session, never with an open one, and
      what its body raised is still what is raised. */
  lemma FailedRestoreKillsTheSession(s: Session, registers: bool, body: Prog, answers: nat -> Reply)
    requires Guarded(s) && s.depth == 0 && Lift(s, registers, answers).raised.None?
    ensures var o := Run(body, Lift(s, registers, answers).session, answers);
            var mid := o.session.(depth := Less(o.session.depth),
                                  regDepth := if registers then Less(o.session.regDepth) else o.session.regDepth);
            var w := Run(Window(registers, body), s, answers);
            && w.raised == o.raised
            && (w.session.alive <==> o.session.alive && TurnOff(mid, LIFTABLE, answers).raised.None?)
  {
    BodyRunsLifted(s, registers, answers);
    var lifted := Lift(s, registers, answers).session;
    EveryProgramIsGuarded(body, lifted, answers);
    var o := Run(body, lifted, answers);
    var mid := o.session.(depth := Less(o.session.depth),
                          regDepth := if registers then Less(o.session.regDepth) else o.session.regDepth);
    assert mid.depth == 0;
    OffMeansOff(mid, LIFTABLE, answers);
  }

  // ---------------------------------------------------------------- exactly when each step goes through

  // The next n replies are all good.
  ghost predicate AllOk(answers: nat -> Reply, from: nat, n: nat) {
    forall k :: from <= k < from + n ==> answers(k).Ok?
  }

  /** A window opens exactly when every command it sends is answered: an outermost one asks for memory
      writes and checks them, and likewise for registers; an inner one sends nothing unless it is the
      first to ask for registers. What goes wrong is then a command that failed, never a lift that
      was acknowledged and did not take. */
  lemma WindowOpensIff(s: Session, registers: bool, answers: nat -> Reply)
    requires Guarded(s)
    ensures var o := Lift(s, registers, answers);
            && (o.raised.None? <==>
                  if s.depth == 0 then s.alive && AllOk(answers, s.tick, if registers then 4 else 2)
                  else if registers && s.regDepth == 0 then s.alive && answers(s.tick).Ok?
                  else true)
            && (o.raised.Some? ==> o.raised == Some(CommandFailed))
  {
    var t := s.tick;
    assert s.depth == 0 && AllOk(answers, t, 2) <==> s.depth == 0 && answers(t).Ok? && answers(t + 1).Ok?;
    assert s.depth == 0 && AllOk(answers, t, 4) <==>
           s.depth == 0 && answers(t).Ok? && answers(t + 1).Ok? && answers(t + 2).Ok? && answers(t + 3).Ok?;
  }

  /** The check of a lift: it goes through exactly when GDB answers and the permission is on, and raises the
      lockdown error exactly when GDB answers and it is not. */
  lemma LiftCheckIff(s: Session, p: Permission, answers: nat -> Reply)
    ensures var o := Lifted(s, p, answers); var answered := s.alive && answers(s.tick).Ok?;
            && (o.raised.None? <==> answered && p in s.permits)
            && (o.raised == Some(LockdownError) <==> answered && p !in s.permits)
            && o.session.permits == s.permits
  {}

  /** A window whose first command fails raises without running its body, and leaves memory writes on exactly
      when that command took effect all the same; its `finally` is what closes them again. */
  lemma FailedLiftMayHaveTaken(s: Session, registers: bool, answers: nat -> Reply)
    requires Guarded(s) && s.alive && s.depth == 0 && answers(s.tick).Failed?
    ensures var o := Lift(s, registers, answers);
            && o.raised == Some(CommandFailed)
            && o.session.permits == if answers(s.tick).took then {Memory} else {}
  {}

  /** The lockdown check passes inside a window, and outside one exactly when GDB answers all three
      questions and permits nothing; it complains of a permission exactly when one is on and the questions
      were answered. */
  lemma LockdownCheckIff(s: Session, answers: nat -> Reply)
    ensures var o := Verified(s, answers); var answered := s.alive && AllOk(answers, s.tick, 3);
            && (o.raised.None? <==> s.depth > 0 || (answered && s.permits == {}))
            && (o.raised == Some(LockdownError) <==> s.depth == 0 && answered && s.permits != {})
  {
    ShownIff(s, 3, answers);
  }

  lemma {:induction false} ShownIff(s: Session, n: nat, answers: nat -> Reply)
    ensures ShowAll(s, n, answers).raised.None? <==> n == 0 || (s.alive && AllOk(answers, s.tick, n))
    ensures ShowAll(s, n, answers).raised in {None, Some(CommandFailed)}
    decreases n
  {
    if n != 0 {
      var first := ShowPermission(s, answers);
      if first.raised.None? {
        ShownIff(first.session, n - 1, answers);
        assert AllOk(answers, s.tick, n) <==> AllOk(answers, s.tick + 1, n - 1);
      }
    }
  }

  lemma {:induction false} TurnedOffIff(s: Session, names: seq<Permission>, answers: nat -> Reply)
    requires s.alive
    ensures TurnOff(s, names, answers).raised.None? <==> AllOk(answers, s.tick, |names|)
    ensures TurnOff(s, names, answers).raised.None? ==> TurnOff(s, names, answers).session.tick == s.tick + |names|
    decreases names
  {
    if names != [] {
      var first := SetPermission(s, names[0], false, answers);
      if first.raised.None? {
        TurnedOffIff(first.session, names[1..], answers);
        assert AllOk(answers, s.tick, |names|) <==> AllOk(answers, s.tick + 1, |names| - 1);
      }
    }
  }

  /** A session starts exactly when GDB can be spawned, takes the three commands that lock it and answers the
      three questions that check it; a lock that fails leaves no session behind. */
  lemma StartsIff(s: Session, answers: nat -> Reply)
    ensures var o := Started(s, answers);
            && (o.raised.None? <==> AllOk(answers, s.tick, 7))
            && (o.raised == Some(LockdownError) <==> answers(s.tick).Ok? && !AllOk(answers, s.tick, 4))
            && (o.session.alive <==> AllOk(answers, s.tick, 4))
  {
    var t := s.tick;
    assert AllOk(answers, t, 4) <==> answers(t).Ok? && AllOk(answers, t + 1, 3);
    assert AllOk(answers, t, 7) <==> AllOk(answers, t, 4) && AllOk(answers, t + 4, 3);
    if answers(t).Ok? {
      var up := Session(true, {Memory, Registers, Calls}, 0, 0, t + 1);
      TurnedOffIff(up, LOCKED, answers);
      OffMeansOff(up, LOCKED, answers);
      var off := TurnOff(up, LOCKED, answers);
      LockdownCheckIff(off.session, answers);
      VerifyingChangesNothing(off.session, answers);
      StartedIsGuarded(s, answers);
    }
  }

  // ---------------------------------------------------------------- no more than was asked for

  /** Opening a window permits memory writes at most, and register writes only to a window that asks for
      them; an inner window that does not changes nothing. */
  lemma LiftAddsOnlyWhatWasAsked(s: Session, registers: bool, answers: nat -> Reply)
    ensures var s' := Lift(s, registers, answers).session;
            && (Registers in s'.permits ==> Registers in s.permits || registers)
            && (Calls in s'.permits ==> Calls in s.permits)
            && (s.depth > 0 && !registers ==> s'.permits == s.permits)
  {}

  // A point of a program at which it is about to do something. `asked`: whether a window opened since
  // the outermost one has asked for register writes.
  datatype Moment = Moment(session: Session, asked: bool)

  // `asked` after a program.
  function Asking(p: Prog, s: Session, asked: bool, answers: nat -> Reply): bool {
    match p
    case Then(a, b) =>
      var o := Run(a, s, answers);
      if o.raised.Some? then Asking(a, s, asked, answers) else Asking(b, o.session, Asking(a, s, asked, answers), answers)
    case Attempt(body) => Asking(body, s, asked, answers)
    case Window(registers, body) =>
      var o := Lift(s, registers, answers);
      var inside := if o.raised.Some? then asked || registers else Asking(body, o.session, asked || registers, answers);
      inside && Run(p, s, answers).session.depth > 0
    case Start => false
    case _ => asked
  }

  function Moments(p: Prog, s: Session, asked: bool, answers: nat -> Reply): seq<Moment> {
    [Moment(s, asked)] +
    match p
    case Then(a, b) =>
      var o := Run(a, s, answers);
      Moments(a, s, asked, answers) +
      if o.raised.Some? then [] else Moments(b, o.session, Asking(a, s, asked, answers), answers)
    case Attempt(body) => Moments(body, s, asked, answers)
    case Window(registers, body) =>
      var o := Lift(s, registers, answers);
      if o.raised.Some? then [] else Moments(body, o.session, asked || registers, answers)
    case _ => []
  }

  /** Every body a window runs, and whatever comes after a first part, is among the moments. */
  lemma MomentsMissNothing(a: Prog, b: Prog, registers: bool, s: Session, asked: bool, answers: nat -> Reply)
    ensures var o := Lift(s, registers, answers);
            o.raised.None? ==> Moment(o.session, asked || registers) in Moments(Window(registers, a), s, asked, answers)
    ensures var o := Run(a, s, answers);
            o.raised.None? ==> Moment(o.session, Asking(a, s, asked, answers)) in Moments(Then(a, b), s, asked, answers)
    ensures Moment(s, asked) in Moments(Then(a, b), s, asked, answers) && Moment(s, asked) in Moments(Attempt(a), s, asked, answers)
    ensures forall m :: m in Moments(a, s, asked, answers) ==>
              m in Moments(Then(a, b), s, asked, answers) && m in Moments(Attempt(a), s, asked, answers)
  {
    var lift, first := Lift(s, registers, answers), Run(a, s, answers);
    if lift.raised.None? { FirstMoment(a, lift.session, asked || registers, answers); }
    if first.raised.None? { FirstMoment(b, first.session, Asking(a, s, asked, answers), answers); }
    FirstMoment(a, s, asked, answers);
  }

  lemma FirstMoment(p: Prog, s: Session, asked: bool, answers: nat -> Reply)
    ensures Moment(s, asked) in Moments(p, s, asked, answers)
  {
    assert Moments(p, s, asked, answers)[0] == Moment(s, asked);
  }

  // Register writes are permitted only if they were asked for.
  ghost predicate OnlyAsked(s: Session, asked: bool) {
    Guarded(s) && (s.alive && Registers in s.permits ==> asked)
  }

  lemma WindowOnlyAsked(registers: bool, body: Prog, s: Session, asked: bool, answers: nat -> Reply)
    requires OnlyAsked(s, asked)
    requires var o := Lift(s, registers, answers);
             o.raised.None? ==> OnlyAsked(Run(body, o.session, answers).session, Asking(body, o.session, asked || registers, answers))
    ensures var p := Window(registers, body); OnlyAsked(Run(p, s, answers).session, Asking(p, s, asked, answers))
  {
    var o := Lift(s, registers, answers);
    LiftAddsOnlyWhatWasAsked(s, registers, answers);
    EveryProgramIsGuarded(Window(registers, body), s, answers);
    var inner := if o.raised.Some? then o.session else Run(body, o.session, answers).session;
    var mid := inner.(depth := Less(inner.depth), regDepth := if registers then Less(inner.regDepth) else inner.regDepth);
    OffMeansOff(mid, LIFTABLE, answers);
  }

  /** Whatever a program does and however commands fail, register writes are only ever permitted at a point
      some window of the present nest has asked for them. */
  lemma {:induction false} RegistersOnlyWhenAsked(p: Prog, s: Session, asked: bool, answers: nat -> Reply)
    requires OnlyAsked(s, asked)
    ensures forall m :: m in Moments(p, s, asked, answers) ==> OnlyAsked(m.session, m.asked)
    ensures OnlyAsked(Run(p, s, answers).session, Asking(p, s, asked, answers))
    decreases p
  {
    EveryProgramIsGuarded(p, s, answers);
    match p {
      case Then(a, b) =>
        var o := Run(a, s, answers);
        RegistersOnlyWhenAsked(a, s, asked, answers);
        if o.raised.None? { RegistersOnlyWhenAsked(b, o.session, Asking(a, s, asked, answers), answers); }
      case Attempt(body) => RegistersOnlyWhenAsked(body, s, asked, answers);
      case Window(registers, body) =>
        var o := Lift(s, registers, answers);
        if o.raised.None? {
          BodyRunsLifted(s, registers, answers);
          LiftAddsOnlyWhatWasAsked(s, registers, answers);
          RegistersOnlyWhenAsked(body, o.session, asked || registers, answers);
        }
        WindowOnlyAsked(registers, body, s, asked, answers);
      case Start => StartedIsGuarded(s, answers);
      case Verify => VerifyingChangesNothing(s, answers);
      case _ =>
    }
  }

  predicate NeverAsks(p: Prog) {
    match p
    case Then(a, b) => NeverAsks(a) && NeverAsks(b)
    case Attempt(body) => NeverAsks(body)
    case Window(registers, body) => !registers && NeverAsks(body)
    case _ => true
  }

  lemma {:induction false} NeverAsksStaysUnasked(p: Prog, s: Session, answers: nat -> Reply)
    requires NeverAsks(p)
    ensures !Asking(p, s, false, answers) && forall m :: m in Moments(p, s, false, answers) ==> !m.asked
    decreases p
  {
    match p {
      case Then(a, b) =>
        NeverAsksStaysUnasked(a, s, answers);
        NeverAsksStaysUnasked(b, Run(a, s, answers).session, answers);
      case Attempt(body) => NeverAsksStaysUnasked(body, s, answers);
      case Window(_, body) => NeverAsksStaysUnasked(body, Lift(s, false, answers).session, answers);
      case _ =>
    }
  }

  /** So a program none of whose windows asks for registers, begun outside every window, never gets to write
      one. */
  lemma NeverAskedNeverPermitted(p: Prog, s: Session, answers: nat -> Reply)
    requires Guarded(s) && s.depth == 0 && NeverAsks(p)
    ensures forall m :: m in Moments(p, s, false, answers) && m.session.alive ==> Registers !in m.session.permits
  {
    RegistersOnlyWhenAsked(p, s, false, answers);
    NeverAsksStaysUnasked(p, s, answers);
  }

  /** "Of the present nest" cannot be sharpened to "still open": after an inner window that asked, register
      writes stay permitted until the outermost one closes. */
  lemma RegistersOutliveTheirWindow(answers: nat -> Reply)
    requires forall n :: answers(n).Ok?
    ensures var s := Session(true, {}, 0, 0, 0); var inner := Window(true, Skip);
            var lifted := Lift(s, false, answers).session; var after := Run(inner, lifted, answers).session;
            && Run(inner, lifted, answers).raised.None? && after.regDepth == 0 && after.depth == 1
            && Registers in after.permits
            && Run(Window(false, inner), s, answers).session.permits == {}
  {
    var s := Session(true, {}, 0, 0, 0);
    EveryProgramIsGuarded(Window(false, Window(true, Skip)), s, answers);
  }

  // ---------------------------------------------------------------- the manager

  class GdbClientManager {
    var alive: bool
    var permits: set<Permission>
    var depth: nat
    var regDepth: nat
    var tick: nat
    const answers: nat -> Reply

    ghost function State(): Session
      reads this
    {
      Session(alive, permits, depth, regDepth, tick)
    }

    constructor (answers: nat -> Reply)
      ensures State() == Session(false, {}, 0, 0, 0) && this.answers == answers
    {
      alive, permits, depth, regDepth, tick := false, {}, 0, 0, 0;
      this.answers := answers;
    }

    method Set(p: Permission, on: bool) returns (raised: Option<Error>)
      modifies this
      ensures Outcome(State(), raised) == SetPermission(old(State()), p, on, answers)
    {
      if !alive {
        return Some(CommandFailed);
      }
      var reply := answers(tick);
      tick := tick + 1;
      if reply.Ok? || reply.took {
        permits := if on then permits + {p} else permits - {p};
      }
      return if reply.Ok? then None else Some(CommandFailed);
    }

    method Show(p: Permission) returns (raised: Option<Error>, on: bool)
      modifies this
      ensures Outcome(State(), raised) == ShowPermission(old(State()), answers)
      ensures on == (p in old(permits))
    {
      on := p in permits;
      if !alive {
        return Some(CommandFailed), on;
      }
      raised := if answers(tick).Ok? then None else Some(CommandFailed);
      tick := tick + 1;
    }

    method SetAllOff(names: seq<Permission>) returns (raised: Option<Error>)
      modifies this
      ensures Outcome(State(), raised) == TurnOff(old(State()), names, answers)
    {
      raised := None;
      var k := 0;
      assert names[0..] == names;
      while k < |names|
        invariant 0 <= k <= |names|
        invariant raised.None? && TurnOff(old(State()), names, answers) == TurnOff(State(), names[k..], answers)
      {
        assert names[k..][1..] == names[k + 1..];
        raised := Set(names[k], false);
        if raised.Some? {
          return;
        }
        k := k + 1;
      }
    }

    method StopGdb()
      modifies this
      ensures State() == Stopped(old(State()))
    {
      alive := false;
    }

    method AssertLockdown() returns (raised: Option<Error>)
      modifies this
      ensures Outcome(State(), raised) == Verified(old(State()), answers)
    {
      if depth > 0 {
        return None;
      }
      var wrong: set<Permission> := {};
      var k := 0;
      while k < |LOCKED|
        invariant 0 <= k <= |LOCKED|
        invariant State().(tick := old(tick)) == old(State())
        invariant wrong == set p | p in permits && p in LOCKED[..k]
        invariant ShowAll(old(State()), |LOCKED|, answers) == ShowAll(State(), |LOCKED| - k, answers)
      {
        var on;
        raised, on := Show(LOCKED[k]);
        if raised.Some? {
          return;
        }
        if on {
          wrong := wrong + {LOCKED[k]};
        }
        k := k + 1;
      }
      forall p ensures p in LOCKED[..|LOCKED|] {
        assert LOCKED[0] == Memory && LOCKED[1] == Registers && LOCKED[2] == Calls;
        match p { case Memory => case Registers => case Calls => }
      }
      assert wrong == permits;
      return if wrong == {} then None else Some(LockdownError);
    }

    method StartGdb() returns (raised: Option<Error>)
      modifies this
      ensures Outcome(State(), raised) == Started(old(State()), answers)
    {
      if alive {
        StopGdb();
      }
      depth, regDepth := 0, 0;
      var spawned := answers(tick).Ok?;
      tick := tick + 1;
      if !spawned {
        return Some(CommandFailed);
      }
      alive, permits := true, {Memory, Registers, Calls};
      raised := SetAllOff(LOCKED);
      if raised.Some? {
        StopGdb();
        return Some(LockdownError);
      }
      raised := AssertLockdown();
    }

    // `write_window` up to its `yield`.
    method OpenWindow(registers: bool) returns (raised: Option<Error>)
      modifies this
      ensures Outcome(State(), raised) == Lift(old(State()), registers, answers)
      ensures Registers in permits ==> registers || Registers in old(permits)
      ensures Calls in permits ==> Calls in old(permits)
    {
      var outermost := depth == 0;
      depth := depth + 1;
      if registers {
        regDepth := regDepth + 1;
      }
      var on;
      if outermost {
        raised := Set(Memory, true);
        if raised.Some? {
          return;
        }
      }
      if registers && regDepth == 1 {
        raised := Set(Registers, true);
        if raised.Some? {
          return;
        }
      }
      if outermost {
        raised, on := Show(Memory);
        if raised.Some? || !on {
          return if raised.Some? then raised else Some(LockdownError);
        }
        if registers {
          raised, on := Show(Registers);
          if raised.Some? || !on {
            return if raised.Some? then raised else Some(LockdownError);
          }
        }
      }
      raised := None;
    }

    // Its `finally`: a failure to restore tears the session down and raises nothing of its own.
    method CloseWindow(registers: bool)
      modifies this
      ensures State() == Restored(old(State()), registers, answers)
    {
      if registers {
        regDepth := if regDepth == 0 then 0 else regDepth - 1;
      }
      depth := if depth == 0 then 0 else depth - 1;
      if depth == 0 && alive {
        var raised := SetAllOff(LIFTABLE);
        if raised.Some? {
          StopGdb();
        }
      }
    }
  }
}
