/** When an action goal is reported succeeded or aborted: on every calm run exactly when its own trajectory is
    installed and the joints say so. Four short runs show what goes wrong when the calm is broken. */
module GoalVerdicts {
  import opened Options
  import opened Powers
  import opened GoalProtocol
  import opened ProtocolRuns

  // ----- Calm runs -------------------------------------------------------------------------------------

  /** No topic message while a goal is active, an update between a cancellation and the next acceptance,
      and no update whose time lies behind the clock that the acceptance was judged by. */
  predicate CalmInput(s: State, h: History, input: Input) {
    match input
    case TopicMessage(_, valid, subscriberActive) => valid && subscriberActive ==> s.active.None?
    case GoalAccepted(_, _, _) => !s.clearPending
    case GoalCancelled(_) => true
    case Update(tick) => tick.time >= h.clock
  }

  predicate CalmRun(c: Config, s: State, h: History, inputs: seq<Input>)
    requires PossibleRun(c, s, h, inputs)
    decreases |inputs|
  {
    || inputs == []
    || (&& CalmInput(s, h, inputs[0])
        && var (next, events) := Step(c, s, inputs[0]);
        CalmRun(c, next, RecordAll(c, h, events), inputs[1..]))
  }

  // ----- What holds while a goal is active -----------------------------------------------------------

  predicate Waiting(s: State) {
    s.current != s.newMsg && s.pending != s.newMsg
  }

  /** The latest message is the goal's own, and it is installed, deferred, or the next to be looked at. */
  predicate Pursued(c: Config, s: State, h: History, g: Goal) {
    && !s.isHolding && !s.clearPending && s.tolerances == h.agreed
    && s.newMsg == Some(g.msg) && !IsInternalHold(c, g.msg)
    && (s.current == s.newMsg ==> !s.activeDeferred && s.pending.None?)
    && (s.pending == s.newMsg ==> s.current != s.newMsg && s.activeDeferred && s.pendingStart == g.msg.stamp)
    && (Waiting(s) ==>
          (s.activeDeferred <==> c.allowReplacement && s.current.Some? && g.msg.stamp > h.clock))
  }

  predicate GoalInvariant(c: Config, s: State, h: History) {
    && Invariant(c, s, h)
    && (s.active.Some? ==> s.hasPendingGoal && Pursued(c, s, h, s.active.value))
  }

  lemma {:induction false} ClockStays(c: Config, h: History, events: seq<Event>)
    requires forall i :: 0 <= i < |events| ==> !events[i].Accepted?
    ensures RecordAll(c, h, events).clock == h.clock && RecordAll(c, h, events).agreed == h.agreed
    decreases |events|
  {
    if events != [] {
      ClockStays(c, Record(c, h, events[0]), events[1..]);
    }
  }

  lemma AcceptanceIsCalm(c: Config, s: State, h: History, goal: Goal, now: int, tolerances: Tolerances)
    requires GoalInvariant(c, s, h) && Possible(c, s, h, GoalAccepted(goal, now, tolerances)) && !s.clearPending
    ensures var (next, events) := OnAccepted(c, s, goal, now, tolerances);
      GoalInvariant(c, next, RecordAll(c, h, events))
  {
    var accepted := Accepted(goal, now, tolerances);
    AcceptanceIsGood(c, s, h, goal, now, tolerances);
    var (next, events) := OnAccepted(c, s, goal, now, tolerances);
    if s.active.Some? {
      RecordTwo(c, h, Reported(s.active.value, Aborted), accepted);
    } else {
      assert events == [accepted];
      RecordOne(c, h, accepted);
    }
    assert next.current != next.newMsg && next.pending != next.newMsg;
  }

  /** After the messages have been dealt with, a goal that is no longer deferred has its own trajectory
      installed. */
  lemma ReplacementIsCalm(c: Config, s: State, h: History, time: int)
    requires GoalInvariant(c, s, h) && time >= h.clock
    ensures var (next, events) := Replace(c, s, time);
      && GoalInvariant(c, next, RecordAll(c, h, events))
      && (next.active.Some? ==> !Waiting(next))
  {
    ReplaceIsReplaced(c, s, time);
    ReplacementIsGood(c, s, h, time);
    var (next, events) := Replace(c, s, time);
    ClockStays(c, h, events);
    if s.active.Some? {
      assert ClearPhase(s) == s;
    }
  }

  // ----- The verdict -----------------------------------------------------------------------------------

  predicate AllWithin(errors: seq<JointError>, tolerances: seq<Tolerance>)
    requires |errors| == |tolerances|
  {
    forall j :: 0 <= j < |errors| ==> Within(errors[j], tolerances[j])
  }

  /** The look-ahead is at or past the last point and every joint is within its goal tolerance. */
  predicate Reached(c: Config, s: State, tick: Tick)
    requires s.current.Some? && Fits(c, s, tick)
  {
    !BeforeLast(c, Clock(s, tick), tick) && AllWithin(tick.errors, s.tolerances.goal)
  }

  /** On the way, or at the very first sample, some joint is outside its path tolerance. */
  predicate LeftThePath(c: Config, s: State, tick: Tick)
    requires s.current.Some? && Fits(c, s, tick)
  {
    (BeforeLast(c, Clock(s, tick), tick) || !s.sampled) && !AllWithin(tick.errors, s.tolerances.state)
  }

  /** The end lies further back than the goal time tolerance allows and some joint is still outside. */
  predicate RanLate(c: Config, s: State, tick: Tick)
    requires s.current.Some? && Fits(c, s, tick)
  {
    var clocked := Clock(s, tick);
    && !BeforeLast(c, clocked, tick) && !AllWithin(tick.errors, s.tolerances.goal)
    && s.tolerances.goalTime != 0 && clocked.trajTime - EndOf(c, clocked, tick) > s.tolerances.goalTime
  }

  predicate OnItsTrajectory(s: State, tick: Tick, g: Goal) {
    s.active == Some(g) && s.current == Some(g.msg) && tick.validPoint
  }

  /** Which report the goal gets, read off the state in which its trajectory is sampled. */
  predicate RightVerdict(c: Config, s: State, tick: Tick, g: Goal, events: seq<Event>)
    requires Fits(c, s, tick)
  {
    && (Reported(g, Succeeded) in events <==>
          OnItsTrajectory(s, tick, g) && Reached(c, s, tick) && !LeftThePath(c, s, tick))
    && (Reported(g, Aborted) in events <==>
          OnItsTrajectory(s, tick, g) && (LeftThePath(c, s, tick) || RanLate(c, s, tick)))
    && Reported(g, Canceled) !in events
  }

  lemma ChecksMean(c: Config, s: State, tick: Tick)
    requires s.current.Some? && Fits(c, s, tick) && !s.isHolding
    ensures var q := Clock(s, tick);
      var k := CheckJoints(c, q, tick, !s.sampled);
      && k.violated == LeftThePath(c, s, tick)
      && (!BeforeLast(c, q, tick) ==> k.outsideGoal == !Reached(c, s, tick))
      && (!BeforeLast(c, q, tick) ==> !k.withinTime == RanLate(c, s, tick))
  {
  }

  lemma VerdictIsRight(c: Config, s: State, h: History, tick: Tick, g: Goal)
    requires c.cmdTimeout <= 0 && Fits(c, s, tick)
    requires s.active == Some(g) && Pursued(c, s, h, g) && !Waiting(s)
    ensures RightVerdict(c, s, tick, g, Judge(c, s, tick).1)
  {
    if s.current.Some? {
      ChecksMean(c, s, tick);
    }
  }

  lemma JudgementIsCalm(c: Config, s: State, h: History, tick: Tick)
    requires c.cmdTimeout <= 0 && Fits(c, s, tick)
    requires GoalInvariant(c, s, h) && (s.active.Some? ==> !Waiting(s))
    ensures var (next, events) := Judge(c, s, tick);
      GoalInvariant(c, next, RecordAll(c, h, events))
  {
    JudgementIsGood(c, s, h, tick);
    var (next, events) := Judge(c, s, tick);
    ClockStays(c, h, events);
  }

  lemma UpdateIsCalm(c: Config, s: State, h: History, tick: Tick)
    requires c.cmdTimeout <= 0 && Fits(c, s, tick)
    requires GoalInvariant(c, s, h) && tick.time >= h.clock
    ensures var (next, events) := OnUpdate(c, s, tick);
      GoalInvariant(c, next, RecordAll(c, h, events))
  {
    if tick.scalingReadable {
      ReplacementIsCalm(c, s, h, tick.time);
      var (replaced, e1) := Replace(c, s, tick.time);
      var h1 := RecordAll(c, h, e1);
      JudgementIsCalm(c, replaced, h1, tick);
      RecordConcat(c, h, e1, Judge(c, replaced, tick).1);
    }
  }

  lemma StepIsCalm(c: Config, s: State, h: History, input: Input)
    requires c.cmdTimeout <= 0 && GoalInvariant(c, s, h)
    requires Possible(c, s, h, input) && CalmInput(s, h, input)
    ensures var (next, events) := Step(c, s, input);
      GoalInvariant(c, next, RecordAll(c, h, events))
  {
    StepIsGood(c, s, h, input);
    match input
    case TopicMessage(_, _, _) =>
    case GoalAccepted(goal, now, tolerances) => AcceptanceIsCalm(c, s, h, goal, now, tolerances);
    case GoalCancelled(_) => ClockStays(c, h, Step(c, s, input).1);
    case Update(tick) => UpdateIsCalm(c, s, h, tick);
  }

  lemma {:induction false} RunIsCalm(c: Config, s: State, h: History, inputs: seq<Input>)
    requires c.cmdTimeout <= 0 && GoalInvariant(c, s, h)
    requires PossibleRun(c, s, h, inputs) && CalmRun(c, s, h, inputs)
    ensures GoalInvariant(c, After(c, s, h, inputs).0, After(c, s, h, inputs).1)
    decreases |inputs|
  {
    if inputs != [] {
      StepIsCalm(c, s, h, inputs[0]);
      var (next, events) := Step(c, s, inputs[0]);
      RunIsCalm(c, next, RecordAll(c, h, events), inputs[1..]);
    }
  }

  /** The state and history that a session has reached. */
  function Reach(c: Config, tolerances: Tolerances, inputs: seq<Input>): (State, History)
    requires Session(c, tolerances, inputs)
  {
    After(c, Activated(c, tolerances), NOTHING_YET, inputs)
  }

  predicate CalmSession(c: Config, tolerances: Tolerances, inputs: seq<Input>) {
    && c.cmdTimeout <= 0 && Session(c, tolerances, inputs)
    && CalmRun(c, Activated(c, tolerances), NOTHING_YET, inputs)
  }

  /** On every calm run an active goal is pending and not held back by a hold. */
  lemma ActiveGoalIsPursued(c: Config, tolerances: Tolerances, inputs: seq<Input>)
    requires CalmSession(c, tolerances, inputs)
    ensures var (s, h) := Reach(c, tolerances, inputs); GoalInvariant(c, s, h)
  {
    ActivationIsGood(c, tolerances);
    RunIsCalm(c, Activated(c, tolerances), NOTHING_YET, inputs);
  }

  lemma OnlyTheActiveGoalIsReported(c: Config, s: State, tick: Tick, g: Goal, kind: Kind)
    requires Fits(c, s, tick) && s.active != Some(g)
    ensures Reported(g, kind) !in Judge(c, s, tick).1
  {
  }

  lemma ReplacingReportsNothing(c: Config, s: State, time: int, g: Goal, kind: Kind)
    ensures Reported(g, kind) !in Replace(c, s, time).1
  {
    ReplaceIsReplaced(c, s, time);
  }

  lemma UpdateVerdict(c: Config, s: State, h: History, tick: Tick, g: Goal)
    requires c.cmdTimeout <= 0 && Fits(c, s, tick) && GoalInvariant(c, s, h)
    requires tick.time >= h.clock
    ensures var replaced := Replace(c, s, tick.time).0;
      && replaced.tolerances == s.tolerances
      && RightVerdict(c, replaced, tick, g, Judge(c, replaced, tick).1)
  {
    ReplacementIsCalm(c, s, h, tick.time);
    var (replaced, e1) := Replace(c, s, tick.time);
    if s.active == Some(g) {
      VerdictIsRight(c, replaced, RecordAll(c, h, e1), tick, g);
    } else {
      OnlyTheActiveGoalIsReported(c, replaced, tick, g, Succeeded);
      OnlyTheActiveGoalIsReported(c, replaced, tick, g, Aborted);
      OnlyTheActiveGoalIsReported(c, replaced, tick, g, Canceled);
    }
  }

  /** On every calm run an update reports a goal succeeded exactly when that goal's own trajectory is
      installed, the look-ahead is at or past its last point, every joint is within the goal tolerance, and
      the path tolerance was kept if this was the first sample; it reports it aborted exactly when the path
      was left or the goal time ran out. */
  lemma VerdictsAreRight(c: Config, tolerances: Tolerances, inputs: seq<Input>, tick: Tick, g: Goal)
    requires CalmSession(c, tolerances, inputs)
    requires var (s, h) := Reach(c, tolerances, inputs);
      Fits(c, s, tick) && tick.time >= h.clock && tick.scalingReadable
    ensures var (s, h) := Reach(c, tolerances, inputs);
      var replaced := Replace(c, s, tick.time).0;
      && (replaced.active.Some? ==> replaced.tolerances == h.agreed)
      && RightVerdict(c, replaced, tick, g, OnUpdate(c, s, tick).1)
  {
    var (s, h) := Reach(c, tolerances, inputs);
    ActiveGoalIsPursued(c, tolerances, inputs);
    UpdateVerdict(c, s, h, tick, g);
    ReplacingReportsNothing(c, s, tick.time, g, Succeeded);
    ReplacingReportsNothing(c, s, tick.time, g, Aborted);
    ReplacingReportsNothing(c, s, tick.time, g, Canceled);
  }

  // ----- When success is reported wrongly ----------------------------------------------------------------

  /** The next update reports the goal succeeded although another trajectory is installed or a joint is
      outside the goal tolerance. */
  predicate WronglySucceeds(c: Config, s: State, tick: Tick, g: Goal) {
    && Fits(c, s, tick) && Reported(g, Succeeded) in OnUpdate(c, s, tick).1
    && var replaced := Replace(c, s, tick.time).0;
    !(replaced.current == Some(g.msg) && AllWithin(tick.errors, replaced.tolerances.goal))
  }

  /** The goal is judged although its own trajectory may not be installed. */
  predicate JudgedAtTheEnd(c: Config, s: State, tick: Tick, g: Goal)
    requires Fits(c, s, tick)
  {
    && s.active == Some(g) && !s.activeDeferred && s.current.Some? && tick.validPoint
    && !BeforeLast(c, Clock(s, tick), tick)
  }

  /** Holding, or about to hold because of the command timeout: no tolerance is looked at. */
  predicate ChecksNothing(c: Config, s: State, tick: Tick)
    requires s.current.Some?
  {
    s.isHolding || TimesOut(c, Clock(s, tick), tick)
  }

  /** What is wrong with a success that is reported in this state: while tolerances are checked it can only be
      the trajectory, otherwise also the joints. */
  predicate NotEarned(c: Config, s: State, tick: Tick, g: Goal)
    requires s.current.Some? && Fits(c, s, tick)
  {
    if ChecksNothing(c, s, tick) then s.current != Some(g.msg) || !AllWithin(tick.errors, s.tolerances.goal)
    else s.current != Some(g.msg) && Reached(c, s, tick) && !LeftThePath(c, s, tick)
  }

  lemma SuccessWhileHolding(c: Config, s: State, tick: Tick, g: Goal)
    requires Fits(c, s, tick) && s.current.Some? && ChecksNothing(c, s, tick)
    ensures Reported(g, Succeeded) in Judge(c, s, tick).1 <==> JudgedAtTheEnd(c, s, tick, g)
  {
  }

  lemma SuccessWhileChecking(c: Config, s: State, tick: Tick, g: Goal)
    requires Fits(c, s, tick) && s.current.Some? && !ChecksNothing(c, s, tick)
    ensures Reported(g, Succeeded) in Judge(c, s, tick).1
            <==> JudgedAtTheEnd(c, s, tick, g) && Reached(c, s, tick) && !LeftThePath(c, s, tick)
  {
    ChecksMean(c, s, tick);
  }

  /** With no premise on the run: an update reports a goal succeeded wrongly exactly when the goal is active and
      not marked as deferred, what is installed has come to its end, and either no tolerance is looked at and
      the trajectory or a joint is wrong, or the tolerances hold and the trajectory is not the goal's. */
  lemma WronglySucceedsExactly(c: Config, s: State, tick: Tick, g: Goal)
    requires Fits(c, s, tick) && tick.scalingReadable
    ensures var replaced := Replace(c, s, tick.time).0;
      WronglySucceeds(c, s, tick, g) <==> JudgedAtTheEnd(c, replaced, tick, g) && NotEarned(c, replaced, tick, g)
  {
    var replaced := Replace(c, s, tick.time).0;
    ReplacingReportsNothing(c, s, tick.time, g, Succeeded);
    if replaced.current.Some? {
      if ChecksNothing(c, replaced, tick) {
        SuccessWhileHolding(c, replaced, tick, g);
      } else {
        SuccessWhileChecking(c, replaced, tick, g);
      }
    }
  }

  // ----- Runs that break one premise ---------------------------------------------------------------------

  const HOLD := Msg(0, 0, 0)
  const UNCHECKED := Tolerance(0.0, 0.0, 0.0)
  const LOOSE := Tolerances([UNCHECKED], [UNCHECKED], 0)
  const TIGHT := Tolerances([UNCHECKED], [Tolerance(1.0, 0.0, 0.0)], 1)
  const PRESENT := Goal(1, Msg(10, 0, 100))
  const FUTURE := Goal(2, Msg(11, 1000, 100))

  function Controller(blends: bool, timeout: int): Config {
    Config(blends, false, timeout, 1, 1, HOLD, Msg(1, 0, 0))
  }

  function At(time: int, advance: int, error: real): Tick {
    Tick(time, true, advance, true, 0, [JointError(error, 0.0, 0.0)])
  }

  /** The input is possible in one state and history and leads to the others. */
  predicate Leads(c: Config, s: State, h: History, input: Input, next: State, h': History) {
    && Possible(c, s, h, input) && Step(c, s, input).0 == next
    && RecordAll(c, h, Step(c, s, input).1) == h'
  }

  lemma OneInput(c: Config, s: State, h: History, input: Input, next: State, h': History)
    requires Leads(c, s, h, input, next, h')
    ensures PossibleRun(c, s, h, [input]) && After(c, s, h, [input]) == (next, h')
  {
    assert [input][1..] == [];
  }

  lemma OneMoreInput(c: Config, s: State, h: History, input: Input, next: State, h': History, rest: seq<Input>)
    requires Leads(c, s, h, input, next, h') && PossibleRun(c, next, h', rest)
    ensures PossibleRun(c, s, h, [input] + rest)
    ensures After(c, s, h, [input] + rest) == After(c, next, h', rest)
  {
    assert ([input] + rest)[1..] == rest;
  }

  lemma TwoInputs(c: Config, s: State, h: History, a: Input, s1: State, h1: History, b: Input, s2: State, h2: History)
    requires Leads(c, s, h, a, s1, h1) && Leads(c, s1, h1, b, s2, h2)
    ensures PossibleRun(c, s, h, [a, b]) && After(c, s, h, [a, b]) == (s2, h2)
  {
    OneInput(c, s1, h1, b, s2, h2);
    OneMoreInput(c, s, h, a, s1, h1, [b]);
    assert [a] + [b] == [a, b];
  }

  function Since(g: Goal, now: int, tolerances: Tolerances): History {
    NOTHING_YET.(seen := {g.msg}, accepted := {g}, clock := now, agreed := tolerances)
  }

  /** A goal is accepted while none is active. */
  lemma AcceptanceLeads(c: Config, s: State, g: Goal, now: int, tolerances: Tolerances)
    requires s.active.None? && g.msg != c.hold && g.msg != c.stop && |tolerances.state| == |tolerances.goal| == c.dof
    ensures Leads(c, s, NOTHING_YET, GoalAccepted(g, now, tolerances),
                  Pursue(c, s.(hasPendingGoal := true), g, now, tolerances), Since(g, now, tolerances))
  {
    assert [] + [Accepted(g, now, tolerances)] == [Accepted(g, now, tolerances)];
    RecordOne(c, NOTHING_YET, Accepted(g, now, tolerances));
  }

  /** A topic message takes the place of an active goal's trajectory, and its end counts as the goal's. */
  lemma TopicMessageStealsTheGoal()
    ensures var c := Controller(false, 0);
      var inputs := [GoalAccepted(PRESENT, 0, LOOSE), TopicMessage(Msg(12, 0, 0), true, true)];
      && Session(c, LOOSE, inputs)
      && WronglySucceeds(c, Reach(c, LOOSE, inputs).0, At(5, 0, 0.0), PRESENT)
  {
    var c, s, m := Controller(false, 0), Activated(Controller(false, 0), LOOSE), Msg(12, 0, 0);
    var s1, h1 := Pursue(c, s.(hasPendingGoal := true), PRESENT, 0, LOOSE), Since(PRESENT, 0, LOOSE);
    var s2 := s1.(newMsg := Some(m), isHolding := false);
    AcceptanceLeads(c, s, PRESENT, 0, LOOSE);
    RecordOne(c, h1, Received(m));
    TwoInputs(c, s, NOTHING_YET, GoalAccepted(PRESENT, 0, LOOSE), s1, h1, TopicMessage(m, true, true), s2,
              Record(c, h1, Received(m)));
    StolenGoalSucceeds(c, s2);
  }

  lemma StolenGoalSucceeds(c: Config, s: State)
    requires c == Controller(false, 0) && s.newMsg == Some(Msg(12, 0, 0)) && s.current.None? && s.pending.None?
    requires s.active == Some(PRESENT) && s.hasPendingGoal && !s.activeDeferred && !s.clearPending
    requires !s.isHolding && s.tolerances == LOOSE
    ensures WronglySucceeds(c, s, At(5, 0, 0.0), PRESENT)
  {
    ReplaceIsReplaced(c, s, 5);
    WronglySucceedsExactly(c, s, At(5, 0, 0.0), PRESENT);
  }

  /** With a command timeout the controller starts to hold, and a holding controller checks no tolerance. */
  lemma TimeoutCountsAsSuccess()
    ensures var c := Controller(false, 1);
      var inputs := [GoalAccepted(PRESENT, 0, TIGHT), Update(At(1, 0, 5.0))];
      && Session(c, LOOSE, inputs)
      && WronglySucceeds(c, Reach(c, LOOSE, inputs).0, At(2, 200, 5.0), PRESENT)
  {
    var c, s := Controller(false, 1), Activated(Controller(false, 1), LOOSE);
    var s1, h1 := Pursue(c, s.(hasPendingGoal := true), PRESENT, 0, TIGHT), Since(PRESENT, 0, TIGHT);
    var update := Update(At(1, 0, 5.0));
    var s2 := s1.(current := Some(PRESENT.msg), sampled := true, startTime := 1, trajTime := 1);
    AcceptanceLeads(c, s, PRESENT, 0, TIGHT);
    OutsideOnTheWay(c, s1);
    var h2 := RecordAll(c, h1, Step(c, s1, update).1);
    TwoInputs(c, s, NOTHING_YET, GoalAccepted(PRESENT, 0, TIGHT), s1, h1, update, s2, h2);
    TimedOutGoalSucceeds(c, s2);
  }

  lemma OutsideOnTheWay(c: Config, s: State)
    requires c == Controller(false, 1)
    requires s == Pursue(c, Activated(c, LOOSE).(hasPendingGoal := true), PRESENT, 0, TIGHT)
    ensures OnUpdate(c, s, At(1, 0, 5.0)).0
         == s.(current := Some(PRESENT.msg), sampled := true, startTime := 1, trajTime := 1)
  {
    ReplaceIsReplaced(c, s, 1);
    assert Replace(c, s, 1).0 == s.(current := Some(PRESENT.msg));
  }

  lemma TimedOutGoalSucceeds(c: Config, s: State)
    requires c == Controller(false, 1) && s.active == Some(PRESENT) && s.hasPendingGoal && !s.activeDeferred
    requires s.newMsg == s.current == Some(PRESENT.msg) && s.pending.None? && !s.clearPending
    requires !s.isHolding && s.tolerances == TIGHT && s.sampled && s.startTime == s.trajTime == 1
    ensures WronglySucceeds(c, s, At(2, 200, 5.0), PRESENT)
  {
    var tick := At(2, 200, 5.0);
    ReplaceIsReplaced(c, s, 2);
    assert Replace(c, s, 2).0 == s;
    assert !Within(tick.errors[0], TIGHT.goal[0]);
    WronglySucceedsExactly(c, s, tick, PRESENT);
  }

  /** The controller holds, and has done so since time one. */
  function HeldAt(tolerances: Tolerances, time: int): State {
    State(Some(HOLD), Some(HOLD), None, 0, None, false, false, false, true, tolerances, true, 1, time)
  }

  lemma FirstUpdateLeads(c: Config, tolerances: Tolerances)
    requires c == Controller(true, 0) && |tolerances.state| == |tolerances.goal| == 1
    ensures Leads(c, Activated(c, tolerances), NOTHING_YET, Update(At(1, 0, 0.0)), HeldAt(tolerances, 1), NOTHING_YET)
  {
    var s := Activated(c, tolerances);
    RecordOne(c, NOTHING_YET, Installed(HOLD, 1));
    ReplaceIsReplaced(c, s, 1);
    var (replaced, e1) := Replace(c, s, 1);
    assert Judge(c, replaced, At(1, 0, 0.0)) == (HeldAt(tolerances, 1), []);
    assert e1 + [] == [Installed(HOLD, 1)];
  }

  /** A goal that is deferred without the mark is judged by the hold that is still installed. */
  lemma UnmarkedGoalSucceeds(c: Config, s: State, time: int)
    requires c == Controller(true, 0) && time < 1000
    requires s.newMsg == Some(FUTURE.msg) && s.pending.None? && s.active == Some(FUTURE)
    requires s.current == Some(HOLD) && s.sampled && s.startTime == s.trajTime == 1
    requires !s.isHolding && (s.activeDeferred ==> s.clearPending) && s.tolerances == LOOSE
    ensures WronglySucceeds(c, s, At(time, 0, 0.0), FUTURE)
  {
    ReplaceIsReplaced(c, s, time);
    WronglySucceedsExactly(c, s, At(time, 0, 0.0), FUTURE);
  }

  /** An update whose time lies behind the acceptance clock defers a goal that is not marked as deferred. */
  lemma LateClockCountsAsSuccess()
    ensures var c := Controller(true, 0);
      var inputs := [Update(At(1, 0, 0.0)), GoalAccepted(FUTURE, 1000, LOOSE)];
      && Session(c, LOOSE, inputs)
      && WronglySucceeds(c, Reach(c, LOOSE, inputs).0, At(500, 0, 0.0), FUTURE)
  {
    var c, s, s1 := Controller(true, 0), Activated(Controller(true, 0), LOOSE), HeldAt(LOOSE, 1);
    var s2 := Pursue(c, s1.(hasPendingGoal := true), FUTURE, 1000, LOOSE);
    FirstUpdateLeads(c, LOOSE);
    AcceptanceLeads(c, s1, FUTURE, 1000, LOOSE);
    TwoInputs(c, s, NOTHING_YET, Update(At(1, 0, 0.0)), s1, NOTHING_YET, GoalAccepted(FUTURE, 1000, LOOSE), s2,
              Since(FUTURE, 1000, LOOSE));
    UnmarkedGoalSucceeds(c, s2, 500);
  }

  /** A cancellation that the update has not seen yet wipes the mark of the goal accepted after it. */
  lemma UnseenCancellationCountsAsSuccess()
    ensures var c := Controller(true, 0);
      var inputs := [Update(At(1, 0, 0.0)), GoalAccepted(PRESENT, 1, LOOSE), GoalCancelled(1),
                     GoalAccepted(FUTURE, 2, LOOSE)];
      && Session(c, LOOSE, inputs)
      && WronglySucceeds(c, Reach(c, LOOSE, inputs).0, At(3, 0, 0.0), FUTURE)
  {
    var c, s, s1 := Controller(true, 0), Activated(Controller(true, 0), LOOSE), HeldAt(LOOSE, 1);
    var first, accept := Update(At(1, 0, 0.0)), GoalAccepted(PRESENT, 1, LOOSE);
    var cancel, again := GoalCancelled(1), GoalAccepted(FUTURE, 2, LOOSE);
    var s2, h2 := Pursue(c, s1.(hasPendingGoal := true), PRESENT, 1, LOOSE), Since(PRESENT, 1, LOOSE);
    var s3, h3 := s1.(clearPending := true), Record(c, h2, Reported(PRESENT, Canceled));
    FirstUpdateLeads(c, LOOSE);
    AcceptanceLeads(c, s1, PRESENT, 1, LOOSE);
    RecordOne(c, h2, Reported(PRESENT, Canceled));
    assert Leads(c, s2, h2, cancel, s3, h3);
    var s4, h4 := Pursue(c, s3.(hasPendingGoal := true), FUTURE, 2, LOOSE), Record(c, h3, Accepted(FUTURE, 2, LOOSE));
    assert [] + [Accepted(FUTURE, 2, LOOSE)] == [Accepted(FUTURE, 2, LOOSE)];
    RecordOne(c, h3, Accepted(FUTURE, 2, LOOSE));
    assert Leads(c, s3, h3, again, s4, h4);
    TwoInputs(c, s2, h2, cancel, s3, h3, again, s4, h4);
    OneMoreInput(c, s1, NOTHING_YET, accept, s2, h2, [cancel, again]);
    OneMoreInput(c, s, NOTHING_YET, first, s1, NOTHING_YET, [accept] + [cancel, again]);
    assert [first] + ([accept] + [cancel, again]) == [first, accept, cancel, again];
    UnmarkedGoalSucceeds(c, s4, 3);
  }

  // ----- Holds that come back ---------------------------------------------------------------------------

  /** What is installed and deferred is left alone; at most the controller starts to hold. */
  predicate OnlyHolds(c: Config, s: State, next: State) {
    && next.current == s.current && next.pending == s.pending && next.clearPending == s.clearPending
    && (next.newMsg == s.newMsg || (next.newMsg.Some? && IsInternalHold(c, next.newMsg.value)))
  }

  lemma VerdictOnlyHolds(c: Config, s: State, before: bool, k: Check)
    ensures OnlyHolds(c, s, JudgePhase(c, s, before, k).0)
  {
  }

  lemma JudgementOnlyHolds(c: Config, s: State, tick: Tick)
    requires Fits(c, s, tick)
    ensures OnlyHolds(c, s, Judge(c, s, tick).0)
  {
    if s.current.Some? && tick.validPoint {
      var t := TimeoutPhase(c, Clock(s, tick), tick);
      assert OnlyHolds(c, s, t);
      VerdictOnlyHolds(c, t, BeforeLast(c, t, tick), CheckJoints(c, t, tick, !s.sampled));
    }
  }

  lemma FiringInstalls(c: Config, s: State, h: History, fire: Tick)
    requires Invariant(c, s, h) && Fits(c, s, fire) && fire.scalingReadable
    requires s.pending.Some? && fire.time >= s.pendingStart && !s.clearPending
    requires External(c, s.newMsg) ==> s.newMsg == s.pending
    ensures var (fired, events) := OnUpdate(c, s, fire);
      && Installed(s.pending.value, fire.time) in events
      && fired.current == s.pending && fired.pending.None? && !fired.clearPending
      && (fired.newMsg == s.pending || IsInternalHold(c, fired.newMsg.value))
  {
    ReplaceIsReplaced(c, s, fire.time);
    assert Replace(c, s, fire.time).1 == [Prepared(s.pending.value), Installed(s.pending.value, fire.time)];
    JudgementOnlyHolds(c, Replace(c, s, fire.time).0, fire);
  }

  /** An update at the next tick puts a hold in the place of what is installed. */
  ghost predicate InstallsHold(c: Config, s: State, next: Tick) {
    Fits(c, s, next) && exists m :: IsInternalHold(c, m) && Installed(m, next.time) in OnUpdate(c, s, next).1
  }

  lemma JudgementInstallsNothing(c: Config, s: State, tick: Tick, m: Msg, time: int)
    requires Fits(c, s, tick)
    ensures Installed(m, time) !in Judge(c, s, tick).1
  {
  }

  lemma ReplacementTells(c: Config, s: State, next: Tick, m: Msg)
    requires Fits(c, s, next) && next.scalingReadable
    ensures Installed(m, next.time) in OnUpdate(c, s, next).1 <==> Installed(m, next.time) in Replace(c, s, next.time).1
  {
    JudgementInstallsNothing(c, Replace(c, s, next.time).0, next, m, next.time);
  }

  /** Firing does not refresh the latest message. Once a deferred message has fired, the next update puts a
      hold in its place exactly when the controller is still, or again, holding. */
  lemma HoldComesBackExactly(c: Config, s: State, h: History, fire: Tick, next: Tick)
    requires Invariant(c, s, h) && Fits(c, s, fire) && Fits(c, s, next) && fire.scalingReadable && next.scalingReadable
    requires s.pending.Some? && fire.time >= s.pendingStart && !s.clearPending
    requires External(c, s.newMsg) ==> s.newMsg == s.pending
    ensures var (fired, events) := OnUpdate(c, s, fire);
      && Installed(s.pending.value, fire.time) in events
      && (fired.isHolding <==> InstallsHold(c, fired, next))
  {
    FiringInstalls(c, s, h, fire);
    UpdateIsGood(c, s, h, fire);
    var (fired, events) := OnUpdate(c, s, fire);
    ReplaceIsReplaced(c, fired, next.time);
    if fired.isHolding {
      var m := fired.newMsg.value;
      assert Replace(c, fired, next.time).1 == [Installed(m, next.time)];
      ReplacementTells(c, fired, next, m);
    } else {
      assert Replace(c, fired, next.time).1 == [];
      forall m
        ensures Installed(m, next.time) !in OnUpdate(c, fired, next).1
      {
        ReplacementTells(c, fired, next, m);
      }
    }
  }

  /** A message with a future stamp is deferred, and in the same update the goal time of the installed hold runs
      out. */
  lemma DeferredUnderHold(c: Config, s: State)
    requires c == Controller(true, 0) && s == HeldAt(TIGHT, 1).(newMsg := Some(FUTURE.msg), isHolding := false)
    ensures OnUpdate(c, s, At(3, 9, 5.0)).0 == HeldAt(TIGHT, 10).(pending := Some(FUTURE.msg), pendingStart := 1000)
  {
    var tick := At(3, 9, 5.0);
    ReplaceIsReplaced(c, s, 3);
    var replaced := Replace(c, s, 3).0;
    assert replaced == s.(pending := Some(FUTURE.msg), pendingStart := 1000);
    assert !Within(tick.errors[0], TIGHT.goal[0]);
  }

  function LateInputs(): seq<Input> {
    [Update(At(1, 0, 0.0)), TopicMessage(FUTURE.msg, true, true), Update(At(3, 9, 5.0))]
  }

  lemma LateSession()
    ensures var c := Controller(true, 0);
      && Session(c, TIGHT, LateInputs())
      && Reach(c, TIGHT, LateInputs()).0 == HeldAt(TIGHT, 10).(pending := Some(FUTURE.msg), pendingStart := 1000)
  {
    var c, s, s1 := Controller(true, 0), Activated(Controller(true, 0), TIGHT), HeldAt(TIGHT, 1);
    var first, topic, late := Update(At(1, 0, 0.0)), TopicMessage(FUTURE.msg, true, true), Update(At(3, 9, 5.0));
    var s2, h2 := s1.(newMsg := Some(FUTURE.msg), isHolding := false), Record(c, NOTHING_YET, Received(FUTURE.msg));
    var s3 := HeldAt(TIGHT, 10).(pending := Some(FUTURE.msg), pendingStart := 1000);
    FirstUpdateLeads(c, TIGHT);
    RecordOne(c, NOTHING_YET, Received(FUTURE.msg));
    assert Leads(c, s1, NOTHING_YET, topic, s2, h2);
    DeferredUnderHold(c, s2);
    TwoInputs(c, s1, NOTHING_YET, topic, s2, h2, late, s3, RecordAll(c, h2, Step(c, s2, late).1));
    OneMoreInput(c, s, NOTHING_YET, first, s1, NOTHING_YET, [topic, late]);
    assert [first] + [topic, late] == LateInputs();
  }

  /** A session that gets there: the trajectory of a topic message with a future stamp is installed when its time
      has come and replaced by the hold one update later. */
  lemma TopicTrajectoryRunsForOneUpdate()
    ensures var c := Controller(true, 0);
      && Session(c, TIGHT, LateInputs())
      && var s, fire := Reach(c, TIGHT, LateInputs()).0, At(1000, 0, 0.0);
      && Fits(c, s, fire) && Installed(FUTURE.msg, 1000) in OnUpdate(c, s, fire).1
      && InstallsHold(c, OnUpdate(c, s, fire).0, At(1001, 1, 0.0))
  {
    var c := Controller(true, 0);
    LateSession();
    ActivationIsGood(c, TIGHT);
    RunIsGood(c, Activated(c, TIGHT), NOTHING_YET, LateInputs());
    HeldTrajectoryFires(c, Reach(c, TIGHT, LateInputs()).0, Reach(c, TIGHT, LateInputs()).1);
  }

  lemma HeldTrajectoryFires(c: Config, s: State, h: History)
    requires c == Controller(true, 0) && s == HeldAt(TIGHT, 10).(pending := Some(FUTURE.msg), pendingStart := 1000)
    requires Invariant(c, s, h)
    ensures Installed(FUTURE.msg, 1000) in OnUpdate(c, s, At(1000, 0, 0.0)).1
    ensures InstallsHold(c, OnUpdate(c, s, At(1000, 0, 0.0)).0, At(1001, 1, 0.0))
  {
    HoldComesBackExactly(c, s, h, At(1000, 0, 0.0), At(1001, 1, 0.0));
    HeldStays(c, s);
  }

  lemma HeldStays(c: Config, s: State)
    requires c == Controller(true, 0) && s == HeldAt(TIGHT, 10).(pending := Some(FUTURE.msg), pendingStart := 1000)
    ensures OnUpdate(c, s, At(1000, 0, 0.0)).0.isHolding
  {
    ReplaceIsReplaced(c, s, 1000);
  }
}
