/** When the controller holds and what it holds, read off times, errors and tolerances: a second account of an
    update, which shares no definition with the protocol's own. */
module HoldingRules {
  import opened Options
  import opened GoalProtocol
  import opened GoalVerdicts

  // ----- The clock and the end, from the fields ------------------------------------------------------------

  /** The trajectory time of the sample: the update's own time for the first one, then the old one and the advance. */
  function SampleTime(s: State, tick: Tick): int {
    if !s.sampled then tick.time else tick.advance + s.trajTime
  }

  /** An unstamped message starts with its first sample. */
  function Start(s: State, tick: Tick): int {
    if s.startTime == 0 && !s.sampled then tick.time else s.startTime
  }

  /** Nanoseconds from the last point to the sample; the last point of a hold is not in its message. */
  function Overtime(c: Config, s: State, tick: Tick): int
    requires s.current.Some?
  {
    var m := s.current.value;
    var lastTime := if m == c.hold || (m == c.stop && c.decelerates) then tick.internalLastTime else m.lastTime;
    SampleTime(s, tick) - Start(s, tick) - lastTime
  }

  /** One period ahead of the sample the trajectory is over. */
  predicate Over(c: Config, s: State, tick: Tick)
    requires s.current.Some?
  {
    Overtime(c, s, tick) + c.period >= 0
  }

  // ----- Tolerances, from the numbers ----------------------------------------------------------------------

  /** A bound that is not positive is not looked at. */
  predicate Beyond(x: real, bound: real) {
    bound > 0.0 && !(-bound <= x <= bound)
  }

  predicate Outside(e: JointError, t: Tolerance) {
    Beyond(e.position, t.position) || Beyond(e.velocity, t.velocity) || Beyond(e.acceleration, t.acceleration)
  }

  predicate SomeOutside(errors: seq<JointError>, tolerances: seq<Tolerance>) {
    exists j :: 0 <= j < |errors| && j < |tolerances| && Outside(errors[j], tolerances[j])
  }

  lemma OutsideIsNotWithin(e: JointError, t: Tolerance)
    ensures Outside(e, t) <==> !Within(e, t)
  {
  }

  lemma SomeOutsideExactly(errors: seq<JointError>, tolerances: seq<Tolerance>)
    requires |errors| == |tolerances|
    ensures SomeOutside(errors, tolerances) <==> !AllWithin(errors, tolerances)
  {
    hide Outside, Within;
    forall j | 0 <= j < |errors|
      ensures Outside(errors[j], tolerances[j]) <==> !Within(errors[j], tolerances[j])
    {
      OutsideIsNotWithin(errors[j], tolerances[j]);
    }
  }

  // ----- What an update finds ------------------------------------------------------------------------------

  /** The command timeout has run out and nothing is held yet. */
  predicate GivesUp(c: Config, s: State, tick: Tick)
    requires s.current.Some?
  {
    !s.isHolding && 0 < c.cmdTimeout < Overtime(c, s, tick) && Over(c, s, tick)
  }

  /** Tolerances are looked at. */
  predicate Checks(c: Config, s: State, tick: Tick)
    requires s.current.Some?
  {
    !s.isHolding && !GivesUp(c, s, tick)
  }

  predicate OffPath(c: Config, s: State, tick: Tick)
    requires s.current.Some?
  {
    Checks(c, s, tick) && (!Over(c, s, tick) || !s.sampled) && SomeOutside(tick.errors, s.tolerances.state)
  }

  predicate OffGoal(c: Config, s: State, tick: Tick)
    requires s.current.Some?
  {
    Checks(c, s, tick) && Over(c, s, tick) && SomeOutside(tick.errors, s.tolerances.goal)
  }

  predicate TooLate(c: Config, s: State, tick: Tick)
    requires s.current.Some?
  {
    OffGoal(c, s, tick) && s.tolerances.goalTime != 0 && Overtime(c, s, tick) > s.tolerances.goalTime
  }

  /** The goal succeeds. */
  predicate Succeeds(c: Config, s: State, tick: Tick)
    requires s.current.Some?
  {
    !OffPath(c, s, tick) && Over(c, s, tick) && !OffGoal(c, s, tick)
  }

  predicate Fails(c: Config, s: State, tick: Tick)
    requires s.current.Some?
  {
    OffPath(c, s, tick) || TooLate(c, s, tick)
  }

  /** The active goal is judged; a deferred one is not. */
  predicate Judged(s: State) { s.active.Some? && !s.activeDeferred }

  /** The message to hold after anything but a success. */
  function Stopping(c: Config): Option<Msg> { Some(if c.decelerates then c.stop else c.hold) }

  // ----- The update is what they say -------------------------------------------------------------------------

  lemma SameClock(c: Config, s: State, tick: Tick)
    requires s.current.Some? && Fits(c, s, tick)
    ensures var q := Clock(s, tick);
      && q.trajTime == SampleTime(s, tick) && q.startTime == Start(s, tick) && q.sampled
      && q.trajTime - EndOf(c, q, tick) == Overtime(c, s, tick)
      && (BeforeLast(c, q, tick) <==> !Over(c, s, tick))
      && (TimesOut(c, q, tick) <==> GivesUp(c, s, tick))
  {
  }

  lemma SameChecks(c: Config, s: State, tick: Tick)
    requires s.current.Some? && Fits(c, s, tick)
    ensures var t := TimeoutPhase(c, Clock(s, tick), tick);
      var k := CheckJoints(c, t, tick, !s.sampled);
      && Fits(c, t, tick)
      && k.violated == OffPath(c, s, tick) && k.outsideGoal == OffGoal(c, s, tick)
      && k.withinTime == !TooLate(c, s, tick)
      && BeforeLast(c, t, tick) == !Over(c, s, tick)
  {
    SameClock(c, s, tick);
    SomeOutsideExactly(tick.errors, s.tolerances.state);
    SomeOutsideExactly(tick.errors, s.tolerances.goal);
    hide SomeOutside, Within, Over, Overtime, GivesUp, Clock;
  }

  lemma JudgementFollows(c: Config, s: State, tick: Tick)
    requires Fits(c, s, tick) && s.current.Some? && tick.validPoint
    ensures var (next, events) := Judge(c, s, tick);
      && events == (if !Judged(s) then []
                    else if Fails(c, s, tick) then [Reported(s.active.value, Aborted)]
                    else if Succeeds(c, s, tick) then [Reported(s.active.value, Succeeded)]
                    else [])
      && next.active == (if events == [] then s.active else None)
      && next.hasPendingGoal == (s.hasPendingGoal && events == [])
      && (next.isHolding <==>
            s.isHolding || GivesUp(c, s, tick) || events != []
            || (!Judged(s) && !s.hasPendingGoal && Fails(c, s, tick)))
      && next.newMsg == (if Judged(s) && Succeeds(c, s, tick) then Some(c.hold)
                         else if (next.isHolding && !s.isHolding) || events != [] then Stopping(c)
                         else s.newMsg)
  {
    SameChecks(c, s, tick);
    hide CheckJoints, OffPath, OffGoal, Over, GivesUp, Clock, BeforeLast, TooLate;
    SameTimeout(c, s, tick);
    NoChecksWhileGivingUp(c, s, tick);
  }

  lemma SameTimeout(c: Config, s: State, tick: Tick)
    requires s.current.Some? && Fits(c, s, tick)
    ensures var t, q := TimeoutPhase(c, Clock(s, tick), tick), Clock(s, tick);
      && t.active == s.active && t.activeDeferred == s.activeDeferred && t.hasPendingGoal == s.hasPendingGoal
      && t.isHolding == (s.isHolding || GivesUp(c, s, tick))
      && t.newMsg == (if GivesUp(c, s, tick) then Stopping(c) else s.newMsg)
  {
    SameClock(c, s, tick);
  }

  lemma NoChecksWhileGivingUp(c: Config, s: State, tick: Tick)
    requires s.current.Some?
    ensures s.isHolding || GivesUp(c, s, tick) ==> !OffPath(c, s, tick) && !OffGoal(c, s, tick) && !TooLate(c, s, tick)
    ensures TooLate(c, s, tick) ==> OffGoal(c, s, tick) && Over(c, s, tick)
    ensures GivesUp(c, s, tick) ==> Over(c, s, tick) && !s.isHolding
  {
  }

  /** An update without a goal starts to hold exactly when the command timeout runs out, the path is left or the goal
      time runs out; it then holds the stop ramp, or the hold message if the controller does not decelerate. A goal is
      reported aborted exactly when the path is left or the goal time runs out, and succeeded exactly when the
      trajectory is over with nothing to find fault with; after a success the hold message is the latest message. */
  lemma UpdateHoldsExactly(c: Config, s: State, tick: Tick)
    requires Fits(c, s, tick) && tick.scalingReadable && tick.validPoint
    requires Replace(c, s, tick.time).0.current.Some?
    ensures var r := Replace(c, s, tick.time).0; var (next, events) := OnUpdate(c, s, tick);
      && var good, bad := Judged(r) && Succeeds(c, r, tick) && !Fails(c, r, tick), Fails(c, r, tick);
      && (forall g :: Reported(g, Succeeded) in events <==> good && s.active == Some(g))
      && (forall g :: Reported(g, Aborted) in events <==> Judged(r) && bad && s.active == Some(g))
      && next.active == (if Judged(r) && (good || bad) then None else s.active)
      && (next.isHolding <==>
            s.isHolding || GivesUp(c, r, tick) || good || (bad && (Judged(r) || !s.hasPendingGoal)))
      && next.newMsg == (if good then Some(c.hold)
                         else if GivesUp(c, r, tick) || (bad && (Judged(r) || !s.hasPendingGoal)) then Stopping(c)
                         else s.newMsg)
  {
    var r := Replace(c, s, tick.time).0;
    JudgementFollows(c, r, tick);
    forall g, kind
      ensures Reported(g, kind) !in Replace(c, s, tick.time).1
    {
      ReplacingReportsNothing(c, s, tick.time, g, kind);
    }
    hide Replace, Judge, Succeeds, Fails, GivesUp;
    FailsOrSucceeds(c, r, tick);
  }

  lemma FailsOrSucceeds(c: Config, s: State, tick: Tick)
    requires s.current.Some?
    ensures !(Fails(c, s, tick) && Succeeds(c, s, tick))
    ensures Fails(c, s, tick) ==> !s.isHolding && !GivesUp(c, s, tick)
  {
  }

  /** With no goal, active or pending. */
  lemma WithoutGoalHoldsExactly(c: Config, s: State, tick: Tick)
    requires Fits(c, s, tick) && tick.scalingReadable && tick.validPoint && s.active.None? && !s.hasPendingGoal
    requires Replace(c, s, tick.time).0.current.Some?
    ensures var r, next := Replace(c, s, tick.time).0, OnUpdate(c, s, tick).0;
      && (next.isHolding <==> s.isHolding || GivesUp(c, r, tick) || OffPath(c, r, tick) || TooLate(c, r, tick))
      && next.newMsg == (if next.isHolding && !s.isHolding then Stopping(c) else s.newMsg)
  {
    var r := Replace(c, s, tick.time).0;
    UpdateHoldsExactly(c, s, tick);
    FailsOrSucceeds(c, r, tick);
    NoChecksWhileGivingUp(c, r, tick);
  }

  /** An update that cannot read the scaling, has nothing installed or gets no valid sample judges nothing. */
  lemma NothingJudged(c: Config, s: State, tick: Tick)
    requires Fits(c, s, tick)
    requires !tick.scalingReadable || !tick.validPoint || Replace(c, s, tick.time).0.current.None?
    ensures var (next, events) := OnUpdate(c, s, tick);
      && next.isHolding == s.isHolding && next.newMsg == s.newMsg && next.active == s.active
      && next.hasPendingGoal == s.hasPendingGoal && forall g, kind :: Reported(g, kind) !in events
  {
    forall g, kind
      ensures Reported(g, kind) !in Replace(c, s, tick.time).1
    {
      ReplacingReportsNothing(c, s, tick.time, g, kind);
    }
    hide Replace;
  }

  /** The callbacks: a cancelled goal leaves the message to stop with, a new goal or topic message itself. */
  lemma CallbacksHoldExactly(c: Config, s: State, input: Input)
    requires !input.Update?
    ensures var (next, events) := Step(c, s, input);
      match input
      case TopicMessage(m, valid, active) =>
        && next.isHolding == (s.isHolding && !(valid && active))
        && next.newMsg == (if valid && active then Some(m) else s.newMsg)
      case GoalAccepted(g, now, t) =>
        && !next.isHolding && next.newMsg == Some(g.msg) && next.active == Some(g) && next.hasPendingGoal
        && next.tolerances == t
        && (next.activeDeferred <==> c.allowReplacement && s.current.Some? && now < g.msg.stamp)
        && (s.active.Some? ==> Reported(s.active.value, Aborted) in events)
      case GoalCancelled(id) =>
        if s.active.Some? && s.active.value.id == id then
          && next.isHolding && next.newMsg == Stopping(c) && next.active.None? && !next.hasPendingGoal
          && next.clearPending && events == [Reported(s.active.value, Canceled)]
        else next == s && events == []
      case _ => true
  {
  }
}
