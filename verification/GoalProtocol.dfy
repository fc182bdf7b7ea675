/** How trajectory messages and action goals move through the controller: arrival from the topic or the
    action server, installation, deferral to a future start time, replacement, cancellation, and the
    verdict on the active goal. Each callback and each update is one atomic step. */
module GoalProtocol {
  import opened Powers
  import opened Options

  // ----- What the protocol handles ---------------------------------------------------------------

  /** A shared message: its identity, its start stamp and the time of its last point. The code compares
      messages by identity; the hold and stop messages are single objects used again and
      again. */
  datatype Msg = Msg(id: nat, stamp: int, lastTime: int)

  datatype Goal = Goal(id: nat, msg: Msg)

  datatype Tolerance = Tolerance(position: real, velocity: real, acceleration: real)

  datatype Tolerances = Tolerances(state: seq<Tolerance>, goal: seq<Tolerance>, goalTime: int)

  datatype JointError = JointError(position: real, velocity: real, acceleration: real)

  /** Parameters; the command timeout is off when it is not positive. */
  datatype Config = Config(
    allowReplacement: bool,
    decelerates: bool,
    cmdTimeout: int,
    period: int,
    dof: nat,
    hold: Msg,
    stop: Msg)

  datatype State = State(
    newMsg: Option<Msg>,
    current: Option<Msg>,
    pending: Option<Msg>,
    pendingStart: int,
    active: Option<Goal>,
    hasPendingGoal: bool,
    activeDeferred: bool,
    clearPending: bool,
    isHolding: bool,
    tolerances: Tolerances,
    sampled: bool,
    startTime: int,
    trajTime: int)

  datatype Kind = Succeeded | Aborted | Canceled

  /** What a step is seen to do. */
  datatype Event =
    | Received(msg: Msg)
    | Accepted(goal: Goal, now: int, tolerances: Tolerances)
    | Prepared(msg: Msg)
    | Deferred(msg: Msg)
    | Installed(msg: Msg, time: int)
    | Reported(goal: Goal, kind: Kind)

  /** What one call of update finds: the time, how far the scaled period moves the trajectory time,
      whether the look-ahead sample is valid, the last point's time of the hold or stop message as it
      stands, and the error of every joint. */
  datatype Tick = Tick(
    time: int,
    scalingReadable: bool,
    advance: int,
    validPoint: bool,
    internalLastTime: int,
    errors: seq<JointError>)

  datatype Input =
    | TopicMessage(msg: Msg, valid: bool, subscriberActive: bool)
    | GoalAccepted(goal: Goal, now: int, tolerances: Tolerances)
    | GoalCancelled(goalId: nat)
    | Update(tick: Tick)

  predicate IsInternalHold(c: Config, m: Msg) {
    m == c.hold || (c.decelerates && m == c.stop)
  }

  /** The hold message, or the stop ramp when the controller decelerates. */
  function HoldMessage(c: Config): Msg {
    if c.decelerates then c.stop else c.hold
  }

  // ----- Callbacks -------------------------------------------------------------------------------

  function StartHolding(s: State, m: Msg): State {
    s.(newMsg := Some(m), isHolding := true)
  }

  function OnTopic(s: State, m: Msg, valid: bool, subscriberActive: bool): (State, seq<Event>) {
    if valid && subscriberActive then (s.(newMsg := Some(m), isHolding := false), [Received(m)])
    else (s, [])
  }

  function Preempted(s: State): (State, seq<Event>) {
    if s.active.Some? then (s.(active := None), [Reported(s.active.value, Aborted)]) else (s, [])
  }

  /** The new goal's trajectory waits for the next update; it is marked as deferred when the acceptance
      clock says that the update will defer it. */
  function Pursue(c: Config, s: State, goal: Goal, now: int, tolerances: Tolerances): State {
    s.(newMsg := Some(goal.msg), isHolding := false,
       activeDeferred := c.allowReplacement && s.current.Some? && goal.msg.stamp > now,
       active := Some(goal), tolerances := tolerances)
  }

  function OnAccepted(c: Config, s: State, goal: Goal, now: int, tolerances: Tolerances): (State, seq<Event>) {
    var (p, events) := Preempted(s.(hasPendingGoal := true));
    (Pursue(c, p, goal, now, tolerances), events + [Accepted(goal, now, tolerances)])
  }

  function OnCancelled(c: Config, s: State, goalId: nat): (State, seq<Event>) {
    if s.active.Some? && s.active.value.id == goalId then
      (StartHolding(s.(hasPendingGoal := false, active := None), HoldMessage(c)).(clearPending := true),
       [Reported(s.active.value, Canceled)])
    else (s, [])
  }

  // ----- Update: which message is installed --------------------------------------------------------

  /** Installing a message leaves the orders as they are: the latest message, the goal, its tolerances
      and whether the controller is holding. */
  predicate SameOrders(a: State, b: State) {
    && a.newMsg == b.newMsg && a.active == b.active && a.hasPendingGoal == b.hasPendingGoal
    && a.isHolding == b.isHolding && a.tolerances == b.tolerances
  }

  function ClearPhase(s: State): (r: State)
    ensures SameOrders(s, r)
  {
    if s.clearPending then s.(clearPending := false, pending := None, activeDeferred := false) else s
  }

  /** A message that has not been dealt with, unless a goal is still waiting to become active. */
  predicate Looks(s: State) {
    && s.newMsg.Some? && s.current != s.newMsg && s.newMsg != s.pending
    && !(s.hasPendingGoal && s.active.None?)
  }

  function ChoosePhase(c: Config, s: State, time: int): (r: (State, Option<Msg>, seq<Event>))
    ensures SameOrders(s, r.0)
  {
    if !Looks(s) then (s, None, [])
    else
      var m := s.newMsg.value;
      if IsInternalHold(c, m) then (s, Some(m), [])
      else if c.allowReplacement && s.current.Some? && m.stamp > time then
        (s.(pending := Some(m), pendingStart := m.stamp), None, [Deferred(m)])
      else
        (s.(pending := None, activeDeferred := false), Some(m), [Prepared(m)])
  }

  function FirePhase(s: State, install: Option<Msg>, time: int): (r: (State, Option<Msg>, seq<Event>))
    ensures SameOrders(s, r.0)
  {
    if s.pending.Some? && time >= s.pendingStart then
      (s.(pending := None, activeDeferred := false), s.pending, [Prepared(s.pending.value)])
    else (s, install, [])
  }

  function InstallPhase(s: State, install: Option<Msg>, time: int): (r: (State, seq<Event>))
    ensures SameOrders(s, r.0)
  {
    if install.Some? then
      (s.(current := install, startTime := install.value.stamp, sampled := false), [Installed(install.value, time)])
    else (s, [])
  }

  function Replace(c: Config, s: State, time: int): (r: (State, seq<Event>))
    ensures SameOrders(s, r.0)
  {
    var cleared := ClearPhase(s);
    var (chosen, install, e1) := ChoosePhase(c, cleared, time);
    var (fired, install', e2) := FirePhase(chosen, install, time);
    var (installed, e3) := InstallPhase(fired, install', time);
    (installed, e1 + e2 + e3)
  }

  // ----- Update: the verdict -----------------------------------------------------------------------

  predicate Within(e: JointError, t: Tolerance) {
    && !(t.position > 0.0 && Abs(e.position) > t.position)
    && !(t.velocity > 0.0 && Abs(e.velocity) > t.velocity)
    && !(t.acceleration > 0.0 && Abs(e.acceleration) > t.acceleration)
  }

  /** The trajectory clock: latched at the first sample, moved by the scaled period after that. */
  function Clock(s: State, tick: Tick): State
    requires s.current.Some?
  {
    if s.sampled then s.(trajTime := s.trajTime + tick.advance)
    else s.(trajTime := tick.time, sampled := true, startTime := if s.startTime == 0 then tick.time else s.startTime)
  }

  function EndOf(c: Config, s: State, tick: Tick): int
    requires s.current.Some?
  {
    s.startTime + (if IsInternalHold(c, s.current.value) then tick.internalLastTime else s.current.value.lastTime)
  }

  /** The look-ahead sample still falls before the last point. */
  predicate BeforeLast(c: Config, s: State, tick: Tick)
    requires s.current.Some?
  {
    s.trajTime + c.period < EndOf(c, s, tick)
  }

  /** The flags that the loop over the joints sets. */
  datatype Check = Check(violated: bool, outsideGoal: bool, withinTime: bool)

  predicate Fits(c: Config, s: State, tick: Tick) {
    |tick.errors| == c.dof == |s.tolerances.state| == |s.tolerances.goal|
  }

  function CheckJoints(c: Config, s: State, tick: Tick, firstSample: bool): Check
    requires s.current.Some? && Fits(c, s, tick)
  {
    var before, overtime := BeforeLast(c, s, tick), s.trajTime - EndOf(c, s, tick);
    var outside := !before && !s.isHolding
                   && exists j :: 0 <= j < c.dof && !Within(tick.errors[j], s.tolerances.goal[j]);
    Check((before || firstSample) && !s.isHolding
            && exists j :: 0 <= j < c.dof && !Within(tick.errors[j], s.tolerances.state[j]),
          outside,
          !(outside && s.tolerances.goalTime != 0 && overtime > s.tolerances.goalTime))
  }

  /** The end lies further back than the command timeout allows and nothing is being held yet. */
  predicate TimesOut(c: Config, s: State, tick: Tick)
    requires s.current.Some?
  {
    && !BeforeLast(c, s, tick) && !s.isHolding && c.cmdTimeout > 0
    && s.trajTime - EndOf(c, s, tick) > c.cmdTimeout
  }

  function TimeoutPhase(c: Config, s: State, tick: Tick): State
    requires s.current.Some?
  {
    if TimesOut(c, s, tick) then StartHolding(s, HoldMessage(c)) else s
  }

  function Finish(s: State, kind: Kind, m: Msg): (State, seq<Event>)
    requires s.active.Some?
  {
    (StartHolding(s.(active := None, hasPendingGoal := false), m), [Reported(s.active.value, kind)])
  }

  function JudgePhase(c: Config, s: State, before: bool, k: Check): (State, seq<Event>) {
    if s.active.Some? && !s.activeDeferred then
      if k.violated then Finish(s, Aborted, HoldMessage(c))
      else if !before && !k.outsideGoal then Finish(s, Succeeded, c.hold)
      else if !before && !k.withinTime then Finish(s, Aborted, HoldMessage(c))
      else (s, [])
    else if k.violated && !s.hasPendingGoal then (StartHolding(s, HoldMessage(c)), [])
    else if !before && !k.withinTime && !s.hasPendingGoal then (StartHolding(s, HoldMessage(c)), [])
    else (s, [])
  }

  function Judge(c: Config, s: State, tick: Tick): (State, seq<Event>)
    requires Fits(c, s, tick)
  {
    if s.current.None? then (s, [])
    else
      var clocked := Clock(s, tick);
      if !tick.validPoint then (clocked, [])
      else
        var t := TimeoutPhase(c, clocked, tick);
        JudgePhase(c, t, BeforeLast(c, t, tick), CheckJoints(c, t, tick, !s.sampled))
  }

  function OnUpdate(c: Config, s: State, tick: Tick): (State, seq<Event>)
    requires Fits(c, s, tick)
  {
    if !tick.scalingReadable then (s, [])
    else
      var (replaced, e1) := Replace(c, s, tick.time);
      var (judged, e2) := Judge(c, replaced, tick);
      (judged, e1 + e2)
  }

  // ----- Runs ----------------------------------------------------------------------------------

  /** What has happened so far. A message is superseded once another external message was deferred or
      installed after it had been deferred; clock and agreed are the time and the tolerances of the latest
      goal acceptance. */
  datatype History = History(
    seen: set<Msg>,
    deferred: set<Msg>,
    prepared: set<Msg>,
    installed: set<Msg>,
    superseded: set<Msg>,
    accepted: set<Goal>,
    reported: set<Goal>,
    clock: int,
    agreed: Tolerances)

  function Record(c: Config, h: History, e: Event): History {
    match e
    case Received(m) => h.(seen := h.seen + {m})
    case Accepted(g, now, t) =>
      h.(seen := h.seen + {g.msg}, accepted := h.accepted + {g}, clock := now, agreed := t)
    case Prepared(m) => h.(prepared := h.prepared + {m})
    case Deferred(m) => h.(deferred := h.deferred + {m}, superseded := h.superseded + h.deferred)
    case Installed(m, _) =>
      if IsInternalHold(c, m) then h
      else h.(installed := h.installed + {m}, superseded := h.superseded + (h.deferred - {m}))
    case Reported(g, _) => h.(reported := h.reported + {g})
  }

  function RecordAll(c: Config, h: History, events: seq<Event>): History
    decreases |events|
  {
    if events == [] then h else RecordAll(c, Record(c, h, events[0]), events[1..])
  }

  function Step(c: Config, s: State, input: Input): (State, seq<Event>)
    requires input.Update? ==> Fits(c, s, input.tick)
  {
    match input
    case TopicMessage(m, valid, subscriberActive) => OnTopic(s, m, valid, subscriberActive)
    case GoalAccepted(goal, now, tolerances) => OnAccepted(c, s, goal, now, tolerances)
    case GoalCancelled(goalId) => OnCancelled(c, s, goalId)
    case Update(tick) => OnUpdate(c, s, tick)
  }

  /** After activation: the hold message waits to be installed and no goal is known. */
  function Activated(c: Config, tolerances: Tolerances): State {
    State(Some(c.hold), None, None, 0, None, false, false, false, true, tolerances, false, 0, 0)
  }

  const NOTHING_YET := History({}, {}, {}, {}, {}, {}, {}, 0, Tolerances([], [], 0))

  predicate IsFresh(c: Config, h: History, m: Msg) {
    m != c.hold && m != c.stop && m !in h.seen
  }

  /** What the surroundings guarantee in every run: a message or goal that arrives is a new object, and
      there is one error and one tolerance per joint. */
  predicate Possible(c: Config, s: State, h: History, input: Input) {
    match input
    case TopicMessage(m, _, _) => IsFresh(c, h, m)
    case GoalAccepted(goal, _, tolerances) =>
      && IsFresh(c, h, goal.msg) && (forall g :: g in h.accepted ==> g.id != goal.id)
      && |tolerances.state| == |tolerances.goal| == c.dof
    case GoalCancelled(_) => true
    case Update(tick) => Fits(c, s, tick)
  }

  predicate PossibleRun(c: Config, s: State, h: History, inputs: seq<Input>)
    decreases |inputs|
  {
    || inputs == []
    || (&& Possible(c, s, h, inputs[0])
        && var (next, events) := Step(c, s, inputs[0]);
        PossibleRun(c, next, RecordAll(c, h, events), inputs[1..]))
  }

  /** Everything that is seen to happen in a run. */
  function Log(c: Config, s: State, h: History, inputs: seq<Input>): seq<Event>
    requires PossibleRun(c, s, h, inputs)
    decreases |inputs|
  {
    if inputs == [] then []
    else
      var (next, events) := Step(c, s, inputs[0]);
      events + Log(c, next, RecordAll(c, h, events), inputs[1..])
  }

  function After(c: Config, s: State, h: History, inputs: seq<Input>): (State, History)
    requires PossibleRun(c, s, h, inputs)
    decreases |inputs|
  {
    if inputs == [] then (s, h)
    else
      var (next, events) := Step(c, s, inputs[0]);
      After(c, next, RecordAll(c, h, events), inputs[1..])
  }
}
