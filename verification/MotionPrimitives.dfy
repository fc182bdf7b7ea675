/** The motion-primitives forward controller: goals become framed runs of primitives in a bounded queue, the
    update hands them to the hardware one by one, and a cancellation stops the robot and empties the queue.
    Receiving and accepting a goal is one step, as is every update. */
module MotionPrimitives {
  import opened Options

  // ----- Primitives, goals and command interfaces -------------------------------------------------------

  datatype Kind =
    | LinearJoint
    | LinearCartesian
    | CircularCartesian
    | StopMotion
    | ResetStop
    | SequenceStart
    | SequenceEnd
    | Unknown(code: nat)

  datatype Pose = Pose(x: real, y: real, z: real, qx: real, qy: real, qz: real, qw: real)

  datatype Argument = Argument(name: string, value: real)

  datatype Primitive = Primitive(
    kind: Kind,
    joints: seq<real>,
    poses: seq<Pose>,
    blendRadius: real,
    arguments: seq<Argument>)

  /** What a command interface holds; an interface that was reset holds nothing. */
  datatype Value = Code(kind: Kind) | Number(value: real)

  const CAPACITY := 1024
  const INTERFACES := 25
  const FIRST_POSE := 7
  const FIRST_VIA := 14
  const BLEND_RADIUS := 21
  const VELOCITY := 22
  const ACCELERATION := 23
  const MOVE_TIME := 24

  const START := Primitive(SequenceStart, [], [], 0.0, [])
  const END := Primitive(SequenceEnd, [], [], 0.0, [])

  /** Several primitives travel between markers, a single one alone. */
  function Frame(primitives: seq<Primitive>): seq<Primitive> {
    if |primitives| > 1 then [START] + primitives + [END] else primitives
  }

  predicate Complete(p: Primitive) {
    match p.kind
    case LinearJoint => p.joints != []
    case LinearCartesian => p.poses != []
    case CircularCartesian => |p.poses| == 2
    case _ => false
  }

  // ----- What a primitive writes -----------------------------------------------------------------------

  function Component(p: Pose, k: nat): real
    requires k < 7
  {
    if k == 0 then p.x else if k == 1 then p.y else if k == 2 then p.z
    else if k == 3 then p.qx else if k == 4 then p.qy else if k == 5 then p.qz else p.qw
  }

  predicate HasVia(p: Primitive) {
    p.kind == CircularCartesian && |p.poses| == 2
  }

  /** The value of the last argument of that name. */
  function Argued(arguments: seq<Argument>, name: string): Option<real> {
    if arguments == [] then None
    else
      var last := arguments[|arguments| - 1];
      if last.name == name then Some(last.value) else Argued(arguments[..|arguments| - 1], name)
  }

  function ArgumentName(i: nat): string {
    if i == VELOCITY then "velocity" else if i == ACCELERATION then "acceleration" else "move_time"
  }

  /** What interface i holds after the primitive was written over the old value. */
  function Slot(p: Primitive, before: Option<Value>, i: nat): Option<Value> {
    if i == 0 then Some(Code(p.kind))
    else if i == BLEND_RADIUS then Some(Number(p.blendRadius))
    else if VELOCITY <= i <= MOVE_TIME && Argued(p.arguments, ArgumentName(i)).Some? then
      Some(Number(Argued(p.arguments, ArgumentName(i)).value))
    else if FIRST_VIA <= i < FIRST_VIA + 7 && HasVia(p) then Some(Number(Component(p.poses[1], i - FIRST_VIA)))
    else if FIRST_POSE <= i < FIRST_POSE + 7 && p.poses != [] then
      Some(Number(Component(p.poses[0], i - FIRST_POSE)))
    else if 1 <= i <= |p.joints| then Some(Number(p.joints[i - 1]))
    else before
  }

  function Written(p: Primitive, interfaces: seq<Option<Value>>): (r: seq<Option<Value>>)
    ensures |r| == |interfaces|
  {
    seq(|interfaces|, i requires 0 <= i < |interfaces| => Slot(p, interfaces[i], i))
  }

  /** All interfaces reset but the motion type. */
  function Helper(kind: Kind): (r: seq<Option<Value>>)
    ensures |r| == INTERFACES
  {
    seq(INTERFACES, i => if i == 0 then Some(Code(kind)) else None)
  }

  // ----- Steps ------------------------------------------------------------------------------------------

  /** The goal handle is the one last accepted, whether or not its goal is still active. */
  datatype State = State(
    queue: seq<Primitive>,
    handle: nat,
    hasActiveGoal: bool,
    cancelRequested: bool,
    stopRequested: bool,
    wasExecuting: bool,
    interfaces: seq<Option<Value>>)

  const IDLE := 0
  const EXECUTING := 1
  const SUCCESS := 2
  const ERROR := 3
  const STOPPING := 4
  const STOPPED := 5
  const NOT_READY := 0
  const READY := 1

  datatype Event =
    | Accepted(goal: nat, primitives: seq<Primitive>)
    | Rejected(goal: nat)
    | CancelConsumed
    | Observed(status: nat)
    | Issued(primitive: Primitive)
    | ResetSent
    | Succeeded(goal: nat)
    | Canceled(goal: nat)

  /** A status or a readiness that cannot be read is missing; the lock on the goal handle may be taken. */
  datatype Input =
    | GoalSent(goal: nat, primitives: seq<Primitive>, running: bool)
    | CancelSent
    | Update(status: Option<nat>, handleFree: bool, ready: Option<nat>)

  predicate HasRoom(s: State, count: nat) {
    && !(count == 1 && count > CAPACITY - |s.queue|)
    && !(count + 2 > CAPACITY - |s.queue|)
  }

  predicate Accepts(s: State, primitives: seq<Primitive>, running: bool) {
    && running && !s.hasActiveGoal && !s.stopRequested
    && primitives != [] && HasRoom(s, |primitives|)
    && forall i :: 0 <= i < |primitives| ==> Complete(primitives[i])
  }

  function OnGoal(s: State, goal: nat, primitives: seq<Primitive>, running: bool): (State, seq<Event>) {
    if Accepts(s, primitives, running) then
      (s.(queue := s.queue + Frame(primitives), handle := goal, hasActiveGoal := true), [Accepted(goal, primitives)])
    else (s, [Rejected(goal)])
  }

  function OnCancel(s: State): State {
    s.(cancelRequested := true)
  }

  function ConsumeCancel(s: State): (State, seq<Event>) {
    if s.cancelRequested then
      (s.(cancelRequested := false, interfaces := Helper(StopMotion), queue := [], stopRequested := true),
       [CancelConsumed])
    else (s, [])
  }

  function AfterSuccess(s: State, handleFree: bool): (State, seq<Event>) {
    if s.hasActiveGoal && s.wasExecuting && handleFree then
      (s.(wasExecuting := false, hasActiveGoal := false), [Succeeded(s.handle)])
    else (s, [])
  }

  function AfterStop(s: State, handleFree: bool): (State, seq<Event>) {
    var canceled := s.hasActiveGoal && handleFree;
    (s.(wasExecuting := false, hasActiveGoal := s.hasActiveGoal && !canceled, stopRequested := false,
        interfaces := if s.stopRequested then Helper(ResetStop) else s.interfaces),
     (if canceled then [Canceled(s.handle)] else []) + (if s.stopRequested then [ResetSent] else []))
  }

  function Observe(s: State, status: nat, handleFree: bool): (State, seq<Event>) {
    if status == EXECUTING then (s.(wasExecuting := true), [])
    else if status == SUCCESS then AfterSuccess(s, handleFree)
    else if status == STOPPED then AfterStop(s, handleFree)
    else if status == STOPPING || status == ERROR then (s.(wasExecuting := false), [])
    else (s, [])
  }

  function Supply(s: State, ready: nat): (State, seq<Event>) {
    if ready == READY && s.queue != [] then
      (s.(queue := s.queue[1..], interfaces := Written(s.queue[0], s.interfaces)), [Issued(s.queue[0])])
    else (s, [])
  }

  /** An unreadable or unknown status ends the update before anything is supplied. */
  function OnUpdate(s: State, status: Option<nat>, handleFree: bool, ready: Option<nat>): (State, seq<Event>) {
    var (s1, e1) := ConsumeCancel(s);
    if status.None? then (s1, e1)
    else
      var (s2, e2) := Observe(s1, status.value, handleFree);
      var observed := e1 + [Observed(status.value)] + e2;
      if status.value > STOPPED || ready.None? then (s2, observed)
      else
        var (s3, e3) := Supply(s2, ready.value);
        (s3, observed + e3)
  }

  function Step(s: State, input: Input): (State, seq<Event>) {
    match input
    case GoalSent(goal, primitives, running) => OnGoal(s, goal, primitives, running)
    case CancelSent => (OnCancel(s), [])
    case Update(status, handleFree, ready) => OnUpdate(s, status, handleFree, ready)
  }

  /** Nothing queued, nothing active, all command interfaces reset. */
  function Activated(): State {
    State([], 0, false, false, false, false, seq(INTERFACES, i => None))
  }
}
