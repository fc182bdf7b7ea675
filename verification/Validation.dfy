/** Which trajectory messages the controller accepts, and that acceptance gives sampling what it needs. */
module Validation {
  import opened Options
  import opened Powers
  import opened TrajectoryPoints
  import opened TrajectorySampling
  import opened MessageOrder
  import opened LazyDeduction
  import opened HistoryFree
  import opened Waypoints

  /** The parameters validation looks at. */
  datatype Config = Config(
    joints: seq<string>,
    allowPartialGoal: bool,
    allowNonzeroEndVelocity: bool,
    allowIntegration: bool,
    hasEffortInterface: bool)

  datatype Message = Message(stamp: int, jointNames: seq<string>, points: seq<TrajectoryPoint>)

  /** Throws: reporting a nonzero end velocity looks up a joint name that the message does not have. */
  datatype Verdict = Accepts | Rejects | Throws

  predicate FieldFits(field: seq<real>, names: nat, allowEmpty: bool) {
    (allowEmpty && field == []) || |field| == names
  }

  /** The data a single point must bring. */
  predicate PointFits(c: Config, p: TrajectoryPoint, names: nat) {
    && (if c.allowIntegration then
          && SomeField(p)
          && FieldFits(p.positions, names, true)
          && FieldFits(p.velocities, names, true)
          && FieldFits(p.accelerations, names, true)
        else
          && FieldFits(p.positions, names, false)
          && FieldFits(p.velocities, names, true)
          && FieldFits(p.accelerations, names, true))
    && (c.hasEffortInterface || p.effort == [])
  }

  /** Index of the first velocity that is not zero; |velocities| if there is none. */
  function FirstMoving(velocities: seq<real>): (i: nat)
    ensures i <= |velocities|
    ensures i < |velocities| ==> Abs(velocities[i]) > FLOAT_EPSILON
    ensures forall k :: 0 <= k < i ==> Abs(velocities[k]) <= FLOAT_EPSILON
  {
    if velocities == [] || Abs(velocities[0]) > FLOAT_EPSILON then 0 else 1 + FirstMoving(velocities[1..])
  }

  predicate NamesFit(c: Config, names: seq<string>) {
    (c.allowPartialGoal || |names| == |c.joints|) && names != [] && Subset(names, c.joints)
  }

  predicate EndsInThePast(msg: Message, now: int)
    requires msg.points != []
  {
    msg.stamp != 0 && msg.stamp + msg.points[|msg.points| - 1].timeFromStart < now
  }

  predicate PointsFit(c: Config, msg: Message) {
    forall i :: 0 <= i < |msg.points| ==>
      && (i > 0 ==> msg.points[i - 1].timeFromStart < msg.points[i].timeFromStart)
      && PointFits(c, msg.points[i], |msg.jointNames|)
  }

  function Verify(c: Config, msg: Message, now: int): Verdict {
    if !NamesFit(c, msg.jointNames) || msg.points == [] then Rejects
    else
      var velocities := msg.points[|msg.points| - 1].velocities;
      var moving := FirstMoving(velocities);
      if !c.allowNonzeroEndVelocity && moving < |velocities| then
        if moving < |msg.jointNames| then Rejects else Throws
      else if EndsInThePast(msg, now) || !PointsFit(c, msg) then Rejects
      else Accepts
  }

  // ----- The check itself ------------------------------------------------------------------------

  /** `validate_trajectory_point_field`. */
  method ValidateField(names: nat, field: seq<real>, allowEmpty: bool) returns (ok: bool)
    ensures ok == FieldFits(field, names, allowEmpty)
  {
    if allowEmpty && field == [] {
      return true;
    }
    ok := names == |field|;
  }

  method ValidatePoint(c: Config, p: TrajectoryPoint, names: nat) returns (ok: bool)
    ensures ok == PointFits(c, p, names)
  {
    if c.allowIntegration {
      if p.positions == [] && p.velocities == [] && p.accelerations == [] {
        return false;
      }
      var positionOk := ValidateField(names, p.positions, false);
      var velocityOk := ValidateField(names, p.velocities, false);
      var accelerationOk := ValidateField(names, p.accelerations, false);
      if (p.positions != [] && !positionOk) || (p.velocities != [] && !velocityOk)
         || (p.accelerations != [] && !accelerationOk)
      {
        return false;
      }
    } else {
      var positionOk := ValidateField(names, p.positions, false);
      var velocityOk := ValidateField(names, p.velocities, true);
      var accelerationOk := ValidateField(names, p.accelerations, true);
      if !positionOk || !velocityOk || !accelerationOk {
        return false;
      }
    }
    ok := c.hasEffortInterface || p.effort == [];
  }

  method ValidateNames(c: Config, names: seq<string>) returns (ok: bool)
    ensures ok == Subset(names, c.joints)
  {
    for i := 0 to |names|
      invariant Subset(names[..i], c.joints)
    {
      var j := FindIndex(c.joints, names[i]);
      if j == |c.joints| {
        assert c.joints[..j] == c.joints;
        return false;
      }
    }
    ok := true;
  }

  method FindMoving(velocities: seq<real>) returns (i: nat)
    ensures i == FirstMoving(velocities)
  {
    i := 0;
    while i < |velocities| && Abs(velocities[i]) <= FLOAT_EPSILON
      invariant i <= |velocities|
      invariant FirstMoving(velocities) == i + FirstMoving(velocities[i..])
    {
      i := i + 1;
    }
  }

  /** `validate_trajectory_msg`. */
  method ValidateTrajectoryMsg(c: Config, msg: Message, now: int) returns (verdict: Verdict)
    ensures verdict == Verify(c, msg, now)
  {
    if !c.allowPartialGoal && |msg.jointNames| != |c.joints| {
      return Rejects;
    }
    if msg.jointNames == [] || msg.points == [] {
      return Rejects;
    }
    var namesOk := ValidateNames(c, msg.jointNames);
    if !namesOk {
      return Rejects;
    }
    if !c.allowNonzeroEndVelocity {
      var velocities := msg.points[|msg.points| - 1].velocities;
      var moving := FindMoving(velocities);
      if moving < |velocities| {
        return if moving < |msg.jointNames| then Rejects else Throws;
      }
    }
    if msg.stamp != 0 && msg.stamp + msg.points[|msg.points| - 1].timeFromStart < now {
      return Rejects;
    }
    for i := 0 to |msg.points|
      invariant forall k :: 0 <= k < i ==>
                  && (k > 0 ==> msg.points[k - 1].timeFromStart < msg.points[k].timeFromStart)
                  && PointFits(c, msg.points[k], |msg.jointNames|)
    {
      if i > 0 && msg.points[i].timeFromStart <= msg.points[i - 1].timeFromStart {
        return Rejects;
      }
      var ok := ValidatePoint(c, msg.points[i], |msg.jointNames|);
      if !ok {
        return Rejects;
      }
    }
    verdict := Accepts;
  }

  // ----- What is accepted, in numbers ------------------------------------------------------------------

  /** A field that is there has one entry per name. */
  predicate OnePerName(field: seq<real>, names: nat) {
    field != [] ==> |field| == names
  }

  /** Some field is there where integration is allowed, and the positions where it is not; effort needs an interface. */
  predicate BringsEnough(c: Config, p: TrajectoryPoint, names: nat) {
    && OnePerName(p.positions, names) && OnePerName(p.velocities, names) && OnePerName(p.accelerations, names)
    && (p.positions == [] ==> c.allowIntegration && (p.velocities != [] || p.accelerations != []))
    && (p.effort != [] ==> c.hasEffortInterface)
  }

  predicate AllAtRest(velocities: seq<real>) {
    forall i :: 0 <= i < |velocities| ==> -1.0 / 8388608.0 <= velocities[i] <= 1.0 / 8388608.0
  }

  /** A message is accepted exactly when it names joints of the controller, all of them unless partial goals are
      allowed; has points at strictly increasing times, all usable; ends at rest, up to the single-precision epsilon,
      unless it need not; and, if it is stamped, does not end before now. */
  lemma AcceptsExactly(c: Config, msg: Message, now: int)
    ensures Verify(c, msg, now) == Accepts
            <==> && msg.jointNames != [] && (forall name :: name in msg.jointNames ==> name in c.joints)
                 && (|msg.jointNames| == |c.joints| || c.allowPartialGoal)
                 && msg.points != [] && StrictlyIncreasing(msg.points)
                 && (forall p :: p in msg.points ==> BringsEnough(c, p, |msg.jointNames|))
                 && (c.allowNonzeroEndVelocity || AllAtRest(msg.points[|msg.points| - 1].velocities))
                 && (msg.stamp == 0 || now <= msg.stamp + msg.points[|msg.points| - 1].timeFromStart)
  {
    NamesExactly(c, msg.jointNames);
    if msg.points != [] {
      RestExactly(msg.points[|msg.points| - 1].velocities);
      PointsExactly(c, msg);
    }
    hide NamesFit, PointsFit, FirstMoving, StrictlyIncreasing, BringsEnough, AllAtRest;
  }

  lemma NamesExactly(c: Config, names: seq<string>)
    ensures NamesFit(c, names)
            <==> names != [] && (forall name :: name in names ==> name in c.joints)
                 && (|names| == |c.joints| || c.allowPartialGoal)
  {
    assert forall i :: 0 <= i < |names| ==> names[i] in names;
  }

  lemma RestExactly(velocities: seq<real>)
    ensures FirstMoving(velocities) == |velocities|
            <==> AllAtRest(velocities)
  {
    var i := FirstMoving(velocities);
    if i < |velocities| {
      assert !(-1.0 / 8388608.0 <= velocities[i] <= 1.0 / 8388608.0);
    }
  }

  lemma PointExactly(c: Config, p: TrajectoryPoint, names: nat)
    requires names > 0
    ensures PointFits(c, p, names) <==> BringsEnough(c, p, names)
  {
  }

  lemma PointsExactly(c: Config, msg: Message)
    ensures msg.jointNames != [] ==>
              (PointsFit(c, msg)
               <==> && StrictlyIncreasing(msg.points)
                    && forall p :: p in msg.points ==> BringsEnough(c, p, |msg.jointNames|))
  {
    hide BringsEnough, PointFits;
    if msg.jointNames != [] {
      forall i | 0 <= i < |msg.points|
        ensures PointFits(c, msg.points[i], |msg.jointNames|) <==> BringsEnough(c, msg.points[i], |msg.jointNames|)
      {
        PointExactly(c, msg.points[i], |msg.jointNames|);
      }
      if PointsFit(c, msg) {
        forall i, j | 0 <= i < j < |msg.points|
          ensures msg.points[i].timeFromStart < msg.points[j].timeFromStart
        {
          NeighboursIncrease(msg.points, i, j);
        }
      }
      assert forall i :: 0 <= i < |msg.points| ==> msg.points[i] in msg.points;
    }
  }

  // ----- When validation throws ------------------------------------------------------------------

  predicate AtRest(velocities: seq<real>, from: nat, to: nat)
    requires from <= to <= |velocities|
  {
    forall k :: from <= k < to ==> Abs(velocities[k]) <= FLOAT_EPSILON
  }

  /** Validation throws, instead of rejecting, exactly when the last point has more velocities than there are names,
      the named joints end at rest and some velocity beyond them does not. */
  lemma ThrowsExactly(c: Config, msg: Message, now: int)
    ensures Verify(c, msg, now) == Throws
            <==> && NamesFit(c, msg.jointNames) && msg.points != [] && !c.allowNonzeroEndVelocity
                 && var velocities, names := msg.points[|msg.points| - 1].velocities, |msg.jointNames|;
                 names < |velocities| && AtRest(velocities, 0, names) && !AtRest(velocities, names, |velocities|)
  {
    if msg.points != [] {
      var velocities := msg.points[|msg.points| - 1].velocities;
      var moving := FirstMoving(velocities);
      assert AtRest(velocities, 0, moving);
    }
  }

  /** One joint with a second velocity. */
  lemma TooManyVelocitiesThrow()
    ensures var p := TrajectoryPoint([0.0], [0.0, 1.0], [], [], 1000000000);
      Verify(Config(["a"], false, false, false, false), Message(0, ["a"], [p]), 0) == Throws
  {
    var p, c := TrajectoryPoint([0.0], [0.0, 1.0], [], [], 1000000000), Config(["a"], false, false, false, false);
    assert c.joints[0] == "a";
    assert !AtRest(p.velocities, 1, 2) by {
      assert p.velocities[1] == 1.0;
    }
    ThrowsExactly(c, Message(0, ["a"], [p]), 0);
  }

  // ----- What acceptance gives -------------------------------------------------------------------

  lemma {:induction false} NeighboursIncrease(points: seq<TrajectoryPoint>, i: nat, j: nat)
    requires i < j < |points|
    requires forall k :: 0 < k < |points| ==> points[k - 1].timeFromStart < points[k].timeFromStart
    ensures points[i].timeFromStart < points[j].timeFromStart
    decreases j
  {
    assert points[j - 1].timeFromStart < points[j].timeFromStart;
    if i < j - 1 {
      NeighboursIncrease(points, i, j - 1);
    }
  }

  lemma AcceptedIncreases(c: Config, msg: Message, now: int)
    requires Verify(c, msg, now) == Accepts
    ensures StrictlyIncreasing(msg.points)
  {
    forall i, j | 0 <= i < j < |msg.points|
      ensures msg.points[i].timeFromStart < msg.points[j].timeFromStart
    {
      NeighboursIncrease(msg.points, i, j);
    }
  }

  /** Validation looks at the length of every field but the effort. */
  predicate EffortFits(msg: Message) {
    forall k :: 0 <= k < |msg.points| ==> FieldFits(msg.points[k].effort, |msg.jointNames|, true)
  }

  predicate AllReadable(c: Config, hold: seq<Option<real>>) {
    |hold| == |c.joints| && forall j :: 0 <= j < |hold| ==> hold[j].Some?
  }

  lemma AcceptedPoint(c: Config, msg: Message, now: int, k: nat)
    requires Verify(c, msg, now) == Accepts && k < |msg.points|
    ensures Sized(msg.points[k], |msg.jointNames|) <==> FieldFits(msg.points[k].effort, |msg.jointNames|, true)
    ensures !c.hasEffortInterface ==> msg.points[k].effort == []
    ensures if c.allowIntegration then SomeField(msg.points[k]) else msg.points[k].positions != []
  {
    assert PointFits(c, msg.points[k], |msg.jointNames|);
  }

  /** An accepted message is complete, as soon as the hardware state can be read, exactly when its effort entries
      are as many as its names; without an effort interface there are none. */
  lemma AcceptedIsComplete(c: Config, msg: Message, now: int, hold: seq<Option<real>>)
    requires Verify(c, msg, now) == Accepts && AllReadable(c, hold)
    ensures Complete(msg.points, msg.jointNames, c.joints, hold) <==> EffortFits(msg)
    ensures !c.hasEffortInterface ==> EffortFits(msg)
  {
    forall k | 0 <= k < |msg.points|
      ensures Sized(msg.points[k], |msg.jointNames|) <==> FieldFits(msg.points[k].effort, |msg.jointNames|, true)
      ensures !c.hasEffortInterface ==> msg.points[k].effort == []
    {
      AcceptedPoint(c, msg, now, k);
    }
  }

  lemma MeantSized(r: TrajectoryPoint, p: TrajectoryPoint, hold: seq<Option<real>>, names: seq<string>,
                   joints: seq<string>)
    requires PointMeant(r, p, hold, names, joints) && joints != []
    ensures Sized(r, |joints|) && r.timeFromStart == p.timeFromStart
    ensures p.positions != [] ==> r.positions != []
    ensures SomeField(p) ==> SomeField(r)
  {
  }

  /** The message's points as they are installed: completed and reordered. */
  function Installed(c: Config, msg: Message, hold: seq<Option<real>>, buffer: seq<real>): seq<TrajectoryPoint>
    requires |hold| == |c.joints| && InRange(Mapping(FilledNames(msg.jointNames, c.joints), c.joints))
  {
    var filled := FilledPoints(msg.points, msg.jointNames, c.joints, hold);
    RemapPoints(buffer, filled, Mapping(FilledNames(msg.jointNames, c.joints), c.joints), |filled|).0
  }

  /** The effort of an installed point has one entry per joint exactly when it fitted the names. */
  lemma InstalledEffort(c: Config, msg: Message, hold: seq<Option<real>>, buffer: seq<real>, k: nat)
    requires NamesOk(msg.jointNames, c.joints) && AllReadable(c, hold) && k < |msg.points|
    requires InRange(Mapping(FilledNames(msg.jointNames, c.joints), c.joints)) && c.joints != []
    ensures |Installed(c, msg, hold, buffer)| == |msg.points|
    ensures FieldFits(Installed(c, msg, hold, buffer)[k].effort, |c.joints|, true)
            <==> FieldFits(msg.points[k].effort, |msg.jointNames|, true)
  {
    var names, joints := msg.jointNames, c.joints;
    var filled := FilledPoints(msg.points, names, joints, hold);
    var m := Mapping(FilledNames(names, joints), joints);
    FilledPointFields(msg.points, names, joints, hold, 0, k);
    var b := RemappedPoint(buffer, filled, m, |filled|, k);
    var b1 := Remap(b, filled[k].positions, m).1;
    var b2 := Remap(b1, filled[k].velocities, m).1;
    var b3 := Remap(b2, filled[k].accelerations, m).1;
    var effort := msg.points[k].effort;
    assert Installed(c, msg, hold, buffer)[k].effort == PreparedField(b3, effort, Zero(|joints|), names, joints);
    if effort == [] {
      AbsentFieldStays(Zero(|joints|), names, joints, 0);
    } else {
      PreparedLengthExactly(b3, effort, Zero(|joints|), names, joints);
      PreparedIsNotEmpty(b3, effort, Zero(|joints|), names, joints);
    }
  }

  lemma PreparedIsNotEmpty(buffer: seq<real>, field: seq<real>, values: seq<Option<real>>, names: seq<string>,
                           joints: seq<string>)
    requires NamesOk(names, joints) && Readable(values, names, joints) && field != [] && joints != []
    requires InRange(Mapping(FilledNames(names, joints), joints))
    ensures PreparedField(buffer, field, values, names, joints) != []
  {
    CompletionCovers(field, values, names, joints, 0);
  }

  lemma InstalledPoint(c: Config, msg: Message, now: int, hold: seq<Option<real>>, buffer: seq<real>, k: nat)
    requires Verify(c, msg, now) == Accepts && NamesOk(msg.jointNames, c.joints) && AllReadable(c, hold)
    requires EffortFits(msg) && k < |msg.points|
    ensures InRange(Mapping(FilledNames(msg.jointNames, c.joints), c.joints)) && c.joints != []
    ensures |Installed(c, msg, hold, buffer)| == |msg.points|
    ensures var p := Installed(c, msg, hold, buffer)[k];
      && Sized(p, |c.joints|) && p.timeFromStart == msg.points[k].timeFromStart
      && if c.allowIntegration then SomeField(p) else p.positions != []
  {
    assert msg.jointNames[0] in c.joints;
    AcceptedIsComplete(c, msg, now, hold);
    AcceptedPoint(c, msg, now, k);
    PreparedPointIsMeant(buffer, msg.points, msg.jointNames, c.joints, hold, k);
    MeantSized(Installed(c, msg, hold, buffer)[k], msg.points[k], hold, msg.jointNames, c.joints);
  }

  /** An accepted message with distinct names, completed, reordered and installed, has what sampling is proved for
      - one entry per joint in every field - exactly when its effort entries are as many as its names. Then its
      times increase strictly and every position is given, or, with integration allowed, something to integrate
      at every point. */
  lemma AcceptedCanBeSampled(c: Config, msg: Message, now: int, hold: seq<Option<real>>, buffer: seq<real>, s: State)
    requires Verify(c, msg, now) == Accepts && NamesOk(msg.jointNames, c.joints) && AllReadable(c, hold)
    requires InRange(Mapping(FilledNames(msg.jointNames, c.joints), c.joints))
    requires s.points == Installed(c, msg, hold, buffer)
    requires |s.before.positions| == |c.joints| && Sized(s.before, |c.joints|)
    ensures Valid(s) <==> EffortFits(msg)
    ensures Valid(s) ==> s.points != [] && StrictlyIncreasing(s.points)
    ensures Valid(s) ==> if c.allowIntegration then Integrable(s) else PositionsGiven(s)
  {
    assert msg.jointNames[0] in c.joints;
    AcceptedIncreases(c, msg, now);
    forall k | 0 <= k < |msg.points|
      ensures |s.points| == |msg.points|
      ensures FieldFits(s.points[k].effort, |c.joints|, true)
              <==> FieldFits(msg.points[k].effort, |msg.jointNames|, true)
    {
      InstalledEffort(c, msg, hold, buffer, k);
    }
    if EffortFits(msg) {
      forall k | 0 <= k < |msg.points|
        ensures Sized(s.points[k], |c.joints|) && s.points[k].timeFromStart == msg.points[k].timeFromStart
        ensures if c.allowIntegration then SomeField(s.points[k]) else s.points[k].positions != []
      {
        InstalledPoint(c, msg, now, hold, buffer, k);
      }
    } else {
      var k :| 0 <= k < |msg.points| && !FieldFits(msg.points[k].effort, |msg.jointNames|, true);
      assert !Sized(s.points[k], |c.joints|);
    }
  }

  // ----- Messages that are accepted and should not be ------------------------------------------------------

  function Lenient(joints: seq<string>): Config {
    Config(joints, true, true, true, true)
  }

  lemma NamesJoint(joints: seq<string>, name: string)
    requires joints != [] && joints[0] == name
    ensures Subset([name], joints) && Subset([name, name], joints)
  {
  }

  /** A partial goal may name one joint twice. */
  lemma RepeatedNamesAreAccepted(x: real, y: real, buffer: seq<real>)
    ensures var msg := Message(0, ["a", "a"], [TrajectoryPoint([x, y], [], [], [], 0)]);
      && Verify(Lenient(["a", "b", "c"]), msg, 0) == Accepts
      && Mapping(FilledNames(msg.jointNames, ["a", "b", "c"]), ["a", "b", "c"]) == []
      && PreparedField(buffer, [x, y], Zero(3), msg.jointNames, ["a", "b", "c"]) == [x, y, 0.0, 0.0]
  {
    NamesJoint(["a", "b", "c"], "a");
    RepeatedNameIsNotReordered(buffer, x, y);
  }

  /** An effort entry too many is not noticed. */
  lemma WrongEffortIsAccepted()
    ensures var msg := Message(0, ["a"], [TrajectoryPoint([1.0], [], [], [1.0, 2.0], 0)]);
      Verify(Lenient(["a"]), msg, 0) == Accepts && !EffortFits(msg)
  {
    NamesJoint(["a"], "a");
    var msg := Message(0, ["a"], [TrajectoryPoint([1.0], [], [], [1.0, 2.0], 0)]);
    assert !FieldFits(msg.points[0].effort, 1, true);
  }

  /** The message whose first call succeeds without any joint. */
  lemma SkippedLeadInIsAccepted()
    ensures Verify(Lenient(["a"]), Message(5000000000, ["a"], SkippedLeadIn().points), 0) == Accepts
  {
    NamesJoint(["a"], "a");
  }

  function Accelerated(position: real, time: int): TrajectoryPoint {
    TrajectoryPoint([position], [], [0.0], [], time)
  }

  function AcceleratedPoints(): seq<TrajectoryPoint> {
    [Accelerated(1.0, 1000000000), Accelerated(2.0, 2000000000)]
  }

  function AcceleratedRun(): State {
    State(AcceleratedPoints(), 5000000000, 5000000000, Accelerated(0.0, 0), true)
  }

  lemma AcceleratedIsRunning()
    ensures var s := AcceleratedRun(); Running(s) && Last(s) == 1 && DepartureDegree(s, 0) == NoDegree && Dim(s) == 1
  {
    assert PointTime(AcceleratedRun(), 0) == 6000000000;
  }

  /** Two points with positions and accelerations and no velocities, for the strictest controller; sampled at the
      first waypoint they give zero instead of its position. */
  lemma AccelerationsWithoutVelocitiesGiveZero()
    ensures Verify(Config(["a"], false, false, false, false), Message(5000000000, ["a"], AcceleratedPoints()), 0)
            == Accepts
    ensures var s := AcceleratedRun();
      && Running(s)
      && var r := StateAt(s, PointTime(s, 0));
      r.Sampled? && r.output.positions == [0.0] && s.points[0].positions == [1.0]
  {
    NamesJoint(["a"], "a");
    ZeroAtFirstWaypoint();
  }

  lemma ZeroAtFirstWaypoint()
    ensures var s := AcceleratedRun();
      && Running(s)
      && var r := StateAt(s, PointTime(s, 0));
      r.Sampled? && r.output.positions == [0.0]
  {
    hide StateAt;
    AcceleratedIsRunning();
    WaypointPosition(AcceleratedRun(), 0, 0);
  }
}
