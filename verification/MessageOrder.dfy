/** Completing a partial goal with the joints it leaves out, and reordering its entries from the order
    of the message's joint names to the controller's own joint order. */
module MessageOrder {
  import opened Options
  import opened TrajectoryPoints
  import opened TrajectorySampling

  predicate Distinct<T(==)>(s: seq<T>) {
    forall i, j :: 0 <= i < j < |s| ==> s[i] != s[j]
  }

  predicate Subset<T(==)>(s: seq<T>, t: seq<T>) {
    forall i :: 0 <= i < |s| ==> s[i] in t
  }

  /** Position of the first occurrence. */
  function IndexOf<T(==)>(s: seq<T>, x: T): (i: nat)
    requires x in s
    ensures i < |s| && s[i] == x && x !in s[..i]
  {
    if s[0] == x then 0 else 1 + IndexOf(s[1..], x)
  }

  // ----- Mapping -------------------------------------------------------------------------------

  /** Where each name of the message stands among the controller's joints; empty when the message names
      too many or unknown joints. */
  function Mapping(names: seq<string>, joints: seq<string>): seq<nat> {
    if |names| > |joints| || !Subset(names, joints) then []
    else seq(|names|, i requires 0 <= i < |names| => IndexOf(joints, names[i]))
  }

  method FindIndex(s: seq<string>, x: string) returns (i: nat)
    ensures i <= |s| && x !in s[..i]
    ensures i < |s| ==> s[i] == x
  {
    i := 0;
    while i < |s| && s[i] != x
      invariant i <= |s| && x !in s[..i]
    {
      i := i + 1;
    }
  }

  /** `mapping`. */
  method ComputeMapping(names: seq<string>, joints: seq<string>) returns (mapping: seq<nat>)
    ensures mapping == Mapping(names, joints)
  {
    if |names| > |joints| {
      return [];
    }
    mapping := [];
    for i := 0 to |names|
      invariant |mapping| == i && Subset(names[..i], joints)
      invariant forall k :: 0 <= k < i ==> mapping[k] == IndexOf(joints, names[k])
    {
      var j := FindIndex(joints, names[i]);
      if j == |joints| {
        assert joints[..j] == joints;
        return [];
      }
      FirstIndex(joints, names[i], j);
      mapping := mapping + [j];
    }
  }

  lemma FirstIndex<T>(s: seq<T>, x: T, i: nat)
    requires i < |s| && s[i] == x && x !in s[..i]
    ensures IndexOf(s, x) == i
  {
    if i > 0 {
      assert s[..i][0] == s[0];
      assert s[1..][..i - 1] == s[..i][1..];
      FirstIndex(s[1..], x, i - 1);
    }
  }

  // ----- Completion ----------------------------------------------------------------------------

  /** One more entry for a joint the message leaves out: nothing in an absent field, nothing when there
      is no value. */
  function Extended(field: seq<real>, value: Option<real>): seq<real> {
    if field == [] || value.None? then field else field + [value.value]
  }

  /** A left-out joint holds its position, with no velocity, acceleration or effort. */
  function ExtendPoint(p: TrajectoryPoint, hold: Option<real>): TrajectoryPoint {
    p.(positions := Extended(p.positions, hold), velocities := Extended(p.velocities, Some(0.0)),
       accelerations := Extended(p.accelerations, Some(0.0)), effort := Extended(p.effort, Some(0.0)))
  }

  function ExtendPoints(points: seq<TrajectoryPoint>, hold: Option<real>): seq<TrajectoryPoint> {
    seq(|points|, k requires 0 <= k < |points| => ExtendPoint(points[k], hold))
  }

  function CompletedNames(names: seq<string>, joints: seq<string>, i: nat): seq<string>
    requires i <= |joints|
    decreases |joints| - i
  {
    if i == |joints| then names
    else if joints[i] in names then CompletedNames(names, joints, i + 1)
    else CompletedNames(names + [joints[i]], joints, i + 1)
  }

  function CompletedPoints(points: seq<TrajectoryPoint>, names: seq<string>, joints: seq<string>,
                           hold: seq<Option<real>>, i: nat): (r: seq<TrajectoryPoint>)
    requires i <= |joints| == |hold|
    ensures |r| == |points|
    decreases |joints| - i
  {
    if i == |joints| then points
    else if joints[i] in names then CompletedPoints(points, names, joints, hold, i + 1)
    else CompletedPoints(ExtendPoints(points, hold[i]), names + [joints[i]], joints, hold, i + 1)
  }

  /** The same for one field of one point. */
  function CompletedField(field: seq<real>, values: seq<Option<real>>, names: seq<string>, joints: seq<string>,
                          i: nat): seq<real>
    requires i <= |joints| == |values|
    decreases |joints| - i
  {
    if i == |joints| then field
    else if joints[i] in names then CompletedField(field, values, names, joints, i + 1)
    else CompletedField(Extended(field, values[i]), values, names + [joints[i]], joints, i + 1)
  }

  function Zero(n: nat): seq<Option<real>> { seq(n, _ => Some(0.0)) }

  /** What completion does to a message's names and points. */
  function FilledNames(names: seq<string>, joints: seq<string>): seq<string> {
    if |joints| == |names| then names else CompletedNames(names, joints, 0)
  }

  function FilledPoints(points: seq<TrajectoryPoint>, names: seq<string>, joints: seq<string>,
                        hold: seq<Option<real>>): seq<TrajectoryPoint>
    requires |joints| == |hold|
  {
    if |joints| == |names| then points else CompletedPoints(points, names, joints, hold, 0)
  }

  // ----- Reordering ----------------------------------------------------------------------------

  /** The buffer after the first k assignments. */
  function Scatter(buffer: seq<real>, field: seq<real>, mapping: seq<nat>, k: nat): (r: seq<real>)
    requires k <= |mapping| == |field|
    requires forall i :: 0 <= i < |mapping| ==> mapping[i] < |buffer|
    ensures |r| == |buffer|
  {
    if k == 0 then buffer else Scatter(buffer, field, mapping, k - 1)[mapping[k - 1] := field[k - 1]]
  }

  function Resized(buffer: seq<real>, n: nat): (r: seq<real>)
    ensures |r| == n
  {
    if n <= |buffer| then buffer[..n] else buffer + Zeros(n - |buffer|)
  }

  predicate InRange(mapping: seq<nat>) {
    forall i :: 0 <= i < |mapping| ==> mapping[i] < |mapping|
  }

  /** One field, through the buffer that all fields share: the field as it ends up, and the buffer. */
  function Remap(buffer: seq<real>, field: seq<real>, mapping: seq<nat>): (seq<real>, seq<real>)
    requires InRange(mapping)
  {
    if field == [] || |field| != |mapping| then (field, buffer)
    else
      var output := Scatter(Resized(buffer, |mapping|), field, mapping, |mapping|);
      (output, output)
  }

  function RemapPoint(buffer: seq<real>, p: TrajectoryPoint, mapping: seq<nat>): (TrajectoryPoint, seq<real>)
    requires InRange(mapping)
  {
    var (positions, b1) := Remap(buffer, p.positions, mapping);
    var (velocities, b2) := Remap(b1, p.velocities, mapping);
    var (accelerations, b3) := Remap(b2, p.accelerations, mapping);
    var (effort, b4) := Remap(b3, p.effort, mapping);
    (TrajectoryPoint(positions, velocities, accelerations, effort, p.timeFromStart), b4)
  }

  /** The first n points reordered. */
  function RemapPoints(buffer: seq<real>, points: seq<TrajectoryPoint>, mapping: seq<nat>, n: nat)
    : (r: (seq<TrajectoryPoint>, seq<real>))
    requires InRange(mapping) && n <= |points|
    ensures |r.0| == |points|
  {
    if n == 0 then (points, buffer)
    else
      var (done, b) := RemapPoints(buffer, points, mapping, n - 1);
      var (p, b') := RemapPoint(b, points[n - 1], mapping);
      (done[n - 1 := p], b')
  }

  /** Completion leaves no name without its index, so the reordering stays inside its buffer. */
  lemma MappingInRange(names: seq<string>, joints: seq<string>)
    requires |names| >= |joints|
    ensures InRange(Mapping(names, joints))
  {
  }

  // ----- In place ------------------------------------------------------------------------------

  class GoalPreparer {
    const joints: seq<string>
    /** Reused by every reordering and never cleared. */
    var buffer: seq<real>

    constructor (joints: seq<string>)
      ensures this.joints == joints && buffer == Zeros(|joints|)
    {
      this.joints, buffer := joints, Zeros(|joints|);
    }

    method ExtendAll(msg: JointTrajectory, hold: Option<real>)
      modifies msg`points
      ensures msg.points == ExtendPoints(old(msg.points), hold)
    {
      for k := 0 to |msg.points|
        invariant |msg.points| == |old(msg.points)|
        invariant forall j :: 0 <= j < k ==> msg.points[j] == ExtendPoint(old(msg.points)[j], hold)
        invariant forall j :: k <= j < |msg.points| ==> msg.points[j] == old(msg.points)[j]
      {
        var it := msg.points[k];
        if it.positions != [] && hold.Some? {
          it := it.(positions := it.positions + [hold.value]);
        }
        if it.velocities != [] {
          it := it.(velocities := it.velocities + [0.0]);
        }
        if it.accelerations != [] {
          it := it.(accelerations := it.accelerations + [0.0]);
        }
        if it.effort != [] {
          it := it.(effort := it.effort + [0.0]);
        }
        msg.points := msg.points[k := it];
      }
    }

    /** `fill_partial_goal`; hold is the readable hold position of each controller joint. */
    method FillPartialGoal(msg: JointTrajectory, hold: seq<Option<real>>)
      requires |hold| == |joints|
      modifies msg
      ensures msg.jointNames == FilledNames(old(msg.jointNames), joints)
      ensures msg.points == FilledPoints(old(msg.points), old(msg.jointNames), joints, hold)
    {
      if |joints| == |msg.jointNames| {
        return;
      }
      for index := 0 to |joints|
        invariant CompletedNames(msg.jointNames, joints, index) == CompletedNames(old(msg.jointNames), joints, 0)
        invariant CompletedPoints(msg.points, msg.jointNames, joints, hold, index)
                  == CompletedPoints(old(msg.points), old(msg.jointNames), joints, hold, 0)
      {
        if joints[index] !in msg.jointNames {
          msg.jointNames := msg.jointNames + [joints[index]];
          ExtendAll(msg, hold[index]);
        }
      }
    }

    method RemapField(field: seq<real>, mapping: seq<nat>) returns (r: seq<real>)
      requires InRange(mapping)
      modifies this`buffer
      ensures (r, buffer) == Remap(old(buffer), field, mapping)
    {
      if field == [] || |field| != |mapping| {
        return field;
      }
      if |buffer| != |mapping| {
        buffer := Resized(buffer, |mapping|);
      }
      ghost var resized := buffer;
      assert resized == Resized(old(buffer), |mapping|);
      for index := 0 to |mapping|
        invariant |buffer| == |mapping|
        invariant buffer == Scatter(resized, field, mapping, index)
      {
        buffer := buffer[mapping[index] := field[index]];
      }
      r := buffer;
    }

    /** Completion and reordering as update performs them on a message it is about to install. */
    method Prepare(msg: JointTrajectory, hold: seq<Option<real>>)
      requires NamesOk(msg.jointNames, joints) && Complete(msg.points, msg.jointNames, joints, hold)
      modifies msg, this`buffer
      ensures |msg.points| == |old(msg.points)|
      ensures forall k :: 0 <= k < |msg.points| ==>
                PointMeant(msg.points[k], old(msg.points)[k], hold, old(msg.jointNames), joints)
    {
      FilledNamesCover(msg.jointNames, joints);
      FillPartialGoal(msg, hold);
      ghost var filled, m := msg.points, Mapping(msg.jointNames, joints);
      SortToLocalJointOrder(msg);
      assert msg.points == RemapPoints(old(buffer), filled, m, |filled|).0;
      forall k | 0 <= k < |old(msg.points)|
        ensures |msg.points| == |old(msg.points)|
        ensures PointMeant(msg.points[k], old(msg.points)[k], hold, old(msg.jointNames), joints)
      {
        PreparedPointIsMeant(old(buffer), old(msg.points), old(msg.jointNames), joints, hold, k);
      }
    }

    /** `sort_to_local_joint_order`: the points move, the joint names stay as they are. */
    method SortToLocalJointOrder(msg: JointTrajectory)
      requires InRange(Mapping(msg.jointNames, joints))
      modifies msg`points, this`buffer
      ensures (msg.points, buffer)
              == RemapPoints(old(buffer), old(msg.points), Mapping(msg.jointNames, joints), |old(msg.points)|)
    {
      var mapping := ComputeMapping(msg.jointNames, joints);
      ghost var points := msg.points;
      for k := 0 to |msg.points|
        invariant |msg.points| == |points|
        invariant (msg.points, buffer) == RemapPoints(old(buffer), points, mapping, k)
        invariant forall j :: k <= j < |points| ==> msg.points[j] == points[j]
      {
        var p := msg.points[k];
        var positions := RemapField(p.positions, mapping);
        var velocities := RemapField(p.velocities, mapping);
        var accelerations := RemapField(p.accelerations, mapping);
        var effort := RemapField(p.effort, mapping);
        msg.points :=
          msg.points[k := TrajectoryPoint(positions, velocities, accelerations, effort, p.timeFromStart)];
      }
    }
  }

  // ----- Counting names ------------------------------------------------------------------------

  ghost function Elements<T>(s: seq<T>): set<T> { set x | x in s }

  lemma {:induction false} DistinctCount<T>(s: seq<T>)
    ensures |Elements(s)| <= |s|
    ensures |Elements(s)| == |s| <==> Distinct(s)
  {
    if s != [] {
      var rest, last := s[..|s| - 1], s[|s| - 1];
      DistinctCount(rest);
      assert Elements(s) == Elements(rest) + {last};
      if Distinct(s) {
        assert Distinct(rest);
        assert last !in Elements(rest);
      } else if Distinct(rest) {
        assert last in Elements(rest);
      }
    }
  }

  /** As many distinct names as there are joints, all of them joints: then every joint is named. */
  lemma AllNamed(names: seq<string>, joints: seq<string>)
    requires Distinct(joints) && Subset(names, joints) && |names| == |joints|
    ensures Distinct(names) <==> Subset(joints, names)
  {
    DistinctCount(names);
    DistinctCount(joints);
    assert Elements(names) <= Elements(joints);
    if Distinct(names) {
      SameSize(Elements(names), Elements(joints));
      forall j | 0 <= j < |joints|
        ensures joints[j] in names
      {
        assert joints[j] in Elements(joints);
      }
    }
    if Subset(joints, names) {
      assert Elements(joints) <= Elements(names);
      assert Elements(joints) == Elements(names);
    }
  }

  lemma SameSize<T>(a: set<T>, b: set<T>)
    requires a <= b && |a| == |b|
    ensures a == b
  {
    if a != b {
      var x :| x in b && x !in a;
      SubsetCount(a, b - {x});
    }
  }

  lemma SubsetCount<T>(a: set<T>, b: set<T>)
    requires a <= b
    ensures |a| <= |b|
  {
    assert |b| == |a| + |b - a| by {
      assert b == a + (b - a);
    }
  }

  lemma AllJointsNamed(names: seq<string>, joints: seq<string>)
    requires Distinct(joints) && Distinct(names) && Subset(names, joints) && Subset(joints, names)
    ensures |names| == |joints|
  {
    DistinctCount(names);
    DistinctCount(joints);
    assert Elements(names) == Elements(joints);
  }

  // ----- Completion gives every joint its value ----------------------------------------------------

  /** Entry k is the value of the name in place k. */
  ghost predicate Carries(field: seq<real>, names: seq<string>, value: string -> real) {
    |field| == |names| && forall k :: 0 <= k < |names| ==> field[k] == value(names[k])
  }

  lemma {:induction false} CompletionCarries(field: seq<real>, values: seq<Option<real>>, names: seq<string>,
                                             joints: seq<string>, i: nat, value: string -> real)
    requires i <= |joints| == |values| && Distinct(joints) && Distinct(names) && Subset(names, joints)
    requires Subset(joints[..i], names) && field != [] && Carries(field, names, value)
    requires forall j :: i <= j < |joints| && joints[j] !in names ==> values[j] == Some(value(joints[j]))
    ensures var all := CompletedNames(names, joints, i);
            && Distinct(all) && Subset(all, joints) && Subset(joints, all)
            && Carries(CompletedField(field, values, names, joints, i), all, value)
            && CompletedField(field, values, names, joints, i) != []
    decreases |joints| - i
  {
    if i == |joints| {
      assert joints[..i] == joints;
    } else {
      assert joints[..i + 1] == joints[..i] + [joints[i]];
      if joints[i] in names {
        CompletionCarries(field, values, names, joints, i + 1, value);
      } else {
        CompletionCarries(Extended(field, values[i]), values, names + [joints[i]], joints, i + 1, value);
      }
    }
  }

  // ----- Reordering puts every value in its place --------------------------------------------------

  lemma {:induction false} ScatterPlaces(buffer: seq<real>, field: seq<real>, mapping: seq<nat>, n: nat, k: nat)
    requires k < n <= |mapping| == |field| && forall i :: 0 <= i < |mapping| ==> mapping[i] < |buffer|
    requires Distinct(mapping)
    ensures Scatter(buffer, field, mapping, n)[mapping[k]] == field[k]
  {
    if k < n - 1 {
      ScatterPlaces(buffer, field, mapping, n - 1, k);
    }
  }

  lemma {:induction false} ScatterSkips(buffer: seq<real>, field: seq<real>, mapping: seq<nat>, n: nat, j: nat)
    requires n <= |mapping| == |field| && forall i :: 0 <= i < |mapping| ==> mapping[i] < |buffer|
    requires j < |buffer| && j !in mapping
    ensures Scatter(buffer, field, mapping, n)[j] == buffer[j]
  {
    if n > 0 {
      ScatterSkips(buffer, field, mapping, n - 1, j);
    }
  }

  /** For distinct names that cover the joints the mapping is a permutation. */
  lemma MappingIsPermutation(names: seq<string>, joints: seq<string>)
    requires Distinct(joints) && Distinct(names) && Subset(names, joints) && Subset(joints, names)
    ensures var m := Mapping(names, joints);
            && |m| == |names| == |joints| && InRange(m) && Distinct(m)
            && forall j :: 0 <= j < |joints| ==> m[IndexOf(names, joints[j])] == j
  {
    AllJointsNamed(names, joints);
    forall j | 0 <= j < |joints|
      ensures IndexOf(joints, joints[j]) == j
    {
    }
  }

  lemma RemapCarries(buffer: seq<real>, field: seq<real>, names: seq<string>, joints: seq<string>,
                     value: string -> real)
    requires Distinct(joints) && Distinct(names) && Subset(names, joints) && Subset(joints, names)
    requires field != [] && Carries(field, names, value)
    ensures InRange(Mapping(names, joints))
    ensures var r := Remap(buffer, field, Mapping(names, joints)).0;
            |r| == |joints| && forall j :: 0 <= j < |joints| ==> r[j] == value(joints[j])
  {
    MappingIsPermutation(names, joints);
    var m := Mapping(names, joints);
    forall j | 0 <= j < |joints|
      ensures Remap(buffer, field, m).0[j] == value(joints[j])
    {
      var k := IndexOf(names, joints[j]);
      ScatterPlaces(Resized(buffer, |m|), field, m, |m|, k);
    }
  }

  // ----- One field of a message ------------------------------------------------------------------

  function PreparedField(buffer: seq<real>, field: seq<real>, values: seq<Option<real>>, names: seq<string>,
                         joints: seq<string>): seq<real>
    requires |values| == |joints| && InRange(Mapping(FilledNames(names, joints), joints))
  {
    var filled := if |joints| == |names| then field else CompletedField(field, values, names, joints, 0);
    Remap(buffer, filled, Mapping(FilledNames(names, joints), joints)).0
  }

  /** The value a message means for a joint: its own for a joint it names, the hold value for one it
      leaves out. */
  ghost function Meant(field: seq<real>, values: seq<Option<real>>, names: seq<string>, joints: seq<string>,
                       name: string): real
  {
    if name in names && IndexOf(names, name) < |field| then field[IndexOf(names, name)]
    else if name in joints && IndexOf(joints, name) < |values| && values[IndexOf(joints, name)].Some?
      then values[IndexOf(joints, name)].value
    else 0.0
  }

  /** The names of a message are the controller's, each at most once. */
  predicate NamesOk(names: seq<string>, joints: seq<string>) {
    Distinct(joints) && Distinct(names) && Subset(names, joints)
  }

  /** After completion and reordering, entry j of a field belongs to controller joint j: the message's
      value for that name, or the hold value of a joint it leaves out. Nothing of the buffer is left. */
  lemma PreparedFieldIsMeant(buffer: seq<real>, field: seq<real>, values: seq<Option<real>>, names: seq<string>,
                             joints: seq<string>)
    requires NamesOk(names, joints) && |values| == |joints| && field != [] && |field| == |names|
    requires forall j :: 0 <= j < |joints| && joints[j] !in names ==> values[j].Some?
    ensures InRange(Mapping(FilledNames(names, joints), joints))
    ensures var r := PreparedField(buffer, field, values, names, joints);
            |r| == |joints| &&
            forall j :: 0 <= j < |joints| ==> r[j] == Meant(field, values, names, joints, joints[j])
  {
    var value := (name: string) => Meant(field, values, names, joints, name);
    forall k | 0 <= k < |names|
      ensures IndexOf(names, names[k]) == k
    {
    }
    forall j | 0 <= j < |joints|
      ensures IndexOf(joints, joints[j]) == j
    {
    }
    assert Carries(field, names, value);
    if |joints| == |names| {
      AllNamed(names, joints);
      RemapCarries(buffer, field, names, joints, value);
    } else {
      CompletionCarries(field, values, names, joints, 0, value);
      RemapCarries(buffer, CompletedField(field, values, names, joints, 0), CompletedNames(names, joints, 0),
                   joints, value);
    }
  }

  // ----- The whole message -----------------------------------------------------------------------

  ghost predicate FieldMeant(r: seq<real>, field: seq<real>, values: seq<Option<real>>, names: seq<string>,
                             joints: seq<string>)
  {
    if field == [] then r == []
    else |r| == |joints| && forall j :: 0 <= j < |joints| ==> r[j] == Meant(field, values, names, joints, joints[j])
  }

  /** Every field of the prepared point holds what the message meant, in controller joint order. */
  ghost predicate PointMeant(r: TrajectoryPoint, p: TrajectoryPoint, hold: seq<Option<real>>, names: seq<string>,
                             joints: seq<string>)
  {
    && FieldMeant(r.positions, p.positions, hold, names, joints)
    && FieldMeant(r.velocities, p.velocities, Zero(|joints|), names, joints)
    && FieldMeant(r.accelerations, p.accelerations, Zero(|joints|), names, joints)
    && FieldMeant(r.effort, p.effort, Zero(|joints|), names, joints)
    && r.timeFromStart == p.timeFromStart
  }

  /** What validation and a readable hardware state give: a field is absent or has one entry per name,
      and every joint left out has a hold position. */
  predicate Complete(points: seq<TrajectoryPoint>, names: seq<string>, joints: seq<string>, hold: seq<Option<real>>) {
    && |hold| == |joints|
    && (forall k :: 0 <= k < |points| ==> Sized(points[k], |names|))
    && (forall j :: 0 <= j < |joints| && joints[j] !in names ==> hold[j].Some?)
  }

  lemma {:induction false} FilledPointFields(points: seq<TrajectoryPoint>, names: seq<string>, joints: seq<string>,
                                             hold: seq<Option<real>>, i: nat, k: nat)
    requires i <= |joints| == |hold| && k < |points|
    ensures var r := CompletedPoints(points, names, joints, hold, i);
            && |r| == |points|
            && r[k].positions == CompletedField(points[k].positions, hold, names, joints, i)
            && r[k].velocities == CompletedField(points[k].velocities, Zero(|joints|), names, joints, i)
            && r[k].accelerations == CompletedField(points[k].accelerations, Zero(|joints|), names, joints, i)
            && r[k].effort == CompletedField(points[k].effort, Zero(|joints|), names, joints, i)
            && r[k].timeFromStart == points[k].timeFromStart
    decreases |joints| - i
  {
    if i < |joints| {
      if joints[i] in names {
        FilledPointFields(points, names, joints, hold, i + 1, k);
      } else {
        FilledPointFields(ExtendPoints(points, hold[i]), names + [joints[i]], joints, hold, i + 1, k);
      }
    }
  }

  lemma {:induction false} AbsentFieldStays(values: seq<Option<real>>, names: seq<string>, joints: seq<string>, i: nat)
    requires i <= |joints| == |values|
    ensures CompletedField([], values, names, joints, i) == []
    decreases |joints| - i
  {
    if i < |joints| {
      AbsentFieldStays(values, if joints[i] in names then names else names + [joints[i]], joints, i + 1);
    }
  }

  lemma {:induction false} RemappedPoint(buffer: seq<real>, points: seq<TrajectoryPoint>, mapping: seq<nat>,
                                       n: nat, k: nat)
    returns (b: seq<real>)
    requires InRange(mapping) && k < n <= |points|
    ensures RemapPoints(buffer, points, mapping, n).0[k] == RemapPoint(b, points[k], mapping).0
  {
    if k == n - 1 {
      b := RemapPoints(buffer, points, mapping, n - 1).1;
      RemapLeavesLater(buffer, points, mapping, n - 1, k);
    } else {
      b := RemappedPoint(buffer, points, mapping, n - 1, k);
    }
  }

  lemma {:induction false} RemapLeavesLater(buffer: seq<real>, points: seq<TrajectoryPoint>, mapping: seq<nat>,
                                          n: nat, k: nat)
    requires InRange(mapping) && n <= k < |points|
    ensures RemapPoints(buffer, points, mapping, n).0[k] == points[k]
  {
    if n > 0 {
      RemapLeavesLater(buffer, points, mapping, n - 1, k);
    }
  }

  lemma FieldIsMeant(buffer: seq<real>, field: seq<real>, values: seq<Option<real>>, names: seq<string>,
                     joints: seq<string>)
    requires NamesOk(names, joints) && |values| == |joints| && (field == [] || |field| == |names|)
    requires forall j :: 0 <= j < |joints| && joints[j] !in names ==> values[j].Some?
    requires InRange(Mapping(FilledNames(names, joints), joints))
    ensures FieldMeant(PreparedField(buffer, field, values, names, joints), field, values, names, joints)
  {
    if field == [] {
      AbsentFieldStays(values, names, joints, 0);
    } else {
      PreparedFieldIsMeant(buffer, field, values, names, joints);
    }
  }

  lemma {:induction false} NamesGrow(names: seq<string>, joints: seq<string>, i: nat)
    requires Distinct(joints) && Distinct(names) && Subset(names, joints) && i <= |joints|
    requires Subset(joints[..i], names)
    ensures var all := CompletedNames(names, joints, i);
            Distinct(all) && Subset(all, joints) && Subset(joints, all)
    decreases |joints| - i
  {
    if i == |joints| {
      assert joints[..i] == joints;
    } else {
      assert joints[..i + 1] == joints[..i] + [joints[i]];
      NamesGrow(if joints[i] in names then names else names + [joints[i]], joints, i + 1);
    }
  }

  lemma FilledNamesCover(names: seq<string>, joints: seq<string>)
    requires NamesOk(names, joints)
    ensures |FilledNames(names, joints)| == |joints| && InRange(Mapping(FilledNames(names, joints), joints))
  {
    if |joints| != |names| {
      NamesGrow(names, joints, 0);
      AllJointsNamed(CompletedNames(names, joints, 0), joints);
    }
    MappingInRange(FilledNames(names, joints), joints);
  }

  /** Completion and reordering together turn every point of a message into what the message meant. */
  lemma PreparedPointIsMeant(buffer: seq<real>, points: seq<TrajectoryPoint>, names: seq<string>, joints: seq<string>,
                             hold: seq<Option<real>>, k: nat)
    requires NamesOk(names, joints) && Complete(points, names, joints, hold) && k < |points|
    ensures InRange(Mapping(FilledNames(names, joints), joints))
    ensures var filled := FilledPoints(points, names, joints, hold);
            && |filled| == |points|
            && PointMeant(RemapPoints(buffer, filled, Mapping(FilledNames(names, joints), joints), |filled|).0[k],
                          points[k], hold, names, joints)
  {
    var filled := FilledPoints(points, names, joints, hold);
    var m := Mapping(FilledNames(names, joints), joints);
    var p := points[k];
    FilledNamesCover(names, joints);
    FilledPointFields(points, names, joints, hold, 0, k);
    var b := RemappedPoint(buffer, filled, m, |filled|, k);
    var b1 := Remap(b, filled[k].positions, m).1;
    var b2 := Remap(b1, filled[k].velocities, m).1;
    var b3 := Remap(b2, filled[k].accelerations, m).1;
    assert Sized(p, |names|);
    FieldIsMeant(b, p.positions, hold, names, joints);
    FieldIsMeant(b1, p.velocities, Zero(|joints|), names, joints);
    FieldIsMeant(b2, p.accelerations, Zero(|joints|), names, joints);
    FieldIsMeant(b3, p.effort, Zero(|joints|), names, joints);
  }

  // ----- When the buffer leaks -------------------------------------------------------------------

  /** Reordering gives the same result whatever the buffer held before. */
  ghost predicate IgnoresBuffer(mapping: seq<nat>)
    requires InRange(mapping)
  {
    forall b, b', field: seq<real> :: |b| == |b'| == |field| == |mapping| ==>
      Scatter(b, field, mapping, |mapping|) == Scatter(b', field, mapping, |mapping|)
  }

  lemma PermutationFillsBuffer(b: seq<real>, b': seq<real>, field: seq<real>, names: seq<string>, joints: seq<string>)
    requires Distinct(joints) && Distinct(names) && Subset(names, joints) && Subset(joints, names)
    requires |b| == |b'| == |field| == |Mapping(names, joints)| && InRange(Mapping(names, joints))
    ensures var m := Mapping(names, joints); Scatter(b, field, m, |m|) == Scatter(b', field, m, |m|)
  {
    MappingIsPermutation(names, joints);
    var m := Mapping(names, joints);
    forall j | 0 <= j < |m|
      ensures Scatter(b, field, m, |m|)[j] == Scatter(b', field, m, |m|)[j]
    {
      ScatterPlaces(b, field, m, |m|, IndexOf(names, joints[j]));
      ScatterPlaces(b', field, m, |m|, IndexOf(names, joints[j]));
    }
  }

  /** For a message with as many names as the controller has joints, all of them joints, nothing leaks from the
      reused buffer exactly when the names are distinct. */
  lemma BufferLeaksExactlyOnDuplicates(names: seq<string>, joints: seq<string>)
    requires Distinct(joints) && Subset(names, joints) && |names| == |joints|
    ensures InRange(Mapping(names, joints))
    ensures IgnoresBuffer(Mapping(names, joints)) <==> Distinct(names)
  {
    var m := Mapping(names, joints);
    AllNamed(names, joints);
    if Distinct(names) {
      forall b, b', field: seq<real> | |b| == |b'| == |field| == |m|
        ensures Scatter(b, field, m, |m|) == Scatter(b', field, m, |m|)
      {
        PermutationFillsBuffer(b, b', field, names, joints);
      }
    } else {
      var j := UnmappedJoint(names, joints);
      var b, b', field := Zeros(|m|), Zeros(|m|)[j := 1.0], Zeros(|m|);
      ScatterSkips(b, field, m, |m|, j);
      ScatterSkips(b', field, m, |m|, j);
      assert Scatter(b, field, m, |m|)[j] != Scatter(b', field, m, |m|)[j];
    }
  }

  // ----- When a field comes out with one entry per joint ---------------------------------------------------

  /** Completion names every joint, repeats no more names than the message did, and extends a field by one entry
      for each name it adds. */
  lemma {:induction false} CompletionCovers(field: seq<real>, values: seq<Option<real>>, names: seq<string>,
                                            joints: seq<string>, i: nat)
    requires i <= |joints| == |values| && Distinct(joints) && Subset(names, joints) && Subset(joints[..i], names)
    requires field != [] && forall j :: i <= j < |joints| && joints[j] !in names ==> values[j].Some?
    ensures var all := CompletedNames(names, joints, i);
      && Subset(all, joints) && Subset(joints, all) && |all| >= |names|
      && (Distinct(all) <==> Distinct(names))
      && |CompletedField(field, values, names, joints, i)| == |field| + |all| - |names|
    decreases |joints| - i
  {
    if i == |joints| {
      assert joints[..i] == joints;
    } else {
      assert joints[..i + 1] == joints[..i] + [joints[i]];
      if joints[i] in names {
        CompletionCovers(field, values, names, joints, i + 1);
      } else {
        CompletionCovers(Extended(field, values[i]), values, names + [joints[i]], joints, i + 1);
        OneMoreName(names, joints[i]);
      }
    }
  }

  lemma OneMoreName(names: seq<string>, name: string)
    requires name !in names
    ensures Distinct(names + [name]) <==> Distinct(names)
  {
    if Distinct(names + [name]) {
      assert forall i, j :: 0 <= i < j < |names| ==> (names + [name])[i] == names[i] && (names + [name])[j] == names[j];
    }
  }

  /** Names that cover the joints are as many as the joints exactly when none is repeated. */
  lemma CoveringCount(names: seq<string>, joints: seq<string>)
    requires Distinct(joints) && Subset(names, joints) && Subset(joints, names)
    ensures |names| >= |joints| && (|names| == |joints| <==> Distinct(names))
  {
    DistinctCount(names);
    DistinctCount(joints);
    assert Elements(names) == Elements(joints);
  }

  lemma FilledNamesInRange(names: seq<string>, joints: seq<string>)
    requires Distinct(joints) && Subset(names, joints)
    ensures InRange(Mapping(FilledNames(names, joints), joints))
  {
    if |names| != |joints| {
      CompletionCovers([0.0], Zero(|joints|), names, joints, 0);
      CoveringCount(CompletedNames(names, joints, 0), joints);
    }
    MappingInRange(FilledNames(names, joints), joints);
  }

  /** A message may say nothing of some joints, but what it leaves out can be read. */
  predicate Readable(values: seq<Option<real>>, names: seq<string>, joints: seq<string>) {
    |values| == |joints| && forall j :: 0 <= j < |joints| && joints[j] !in names ==> values[j].Some?
  }

  /** The field has one entry per joint whatever the reused buffer held, and none of them comes from it. */
  ghost predicate PreparedWell(field: seq<real>, values: seq<Option<real>>, names: seq<string>, joints: seq<string>)
    requires |values| == |joints| && InRange(Mapping(FilledNames(names, joints), joints))
  {
    forall b, b' ::
      && |PreparedField(b, field, values, names, joints)| == |joints|
      && PreparedField(b, field, values, names, joints) == PreparedField(b', field, values, names, joints)
  }

  /** What no name of the message is mapped to stays as the buffer had it. */
  lemma UnmappedEntryIsKept(buffer: seq<real>, field: seq<real>, m: seq<nat>, j: nat)
    requires InRange(m) && |buffer| == |field| == |m| > 0 && j < |m| && j !in m
    ensures |Remap(buffer, field, m).0| == |m| && Remap(buffer, field, m).0[j] == buffer[j]
  {
    assert Resized(buffer, |m|) == buffer;
    ScatterSkips(buffer, field, m, |m|, j);
  }

  lemma RemapLeaks(field: seq<real>, m: seq<nat>, j: nat)
    requires InRange(m) && |field| == |m| > 0 && j < |m| && j !in m
    ensures Remap(Zeros(|m|), field, m).0 != Remap(Zeros(|m|)[j := 1.0], field, m).0
  {
    UnmappedEntryIsKept(Zeros(|m|), field, m, j);
    UnmappedEntryIsKept(Zeros(|m|)[j := 1.0], field, m, j);
  }

  /** If a name is repeated some joint is not named, and nothing is mapped to it. */
  lemma UnmappedJoint(names: seq<string>, joints: seq<string>) returns (j: nat)
    requires Distinct(joints) && Subset(names, joints) && |names| == |joints| && !Distinct(names)
    ensures InRange(Mapping(names, joints)) && |Mapping(names, joints)| == |joints|
    ensures j < |joints| && j !in Mapping(names, joints)
  {
    AllNamed(names, joints);
    j :| j < |joints| && joints[j] !in names;
    NotMapped(names, joints, j);
  }

  lemma NotMapped(names: seq<string>, joints: seq<string>, j: nat)
    requires Subset(names, joints) && |names| == |joints| && j < |joints| && joints[j] !in names
    ensures InRange(Mapping(names, joints)) && |Mapping(names, joints)| == |joints| && j !in Mapping(names, joints)
  {
    forall i | 0 <= i < |names|
      ensures Mapping(names, joints)[i] != j
    {
      assert names[i] in names && joints[Mapping(names, joints)[i]] == names[i];
    }
  }

  lemma RepeatedNameLeaks(field: seq<real>, values: seq<Option<real>>, names: seq<string>, joints: seq<string>)
    requires Distinct(joints) && Subset(names, joints) && |values| == |joints| && |field| == |names| == |joints| > 0
    requires !Distinct(names) && InRange(Mapping(FilledNames(names, joints), joints))
    ensures !PreparedWell(field, values, names, joints)
  {
    var m := Mapping(names, joints);
    var j := UnmappedJoint(names, joints);
    RemapLeaks(field, m, j);
    var b, b' := Zeros(|m|), Zeros(|m|)[j := 1.0];
    assert PreparedField(b, field, values, names, joints) != PreparedField(b', field, values, names, joints);
  }

  lemma RepeatedNameLengthens(buffer: seq<real>, field: seq<real>, values: seq<Option<real>>, names: seq<string>,
                              joints: seq<string>)
    requires Distinct(joints) && Subset(names, joints) && Readable(values, names, joints)
    requires !Distinct(names) && |field| == |names| != |joints|
    requires InRange(Mapping(FilledNames(names, joints), joints))
    ensures |PreparedField(buffer, field, values, names, joints)| > |joints|
  {
    CompletionCovers(field, values, names, joints, 0);
    CoveringCount(CompletedNames(names, joints, 0), joints);
  }

  /** For any number of names that validation lets through, the prepared field is right - one entry per joint and
      none left over from an earlier message - exactly when the names are distinct. */
  lemma PreparedExactlyForDistinctNames(field: seq<real>, values: seq<Option<real>>, names: seq<string>,
                                        joints: seq<string>)
    requires Distinct(joints) && Subset(names, joints) && Readable(values, names, joints)
    requires field != [] && |field| == |names|
    ensures InRange(Mapping(FilledNames(names, joints), joints))
    ensures PreparedWell(field, values, names, joints) <==> Distinct(names)
  {
    FilledNamesInRange(names, joints);
    if Distinct(names) {
      forall b, b'
        ensures |PreparedField(b, field, values, names, joints)| == |joints|
        ensures PreparedField(b, field, values, names, joints) == PreparedField(b', field, values, names, joints)
      {
        PreparedFieldIsMeant(b, field, values, names, joints);
        PreparedFieldIsMeant(b', field, values, names, joints);
      }
    } else if |names| == |joints| {
      RepeatedNameLeaks(field, values, names, joints);
    } else {
      RepeatedNameLengthens([], field, values, names, joints);
    }
  }

  /** With distinct names a field comes out with one entry per joint exactly when it had one entry per name;
      otherwise it is left in message order. */
  lemma PreparedLengthExactly(buffer: seq<real>, field: seq<real>, values: seq<Option<real>>, names: seq<string>,
                              joints: seq<string>)
    requires NamesOk(names, joints) && Readable(values, names, joints) && field != []
    ensures InRange(Mapping(FilledNames(names, joints), joints))
    ensures |PreparedField(buffer, field, values, names, joints)| == |joints| <==> |field| == |names|
  {
    FilledNamesInRange(names, joints);
    CompletionCovers(field, values, names, joints, 0);
    CoveringCount(CompletedNames(names, joints, 0), joints);
  }

  /** A partial goal that names one joint twice: two names become four, and the field stays in message order. */
  lemma RepeatedNameIsNotReordered(buffer: seq<real>, x: real, y: real)
    ensures var names, joints := ["a", "a"], ["a", "b", "c"];
      && Mapping(FilledNames(names, joints), joints) == []
      && PreparedField(buffer, [x, y], Zero(3), names, joints) == [x, y, 0.0, 0.0]
  {
    var names, joints: seq<string> := ["a", "a"], ["a", "b", "c"];
    assert names[0] == "a" && joints[0] == "a" && joints[1] == "b" && joints[2] == "c";
    assert "a"[0] == 'a' && "b"[0] == 'b' && "c"[0] == 'c';
    assert names + ["b"] == ["a", "a", "b"] && ["a", "a", "b"] + ["c"] == ["a", "a", "b", "c"];
    assert CompletedNames(["a", "a", "b"], joints, 2) == ["a", "a", "b", "c"];
    assert CompletedNames(names, joints, 1) == ["a", "a", "b", "c"];
    assert [x, y] + [0.0] == [x, y, 0.0] && [x, y, 0.0] + [0.0] == [x, y, 0.0, 0.0];
    assert CompletedField([x, y, 0.0], Zero(3), ["a", "a", "b"], joints, 2) == [x, y, 0.0, 0.0];
    assert CompletedField([x, y], Zero(3), names, joints, 1) == [x, y, 0.0, 0.0];
  }

  /** Reordering is not idempotent, because the names stay in message order: for two joints named the
      other way round a second pass puts the values back in the wrong places. */
  lemma ReorderingTwiceIsWrong(x: real, y: real, buffer: seq<real>)
    requires x != y
    ensures var names, joints := ["b", "a"], ["a", "b"];
            var m := Mapping(names, joints);
            && InRange(m)
            && Remap(buffer, [x, y], m).0 == [y, x]
            && Remap(buffer, Remap(buffer, [x, y], m).0, m).0 == [x, y]
            && [x, y] != [y, x]
  {
    var names, joints: seq<string> := ["b", "a"], ["a", "b"];
    assert names[0] == joints[1] && names[1] == joints[0];
    assert joints[0] != joints[1];
    FirstIndex(joints, names[0], 1);
    FirstIndex(joints, names[1], 0);
    assert Mapping(names, joints) == [1, 0];
    ScatterSwaps(Resized(buffer, 2), x, y);
    ScatterSwaps(Resized(buffer, 2), y, x);
  }

  lemma ScatterSwaps(buffer: seq<real>, x: real, y: real)
    requires |buffer| == 2
    ensures Scatter(buffer, [x, y], [1, 0], 2) == [y, x]
  {
    assert Scatter(buffer, [x, y], [1, 0], 1) == buffer[1 := x];
  }
}
