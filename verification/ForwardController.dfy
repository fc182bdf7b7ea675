/** The controller object of the motion primitives: its flags, its bounded queue and its command interfaces,
    and the callbacks and the update that change them step by step. */
module ForwardController {
  import opened Options
  import opened MotionPrimitives

  lemma FrameLength(primitives: seq<Primitive>)
    ensures if |primitives| > 1 then |Frame(primitives)| == |primitives| + 2 else Frame(primitives) == primitives
  {
  }

  lemma FrameInParts(queue: seq<Primitive>, primitives: seq<Primitive>)
    requires |primitives| > 1
    ensures queue + [START] + primitives + [END] == queue + Frame(primitives)
  {
  }

  class MotionPrimitivesForwardController {
    const commandInterfaces: array<Option<Value>>
    var moprimQueue: seq<Primitive>
    var rtGoalHandle: nat
    var hasActiveGoal: bool
    var cancelRequested: bool
    var robotStopRequested: bool
    var wasExecuting: bool
    /** What has been seen to happen since construction. */
    ghost var log: seq<Event>

    /** Joint positions of a queued primitive stay inside the interfaces; the code does not check this. */
    ghost predicate Valid()
      reads this
    {
      && commandInterfaces.Length == INTERFACES && |moprimQueue| <= CAPACITY
      && forall p :: p in moprimQueue ==> |p.joints| < INTERFACES
    }

    ghost function Now(): State
      reads this, commandInterfaces
    {
      State(moprimQueue, rtGoalHandle, hasActiveGoal, cancelRequested, robotStopRequested, wasExecuting,
            commandInterfaces[..])
    }

    /** The object as it is after activation. */
    constructor ()
      ensures Valid() && fresh(commandInterfaces) && Now() == Activated() && log == []
    {
      var interfaces := new Option<Value>[INTERFACES](i => None);
      commandInterfaces := interfaces;
      moprimQueue, rtGoalHandle, hasActiveGoal := [], 0, false;
      cancelRequested, robotStopRequested, wasExecuting, log := false, false, false, [];
      new;
      assert commandInterfaces[..] == Activated().interfaces;
    }

    method Push(primitive: Primitive) returns (ok: bool)
      modifies this`moprimQueue
      ensures ok == (|old(moprimQueue)| < CAPACITY)
      ensures moprimQueue == if ok then old(moprimQueue) + [primitive] else old(moprimQueue)
    {
      ok := |moprimQueue| < CAPACITY;
      if ok {
        moprimQueue := moprimQueue + [primitive];
      }
    }

    method IsAcceptable(primitive: Primitive) returns (ok: bool)
      ensures ok == Complete(primitive)
    {
      match primitive.kind
      case LinearJoint => ok := primitive.joints != [];
      case LinearCartesian => ok := primitive.poses != [];
      case CircularCartesian => ok := |primitive.poses| == 2;
      case _ => ok := false;
    }

    method GoalReceivedCallback(primitives: seq<Primitive>, running: bool) returns (accept: bool)
      ensures accept == Accepts(Now(), primitives, running)
    {
      if !running {
        return false;
      }
      if hasActiveGoal {
        return false;
      }
      if robotStopRequested {
        return false;
      }
      if primitives == [] {
        return false;
      }
      if |primitives| == 1 && |primitives| > CAPACITY - |moprimQueue| {
        return false;
      } else if |primitives| + 2 > CAPACITY - |moprimQueue| {
        return false;
      }
      for i := 0 to |primitives|
        invariant forall k :: 0 <= k < i ==> Complete(primitives[k])
      {
        var ok := IsAcceptable(primitives[i]);
        if !ok {
          return false;
        }
      }
      return true;
    }

    method AddMotions(primitives: seq<Primitive>) returns (ok: bool)
      requires |moprimQueue| + |primitives| <= CAPACITY
      modifies this`moprimQueue
      ensures ok && moprimQueue == old(moprimQueue) + primitives
    {
      ok := true;
      for i := 0 to |primitives|
        invariant ok && moprimQueue == old(moprimQueue) + primitives[..i]
      {
        assert primitives[..i + 1] == primitives[..i] + [primitives[i]];
        var pushed := Push(primitives[i]);
        ok := ok && pushed;
      }
      assert primitives[..|primitives|] == primitives;
    }

    /** Queues the frame of a goal that was just received; no push fails. */
    method QueueFrame(primitives: seq<Primitive>) returns (ok: bool)
      requires |moprimQueue| + |Frame(primitives)| <= CAPACITY
      modifies this`moprimQueue
      ensures ok && moprimQueue == old(moprimQueue) + Frame(primitives)
    {
      hide Frame;
      FrameLength(primitives);
      if |primitives| > 1 {
        ghost var before := moprimQueue;
        var started := Push(START);
        var added := AddMotions(primitives);
        var ended := Push(END);
        ok := started && added && ended;
        FrameInParts(before, primitives);
      } else {
        ok := AddMotions(primitives);
      }
    }

    method GoalAcceptedCallback(goal: nat, primitives: seq<Primitive>) returns (ok: bool)
      requires Valid() && Accepts(Now(), primitives, true)
      requires forall p :: p in primitives ==> |p.joints| < INTERFACES
      modifies this
      ensures Valid() && ok
      ensures Now() == OnGoal(old(Now()), goal, primitives, true).0
      ensures log == old(log) + OnGoal(old(Now()), goal, primitives, true).1
    {
      ok := QueueFrame(primitives);
      rtGoalHandle, hasActiveGoal := goal, true;
      log := log + [Accepted(goal, primitives)];
    }

    method GoalCancelledCallback()
      requires Valid()
      modifies this`cancelRequested
      ensures Valid() && Now() == OnCancel(old(Now()))
    {
      cancelRequested := true;
    }

    method ResetCommandInterfaces()
      modifies commandInterfaces
      ensures forall i :: 0 <= i < commandInterfaces.Length ==> commandInterfaces[i] == None
    {
      for i := 0 to commandInterfaces.Length
        invariant forall k :: 0 <= k < i ==> commandInterfaces[k] == None
      {
        commandInterfaces[i] := None;
      }
    }

    method SendHelper(kind: Kind)
      requires commandInterfaces.Length == INTERFACES
      modifies commandInterfaces
      ensures commandInterfaces[..] == Helper(kind)
    {
      ResetCommandInterfaces();
      commandInterfaces[0] := Some(Code(kind));
    }

    method ConsumeCancelRequest()
      requires Valid()
      modifies this, commandInterfaces
      ensures Valid()
      ensures Now() == ConsumeCancel(old(Now())).0
      ensures log == old(log) + ConsumeCancel(old(Now())).1
    {
      if cancelRequested {
        cancelRequested := false;
        SendHelper(StopMotion);
        moprimQueue := [];
        robotStopRequested := true;
        log := log + [CancelConsumed];
      }
    }

    method ReportStopped(handleFree: bool)
      requires Valid()
      modifies this, commandInterfaces
      ensures Valid()
      ensures Now() == AfterStop(old(Now()), handleFree).0
      ensures log == old(log) + AfterStop(old(Now()), handleFree).1
    {
      wasExecuting := false;
      if hasActiveGoal {
        if handleFree {
          hasActiveGoal := false;
          log := log + [Canceled(rtGoalHandle)];
        }
      }
      if robotStopRequested {
        SendHelper(ResetStop);
        robotStopRequested := false;
        log := log + [ResetSent];
      }
    }

    method ObserveStatus(status: nat, handleFree: bool)
      requires Valid()
      modifies this, commandInterfaces
      ensures Valid()
      ensures Now() == Observe(old(Now()), status, handleFree).0
      ensures log == old(log) + Observe(old(Now()), status, handleFree).1
    {
      if status == EXECUTING {
        wasExecuting := true;
      } else if status == SUCCESS {
        if hasActiveGoal && wasExecuting {
          if handleFree {
            wasExecuting, hasActiveGoal := false, false;
            log := log + [Succeeded(rtGoalHandle)];
          }
        }
      } else if status == STOPPING {
        wasExecuting := false;
      } else if status == STOPPED {
        ReportStopped(handleFree);
      } else if status == ERROR {
        wasExecuting := false;
      }
    }

    method WritePose(first: nat, pose: Pose)
      requires first + 7 <= commandInterfaces.Length
      modifies commandInterfaces
      ensures forall i :: 0 <= i < commandInterfaces.Length ==>
        commandInterfaces[i] == if first <= i < first + 7 then Some(Number(Component(pose, i - first)))
                                else old(commandInterfaces[i])
    {
      commandInterfaces[first] := Some(Number(pose.x));
      commandInterfaces[first + 1] := Some(Number(pose.y));
      commandInterfaces[first + 2] := Some(Number(pose.z));
      commandInterfaces[first + 3] := Some(Number(pose.qx));
      commandInterfaces[first + 4] := Some(Number(pose.qy));
      commandInterfaces[first + 5] := Some(Number(pose.qz));
      commandInterfaces[first + 6] := Some(Number(pose.qw));
    }

    method WriteMotion(p: Primitive)
      requires commandInterfaces.Length == INTERFACES && |p.joints| < INTERFACES
      modifies commandInterfaces
      ensures forall i :: 0 <= i < INTERFACES ==>
        commandInterfaces[i] == Slot(p.(arguments := []), old(commandInterfaces[i]), i)
    {
      commandInterfaces[0] := Some(Code(p.kind));
      for i := 0 to |p.joints|
        invariant forall k :: 0 <= k < INTERFACES ==>
          commandInterfaces[k] == if k == 0 then Some(Code(p.kind))
                                  else if k <= i then Some(Number(p.joints[k - 1])) else old(commandInterfaces[k])
      {
        commandInterfaces[i + 1] := Some(Number(p.joints[i]));
      }
      if p.poses != [] {
        WritePose(FIRST_POSE, p.poses[0]);
        if p.kind == CircularCartesian && |p.poses| == 2 {
          WritePose(FIRST_VIA, p.poses[1]);
        }
      }
      commandInterfaces[BLEND_RADIUS] := Some(Number(p.blendRadius));
    }

    method WriteArguments(p: Primitive)
      requires commandInterfaces.Length == INTERFACES
      modifies commandInterfaces
      ensures forall i :: 0 <= i < INTERFACES ==>
        commandInterfaces[i]
        == if VELOCITY <= i <= MOVE_TIME && Argued(p.arguments, ArgumentName(i)).Some? then
             Some(Number(Argued(p.arguments, ArgumentName(i)).value))
           else old(commandInterfaces[i])
    {
      for k := 0 to |p.arguments|
        invariant forall i :: 0 <= i < INTERFACES ==>
          commandInterfaces[i]
          == if VELOCITY <= i <= MOVE_TIME && Argued(p.arguments[..k], ArgumentName(i)).Some? then
               Some(Number(Argued(p.arguments[..k], ArgumentName(i)).value))
             else old(commandInterfaces[i])
      {
        var argument := p.arguments[k];
        assert p.arguments[..k + 1][..k] == p.arguments[..k];
        if argument.name == "velocity" {
          commandInterfaces[VELOCITY] := Some(Number(argument.value));
        } else if argument.name == "acceleration" {
          commandInterfaces[ACCELERATION] := Some(Number(argument.value));
        } else if argument.name == "move_time" {
          commandInterfaces[MOVE_TIME] := Some(Number(argument.value));
        }
      }
      assert p.arguments[..|p.arguments|] == p.arguments;
    }

    /** Pops the oldest primitive and writes it to the interfaces. */
    method SetCommandInterfaces() returns (ok: bool)
      requires Valid()
      modifies this, commandInterfaces
      ensures Valid() && ok == (old(moprimQueue) != [])
      ensures Now() == Supply(old(Now()), READY).0
      ensures log == old(log) + Supply(old(Now()), READY).1
    {
      ok := moprimQueue != [];
      if ok {
        var current := moprimQueue[0];
        moprimQueue := moprimQueue[1..];
        WriteMotion(current);
        WriteArguments(current);
        log := log + [Issued(current)];
        assert commandInterfaces[..] == Written(current, old(commandInterfaces[..]));
      }
    }

    /** Hands out the next primitive if the hardware is ready for one. */
    method SupplyHardware(ready: nat) returns (ok: bool)
      requires Valid()
      modifies this, commandInterfaces
      ensures Valid() && ok == (ready <= READY)
      ensures Now() == Supply(old(Now()), ready).0
      ensures log == old(log) + Supply(old(Now()), ready).1
    {
      ok := ready <= READY;
      if ready == READY && moprimQueue != [] {
        ok := SetCommandInterfaces();
      }
    }

    method ReadStatus(status: nat, handleFree: bool)
      requires Valid()
      modifies this, commandInterfaces
      ensures Valid()
      ensures Now() == Observe(old(Now()), status, handleFree).0
      ensures log == old(log) + ([Observed(status)] + Observe(old(Now()), status, handleFree).1)
    {
      ghost var before := Now();
      log := log + [Observed(status)];
      ghost var events := Observe(before, status, handleFree).1;
      ObserveStatus(status, handleFree);
      assert log == old(log) + ([Observed(status)] + events);
    }

    /** One control cycle; a reading that is missing or unknown ends it with an error. */
    method Update(status: Option<nat>, handleFree: bool, ready: Option<nat>) returns (ok: bool)
      requires Valid()
      modifies this, commandInterfaces
      ensures Valid()
      ensures Now() == OnUpdate(old(Now()), status, handleFree, ready).0
      ensures log == old(log) + OnUpdate(old(Now()), status, handleFree, ready).1
      ensures ok <==> status.Some? && status.value <= STOPPED && ready.Some? && ready.value <= READY
    {
      hide ConsumeCancel, Observe, Supply;
      ghost var e1 := ConsumeCancel(Now()).1;
      ConsumeCancelRequest();
      if status.None? {
        return false;
      }
      ghost var e2 := Observe(Now(), status.value, handleFree).1;
      ReadStatus(status.value, handleFree);
      assert log == old(log) + (e1 + [Observed(status.value)] + e2);
      if status.value > STOPPED || ready.None? {
        return false;
      }
      ghost var e3 := Supply(Now(), ready.value).1;
      ok := SupplyHardware(ready.value);
      assert log == old(log) + (e1 + [Observed(status.value)] + e2 + e3);
    }
  }
}
