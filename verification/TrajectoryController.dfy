/** The controller object: its protocol fields, and the callbacks and the update that change them. Every
    method makes exactly the step that the protocol describes. */
module TrajectoryController {
  import opened Options
  import opened GoalProtocol

  class JointTrajectoryController {
    const config: Config
    var newTrajectoryMsg: Option<Msg>
    var currentTrajectory: Option<Msg>
    var trajectoryStartTime: int
    var sampledAlready: bool
    var trajTime: int
    var pendingTrajMsg: Option<Msg>
    var pendingStart: int
    var rtActiveGoal: Option<Goal>
    var rtHasPendingGoal: bool
    var rtActiveGoalDeferred: bool
    var rtClearPending: bool
    var rtIsHolding: bool
    var activeTolerances: Tolerances
    /** What has been seen to happen since construction. */
    ghost var log: seq<Event>

    ghost function Now(): State
      reads this
    {
      State(newTrajectoryMsg, currentTrajectory, pendingTrajMsg, pendingStart, rtActiveGoal, rtHasPendingGoal,
            rtActiveGoalDeferred, rtClearPending, rtIsHolding, activeTolerances, sampledAlready,
            trajectoryStartTime, trajTime)
    }

    /** The object as it is after activation. */
    constructor (config: Config, tolerances: Tolerances)
      ensures this.config == config && Now() == Activated(config, tolerances) && log == []
    {
      this.config := config;
      newTrajectoryMsg, rtIsHolding := Some(config.hold), true;
      currentTrajectory, trajectoryStartTime, sampledAlready, trajTime := None, 0, false, 0;
      pendingTrajMsg, pendingStart := None, 0;
      rtActiveGoal, rtHasPendingGoal, rtActiveGoalDeferred, rtClearPending := None, false, false, false;
      activeTolerances, log := tolerances, [];
    }

    method TopicCallback(msg: Msg, valid: bool, subscriberIsActive: bool)
      modifies this
      ensures Now() == OnTopic(old(Now()), msg, valid, subscriberIsActive).0
      ensures log == old(log) + OnTopic(old(Now()), msg, valid, subscriberIsActive).1
    {
      if !valid {
        return;
      }
      if subscriberIsActive {
        newTrajectoryMsg, log := Some(msg), log + [Received(msg)];
        rtIsHolding := false;
      }
    }

    method PreemptActiveGoal()
      modifies this
      ensures Now() == Preempted(old(Now())).0
      ensures log == old(log) + Preempted(old(Now())).1
    {
      if rtActiveGoal.Some? {
        log := log + [Reported(rtActiveGoal.value, Aborted)];
        rtActiveGoal := None;
      }
    }

    method PursueGoal(goal: Goal, now: int, tolerances: Tolerances)
      modifies this`newTrajectoryMsg, this`rtIsHolding, this`rtActiveGoalDeferred, this`rtActiveGoal
      modifies this`activeTolerances
      ensures Now() == Pursue(config, old(Now()), goal, now, tolerances)
    {
      newTrajectoryMsg := Some(goal.msg);
      rtIsHolding := false;
      rtActiveGoalDeferred := config.allowReplacement && currentTrajectory.Some? && goal.msg.stamp > now;
      rtActiveGoal := Some(goal);
      activeTolerances := tolerances;
    }

    method GoalAcceptedCallback(goal: Goal, now: int, tolerances: Tolerances)
      modifies this
      ensures Now() == OnAccepted(config, old(Now()), goal, now, tolerances).0
      ensures log == old(log) + OnAccepted(config, old(Now()), goal, now, tolerances).1
    {
      rtHasPendingGoal := true;
      ghost var reports := Preempted(Now()).1;
      PreemptActiveGoal();
      PursueGoal(goal, now, tolerances);
      ghost var accepted := [Accepted(goal, now, tolerances)];
      log := log + accepted;
      assert log == old(log) + (reports + accepted);
    }

    /** The hold message, or the stop ramp; either way the controller is holding from now on. */
    method HoldOrDecelerate() returns (msg: Msg)
      modifies this`rtIsHolding
      ensures msg == HoldMessage(config) && rtIsHolding
    {
      rtIsHolding := true;
      msg := if config.decelerates then config.stop else config.hold;
    }

    method GoalCancelledCallback(goalId: nat)
      modifies this
      ensures Now() == OnCancelled(config, old(Now()), goalId).0
      ensures log == old(log) + OnCancelled(config, old(Now()), goalId).1
    {
      if rtActiveGoal.Some? && rtActiveGoal.value.id == goalId {
        rtHasPendingGoal := false;
        log := log + [Reported(rtActiveGoal.value, Canceled)];
        rtActiveGoal := None;
        var hold := HoldOrDecelerate();
        newTrajectoryMsg := Some(hold);
        rtClearPending := true;
      }
    }

    /** Deals with a message that has not been dealt with yet. */
    method ChooseMessage(time: int) returns (install: Option<Msg>)
      modifies this`pendingTrajMsg, this`pendingStart, this`rtActiveGoalDeferred, this`log
      ensures Now() == ChoosePhase(config, old(Now()), time).0
      ensures install == ChoosePhase(config, old(Now()), time).1
      ensures log == old(log) + ChoosePhase(config, old(Now()), time).2
    {
      install := None;
      if newTrajectoryMsg.Some? && currentTrajectory != newTrajectoryMsg && newTrajectoryMsg != pendingTrajMsg
         && !(rtHasPendingGoal && rtActiveGoal.None?)
      {
        var msg := newTrajectoryMsg.value;
        if IsInternalHold(config, msg) {
          install := Some(msg);
        } else if config.allowReplacement && currentTrajectory.Some? && msg.stamp > time {
          pendingTrajMsg, pendingStart := Some(msg), msg.stamp;
          log := log + [Deferred(msg)];
        } else {
          log := log + [Prepared(msg)];
          install := Some(msg);
          pendingTrajMsg := None;
          rtActiveGoalDeferred := false;
        }
      }
    }

    method DropDeferredAfterCancel()
      modifies this`pendingTrajMsg, this`rtActiveGoalDeferred, this`rtClearPending
      ensures Now() == ClearPhase(old(Now()))
    {
      if rtClearPending {
        rtClearPending := false;
        pendingTrajMsg := None;
        rtActiveGoalDeferred := false;
      }
    }

    method FireDeferred(chosen: Option<Msg>, time: int) returns (install: Option<Msg>)
      modifies this`pendingTrajMsg, this`rtActiveGoalDeferred, this`log
      ensures Now() == FirePhase(old(Now()), chosen, time).0
      ensures install == FirePhase(old(Now()), chosen, time).1
      ensures log == old(log) + FirePhase(old(Now()), chosen, time).2
    {
      install := chosen;
      if pendingTrajMsg.Some? && time >= pendingStart {
        log := log + [Prepared(pendingTrajMsg.value)];
        install := pendingTrajMsg;
        pendingTrajMsg := None;
        rtActiveGoalDeferred := false;
      }
    }

    method InstallMessage(install: Option<Msg>, time: int)
      modifies this`currentTrajectory, this`trajectoryStartTime, this`sampledAlready, this`log
      ensures Now() == InstallPhase(old(Now()), install, time).0
      ensures log == old(log) + InstallPhase(old(Now()), install, time).1
    {
      if install.Some? {
        currentTrajectory := install;
        trajectoryStartTime := install.value.stamp;
        sampledAlready := false;
        log := log + [Installed(install.value, time)];
      }
    }

    method ReplaceTrajectory(time: int)
      modifies this
      ensures Now() == Replace(config, old(Now()), time).0
      ensures log == old(log) + Replace(config, old(Now()), time).1
    {
      hide ChoosePhase, FirePhase, InstallPhase;
      DropDeferredAfterCancel();
      ghost var cleared := Now();
      var chosen := ChooseMessage(time);
      ghost var e1, waiting := ChoosePhase(config, cleared, time).2, Now();
      var install := FireDeferred(chosen, time);
      ghost var e2, fired := FirePhase(waiting, chosen, time).2, Now();
      InstallMessage(install, time);
      ghost var e3 := InstallPhase(fired, install, time).1;
      assert log == old(log) + (e1 + e2 + e3);
    }

    /** Moves the trajectory time; reports whether this is the first sample. */
    method AdvanceClock(tick: Tick) returns (firstSample: bool)
      requires currentTrajectory.Some?
      modifies this`trajTime, this`sampledAlready, this`trajectoryStartTime
      ensures Now() == Clock(old(Now()), tick) && firstSample == !old(sampledAlready)
    {
      firstSample := !sampledAlready;
      if firstSample {
        trajTime := tick.time;
        sampledAlready := true;
        if trajectoryStartTime == 0 {
          trajectoryStartTime := tick.time;
        }
      } else {
        trajTime := trajTime + tick.advance;
      }
    }

    method IsBeforeLastPoint(tick: Tick) returns (beforeLastPoint: bool, timeDifference: int)
      requires currentTrajectory.Some?
      ensures beforeLastPoint == BeforeLast(config, Now(), tick)
      ensures timeDifference == trajTime - EndOf(config, Now(), tick)
    {
      var msg := currentTrajectory.value;
      var lastTime := if IsInternalHold(config, msg) then tick.internalLastTime else msg.lastTime;
      timeDifference := trajTime - (trajectoryStartTime + lastTime);
      beforeLastPoint := trajTime + config.period < trajectoryStartTime + lastTime;
    }

    method CheckTolerances(tick: Tick, firstSample: bool, beforeLastPoint: bool, timeDifference: int)
      returns (violatedWhileMoving: bool, outsideGoalTolerance: bool, withinGoalTime: bool)
      requires currentTrajectory.Some? && Fits(config, Now(), tick)
      requires beforeLastPoint == BeforeLast(config, Now(), tick)
      requires timeDifference == trajTime - EndOf(config, Now(), tick)
      ensures Check(violatedWhileMoving, outsideGoalTolerance, withinGoalTime)
           == CheckJoints(config, Now(), tick, firstSample)
    {
      violatedWhileMoving, outsideGoalTolerance, withinGoalTime := false, false, true;
      for index := 0 to config.dof
        invariant violatedWhileMoving ==
          ((beforeLastPoint || firstSample) && !rtIsHolding
           && exists j :: 0 <= j < index && !Within(tick.errors[j], activeTolerances.state[j]))
        invariant outsideGoalTolerance ==
          (!beforeLastPoint && !rtIsHolding
           && exists j :: 0 <= j < index && !Within(tick.errors[j], activeTolerances.goal[j]))
        invariant withinGoalTime ==
          !(outsideGoalTolerance && activeTolerances.goalTime != 0 && timeDifference > activeTolerances.goalTime)
      {
        if (beforeLastPoint || firstSample) && !rtIsHolding
           && !Within(tick.errors[index], activeTolerances.state[index])
        {
          violatedWhileMoving := true;
        }
        if !beforeLastPoint && !rtIsHolding && !Within(tick.errors[index], activeTolerances.goal[index]) {
          outsideGoalTolerance := true;
          if activeTolerances.goalTime != 0 {
            if timeDifference > activeTolerances.goalTime {
              withinGoalTime := false;
            }
          }
        }
      }
    }

    /** Reports on the active goal and holds with the given message. */
    method FinishGoal(kind: Kind, hold: Msg)
      requires rtActiveGoal.Some?
      modifies this`rtActiveGoal, this`rtHasPendingGoal, this`newTrajectoryMsg, this`rtIsHolding, this`log
      ensures Now() == Finish(old(Now()), kind, hold).0
      ensures log == old(log) + Finish(old(Now()), kind, hold).1
    {
      log := log + [Reported(rtActiveGoal.value, kind)];
      rtActiveGoal := None;
      rtHasPendingGoal := false;
      rtIsHolding := true;
      newTrajectoryMsg := Some(hold);
    }

    method ReportResult(beforeLastPoint: bool, violatedWhileMoving: bool, outsideGoalTolerance: bool,
                        withinGoalTime: bool)
      modifies this`rtActiveGoal, this`rtHasPendingGoal, this`newTrajectoryMsg, this`rtIsHolding, this`log
      ensures Now() == JudgePhase(config, old(Now()), beforeLastPoint,
                                        Check(violatedWhileMoving, outsideGoalTolerance, withinGoalTime)).0
      ensures log == old(log) + JudgePhase(config, old(Now()), beforeLastPoint,
                                        Check(violatedWhileMoving, outsideGoalTolerance, withinGoalTime)).1
    {
      var hold := HoldMessage(config);
      if rtActiveGoal.Some? && !rtActiveGoalDeferred {
        if violatedWhileMoving {
          FinishGoal(Aborted, hold);
        } else if !beforeLastPoint {
          if !outsideGoalTolerance {
            FinishGoal(Succeeded, config.hold);
          } else if !withinGoalTime {
            FinishGoal(Aborted, hold);
          }
        }
      } else if violatedWhileMoving && !rtHasPendingGoal {
        rtIsHolding, newTrajectoryMsg := true, Some(hold);
      } else if !beforeLastPoint && !withinGoalTime && !rtHasPendingGoal {
        rtIsHolding, newTrajectoryMsg := true, Some(hold);
      }
    }

    method JudgeProgress(tick: Tick)
      requires Fits(config, Now(), tick)
      modifies this
      ensures Now() == Judge(config, old(Now()), tick).0
      ensures log == old(log) + Judge(config, old(Now()), tick).1
    {
      if currentTrajectory.None? {
        return;
      }
      hide JudgePhase, CheckJoints;
      var firstSample := AdvanceClock(tick);
      if !tick.validPoint {
        return;
      }
      var beforeLastPoint, timeDifference := IsBeforeLastPoint(tick);
      if !beforeLastPoint && !rtIsHolding && config.cmdTimeout > 0 && timeDifference > config.cmdTimeout {
        var hold := HoldOrDecelerate();
        newTrajectoryMsg := Some(hold);
      }
      var violated, outside, inTime := CheckTolerances(tick, firstSample, beforeLastPoint, timeDifference);
      ReportResult(beforeLastPoint, violated, outside, inTime);
    }

    /** One control cycle, as far as messages and goals are concerned. */
    method Update(tick: Tick)
      requires Fits(config, Now(), tick)
      modifies this
      ensures Now() == OnUpdate(config, old(Now()), tick).0
      ensures log == old(log) + OnUpdate(config, old(Now()), tick).1
    {
      if !tick.scalingReadable {
        return;
      }
      ReplaceTrajectory(tick.time);
      ghost var e1, e2 := Replace(config, old(Now()), tick.time).1, Judge(config, Now(), tick).1;
      JudgeProgress(tick);
      assert log == old(log) + (e1 + e2);
    }
  }
}
