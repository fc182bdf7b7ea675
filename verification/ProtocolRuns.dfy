/** What holds of every run of the protocol, with no premise on the order of the inputs: each goal gets one
    report, each message is completed and installed once and in its turn, and a deferred message keeps
    to its stamp. */
module ProtocolRuns {
  import opened Options
  import opened GoalProtocol

  // ----- Invariant of every run --------------------------------------------------------------------

  predicate External(c: Config, m: Option<Msg>) {
    m.Some? && !IsInternalHold(c, m.value)
  }

  /** Neither deferred nor prepared so far. */
  predicate Untouched(h: History, m: Msg) {
    m !in h.deferred && m !in h.prepared
  }

  predicate MessagesOk(c: Config, s: State, h: History) {
    && s.newMsg.Some?
    && (External(c, s.newMsg) ==>
          && s.newMsg.value in h.seen
          && (s.newMsg == s.current || s.newMsg == s.pending || Untouched(h, s.newMsg.value)))
    && (s.pending.Some? ==>
          && External(c, s.pending) && s.pendingStart == s.pending.value.stamp
          && s.pending.value in h.seen && s.pending.value in h.deferred
          && s.pending.value !in h.prepared && s.pending.value !in h.superseded
          && (External(c, s.newMsg) && s.newMsg != s.pending ==> Untouched(h, s.newMsg.value)))
    && (External(c, s.current) ==> s.current.value in h.prepared)
    && (s.clearPending && External(c, s.newMsg) ==> Untouched(h, s.newMsg.value))
    && (s.isHolding <==> IsInternalHold(c, s.newMsg.value))
    && h.deferred <= h.seen && h.prepared == h.installed <= h.seen && h.superseded <= h.deferred
  }

  predicate GoalsOk(s: State, h: History) {
    && (s.hasPendingGoal <==> s.active.Some?)
    && (s.active.Some? ==> s.active.value !in h.reported)
    && h.accepted == h.reported + (if s.active.Some? then {s.active.value} else {})
  }

  predicate Invariant(c: Config, s: State, h: History) {
    && MessagesOk(c, s, h) && GoalsOk(s, h)
    && |s.tolerances.state| == |s.tolerances.goal| == c.dof
  }

  /** The rules that every event obeys, given what happened before it. */
  predicate Lawful(c: Config, h: History, e: Event) {
    match e
    case Received(m) => IsFresh(c, h, m)
    case Accepted(g, _, _) => IsFresh(c, h, g.msg) && g !in h.accepted
    case Deferred(m) => !IsInternalHold(c, m) && m in h.seen && m !in h.deferred && m !in h.prepared
    case Prepared(m) => !IsInternalHold(c, m) && m in h.seen && m !in h.prepared && m !in h.superseded
    case Installed(m, time) =>
      IsInternalHold(c, m)
      || (m in h.prepared && m !in h.installed && m !in h.superseded && (m in h.deferred ==> time >= m.stamp))
    case Reported(g, _) => g in h.accepted && g !in h.reported
  }

  predicate AllLawful(c: Config, h: History, events: seq<Event>)
    decreases |events|
  {
    events == [] || (Lawful(c, h, events[0]) && AllLawful(c, Record(c, h, events[0]), events[1..]))
  }

  // ----- One step keeps the invariant ----------------------------------------------------------------

  lemma {:induction false} RecordOne(c: Config, h: History, e: Event)
    ensures RecordAll(c, h, [e]) == Record(c, h, e)
    ensures AllLawful(c, h, [e]) == Lawful(c, h, e)
  {
    assert [e][1..] == [];
  }

  lemma {:induction false} RecordTwo(c: Config, h: History, a: Event, b: Event)
    ensures RecordAll(c, h, [a, b]) == Record(c, Record(c, h, a), b)
    ensures AllLawful(c, h, [a, b]) == (Lawful(c, h, a) && Lawful(c, Record(c, h, a), b))
  {
    assert [a, b][1..] == [b];
    RecordOne(c, Record(c, h, a), b);
  }

  lemma {:induction false} RecordConcat(c: Config, h: History, a: seq<Event>, b: seq<Event>)
    ensures RecordAll(c, h, a + b) == RecordAll(c, RecordAll(c, h, a), b)
    ensures AllLawful(c, h, a + b) == (AllLawful(c, h, a) && AllLawful(c, RecordAll(c, h, a), b))
    decreases |a|
  {
    if a == [] {
      assert a + b == b;
    } else {
      assert (a + b)[0] == a[0] && (a + b)[1..] == a[1..] + b;
      RecordConcat(c, Record(c, h, a[0]), a[1..], b);
    }
  }

  /** What a step has to show: lawful events that lead from one good state to another. */
  predicate Good(c: Config, h: History, r: (State, seq<Event>)) {
    AllLawful(c, h, r.1) && Invariant(c, r.0, RecordAll(c, h, r.1))
  }

  lemma ActivationIsGood(c: Config, tolerances: Tolerances)
    requires |tolerances.state| == |tolerances.goal| == c.dof
    ensures Invariant(c, Activated(c, tolerances), NOTHING_YET)
  {
    assert NOTHING_YET.accepted == NOTHING_YET.reported;
  }

  lemma TopicIsGood(c: Config, s: State, h: History, m: Msg, valid: bool, subscriberActive: bool)
    requires Invariant(c, s, h) && IsFresh(c, h, m)
    ensures Good(c, h, OnTopic(s, m, valid, subscriberActive))
  {
    RecordOne(c, h, Received(m));
  }

  lemma AcceptanceIsGood(c: Config, s: State, h: History, goal: Goal, now: int, tolerances: Tolerances)
    requires Invariant(c, s, h) && Possible(c, s, h, GoalAccepted(goal, now, tolerances))
    ensures Good(c, h, OnAccepted(c, s, goal, now, tolerances))
  {
    var accepted := Accepted(goal, now, tolerances);
    if s.active.Some? {
      RecordTwo(c, h, Reported(s.active.value, Aborted), accepted);
    } else {
      RecordOne(c, h, accepted);
      assert OnAccepted(c, s, goal, now, tolerances).1 == [accepted];
    }
  }

  lemma CancellationIsGood(c: Config, s: State, h: History, goalId: nat)
    requires Invariant(c, s, h)
    ensures Good(c, h, OnCancelled(c, s, goalId))
  {
    if s.active.Some? {
      RecordOne(c, h, Reported(s.active.value, Canceled));
      hide RecordAll, AllLawful;
    }
  }

  // An update either leaves the installed message alone, installs the hold, defers the latest message,
  // installs it, or installs the message whose time has come.

  predicate Due(s: State, time: int) {
    s.pending.Some? && time >= s.pendingStart
  }

  predicate Defers(c: Config, s: State, time: int) {
    && Looks(s) && !IsInternalHold(c, s.newMsg.value)
    && c.allowReplacement && s.current.Some? && s.newMsg.value.stamp > time
  }

  function Install(s: State, m: Msg): State {
    s.(current := Some(m), startTime := m.stamp, sampled := false)
  }

  /** The outcome of the phases that deal with messages, once a cancellation has been taken note of. */
  function Replaced(c: Config, s: State, time: int): (State, seq<Event>) {
    if Looks(s) && !IsInternalHold(c, s.newMsg.value) && !Defers(c, s, time) then
      (Install(s.(pending := None, activeDeferred := false), s.newMsg.value),
       [Prepared(s.newMsg.value), Installed(s.newMsg.value, time)])
    else if Defers(c, s, time) then
      (s.(pending := s.newMsg, pendingStart := s.newMsg.value.stamp), [Deferred(s.newMsg.value)])
    else if Due(s, time) then
      (Install(s.(pending := None, activeDeferred := false), s.pending.value),
       [Prepared(s.pending.value), Installed(s.pending.value, time)])
    else if Looks(s) then (Install(s, s.newMsg.value), [Installed(s.newMsg.value, time)])
    else (s, [])
  }

  lemma ReplaceIsReplaced(c: Config, s: State, time: int)
    ensures Replace(c, s, time) == Replaced(c, ClearPhase(s), time)
  {
    var cleared := ClearPhase(s);
    var (chosen, install, e1) := ChoosePhase(c, cleared, time);
    var (fired, install', e2) := FirePhase(chosen, install, time);
    var (installed, e3) := InstallPhase(fired, install', time);
    assert Replace(c, s, time) == (installed, e1 + e2 + e3);
    assert e1 + e2 + e3 == Replaced(c, cleared, time).1;
  }

  lemma ClearingIsGood(c: Config, s: State, h: History)
    requires Invariant(c, s, h)
    ensures Invariant(c, ClearPhase(s), h) && !ClearPhase(s).clearPending
  {
  }

  lemma NewMessageIsGood(c: Config, s: State, h: History, time: int)
    requires Invariant(c, s, h) && !s.clearPending
    requires Looks(s) && !IsInternalHold(c, s.newMsg.value)
    ensures Good(c, h, Replaced(c, s, time))
  {
    var m := s.newMsg.value;
    if Defers(c, s, time) {
      RecordOne(c, h, Deferred(m));
    } else {
      RecordTwo(c, h, Prepared(m), Installed(m, time));
    }
  }

  lemma FiringIsGood(c: Config, s: State, h: History, time: int)
    requires Invariant(c, s, h) && !s.clearPending
    requires !(Looks(s) && !IsInternalHold(c, s.newMsg.value)) && Due(s, time)
    ensures Good(c, h, Replaced(c, s, time))
  {
    RecordTwo(c, h, Prepared(s.pending.value), Installed(s.pending.value, time));
  }

  lemma HoldIsGood(c: Config, s: State, h: History, time: int)
    requires Invariant(c, s, h) && !s.clearPending
    requires Looks(s) ==> IsInternalHold(c, s.newMsg.value)
    requires !Due(s, time)
    ensures Good(c, h, Replaced(c, s, time))
  {
    if Looks(s) {
      RecordOne(c, h, Installed(s.newMsg.value, time));
    }
  }

  lemma ReplacementIsGood(c: Config, s: State, h: History, time: int)
    requires Invariant(c, s, h)
    ensures Good(c, h, Replace(c, s, time))
  {
    ReplaceIsReplaced(c, s, time);
    ClearingIsGood(c, s, h);
    var cleared := ClearPhase(s);
    if Looks(cleared) && !IsInternalHold(c, cleared.newMsg.value) {
      NewMessageIsGood(c, cleared, h, time);
    } else if Due(cleared, time) {
      FiringIsGood(c, cleared, h, time);
    } else {
      HoldIsGood(c, cleared, h, time);
    }
  }

  // The verdict touches only the goal, the latest message and the clock.

  lemma HoldingIsGood(c: Config, s: State, h: History, m: Msg)
    requires Invariant(c, s, h) && IsInternalHold(c, m)
    ensures Invariant(c, StartHolding(s, m), h)
  {
  }

  lemma FinishIsGood(c: Config, s: State, h: History, kind: Kind, m: Msg)
    requires Invariant(c, s, h) && IsInternalHold(c, m) && s.active.Some?
    ensures Good(c, h, Finish(s, kind, m))
  {
    RecordOne(c, h, Reported(s.active.value, kind));
  }

  lemma VerdictIsGood(c: Config, s: State, h: History, before: bool, k: Check)
    requires Invariant(c, s, h)
    ensures Good(c, h, JudgePhase(c, s, before, k))
  {
    HoldingIsGood(c, s, h, HoldMessage(c));
    if s.active.Some? {
      FinishIsGood(c, s, h, Aborted, HoldMessage(c));
      FinishIsGood(c, s, h, Succeeded, c.hold);
    }
  }

  lemma JudgementIsGood(c: Config, s: State, h: History, tick: Tick)
    requires Invariant(c, s, h) && Fits(c, s, tick)
    ensures Good(c, h, Judge(c, s, tick))
  {
    if s.current.Some? {
      var clocked := Clock(s, tick);
      assert Invariant(c, clocked, h);
      if tick.validPoint {
        HoldingIsGood(c, clocked, h, HoldMessage(c));
        var t := TimeoutPhase(c, clocked, tick);
        VerdictIsGood(c, t, h, BeforeLast(c, t, tick), CheckJoints(c, t, tick, !s.sampled));
      }
    }
  }

  lemma UpdateIsGood(c: Config, s: State, h: History, tick: Tick)
    requires Invariant(c, s, h) && Fits(c, s, tick)
    ensures Good(c, h, OnUpdate(c, s, tick))
  {
    if tick.scalingReadable {
      var (replaced, e1) := Replace(c, s, tick.time);
      ReplacementIsGood(c, s, h, tick.time);
      var h1 := RecordAll(c, h, e1);
      JudgementIsGood(c, replaced, h1, tick);
      RecordConcat(c, h, e1, Judge(c, replaced, tick).1);
    }
  }

  /** Every step obeys the rules and keeps the invariant. */
  lemma StepIsGood(c: Config, s: State, h: History, input: Input)
    requires Invariant(c, s, h) && Possible(c, s, h, input)
    ensures Good(c, h, Step(c, s, input))
  {
    match input
    case TopicMessage(m, valid, subscriberActive) => TopicIsGood(c, s, h, m, valid, subscriberActive);
    case GoalAccepted(goal, now, tolerances) => AcceptanceIsGood(c, s, h, goal, now, tolerances);
    case GoalCancelled(goalId) => CancellationIsGood(c, s, h, goalId);
    case Update(tick) => UpdateIsGood(c, s, h, tick);
  }

  lemma {:induction false} RunIsGood(c: Config, s: State, h: History, inputs: seq<Input>)
    requires Invariant(c, s, h) && PossibleRun(c, s, h, inputs)
    ensures AllLawful(c, h, Log(c, s, h, inputs))
    ensures Invariant(c, After(c, s, h, inputs).0, After(c, s, h, inputs).1)
    ensures After(c, s, h, inputs).1 == RecordAll(c, h, Log(c, s, h, inputs))
    decreases |inputs|
  {
    if inputs != [] {
      StepIsGood(c, s, h, inputs[0]);
      var (next, events) := Step(c, s, inputs[0]);
      var h1 := RecordAll(c, h, events);
      RunIsGood(c, next, h1, inputs[1..]);
      RecordConcat(c, h, events, Log(c, next, h1, inputs[1..]));
    }
  }

  // ----- What the rules mean for the log ----------------------------------------------------------------

  lemma LawfulAt(c: Config, h: History, events: seq<Event>, i: nat)
    requires AllLawful(c, h, events) && i < |events|
    ensures Lawful(c, RecordAll(c, h, events[..i]), events[i])
  {
    assert events == events[..i] + events[i..];
    RecordConcat(c, h, events[..i], events[i..]);
  }

  /** What a records, b records too. */
  predicate Kept(a: History, b: History) {
    && a.deferred <= b.deferred && a.prepared <= b.prepared && a.installed <= b.installed
    && a.superseded <= b.superseded && a.accepted <= b.accepted && a.reported <= b.reported
  }

  lemma {:induction false} HistoryGrows(c: Config, h: History, events: seq<Event>)
    ensures Kept(h, RecordAll(c, h, events))
    decreases |events|
  {
    if events != [] {
      HistoryGrows(c, Record(c, h, events[0]), events[1..]);
    }
  }

  /** An event at i is on record at every later j. */
  lemma OnRecord(c: Config, h: History, events: seq<Event>, i: nat, j: nat)
    requires i < j <= |events|
    ensures Kept(Record(c, RecordAll(c, h, events[..i]), events[i]), RecordAll(c, h, events[..j]))
  {
    var before := RecordAll(c, h, events[..i]);
    assert events[..j] == events[..i] + ([events[i]] + events[i + 1..j]);
    RecordConcat(c, h, events[..i], [events[i]] + events[i + 1..j]);
    RecordConcat(c, before, [events[i]], events[i + 1..j]);
    RecordOne(c, before, events[i]);
    HistoryGrows(c, Record(c, before, events[i]), events[i + 1..j]);
  }

  lemma {:induction false} PreparedInLog(c: Config, h: History, events: seq<Event>, m: Msg)
    requires m in RecordAll(c, h, events).prepared && m !in h.prepared
    ensures Prepared(m) in events
    decreases |events|
  {
    if m in Record(c, h, events[0]).prepared {
      assert events[0] == Prepared(m);
    } else {
      PreparedInLog(c, Record(c, h, events[0]), events[1..], m);
    }
  }

  lemma {:induction false} AcceptedInLog(c: Config, h: History, events: seq<Event>, g: Goal)
    requires g in RecordAll(c, h, events).accepted && g !in h.accepted
    ensures exists now, t :: Accepted(g, now, t) in events
    decreases |events|
  {
    if g in Record(c, h, events[0]).accepted {
      assert events[0] == Accepted(g, events[0].now, events[0].tolerances);
    } else {
      AcceptedInLog(c, Record(c, h, events[0]), events[1..], g);
      var now, t :| Accepted(g, now, t) in events[1..];
      assert Accepted(g, now, t) in events;
    }
  }

  /** A run of the controller from activation. */
  predicate Session(c: Config, tolerances: Tolerances, inputs: seq<Input>) {
    && |tolerances.state| == |tolerances.goal| == c.dof
    && PossibleRun(c, Activated(c, tolerances), NOTHING_YET, inputs)
  }

  function SessionLog(c: Config, tolerances: Tolerances, inputs: seq<Input>): seq<Event>
    requires Session(c, tolerances, inputs)
  {
    Log(c, Activated(c, tolerances), NOTHING_YET, inputs)
  }

  lemma SessionIsLawful(c: Config, tolerances: Tolerances, inputs: seq<Input>)
    requires Session(c, tolerances, inputs)
    ensures AllLawful(c, NOTHING_YET, SessionLog(c, tolerances, inputs))
  {
    ActivationIsGood(c, tolerances);
    RunIsGood(c, Activated(c, tolerances), NOTHING_YET, inputs);
  }

  /** On every run a goal is reported at most once, and only after it was accepted. */
  lemma OneReportPerGoal(c: Config, tolerances: Tolerances, inputs: seq<Input>, j: nat)
    requires Session(c, tolerances, inputs)
    requires j < |SessionLog(c, tolerances, inputs)| && SessionLog(c, tolerances, inputs)[j].Reported?
    ensures var log := SessionLog(c, tolerances, inputs);
      && (exists now, t :: Accepted(log[j].goal, now, t) in log[..j])
      && (forall i :: 0 <= i < |log| && log[i].Reported? && log[i].goal == log[j].goal ==> i == j)
  {
    var log := SessionLog(c, tolerances, inputs);
    SessionIsLawful(c, tolerances, inputs);
    LawfulAt(c, NOTHING_YET, log, j);
    AcceptedInLog(c, NOTHING_YET, log[..j], log[j].goal);
    forall i | 0 <= i < |log| && log[i].Reported? && log[i].goal == log[j].goal
      ensures i == j
    {
      if i < j {
        OnRecord(c, NOTHING_YET, log, i, j);
      } else if i > j {
        OnRecord(c, NOTHING_YET, log, j, i);
        LawfulAt(c, NOTHING_YET, log, i);
      }
    }
  }

  /** On every run the accepted goals are those already reported and the active one, if any. */
  lemma GoalsAreAccountedFor(c: Config, tolerances: Tolerances, inputs: seq<Input>)
    requires Session(c, tolerances, inputs)
    ensures var (s, h) := After(c, Activated(c, tolerances), NOTHING_YET, inputs);
      && h.accepted == h.reported + (if s.active.Some? then {s.active.value} else {})
      && (s.active.Some? ==> s.active.value !in h.reported)
      && (s.hasPendingGoal <==> s.active.Some?)
      && h == RecordAll(c, NOTHING_YET, SessionLog(c, tolerances, inputs))
  {
    ActivationIsGood(c, tolerances);
    RunIsGood(c, Activated(c, tolerances), NOTHING_YET, inputs);
  }

  /** On every run an external message is completed and reordered at most once, and before the only time
      it is installed. */
  lemma PreparedOnceThenInstalled(c: Config, tolerances: Tolerances, inputs: seq<Input>, j: nat)
    requires Session(c, tolerances, inputs)
    requires j < |SessionLog(c, tolerances, inputs)|
    ensures var log := SessionLog(c, tolerances, inputs);
      && (log[j].Prepared? ==> log[j] !in log[..j] && !IsInternalHold(c, log[j].msg))
      && (log[j].Installed? && !IsInternalHold(c, log[j].msg) ==>
            && Prepared(log[j].msg) in log[..j]
            && forall i :: 0 <= i < j && log[i].Installed? ==> log[i].msg != log[j].msg)
  {
    var log := SessionLog(c, tolerances, inputs);
    SessionIsLawful(c, tolerances, inputs);
    LawfulAt(c, NOTHING_YET, log, j);
    if log[j].Prepared? && log[j] in log[..j] {
      var i: nat :| i < j && log[i] == log[j];
      OnRecord(c, NOTHING_YET, log, i, j);
    }
    if log[j].Installed? && !IsInternalHold(c, log[j].msg) {
      PreparedInLog(c, NOTHING_YET, log[..j], log[j].msg);
      forall i | 0 <= i < j && log[i].Installed?
        ensures log[i].msg != log[j].msg
      {
        OnRecord(c, NOTHING_YET, log, i, j);
      }
    }
  }

  /** On every run a deferred message is not installed before its stamp, and not at all once another
      external message has been deferred or installed. */
  lemma DeferredWaitsForItsStamp(c: Config, tolerances: Tolerances, inputs: seq<Input>, i: nat, j: nat)
    requires Session(c, tolerances, inputs)
    requires i < j < |SessionLog(c, tolerances, inputs)|
    requires var log := SessionLog(c, tolerances, inputs);
      log[i].Deferred? && log[j].Installed? && log[j].msg == log[i].msg
    ensures var log := SessionLog(c, tolerances, inputs);
      && log[j].time >= log[i].msg.stamp
      && forall k :: i < k < j ==>
           && !log[k].Deferred?
           && !(log[k].Installed? && !IsInternalHold(c, log[k].msg))
  {
    var log := SessionLog(c, tolerances, inputs);
    SessionIsLawful(c, tolerances, inputs);
    LawfulAt(c, NOTHING_YET, log, i);
    LawfulAt(c, NOTHING_YET, log, j);
    OnRecord(c, NOTHING_YET, log, i, j);
    forall k | i < k < j
      ensures !log[k].Deferred? && !(log[k].Installed? && !IsInternalHold(c, log[k].msg))
    {
      OnRecord(c, NOTHING_YET, log, i, k);
      OnRecord(c, NOTHING_YET, log, k, j);
    }
  }

  // ----- Nothing is lost -------------------------------------------------------------------------------

  /** On every run the controller is holding exactly while the latest message is its own hold. */
  lemma HoldingExactlyOnHold(c: Config, tolerances: Tolerances, inputs: seq<Input>)
    requires Session(c, tolerances, inputs)
    ensures var s := After(c, Activated(c, tolerances), NOTHING_YET, inputs).0;
      s.newMsg.Some? && (s.isHolding <==> IsInternalHold(c, s.newMsg.value))
  {
    ActivationIsGood(c, tolerances);
    RunIsGood(c, Activated(c, tolerances), NOTHING_YET, inputs);
  }

  /** An external message that no update has dealt with is installed by the next one, or deferred if blending
      allows it and its stamp lies ahead; it discards whatever was deferred before. */
  lemma NewMessageIsTaken(c: Config, s: State, h: History, time: int)
    requires Invariant(c, s, h) && External(c, s.newMsg) && s.newMsg != s.current && s.newMsg != s.pending
    ensures var m := s.newMsg.value;
      var (next, events) := Replace(c, s, time);
      && (Installed(m, time) in events <==> !(c.allowReplacement && s.current.Some? && m.stamp > time))
      && (Installed(m, time) !in events ==> Deferred(m) in events && next.current == s.current)
      && (next.current == Some(m) || next.pending == Some(m))
  {
    ReplaceIsReplaced(c, s, time);
  }

  /** While a goal is pending that is not active yet, a new message is looked at as little as if there were none. */
  lemma WaitingGoalBlocks(c: Config, s: State, time: int)
    requires s.hasPendingGoal && s.active.None?
    ensures var (next, events) := Replace(c, s, time);
      var (next', events') := Replace(c, s.(newMsg := None), time);
      next == next'.(newMsg := s.newMsg) && events == events'
  {
  }

  /** A deferred message that nothing external has followed is installed by the first update that is not
      earlier than its stamp, unless a cancellation came in. */
  lemma DeferredFiresWhenDue(c: Config, s: State, h: History, time: int)
    requires Invariant(c, s, h) && s.pending.Some? && (External(c, s.newMsg) ==> s.newMsg == s.pending)
    ensures var m := s.pending.value;
      Installed(m, time) in Replace(c, s, time).1 <==> time >= m.stamp && !s.clearPending
  {
    ReplaceIsReplaced(c, s, time);
  }

  /** The update after a cancellation has dropped the deferred message, installs no external message and
      leaves the hold installed. */
  lemma CancellationTakesEffect(c: Config, s: State, h: History, goalId: nat, time: int)
    requires Invariant(c, s, h) && s.active.Some? && s.active.value.id == goalId
    ensures var cancelled := OnCancelled(c, s, goalId).0;
      var (next, events) := Replace(c, cancelled, time);
      && next.pending.None? && next.current == Some(HoldMessage(c)) && next.isHolding
      && forall m :: Prepared(m) !in events
  {
    ReplaceIsReplaced(c, OnCancelled(c, s, goalId).0, time);
  }
}
