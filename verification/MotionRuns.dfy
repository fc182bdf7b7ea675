/** What holds of every run of the motion-primitives controller: the queue never overflows, the hardware gets
    the accepted frames in order, nothing moves while the robot is being stopped, and success is reported
    only after execution was seen. */
module MotionRuns {
  import opened Options
  import opened MotionPrimitives

  // ----- The record of a run ---------------------------------------------------------------------------

  /** frames and issued count from the last consumed cancellation; a stop lasts from there until STOPPED is
      observed, and then a reset is due; executing tells whether EXECUTING was observed after the last
      success report, stop or error. */
  datatype History = History(
    frames: seq<Primitive>,
    issued: seq<Primitive>,
    stopping: bool,
    resetDue: bool,
    executing: bool,
    accepted: set<nat>,
    reported: set<nat>)

  const NOTHING_YET := History([], [], false, false, false, {}, {})

  function Record(h: History, e: Event): History {
    match e
    case Accepted(g, primitives) => h.(frames := h.frames + Frame(primitives), accepted := h.accepted + {g})
    case Rejected(_) => h
    case CancelConsumed => h.(frames := [], issued := [], stopping := true)
    case Observed(status) =>
      h.(executing := status == EXECUTING || (h.executing && status !in {ERROR, STOPPING, STOPPED}),
         stopping := h.stopping && status != STOPPED,
         resetDue := h.stopping && status == STOPPED)
    case Issued(p) => h.(issued := h.issued + [p])
    case ResetSent => h.(resetDue := false)
    case Succeeded(g) => h.(executing := false, reported := h.reported + {g})
    case Canceled(g) => h.(reported := h.reported + {g})
  }

  /** The rules that every event obeys, given what happened before it. */
  predicate Lawful(h: History, e: Event) {
    match e
    case Accepted(g, primitives) => !h.stopping && !h.resetDue && primitives != [] && g !in h.accepted
    case Rejected(_) => true
    case CancelConsumed => !h.resetDue
    case Observed(_) => !h.resetDue
    case Issued(p) => !h.stopping && !h.resetDue && h.issued + [p] <= h.frames
    case ResetSent => h.resetDue
    case Succeeded(g) => h.executing && g in h.accepted && g !in h.reported
    case Canceled(g) => g in h.accepted && g !in h.reported
  }

  function RecordAll(h: History, events: seq<Event>): History
    decreases |events|
  {
    if events == [] then h else RecordAll(Record(h, events[0]), events[1..])
  }

  predicate AllLawful(h: History, events: seq<Event>)
    decreases |events|
  {
    events == [] || (Lawful(h, events[0]) && AllLawful(Record(h, events[0]), events[1..]))
  }

  lemma {:induction false} RecordOne(h: History, e: Event)
    ensures RecordAll(h, [e]) == Record(h, e)
    ensures AllLawful(h, [e]) == Lawful(h, e)
  {
    assert [e][1..] == [];
  }

  lemma {:induction false} RecordConcat(h: History, a: seq<Event>, b: seq<Event>)
    ensures RecordAll(h, a + b) == RecordAll(RecordAll(h, a), b)
    ensures AllLawful(h, a + b) == (AllLawful(h, a) && AllLawful(RecordAll(h, a), b))
    decreases |a|
  {
    if a == [] {
      assert a + b == b;
    } else {
      assert (a + b)[0] == a[0] && (a + b)[1..] == a[1..] + b;
      RecordConcat(Record(h, a[0]), a[1..], b);
    }
  }

  // ----- The invariant --------------------------------------------------------------------------------

  predicate Stopping(s: State) {
    s.queue == [] && |s.interfaces| == INTERFACES && s.interfaces[0] == Some(Code(StopMotion))
  }

  predicate Invariant(s: State, h: History) {
    && |s.queue| <= CAPACITY && h.issued + s.queue == h.frames
    && h.stopping == s.stopRequested && !h.resetDue && h.executing == s.wasExecuting
    && |s.interfaces| == INTERFACES && (s.stopRequested ==> Stopping(s))
    && (s.hasActiveGoal ==> s.handle in h.accepted && s.handle !in h.reported)
    && h.reported <= h.accepted
  }

  predicate Good(h: History, r: (State, seq<Event>)) {
    AllLawful(h, r.1) && Invariant(r.0, RecordAll(h, r.1))
  }

  /** Each goal that arrives carries an identity of its own. */
  predicate Possible(h: History, input: Input) {
    input.GoalSent? ==> input.goal !in h.accepted
  }

  /** No push fails: what is accepted fits. */
  lemma AcceptedFits(s: State, primitives: seq<Primitive>, running: bool)
    requires Accepts(s, primitives, running)
    ensures |s.queue + Frame(primitives)| <= CAPACITY
  {
  }

  lemma GoalIsGood(s: State, h: History, goal: nat, primitives: seq<Primitive>, running: bool)
    requires Invariant(s, h) && goal !in h.accepted
    ensures Good(h, OnGoal(s, goal, primitives, running))
  {
    if Accepts(s, primitives, running) {
      RecordOne(h, Accepted(goal, primitives));
      assert h.issued + (s.queue + Frame(primitives)) == (h.issued + s.queue) + Frame(primitives);
    } else {
      RecordOne(h, Rejected(goal));
    }
  }

  lemma ConsumingIsGood(s: State, h: History)
    requires Invariant(s, h)
    ensures Good(h, ConsumeCancel(s))
  {
    RecordOne(h, CancelConsumed);
  }

  lemma StopIsGood(s: State, h: History, handleFree: bool)
    requires Invariant(s, h)
    ensures Good(Record(h, Observed(STOPPED)), AfterStop(s, handleFree))
  {
    var h1 := Record(h, Observed(STOPPED));
    var canceled := if s.hasActiveGoal && handleFree then [Canceled(s.handle)] else [];
    var reset := if s.stopRequested then [ResetSent] else [];
    RecordOne(h1, Canceled(s.handle));
    var h2 := RecordAll(h1, canceled);
    RecordOne(h2, ResetSent);
    RecordConcat(h1, canceled, reset);
  }

  lemma ObservationIsGood(s: State, h: History, status: nat, handleFree: bool)
    requires Invariant(s, h)
    ensures Good(Record(h, Observed(status)), Observe(s, status, handleFree))
  {
    if status == STOPPED {
      StopIsGood(s, h, handleFree);
    } else if status == SUCCESS {
      RecordOne(Record(h, Observed(status)), Succeeded(s.handle));
    }
  }

  lemma SupplyIsGood(s: State, h: History, ready: nat)
    requires Invariant(s, h)
    ensures Good(h, Supply(s, ready))
  {
    if ready == READY && s.queue != [] {
      RecordOne(h, Issued(s.queue[0]));
      assert s.queue == [s.queue[0]] + s.queue[1..];
      assert (h.issued + [s.queue[0]]) + s.queue[1..] == h.frames;
    }
  }

  lemma UpdateIsGood(s: State, h: History, status: Option<nat>, handleFree: bool, ready: Option<nat>)
    requires Invariant(s, h)
    ensures Good(h, OnUpdate(s, status, handleFree, ready))
  {
    ConsumingIsGood(s, h);
    var (s1, e1) := ConsumeCancel(s);
    var h1 := RecordAll(h, e1);
    if status.Some? {
      ObservationIsGood(s1, h1, status.value, handleFree);
      var (s2, e2) := Observe(s1, status.value, handleFree);
      RecordOne(h1, Observed(status.value));
      RecordConcat(h, e1, [Observed(status.value)]);
      RecordConcat(h, e1 + [Observed(status.value)], e2);
      if status.value <= STOPPED && ready.Some? {
        var h2 := RecordAll(Record(h1, Observed(status.value)), e2);
        SupplyIsGood(s2, h2, ready.value);
        RecordConcat(h, e1 + [Observed(status.value)] + e2, Supply(s2, ready.value).1);
      }
    }
  }

  lemma StepIsGood(s: State, h: History, input: Input)
    requires Invariant(s, h) && Possible(h, input)
    ensures Good(h, Step(s, input))
  {
    match input
    case GoalSent(goal, primitives, running) => GoalIsGood(s, h, goal, primitives, running);
    case CancelSent =>
    case Update(status, handleFree, ready) => UpdateIsGood(s, h, status, handleFree, ready);
  }

  // ----- Runs ---------------------------------------------------------------------------------------

  predicate PossibleRun(s: State, h: History, inputs: seq<Input>)
    decreases |inputs|
  {
    || inputs == []
    || (Possible(h, inputs[0])
        && var (next, events) := Step(s, inputs[0]); PossibleRun(next, RecordAll(h, events), inputs[1..]))
  }

  function Log(s: State, inputs: seq<Input>): seq<Event>
    decreases |inputs|
  {
    if inputs == [] then []
    else
      var (next, events) := Step(s, inputs[0]);
      events + Log(next, inputs[1..])
  }

  function After(s: State, inputs: seq<Input>): State
    decreases |inputs|
  {
    if inputs == [] then s else After(Step(s, inputs[0]).0, inputs[1..])
  }

  lemma {:induction false} RunIsGood(s: State, h: History, inputs: seq<Input>)
    requires Invariant(s, h) && PossibleRun(s, h, inputs)
    ensures AllLawful(h, Log(s, inputs))
    ensures Invariant(After(s, inputs), RecordAll(h, Log(s, inputs)))
    decreases |inputs|
  {
    if inputs != [] {
      StepIsGood(s, h, inputs[0]);
      var (next, events) := Step(s, inputs[0]);
      var h1 := RecordAll(h, events);
      RunIsGood(next, h1, inputs[1..]);
      RecordConcat(h, events, Log(next, inputs[1..]));
    }
  }

  /** A run from activation. */
  predicate Session(inputs: seq<Input>) {
    PossibleRun(Activated(), NOTHING_YET, inputs)
  }

  function SessionLog(inputs: seq<Input>): seq<Event> {
    Log(Activated(), inputs)
  }

  lemma SessionIsGood(inputs: seq<Input>)
    requires Session(inputs)
    ensures AllLawful(NOTHING_YET, SessionLog(inputs))
    ensures Invariant(After(Activated(), inputs), RecordAll(NOTHING_YET, SessionLog(inputs)))
  {
    RunIsGood(Activated(), NOTHING_YET, inputs);
  }

  // ----- First in, first out -----------------------------------------------------------------------------

  /** The frames of the goals accepted since the last consumed cancellation, one after the other. */
  function FramesSinceCancel(log: seq<Event>): seq<Primitive>
    decreases |log|
  {
    if log == [] then []
    else
      var before, e := log[..|log| - 1], log[|log| - 1];
      if e.CancelConsumed? then []
      else if e.Accepted? then FramesSinceCancel(before) + Frame(e.primitives)
      else FramesSinceCancel(before)
  }

  /** What was issued to the hardware since then. */
  function IssuedSinceCancel(log: seq<Event>): seq<Primitive>
    decreases |log|
  {
    if log == [] then []
    else
      var before, e := log[..|log| - 1], log[|log| - 1];
      if e.CancelConsumed? then []
      else if e.Issued? then IssuedSinceCancel(before) + [e.primitive]
      else IssuedSinceCancel(before)
  }

  lemma OneMoreEvent(log: seq<Event>, e: Event)
    ensures FramesSinceCancel(log + [e])
         == if e.CancelConsumed? then [] else if e.Accepted? then FramesSinceCancel(log) + Frame(e.primitives)
            else FramesSinceCancel(log)
    ensures IssuedSinceCancel(log + [e])
         == if e.CancelConsumed? then [] else if e.Issued? then IssuedSinceCancel(log) + [e.primitive]
            else IssuedSinceCancel(log)
  {
    assert (log + [e])[..|log|] == log;
  }

  lemma RecordMore(h: History, log: seq<Event>, e: Event)
    ensures RecordAll(h, log + [e]) == Record(RecordAll(h, log), e)
  {
    RecordConcat(h, log, [e]);
    RecordOne(RecordAll(h, log), e);
  }

  predicate StreamsMatch(h: History, log: seq<Event>) {
    h.frames == FramesSinceCancel(log) && h.issued == IssuedSinceCancel(log)
  }

  lemma OneMoreMatches(h: History, log: seq<Event>, e: Event)
    requires StreamsMatch(h, log)
    ensures StreamsMatch(Record(h, e), log + [e])
  {
    OneMoreEvent(log, e);
  }

  lemma {:induction false} RecordedStreams(log: seq<Event>)
    ensures StreamsMatch(RecordAll(NOTHING_YET, log), log)
    decreases |log|
  {
    if log != [] {
      var before, e := log[..|log| - 1], log[|log| - 1];
      assert log == before + [e];
      RecordedStreams(before);
      OneMoreMatches(RecordAll(NOTHING_YET, before), before, e);
      RecordMore(NOTHING_YET, before, e);
    }
  }

  /** On every run what was issued since the last consumed cancellation, followed by what is still queued,
      is the frames of the goals accepted since then; so the issued stream is a prefix of them. */
  lemma HardwareGetsTheFramesInOrder(inputs: seq<Input>)
    requires Session(inputs)
    ensures var log := SessionLog(inputs);
      && IssuedSinceCancel(log) + After(Activated(), inputs).queue == FramesSinceCancel(log)
      && IssuedSinceCancel(log) <= FramesSinceCancel(log)
      && |After(Activated(), inputs).queue| <= CAPACITY
  {
    SessionIsGood(inputs);
    RecordedStreams(SessionLog(inputs));
  }

  /** An update that finds the hardware readable and ready. */
  predicate Ready(input: Input) {
    input.Update? && input.status.Some? && input.status.value <= STOPPED && input.ready == Some(READY)
  }

  // ----- Frames can be told apart ------------------------------------------------------------------------

  function Frames(goals: seq<seq<Primitive>>): seq<Primitive>
    decreases |goals|
  {
    if goals == [] then [] else Frame(goals[0]) + Frames(goals[1..])
  }

  /** Where the first end marker stands, or the length. */
  function EndOf(stream: seq<Primitive>): (n: nat)
    ensures n <= |stream|
    decreases |stream|
  {
    if stream == [] || stream[0].kind == SequenceEnd then 0 else 1 + EndOf(stream[1..])
  }

  /** How a receiver cuts the stream into goals again. */
  function Goals(stream: seq<Primitive>): seq<seq<Primitive>>
    decreases |stream|
  {
    if stream == [] then []
    else if stream[0].kind == SequenceStart then
      var n := EndOf(stream[1..]);
      [stream[1..][..n]] + (if n + 2 <= |stream| then Goals(stream[n + 2..]) else [])
    else [[stream[0]]] + Goals(stream[1..])
  }

  lemma {:induction false} EndIsFound(primitives: seq<Primitive>, rest: seq<Primitive>)
    requires forall p :: p in primitives ==> Complete(p)
    ensures EndOf(primitives + [END] + rest) == |primitives|
    decreases |primitives|
  {
    var stream := primitives + [END] + rest;
    if primitives != [] {
      assert primitives[0] in primitives;
      assert stream[1..] == primitives[1..] + [END] + rest;
      EndIsFound(primitives[1..], rest);
    }
  }

  predicate Acceptable(goal: seq<Primitive>) {
    goal != [] && forall p :: p in goal ==> Complete(p)
  }

  lemma GoalIsCutOff(goal: seq<Primitive>, rest: seq<Primitive>)
    requires Acceptable(goal)
    ensures Goals(Frame(goal) + rest) == [goal] + Goals(rest)
  {
    var stream := Frame(goal) + rest;
    if |goal| > 1 {
      assert stream[1..] == goal + [END] + rest;
      EndIsFound(goal, rest);
      assert stream[1..][..|goal|] == goal && stream[|goal| + 2..] == rest;
    } else {
      assert goal[0] in goal && stream[1..] == rest && [stream[0]] == goal;
    }
  }

  /** The framing loses nothing: accepted goals can be read back from the stream they were put into. */
  lemma {:induction false} FramesAreUnambiguous(goals: seq<seq<Primitive>>)
    requires forall i :: 0 <= i < |goals| ==> Acceptable(goals[i])
    ensures Goals(Frames(goals)) == goals
    decreases |goals|
  {
    if goals != [] {
      GoalIsCutOff(goals[0], Frames(goals[1..]));
      FramesAreUnambiguous(goals[1..]);
    }
  }

  // ----- Stopping -------------------------------------------------------------------------------------

  lemma LawfulAt(log: seq<Event>, i: nat)
    requires AllLawful(NOTHING_YET, log) && i < |log|
    ensures Lawful(RecordAll(NOTHING_YET, log[..i]), log[i])
    ensures RecordAll(NOTHING_YET, log[..i + 1]) == Record(RecordAll(NOTHING_YET, log[..i]), log[i])
  {
    assert log == log[..i] + log[i..];
    RecordConcat(NOTHING_YET, log[..i], log[i..]);
    assert log[..i + 1] == log[..i] + [log[i]];
    RecordConcat(NOTHING_YET, log[..i], [log[i]]);
    RecordOne(RecordAll(NOTHING_YET, log[..i]), log[i]);
  }

  predicate NoStoppedIn(log: seq<Event>, i: nat, j: nat)
    requires i <= j <= |log|
  {
    forall k :: i <= k < j ==> log[k] != Observed(STOPPED)
  }

  lemma {:induction false} StopLasts(log: seq<Event>, i: nat, j: nat)
    requires AllLawful(NOTHING_YET, log) && i < j <= |log|
    requires log[i] == CancelConsumed && NoStoppedIn(log, i, j)
    ensures RecordAll(NOTHING_YET, log[..j]).stopping
    decreases j - i
  {
    LawfulAt(log, j - 1);
    if i + 1 < j {
      StopLasts(log, i, j - 1);
    }
  }

  /** On every run, from a consumed cancellation until STOPPED is observed, no primitive is issued, every new
      goal is rejected and no reset is sent. */
  lemma NothingMovesWhileStopping(inputs: seq<Input>, i: nat, j: nat)
    requires Session(inputs) && i < j < |SessionLog(inputs)|
    requires SessionLog(inputs)[i] == CancelConsumed && NoStoppedIn(SessionLog(inputs), i, j)
    ensures var e := SessionLog(inputs)[j]; !e.Issued? && !e.Accepted? && !e.ResetSent?
  {
    SessionIsGood(inputs);
    var log := SessionLog(inputs);
    StopLasts(log, i, j);
    LawfulAt(log, j);
    ResetNotDueWhileStopping(log, j);
  }

  lemma {:induction false} ResetNotDueWhileStopping(log: seq<Event>, j: nat)
    requires AllLawful(NOTHING_YET, log) && j <= |log|
    ensures var h := RecordAll(NOTHING_YET, log[..j]); !(h.stopping && h.resetDue)
  {
    if j > 0 {
      LawfulAt(log, j - 1);
      ResetNotDueWhileStopping(log, j - 1);
    }
  }

  /** All that time the motion-type interface holds STOP_MOTION and the queue stays empty. */
  lemma StopIsHeld(inputs: seq<Input>, i: nat)
    requires Session(inputs) && i < |SessionLog(inputs)|
    requires SessionLog(inputs)[i] == CancelConsumed && NoStoppedIn(SessionLog(inputs), i, |SessionLog(inputs)|)
    ensures Stopping(After(Activated(), inputs))
  {
    SessionIsGood(inputs);
    var log := SessionLog(inputs);
    StopLasts(log, i, |log|);
    assert log[..|log|] == log;
  }

  /** The first STOPPED after a consumed cancellation is answered by one reset before anything else but the
      report of the canceled goal. */
  lemma StopEndsWithOneReset(inputs: seq<Input>, i: nat, j: nat)
    requires Session(inputs) && i < j < |SessionLog(inputs)|
    requires SessionLog(inputs)[i] == CancelConsumed && NoStoppedIn(SessionLog(inputs), i, j)
    requires SessionLog(inputs)[j] == Observed(STOPPED)
    ensures var log := SessionLog(inputs);
      exists r :: j < r < |log| && log[r] == ResetSent
                  && (forall k :: j < k < r ==> log[k].Canceled? || log[k].Rejected? || log[k].Succeeded?)
  {
    SessionIsGood(inputs);
    var log := SessionLog(inputs);
    StopLasts(log, i, j);
    LawfulAt(log, j);
    var r := ResetFollows(log, j + 1);
  }

  lemma {:induction false} ResetFollows(log: seq<Event>, j: nat) returns (r: nat)
    requires AllLawful(NOTHING_YET, log) && j <= |log|
    requires RecordAll(NOTHING_YET, log[..j]).resetDue && !RecordAll(NOTHING_YET, log).resetDue
    ensures j <= r < |log| && log[r] == ResetSent
    ensures forall k :: j <= k < r ==> log[k].Canceled? || log[k].Rejected? || log[k].Succeeded?
    decreases |log| - j
  {
    assert log[..|log|] == log;
    LawfulAt(log, j);
    r := j;
    if log[j] != ResetSent {
      r := ResetFollows(log, j + 1);
    }
  }

  lemma {:induction false} NoStopWithoutCancel(log: seq<Event>, r: nat, j: nat)
    requires AllLawful(NOTHING_YET, log) && r < j <= |log| && log[r] == ResetSent
    requires forall k :: r < k < j ==> log[k] != CancelConsumed
    ensures var h := RecordAll(NOTHING_YET, log[..j]); !h.stopping && !h.resetDue
    decreases j - r
  {
    LawfulAt(log, j - 1);
    if r + 1 < j {
      NoStopWithoutCancel(log, r, j - 1);
    } else {
      ResetNotDueWhileStopping(log, r);
    }
  }

  /** Between two resets a cancellation was consumed: a stop is answered by one reset only. */
  lemma OneResetPerStop(inputs: seq<Input>, r: nat, j: nat)
    requires Session(inputs) && r < j < |SessionLog(inputs)|
    requires SessionLog(inputs)[r] == SessionLog(inputs)[j] == ResetSent
    ensures exists k :: r < k < j && SessionLog(inputs)[k] == CancelConsumed
  {
    SessionIsGood(inputs);
    var log := SessionLog(inputs);
    LawfulAt(log, j);
    if forall k :: r < k < j ==> log[k] != CancelConsumed {
      NoStopWithoutCancel(log, r, j);
    }
  }

  // ----- Reports ---------------------------------------------------------------------------------------

  predicate EndsExecution(e: Event) {
    e.Succeeded? || e == Observed(STOPPING) || e == Observed(STOPPED) || e == Observed(ERROR)
  }

  lemma {:induction false} ExecutionWasSeen(log: seq<Event>, j: nat) returns (i: nat)
    requires AllLawful(NOTHING_YET, log) && j <= |log| && RecordAll(NOTHING_YET, log[..j]).executing
    ensures i < j && log[i] == Observed(EXECUTING) && forall k :: i < k < j ==> !EndsExecution(log[k])
    decreases j
  {
    LawfulAt(log, j - 1);
    i := j - 1;
    if log[i] != Observed(EXECUTING) {
      i := ExecutionWasSeen(log, j - 1);
    }
  }

  /** On every run a goal is reported succeeded only if EXECUTING was observed after the last success report,
      stop or error. */
  lemma SuccessNeedsExecution(inputs: seq<Input>, j: nat)
    requires Session(inputs) && j < |SessionLog(inputs)| && SessionLog(inputs)[j].Succeeded?
    ensures var log := SessionLog(inputs);
      exists i :: 0 <= i < j && log[i] == Observed(EXECUTING) && forall k :: i < k < j ==> !EndsExecution(log[k])
  {
    SessionIsGood(inputs);
    var log := SessionLog(inputs);
    LawfulAt(log, j);
    var i := ExecutionWasSeen(log, j);
  }

  predicate Reports(e: Event, goal: nat) {
    e == Succeeded(goal) || e == Canceled(goal)
  }

  lemma {:induction false} ReportIsKept(log: seq<Event>, i: nat, j: nat, goal: nat)
    requires AllLawful(NOTHING_YET, log) && i < j <= |log| && Reports(log[i], goal)
    ensures goal in RecordAll(NOTHING_YET, log[..j]).reported
    decreases j - i
  {
    hide AllLawful, RecordAll, Lawful, Record;
    LawfulAt(log, j - 1);
    assert j - 1 + 1 == j;
    ReportsAreKept(RecordAll(NOTHING_YET, log[..j - 1]), log[j - 1], goal);
    if i + 1 < j {
      ReportIsKept(log, i, j - 1, goal);
    }
  }

  lemma ReportsAreKept(h: History, e: Event, goal: nat)
    ensures goal in h.reported || Reports(e, goal) ==> goal in Record(h, e).reported
  {
  }

  /** On every run a goal gets at most one report. */
  lemma OneReportPerGoal(inputs: seq<Input>, i: nat, j: nat, goal: nat)
    requires Session(inputs) && i < |SessionLog(inputs)| && j < |SessionLog(inputs)|
    requires Reports(SessionLog(inputs)[i], goal) && Reports(SessionLog(inputs)[j], goal)
    ensures i == j
  {
    SessionIsGood(inputs);
    var log := SessionLog(inputs);
    LawfulAt(log, i);
    LawfulAt(log, j);
    if i < j {
      ReportIsKept(log, i, j, goal);
    } else if j < i {
      ReportIsKept(log, j, i, goal);
    }
  }

  // ----- What a cancel report leaves to be done --------------------------------------------------------

  /** The primitives that a log hands to the hardware. */
  function IssuedIn(log: seq<Event>): seq<Primitive>
    decreases |log|
  {
    if log == [] then []
    else (if log[0].Issued? then [log[0].primitive] else []) + IssuedIn(log[1..])
  }

  lemma {:induction false} IssuedInBoth(a: seq<Event>, b: seq<Event>)
    ensures IssuedIn(a + b) == IssuedIn(a) + IssuedIn(b)
    decreases |a|
  {
    if a == [] {
      assert a + b == b;
    } else {
      assert (a + b)[0] == a[0] && (a + b)[1..] == a[1..] + b;
      IssuedInBoth(a[1..], b);
    }
  }

  lemma {:induction false} NothingIssued(log: seq<Event>)
    requires forall i :: 0 <= i < |log| ==> !log[i].Issued?
    ensures IssuedIn(log) == []
    decreases |log|
  {
    if log != [] {
      NothingIssued(log[1..]);
    }
  }

  lemma ObservationIssuesNothing(s: State, status: nat, handleFree: bool)
    ensures var (next, events) := Observe(s, status, handleFree);
      IssuedIn([Observed(status)] + events) == [] && next.queue == s.queue && next.cancelRequested == s.cancelRequested
  {
    NothingIssued([Observed(status)] + Observe(s, status, handleFree).1);
  }

  lemma SupplyIssuesTheHead(s: State, ready: nat)
    ensures var (next, events) := Supply(s, ready);
      IssuedIn(events) + next.queue == s.queue && next.cancelRequested == s.cancelRequested
  {
    if ready == READY && s.queue != [] {
      assert [Issued(s.queue[0])][1..] == [];
      assert s.queue == [s.queue[0]] + s.queue[1..];
    }
  }

  /** Every primitive that is queued without a cancellation waiting is either still queued after an update or
      issued by it. */
  lemma UpdateIssuesTheHead(s: State, status: Option<nat>, handleFree: bool, ready: Option<nat>)
    requires !s.cancelRequested
    ensures var (next, events) := OnUpdate(s, status, handleFree, ready);
      !next.cancelRequested && IssuedIn(events) + next.queue == s.queue
  {
    if status.Some? {
      var (s2, e2) := Observe(s, status.value, handleFree);
      ObservationIssuesNothing(s, status.value, handleFree);
      var observed := [] + [Observed(status.value)] + e2;
      assert observed == [Observed(status.value)] + e2;
      if status.value <= STOPPED && ready.Some? {
        SupplyIssuesTheHead(s2, ready.value);
        IssuedInBoth(observed, Supply(s2, ready.value).1);
      }
    }
  }

  /** Without a cancellation as many ready updates as primitives wait hand out exactly these, in order. */
  lemma {:induction false} ReadyUpdatesIssueTheQueue(s: State, inputs: seq<Input>)
    requires !s.cancelRequested && |inputs| >= |s.queue|
    requires forall i :: 0 <= i < |inputs| ==> Ready(inputs[i])
    ensures IssuedIn(Log(s, inputs)) == s.queue && After(s, inputs).queue == []
    decreases |inputs|
  {
    if inputs != [] {
      var Update(status, handleFree, ready) := inputs[0];
      var (next, events) := Step(s, inputs[0]);
      UpdateIssuesTheHead(s, status, handleFree, ready);
      assert next.queue == if s.queue == [] then [] else s.queue[1..];
      ReadyUpdatesIssueTheQueue(next, inputs[1..]);
      IssuedInBoth(events, Log(next, inputs[1..]));
    }
  }

  /** An update that reports a goal canceled leaves nothing to be issued, in the queue or by the update itself,
      exactly when a cancellation was waiting or the queue was empty. */
  lemma CancelReportEmptiesTheQueueExactly(s: State, status: Option<nat>, handleFree: bool, ready: Option<nat>,
                                           goal: nat)
    requires Canceled(goal) in OnUpdate(s, status, handleFree, ready).1
    ensures var (next, events) := OnUpdate(s, status, handleFree, ready);
      IssuedIn(events) + next.queue == (if s.cancelRequested then [] else s.queue)
    ensures var (next, events) := OnUpdate(s, status, handleFree, ready);
      IssuedIn(events) == [] && next.queue == [] <==> s.cancelRequested || s.queue == []
  {
    if s.cancelRequested {
      var (s1, e1) := ConsumeCancel(s);
      var (s2, e2) := Observe(s1, status.value, handleFree);
      NothingIssued(OnUpdate(s, status, handleFree, ready).1);
    } else {
      UpdateIssuesTheHead(s, status, handleFree, ready);
    }
  }

  lemma NoCancelLeft(s: State, status: Option<nat>, handleFree: bool, ready: Option<nat>)
    ensures !OnUpdate(s, status, handleFree, ready).0.cancelRequested
  {
    hide Observe, Supply;
    var s1 := ConsumeCancel(s).0;
    if status.Some? {
      ObservationIssuesNothing(s1, status.value, handleFree);
      if ready.Some? {
        SupplyIssuesTheHead(Observe(s1, status.value, handleFree).0, ready.value);
      }
    }
  }

  /** Whatever is left after such a report is really handed out: from the update on, the ready updates issue the
      whole queue that the stop from outside had found, and nothing if a cancellation was waiting. */
  lemma CanceledGoalIsIssued(s: State, handleFree: bool, ready: Option<nat>, inputs: seq<Input>, goal: nat)
    requires Canceled(goal) in OnUpdate(s, Some(STOPPED), handleFree, ready).1
    requires |inputs| >= |s.queue| && forall i :: 0 <= i < |inputs| ==> Ready(inputs[i])
    ensures var (next, events) := OnUpdate(s, Some(STOPPED), handleFree, ready);
      IssuedIn(events + Log(next, inputs)) == (if s.cancelRequested then [] else s.queue)
  {
    var (next, events) := OnUpdate(s, Some(STOPPED), handleFree, ready);
    CancelReportEmptiesTheQueueExactly(s, Some(STOPPED), handleFree, ready, goal);
    NoCancelLeft(s, Some(STOPPED), handleFree, ready);
    ReadyUpdatesIssueTheQueue(next, inputs);
    IssuedInBoth(events, Log(next, inputs));
  }

  /** Canceled is reported exactly for an active goal whose handle is free when STOPPED is observed, whether the
      controller asked for the stop or not. */
  lemma StopFromOutsideCancels(s: State, status: Option<nat>, handleFree: bool, ready: Option<nat>)
    ensures Canceled(s.handle) in OnUpdate(s, status, handleFree, ready).1
            <==> status == Some(STOPPED) && s.hasActiveGoal && handleFree
  {
    if status == Some(STOPPED) && s.hasActiveGoal && handleFree {
      assert AfterStop(ConsumeCancel(s).0, handleFree).1[0] == Canceled(s.handle);
    }
  }

  lemma {:induction false} UpdatesArePossible(s: State, h: History, inputs: seq<Input>)
    requires forall i :: 0 <= i < |inputs| ==> inputs[i].Update?
    ensures PossibleRun(s, h, inputs)
    decreases |inputs|
  {
    if inputs != [] {
      var (next, events) := Step(s, inputs[0]);
      UpdatesArePossible(next, RecordAll(h, events), inputs[1..]);
    }
  }

  /** A session that gets there: the goal is accepted while STOPPED still shows, reported canceled by an update
      that finds the hardware not ready, and issued by the next one. */
  lemma StaleStopCancelsAndIssues(p: Primitive)
    requires Complete(p)
    ensures var inputs := [GoalSent(1, [p], true), Update(Some(STOPPED), true, Some(NOT_READY)),
                           Update(Some(IDLE), true, Some(READY))];
      && Session(inputs)
      && SessionLog(inputs) == [Accepted(1, [p]), Observed(STOPPED), Canceled(1), Observed(IDLE), Issued(p)]
  {
    var send, stale, next := GoalSent(1, [p], true), Update(Some(STOPPED), true, Some(NOT_READY)),
                             Update(Some(IDLE), true, Some(READY));
    var s, s1 := Activated(), Activated().(queue := [p], handle := 1, hasActiveGoal := true);
    var inputs := [send, stale, next];
    assert inputs[1..] == [stale, next] && [stale, next][1..] == [next] && [next][1..] == [];
    assert [] + Frame([p]) == [p];
    assert Step(s, send) == (s1, [Accepted(1, [p])]);
    UpdatesArePossible(s1, RecordAll(NOTHING_YET, [Accepted(1, [p])]), [stale, next]);
    StaleStopStep(s1, p);
  }

  lemma StaleStopStep(s: State, p: Primitive)
    requires s == Activated().(queue := [p], handle := 1, hasActiveGoal := true)
    ensures Log(s, [Update(Some(STOPPED), true, Some(NOT_READY)), Update(Some(IDLE), true, Some(READY))])
         == [Observed(STOPPED), Canceled(1), Observed(IDLE), Issued(p)]
  {
    var stale, next := Update(Some(STOPPED), true, Some(NOT_READY)), Update(Some(IDLE), true, Some(READY));
    var s2 := s.(hasActiveGoal := false);
    assert [] + [Observed(STOPPED)] + ([Canceled(1)] + []) + [] == [Observed(STOPPED), Canceled(1)];
    assert Step(s, stale) == (s2, [Observed(STOPPED), Canceled(1)]);
    assert [] + [Observed(IDLE)] + [] + [Issued(p)] == [Observed(IDLE), Issued(p)];
    assert Step(s2, next).1 == [Observed(IDLE), Issued(p)];
    assert [stale, next][1..] == [next] && [next][1..] == [];
    assert Log(s2, [next]) == [Observed(IDLE), Issued(p)] + [];
  }

  // ----- What a success report leaves to be done -------------------------------------------------------

  /** Success is reported while primitives are still to be issued exactly when SUCCESS is observed for an active
      goal after some execution, with primitives in the queue and no cancellation waiting. */
  lemma SuccessIsEarlyExactly(s: State, status: Option<nat>, handleFree: bool, ready: Option<nat>)
    ensures var (next, events) := OnUpdate(s, status, handleFree, ready);
      Succeeded(s.handle) in events && IssuedIn(events) + next.queue != []
      <==> && status == Some(SUCCESS) && s.hasActiveGoal && s.wasExecuting && handleFree
           && !s.cancelRequested && s.queue != []
  {
    SuccessFollowsTheGuard(s, status, handleFree, ready);
    if s.cancelRequested {
      NothingIssued(OnUpdate(s, status, handleFree, ready).1);
    } else {
      UpdateIssuesTheHead(s, status, handleFree, ready);
    }
  }

  lemma SuccessFollowsTheGuard(s: State, status: Option<nat>, handleFree: bool, ready: Option<nat>)
    ensures Succeeded(s.handle) in OnUpdate(s, status, handleFree, ready).1
            <==> status == Some(SUCCESS) && s.hasActiveGoal && s.wasExecuting && handleFree
  {
    if status == Some(SUCCESS) && s.hasActiveGoal && s.wasExecuting && handleFree {
      assert AfterSuccess(ConsumeCancel(s).0, handleFree).1[0] == Succeeded(s.handle);
    }
  }

  /** The last n of each are the same, where n is the length of the shorter one. */
  predicate EndAlike(a: seq<Primitive>, b: seq<Primitive>) {
    if |a| <= |b| then a == b[|b| - |a|..] else b == a[|a| - |b|..]
  }

  lemma {:induction false} LatestFrameIsLast(log: seq<Event>, i: nat)
    requires i < |log| && log[i].Accepted?
    requires forall k :: i < k < |log| ==> !log[k].Accepted? && !log[k].CancelConsumed?
    ensures var frames, frame := FramesSinceCancel(log), Frame(log[i].primitives);
      |frame| <= |frames| && frames[|frames| - |frame|..] == frame
    decreases |log|
  {
    if i + 1 < |log| {
      LatestFrameIsLast(log[..|log| - 1], i);
    }
  }

  lemma EndsOfOneStream(issued: seq<Primitive>, queue: seq<Primitive>, frame: seq<Primitive>)
    requires var frames := issued + queue; |frame| <= |frames| && frames[|frames| - |frame|..] == frame
    ensures EndAlike(queue, frame)
  {
    var frames := issued + queue;
    assert frames[|issued|..] == queue;
    if |queue| <= |frame| {
      assert frame[|frame| - |queue|..] == frames[|frames| - |queue|..];
    } else {
      assert queue[|queue| - |frame|..] == frames[|frames| - |frame|..];
    }
  }

  /** On every run what waits at the end of the queue is the end of the latest accepted goal's frame: until as many
      primitives are left as it has, nothing of the goal has been issued. */
  lemma QueueEndsWithTheGoal(inputs: seq<Input>, i: nat)
    requires Session(inputs) && i < |SessionLog(inputs)| && SessionLog(inputs)[i].Accepted?
    requires var log := SessionLog(inputs);
      forall k :: i < k < |log| ==> !log[k].Accepted? && !log[k].CancelConsumed?
    ensures EndAlike(After(Activated(), inputs).queue, Frame(SessionLog(inputs)[i].primitives))
  {
    var log := SessionLog(inputs);
    HardwareGetsTheFramesInOrder(inputs);
    LatestFrameIsLast(log, i);
    EndsOfOneStream(IssuedSinceCancel(log), After(Activated(), inputs).queue, Frame(log[i].primitives));
  }

  lemma OneMore(s: State, h: History, input: Input, next: State, events: seq<Event>, inputs: seq<Input>,
                log: seq<Event>)
    requires Step(s, input) == (next, events) && Possible(h, input)
    requires PossibleRun(next, RecordAll(h, events), inputs) && Log(next, inputs) == log
    ensures PossibleRun(s, h, [input] + inputs) && Log(s, [input] + inputs) == events + log
  {
    assert ([input] + inputs)[1..] == inputs;
  }

  /** An update with everything readable and nothing to cancel. */
  function Tick(status: nat, ready: nat): Input { Update(Some(status), true, Some(ready)) }

  lemma QuietUpdate(s: State, status: nat, ready: nat, s2: State, e2: seq<Event>, s3: State, e3: seq<Event>)
    requires !s.cancelRequested && status <= STOPPED
    requires Observe(s, status, true) == (s2, e2) && Supply(s2, ready) == (s3, e3)
    ensures Step(s, Tick(status, ready)) == (s3, [Observed(status)] + (e2 + e3))
  {
    assert [] + [Observed(status)] + e2 + e3 == [Observed(status)] + (e2 + e3);
  }

  /** The second goal waits while the first one's primitive is executed. */
  function WaitingTicks(): seq<Input> {
    [Tick(EXECUTING, NOT_READY)] + ([Tick(SUCCESS, NOT_READY)] + ([Tick(IDLE, READY)] + []))
  }

  lemma WaitingGoalSucceeds(s: State, h: History, q: Primitive)
    requires s.queue == [q] && s.hasActiveGoal && s.handle == 2 && !s.cancelRequested
    ensures PossibleRun(s, h, WaitingTicks())
    ensures Log(s, WaitingTicks())
         == [Observed(EXECUTING), Observed(SUCCESS), Succeeded(2), Observed(IDLE), Issued(q)]
  {
    hide PossibleRun, Log, RecordAll;
    var s1 := s.(wasExecuting := true);
    var s2 := s.(wasExecuting := false, hasActiveGoal := false);
    var s3 := s2.(queue := [], interfaces := Written(q, s2.interfaces));
    var e1, e2, e3 := [Observed(EXECUTING)], [Observed(SUCCESS), Succeeded(2)], [Observed(IDLE), Issued(q)];
    QuietUpdate(s, EXECUTING, NOT_READY, s1, [], s1, []);
    QuietUpdate(s1, SUCCESS, NOT_READY, s2, [Succeeded(2)], s2, []);
    SupplyLast(s2, q);
    QuietUpdate(s2, IDLE, READY, s2, [], s3, [Issued(q)]);
    assert [Observed(EXECUTING)] + ([] + []) == e1;
    assert [Observed(SUCCESS)] + ([Succeeded(2)] + []) == e2;
    assert [Observed(IDLE)] + ([] + [Issued(q)]) == e3;
    hide Step, Observe, Supply;
    var h2 := RecordAll(RecordAll(h, e1), e2);
    NoMore(s3, RecordAll(h2, e3));
    OneMore(s2, h2, Tick(IDLE, READY), s3, e3, [], []);
    OneMore(s1, RecordAll(h, e1), Tick(SUCCESS, NOT_READY), s2, e2, [Tick(IDLE, READY)] + [], e3 + []);
    OneMore(s, h, Tick(EXECUTING, NOT_READY), s1, e1, [Tick(SUCCESS, NOT_READY)] + ([Tick(IDLE, READY)] + []),
            e2 + (e3 + []));
  }

  lemma NoMore(s: State, h: History)
    ensures PossibleRun(s, h, []) && Log(s, []) == []
  {
  }

  /** The stop from outside cancels the first goal, and the next update issues its primitive all the same. */
  function Leftover(inputs: seq<Input>): seq<Input> {
    [Tick(STOPPED, NOT_READY)] + ([Tick(IDLE, READY)] + inputs)
  }

  function LeftoverLog(p: Primitive): seq<Event> {
    [Observed(STOPPED), Canceled(1)] + [Observed(IDLE), Issued(p)]
  }

  lemma LeftoverIsIssued(s: State, h: History, p: Primitive, next: State, inputs: seq<Input>)
    requires s.queue == [p] && s.hasActiveGoal && s.handle == 1
    requires !s.cancelRequested && !s.stopRequested && !s.wasExecuting
    requires next == s.(hasActiveGoal := false, queue := [], interfaces := Written(p, s.interfaces))
    requires PossibleRun(next, RecordAll(h, LeftoverLog(p)), inputs)
    ensures PossibleRun(s, h, Leftover(inputs)) && Log(s, Leftover(inputs)) == LeftoverLog(p) + Log(next, inputs)
  {
    hide PossibleRun, Log, RecordAll;
    var s1 := s.(hasActiveGoal := false);
    var e1, e2, log := [Observed(STOPPED), Canceled(1)], [Observed(IDLE), Issued(p)], Log(next, inputs);
    AfterStopFromOutside(s);
    SupplyLast(s1, p);
    QuietUpdate(s, STOPPED, NOT_READY, s1, [Canceled(1)], s1, []);
    QuietUpdate(s1, IDLE, READY, s1, [], next, [Issued(p)]);
    assert [Observed(STOPPED)] + ([Canceled(1)] + []) == e1;
    assert [Observed(IDLE)] + ([] + [Issued(p)]) == e2;
    hide Step, Observe, Supply;
    RecordConcat(h, e1, e2);
    OneMore(s1, RecordAll(h, e1), Tick(IDLE, READY), next, e2, inputs, log);
    OneMore(s, h, Tick(STOPPED, NOT_READY), s1, e1, [Tick(IDLE, READY)] + inputs, e2 + log);
    assert e1 + (e2 + log) == LeftoverLog(p) + log;
  }

  function LeftoverSession(p: Primitive, q: Primitive): seq<Input> {
    [GoalSent(1, [p], true)] + Leftover([GoalSent(2, [q], true)] + WaitingTicks())
  }

  /** A session that reports a goal succeeded before any of it is issued: what was executed is left over from a goal
      that had been reported canceled. */
  lemma LeftoverCountsAsExecution(p: Primitive, q: Primitive)
    requires Complete(p) && Complete(q)
    ensures Session(LeftoverSession(p, q))
    ensures SessionLog(LeftoverSession(p, q))
         == [Accepted(1, [p])] + LeftoverLog(p) + [Accepted(2, [q])]
            + [Observed(EXECUTING), Observed(SUCCESS), Succeeded(2), Observed(IDLE), Issued(q)]
  {
    hide PossibleRun, Log, RecordAll, WaitingTicks, Leftover, LeftoverLog, Written;
    var s0 := Activated();
    var s1 := s0.(queue := [p], handle := 1, hasActiveGoal := true);
    var s2 := s1.(hasActiveGoal := false, queue := [], interfaces := Written(p, s1.interfaces));
    var s3 := s2.(queue := [q], handle := 2, hasActiveGoal := true);
    var e1, e2 := [Accepted(1, [p])], [Accepted(2, [q])];
    assert [] + Frame([p]) == [p] && [] + Frame([q]) == [q];
    assert Step(s0, GoalSent(1, [p], true)) == (s1, e1);
    assert Step(s2, GoalSent(2, [q], true)) == (s3, e2);
    hide Step;
    var h1 := RecordAll(NOTHING_YET, e1);
    var h2 := RecordAll(h1, LeftoverLog(p));
    OnlyTheFirst(p);
    WaitingGoalSucceeds(s3, RecordAll(h2, e2), q);
    var waiting := Log(s3, WaitingTicks());
    OneMore(s2, h2, GoalSent(2, [q], true), s3, e2, WaitingTicks(), waiting);
    LeftoverIsIssued(s1, h1, p, s2, [GoalSent(2, [q], true)] + WaitingTicks());
    OneMore(s0, NOTHING_YET, GoalSent(1, [p], true), s1, e1, Leftover([GoalSent(2, [q], true)] + WaitingTicks()),
            LeftoverLog(p) + (e2 + waiting));
    assert e1 + (LeftoverLog(p) + (e2 + waiting)) == e1 + LeftoverLog(p) + e2 + waiting;
  }

  /** The history before the second goal knows of the first one only. */
  lemma OnlyTheFirst(p: Primitive)
    ensures RecordAll(RecordAll(NOTHING_YET, [Accepted(1, [p])]), LeftoverLog(p)).accepted == {1}
  {
    RecordOne(NOTHING_YET, Accepted(1, [p]));
    var h := RecordAll(NOTHING_YET, [Accepted(1, [p])]);
    UpdatesAcceptNothing(h, LeftoverLog(p));
  }

  lemma {:induction false} UpdatesAcceptNothing(h: History, events: seq<Event>)
    requires forall i :: 0 <= i < |events| ==> !events[i].Accepted?
    ensures RecordAll(h, events).accepted == h.accepted
    decreases |events|
  {
    if events != [] {
      UpdatesAcceptNothing(Record(h, events[0]), events[1..]);
    }
  }

  lemma AfterStopFromOutside(s: State)
    requires s.hasActiveGoal && !s.stopRequested && !s.wasExecuting
    ensures Observe(s, STOPPED, true) == (s.(hasActiveGoal := false), [Canceled(s.handle)])
  {
    assert [Canceled(s.handle)] + [] == [Canceled(s.handle)];
  }

  lemma SupplyLast(s: State, p: Primitive)
    requires s.queue == [p]
    ensures Supply(s, READY) == (s.(queue := [], interfaces := Written(p, s.interfaces)), [Issued(p)])
  {
    assert [p][1..] == [];
  }

  /** A goal is accepted if and only if the controller runs, has no goal and is not stopping, and the goal has
      primitives that are complete and, with both markers, leave the queue within 1024; a refused goal changes
      nothing. */
  lemma AcceptedExactly(s: State, goal: nat, primitives: seq<Primitive>, running: bool)
    ensures var (s', events) := OnGoal(s, goal, primitives, running);
      && (events == [Accepted(goal, primitives)]
          <==> && running && !s.hasActiveGoal && !s.stopRequested
               && 1 <= |primitives| && |s.queue| + |primitives| + 2 <= 1024
               && forall i :: 0 <= i < |primitives| ==>
                    match primitives[i].kind
                    case LinearJoint => |primitives[i].joints| > 0
                    case LinearCartesian => |primitives[i].poses| > 0
                    case CircularCartesian => |primitives[i].poses| == 2
                    case _ => false)
      && (events != [Accepted(goal, primitives)] ==> events == [Rejected(goal)] && s' == s)
      && (events == [Accepted(goal, primitives)] ==>
            && s'.hasActiveGoal && s'.handle == goal && s'.interfaces == s.interfaces
            && s'.queue == s.queue + if |primitives| == 1 then primitives
                                     else [Primitive(SequenceStart, [], [], 0.0, [])] + primitives
                                          + [Primitive(SequenceEnd, [], [], 0.0, [])])
  {
  }

  /** An update consumes a cancellation, before anything else, if and only if one came in since the last. */
  lemma CancellationIsConsumed(s: State, status: Option<nat>, handleFree: bool, ready: Option<nat>)
    ensures OnUpdate(OnCancel(s), status, handleFree, ready).1 != []
            && OnUpdate(OnCancel(s), status, handleFree, ready).1[0] == CancelConsumed
    ensures !OnUpdate(s, status, handleFree, ready).0.cancelRequested
    ensures CancelConsumed in OnUpdate(s, status, handleFree, ready).1 <==> s.cancelRequested
  {
    hide Written, Helper;
    NoneConsumed(ConsumeCancel(s).0, status, handleFree, ready);
    hide Observe, Supply;
  }

  lemma NoneConsumed(s: State, status: Option<nat>, handleFree: bool, ready: Option<nat>)
    ensures status.Some? ==> CancelConsumed !in Observe(s, status.value, handleFree).1
                             && Observe(s, status.value, handleFree).0.cancelRequested == s.cancelRequested
    ensures status.Some? && ready.Some? ==>
              var s2 := Observe(s, status.value, handleFree).0;
              CancelConsumed !in Supply(s2, ready.value).1
              && Supply(s2, ready.value).0.cancelRequested == s2.cancelRequested
  {
    hide Written, Helper;
  }

  /** Execution is noted from status 1 until a success is reported or one of 3, 4 and 5 is observed. */
  lemma ExecutionIsNoted(s: State, status: Option<nat>, handleFree: bool, ready: Option<nat>)
    ensures OnUpdate(s, status, handleFree, ready).0.wasExecuting
            <==> if status == Some(1) then true
                 else s.wasExecuting && !(status.Some? && 3 <= status.value <= 5)
                      && !(status == Some(2) && s.hasActiveGoal && handleFree)
    ensures Succeeded(s.handle) in OnUpdate(s, status, handleFree, ready).1
            <==> status == Some(2) && s.hasActiveGoal && s.wasExecuting && handleFree
    ensures OnUpdate(s, status, handleFree, ready).0.stopRequested
            <==> (s.stopRequested || s.cancelRequested) && status != Some(5)
    ensures OnUpdate(s, status, handleFree, ready).0.hasActiveGoal
            <==> s.hasActiveGoal && !(handleFree && (status == Some(5) || (status == Some(2) && s.wasExecuting)))
  {
    SuccessFollowsTheGuard(s, status, handleFree, ready);
    hide Observe, Supply, AfterSuccess, AfterStop, ConsumeCancel;
    var s1 := ConsumeCancel(s).0;
    ConsumingKeeps(s);
    if status.Some? {
      ObservationIsNoted(s1, status.value, handleFree);
      if ready.Some? {
        SupplyKeeps(Observe(s1, status.value, handleFree).0, ready.value);
      }
    }
  }

  lemma ConsumingKeeps(s: State)
    ensures var s1 := ConsumeCancel(s).0;
      && s1.wasExecuting == s.wasExecuting && s1.hasActiveGoal == s.hasActiveGoal && s1.handle == s.handle
      && s1.stopRequested == (s.stopRequested || s.cancelRequested)
  {
  }

  lemma SupplyKeeps(s: State, ready: nat)
    ensures var s3 := Supply(s, ready).0;
      s3.wasExecuting == s.wasExecuting && s3.hasActiveGoal == s.hasActiveGoal && s3.stopRequested == s.stopRequested
  {
  }

  lemma ObservationIsNoted(s: State, status: nat, handleFree: bool)
    ensures var s2 := Observe(s, status, handleFree).0;
      && s2.wasExecuting == (if status == 1 then true
                             else s.wasExecuting && !(3 <= status <= 5)
                                  && !(status == 2 && s.hasActiveGoal && handleFree))
      && s2.stopRequested == (s.stopRequested && status != 5)
      && s2.hasActiveGoal == (s.hasActiveGoal && !(handleFree && (status == 5 || (status == 2 && s.wasExecuting))))
  {
  }

  // ----- What the command interfaces hold ----------------------------------------------------------------

  /** Nothing but a motion type. */
  predicate OnlyKind(interfaces: seq<Option<Value>>, kind: Kind) {
    |interfaces| == 25 && interfaces[0] == Some(Code(kind)) && forall i :: 1 <= i < 25 ==> interfaces[i] == None
  }

  /** Seven interfaces from the given one on hold a pose, its position first. */
  predicate ShowsPose(interfaces: seq<Option<Value>>, first: nat, pose: Pose)
    requires first + 7 <= |interfaces|
  {
    interfaces[first..first + 7]
    == [Some(Number(pose.x)), Some(Number(pose.y)), Some(Number(pose.z)), Some(Number(pose.qx)),
        Some(Number(pose.qy)), Some(Number(pose.qz)), Some(Number(pose.qw))]
  }

  /** An interface that the rest of the primitive does not write holds a joint position or what it held. */
  predicate ShowsJointOrKeeps(p: Primitive, before: seq<Option<Value>>, after: seq<Option<Value>>, i: nat)
    requires 1 <= i < |before| == |after|
  {
    after[i] == if i <= |p.joints| then Some(Number(p.joints[i - 1])) else before[i]
  }

  /** The last argument of that name is the one that counts. */
  ghost predicate ShowsArgument(p: Primitive, before: seq<Option<Value>>, after: seq<Option<Value>>, name: string,
                                i: nat)
    requires 1 <= i < |before| == |after|
  {
    && (forall k :: 0 <= k < |p.arguments| && p.arguments[k].name == name
                    && (forall j :: k < j < |p.arguments| ==> p.arguments[j].name != name) ==>
          after[i] == Some(Number(p.arguments[k].value)))
    && ((forall k :: 0 <= k < |p.arguments| ==> p.arguments[k].name != name) ==>
          ShowsJointOrKeeps(p, before, after, i))
  }

  /** The interfaces hold the primitive: its type, its joints, the goal pose, for a circle the pose on the way, the
      blend radius and the three arguments. */
  ghost predicate Shows(p: Primitive, before: seq<Option<Value>>, after: seq<Option<Value>>)
    requires |before| == |after| == 25
  {
    && after[0] == Some(Code(p.kind))
    && (forall i :: 1 <= i < 7 ==> ShowsJointOrKeeps(p, before, after, i))
    && (if p.poses != [] then ShowsPose(after, 7, p.poses[0])
        else forall i :: 7 <= i < 14 ==> ShowsJointOrKeeps(p, before, after, i))
    && (if p.kind == CircularCartesian && |p.poses| == 2 then ShowsPose(after, 14, p.poses[1])
        else forall i :: 14 <= i < 21 ==> ShowsJointOrKeeps(p, before, after, i))
    && after[21] == Some(Number(p.blendRadius))
    && ShowsArgument(p, before, after, "velocity", 22) && ShowsArgument(p, before, after, "acceleration", 23)
    && ShowsArgument(p, before, after, "move_time", 24)
  }

  lemma {:induction false} LastArgument(arguments: seq<Argument>, name: string, k: nat)
    requires k < |arguments| && arguments[k].name == name
    requires forall j :: k < j < |arguments| ==> arguments[j].name != name
    ensures Argued(arguments, name) == Some(arguments[k].value)
    decreases |arguments|
  {
    if k + 1 < |arguments| {
      LastArgument(arguments[..|arguments| - 1], name, k);
    }
  }

  lemma {:induction false} NoArgument(arguments: seq<Argument>, name: string)
    requires forall k :: 0 <= k < |arguments| ==> arguments[k].name != name
    ensures Argued(arguments, name) == None
    decreases |arguments|
  {
    if arguments != [] {
      NoArgument(arguments[..|arguments| - 1], name);
    }
  }

  lemma ArgumentShown(p: Primitive, before: seq<Option<Value>>, i: nat)
    requires |before| == 25 && 22 <= i < 25
    ensures ShowsArgument(p, before, Written(p, before), ArgumentName(i), i)
  {
    var name := ArgumentName(i);
    forall k | 0 <= k < |p.arguments| && p.arguments[k].name == name
               && forall j :: k < j < |p.arguments| ==> p.arguments[j].name != name
      ensures Written(p, before)[i] == Some(Number(p.arguments[k].value))
    {
      LastArgument(p.arguments, name, k);
    }
    if forall k :: 0 <= k < |p.arguments| ==> p.arguments[k].name != name {
      NoArgument(p.arguments, name);
    }
  }

  lemma PosesShown(p: Primitive, before: seq<Option<Value>>)
    requires |before| == 25
    ensures var after := Written(p, before);
      && (p.poses != [] ==> ShowsPose(after, 7, p.poses[0]))
      && (p.kind == CircularCartesian && |p.poses| == 2 ==> ShowsPose(after, 14, p.poses[1]))
  {
    hide Argued, ArgumentName;
    var after := Written(p, before);
    if p.poses != [] {
      PoseWritten(after, 7, p.poses[0]);
      if HasVia(p) {
        PoseWritten(after, 14, p.poses[1]);
      }
    }
  }

  predicate ComponentAt(after: seq<Option<Value>>, first: nat, pose: Pose, k: nat)
    requires first + 7 <= |after| && k < 7
  {
    after[first + k] == Some(Number(Component(pose, k)))
  }

  lemma PoseWritten(after: seq<Option<Value>>, first: nat, pose: Pose)
    requires first + 7 <= |after| && forall k :: 0 <= k < 7 ==> ComponentAt(after, first, pose, k)
    ensures ShowsPose(after, first, pose)
  {
    assert ComponentAt(after, first, pose, 0) && ComponentAt(after, first, pose, 1);
    assert ComponentAt(after, first, pose, 2) && ComponentAt(after, first, pose, 3);
    assert ComponentAt(after, first, pose, 4) && ComponentAt(after, first, pose, 5);
    assert ComponentAt(after, first, pose, 6);
  }

  lemma JointsShown(p: Primitive, before: seq<Option<Value>>, i: nat)
    requires |before| == 25 && 1 <= i < 21
    requires 7 <= i < 14 ==> p.poses == []
    requires 14 <= i ==> !(p.kind == CircularCartesian && |p.poses| == 2)
    ensures ShowsJointOrKeeps(p, before, Written(p, before), i)
  {
  }

  lemma WrittenShows(p: Primitive, before: seq<Option<Value>>)
    requires |before| == 25
    ensures Shows(p, before, Written(p, before))
  {
    hide ShowsArgument, ShowsPose, ShowsJointOrKeeps, Argued;
    var after := Written(p, before);
    assert ArgumentName(22) == "velocity" && ArgumentName(23) == "acceleration" && ArgumentName(24) == "move_time";
    ArgumentShown(p, before, 22);
    ArgumentShown(p, before, 23);
    ArgumentShown(p, before, 24);
    PosesShown(p, before);
    forall i | 1 <= i < 21 && (7 <= i < 14 ==> p.poses == [])
               && (14 <= i ==> !(p.kind == CircularCartesian && |p.poses| == 2))
      ensures ShowsJointOrKeeps(p, before, after, i)
    {
      JointsShown(p, before, i);
    }
    assert after[21] == Some(Number(p.blendRadius));
  }

  lemma HelperIsAlone(kind: Kind)
    ensures OnlyKind(Helper(kind), kind)
  {
  }

  /** What an update's events say of the interfaces after it: a primitive that was issued stands there, a reset or a
      stop stands there alone, and without any of these nothing was written. */
  predicate Told(events: seq<Event>, before: seq<Option<Value>>, after: seq<Option<Value>>) {
    && (ResetSent in events ==> OnlyKind(after, ResetStop))
    && (CancelConsumed in events && ResetSent !in events ==> OnlyKind(after, StopMotion))
    && (CancelConsumed !in events && ResetSent !in events && IssuedIn(events) == [] ==> after == before)
  }

  lemma ConsumingTells(s: State)
    ensures var (s1, e1) := ConsumeCancel(s);
      && (CancelConsumed in e1 <==> s.cancelRequested) && ResetSent !in e1 && IssuedIn(e1) == []
      && s1.stopRequested == (s.cancelRequested || s.stopRequested)
      && (if s.cancelRequested then OnlyKind(s1.interfaces, StopMotion) && s1.queue == [] else s1 == s)
  {
    HelperIsAlone(StopMotion);
    NothingIssued(ConsumeCancel(s).1);
  }

  lemma ObservingTells(s: State, status: nat, handleFree: bool)
    ensures var (s2, e2) := Observe(s, status, handleFree);
      && CancelConsumed !in e2 && (ResetSent in e2 <==> status == 5 && s.stopRequested) && s2.queue == s.queue
      && IssuedIn([Observed(status)] + e2) == []
      && (if ResetSent in e2 then OnlyKind(s2.interfaces, ResetStop) else s2.interfaces == s.interfaces)
  {
    HelperIsAlone(ResetStop);
    ObservationIssuesNothing(s, status, handleFree);
    if status == STOPPED && s.stopRequested {
      var e2 := Observe(s, status, handleFree).1;
      assert e2[|e2| - 1] == ResetSent;
    }
  }

  lemma SupplyingTells(s: State, ready: nat)
    requires |s.interfaces| == 25
    ensures var (s3, e3) := Supply(s, ready);
      && CancelConsumed !in e3 && ResetSent !in e3
      && (if ready == 1 && s.queue != [] then
            e3 == [Issued(s.queue[0])] && IssuedIn(e3) == [s.queue[0]] && |s3.interfaces| == 25
            && Shows(s.queue[0], s.interfaces, s3.interfaces)
          else e3 == [] && s3 == s)
  {
    if s.queue != [] {
      WrittenShows(s.queue[0], s.interfaces);
      assert [Issued(s.queue[0])][1..] == [];
    }
  }

  lemma NothingQueuedWhileStopping(s: State, h: History)
    requires Invariant(s, h)
    ensures |s.interfaces| == 25 && (s.stopRequested ==> s.queue == [])
  {
  }

  lemma TogetherTold(e1: seq<Event>, e2: seq<Event>, before: seq<Option<Value>>, middle: seq<Option<Value>>,
                     after: seq<Option<Value>>)
    requires |before| == 25 && CancelConsumed !in e2 && ResetSent !in e1
    requires if CancelConsumed in e1 then OnlyKind(middle, StopMotion) else middle == before
    requires if ResetSent in e2 then OnlyKind(after, ResetStop) else after == middle
    ensures Told(e1 + e2, before, after) && |after| == 25
    ensures CancelConsumed in e1 + e2 <==> CancelConsumed in e1
    ensures ResetSent in e1 + e2 <==> ResetSent in e2
  {
  }

  lemma BeforeSupply(s: State, h: History, status: nat, handleFree: bool)
    requires Invariant(s, h)
    ensures var (s1, e1) := ConsumeCancel(s); var (s2, e2) := Observe(s1, status, handleFree);
      var observed := e1 + [Observed(status)] + e2;
      && |s2.interfaces| == 25 && Told(observed, s.interfaces, s2.interfaces) && IssuedIn(observed) == []
      && (CancelConsumed in observed <==> s.cancelRequested)
      && (ResetSent in observed <==> status == 5 && (s.cancelRequested || s.stopRequested))
      && s2.queue == (if s.cancelRequested || s.stopRequested then [] else s.queue)
  {
    hide ConsumeCancel, Observe, IssuedIn, OnlyKind, Told, Stopping;
    var (s1, e1) := ConsumeCancel(s);
    var (s2, e2) := Observe(s1, status, handleFree);
    ConsumingTells(s);
    ObservingTells(s1, status, handleFree);
    NothingQueuedWhileStopping(s, h);
    assert e1 + [Observed(status)] + e2 == e1 + ([Observed(status)] + e2);
    IssuedInBoth(e1, [Observed(status)] + e2);
    TogetherTold(e1, [Observed(status)] + e2, s.interfaces, s1.interfaces, s2.interfaces);
  }

  lemma ToldMore(observed: seq<Event>, e3: seq<Event>, before: seq<Option<Value>>, middle: seq<Option<Value>>,
                 after: seq<Option<Value>>)
    requires Told(observed, before, middle) && IssuedIn(observed) == []
    requires CancelConsumed !in e3 && ResetSent !in e3
    requires if IssuedIn(e3) == [] then after == middle else CancelConsumed !in observed && ResetSent !in observed
    ensures Told(observed + e3, before, after) && IssuedIn(observed + e3) == IssuedIn(e3)
    ensures CancelConsumed in observed + e3 <==> CancelConsumed in observed
    ensures ResetSent in observed + e3 <==> ResetSent in observed
    ensures IssuedIn(e3) != [] ==> middle == before
  {
    IssuedInBoth(observed, e3);
  }

  /** On every run the interfaces hold what the log of the update says. While a stop goes on nothing is queued, so a
      reset is never overwritten by a primitive in the same update. */
  lemma UpdateTells(s: State, h: History, status: Option<nat>, handleFree: bool, ready: Option<nat>)
    requires Invariant(s, h)
    ensures var (next, events) := OnUpdate(s, status, handleFree, ready);
      && |next.interfaces| == 25 && Told(events, s.interfaces, next.interfaces)
      && (forall p :: IssuedIn(events) == [p] ==> Shows(p, s.interfaces, next.interfaces))
      && |IssuedIn(events)| <= 1
    ensures var events := OnUpdate(s, status, handleFree, ready).1;
      && (CancelConsumed in events <==> s.cancelRequested)
      && (ResetSent in events <==> status == Some(5) && (s.cancelRequested || s.stopRequested))
      && (IssuedIn(events) != [] <==> && !s.cancelRequested && s.queue != [] && status.Some? && status.value <= 5
                                      && ready == Some(1))
  {
    hide ConsumeCancel, Observe, Supply, OnlyKind, Shows, IssuedIn, Told;
    var (s1, e1) := ConsumeCancel(s);
    ConsumingTells(s);
    if status.None? {
      OnlyConsumed(s);
    } else {
      BeforeSupply(s, h, status.value, handleFree);
      if status.value <= STOPPED && ready.Some? {
        var (s2, e2) := Observe(s1, status.value, handleFree);
        var (s3, e3) := Supply(s2, ready.value);
        SupplyingTells(s2, ready.value);
        NothingInNothing();
        ToldMore(e1 + [Observed(status.value)] + e2, e3, s.interfaces, s2.interfaces, s3.interfaces);
      }
    }
  }

  lemma NothingInNothing()
    ensures IssuedIn([]) == []
  {
  }

  lemma OnlyConsumed(s: State)
    requires |s.interfaces| == 25
    ensures var (s1, e1) := ConsumeCancel(s); |s1.interfaces| == 25 && Told(e1, s.interfaces, s1.interfaces)
  {
    ConsumingTells(s);
  }

  /** Stated for sessions: goals and cancellations write nothing, and updates what their events say. */
  lemma InterfacesTell(inputs: seq<Input>, input: Input)
    requires Session(inputs)
    ensures var s := After(Activated(), inputs); var (next, events) := Step(s, input);
      && |next.interfaces| == |s.interfaces| == 25
      && (if input.Update? then
            && Told(events, s.interfaces, next.interfaces)
            && forall p :: Issued(p) in events ==> Shows(p, s.interfaces, next.interfaces)
          else next.interfaces == s.interfaces)
  {
    hide OnUpdate, Told, Shows, Invariant, IssuedIn, After;
    SessionIsGood(inputs);
    var s, h := After(Activated(), inputs), RecordAll(NOTHING_YET, SessionLog(inputs));
    NothingQueuedWhileStopping(s, h);
    if input.Update? {
      StepTells(s, h, input.status, input.handleFree, input.ready);
    }
  }

  lemma StepTells(s: State, h: History, status: Option<nat>, handleFree: bool, ready: Option<nat>)
    requires Invariant(s, h)
    ensures var (next, events) := OnUpdate(s, status, handleFree, ready);
      && |next.interfaces| == |s.interfaces| == 25 && Told(events, s.interfaces, next.interfaces)
      && forall p :: Issued(p) in events ==> Shows(p, s.interfaces, next.interfaces)
  {
    NothingQueuedWhileStopping(s, h);
    UpdateTells(s, h, status, handleFree, ready);
    hide OnUpdate, Told, Shows, Invariant, IssuedIn;
    var (next, events) := OnUpdate(s, status, handleFree, ready);
    forall p | Issued(p) in events
      ensures Shows(p, s.interfaces, next.interfaces)
    {
      IssuedInLog(events, p);
      assert IssuedIn(events) == [p];
    }
  }

  lemma {:induction false} IssuedInLog(log: seq<Event>, p: Primitive)
    requires Issued(p) in log
    ensures p in IssuedIn(log)
    decreases |log|
  {
    if log[0] != Issued(p) {
      IssuedInLog(log[1..], p);
    }
  }
}
