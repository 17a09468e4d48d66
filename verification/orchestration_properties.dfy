/** What holds of every run of the orchestration loop. */
module OrchestrationProperties {
  import opened Texts
  import opened OrchestrationSpec

  function Front<T>(s: seq<T>): seq<T>
    requires s != []
  {
    s[..|s| - 1]
  }

  /** A run is a shorter run and one more cycle. */
  lemma UnfoldView(c: Config, v: View, logs: seq<CycleLog>)
    requires logs != [] && ValidCycles(c, v, logs)
    ensures ValidCycles(c, v, Front(logs)) && ValidCycle(c, RunView(c, v, Front(logs)), Last(logs))
    ensures Front(logs) != [] ==> Decision(c, v, Front(logs)) == CONTINUE
    ensures RunView(c, v, logs) == CycleView(c, RunView(c, v, Front(logs)), Last(logs))
  {
    hide CycleView, ValidCycle, Evaluate, OutcomeOf;
  }

  lemma Unfold(c: Config, v: View, logs: seq<CycleLog>)
    requires logs != [] && ValidCycles(c, v, logs)
    ensures ValidCycles(c, v, Front(logs)) && ValidCycle(c, RunView(c, v, Front(logs)), Last(logs))
    ensures RunView(c, v, logs) == CycleView(c, RunView(c, v, Front(logs)), Last(logs))
    ensures RunItems(c, v, logs) == RunItems(c, v, Front(logs)) + CycleItems(c, RunView(c, v, Front(logs)), Last(logs))
  {
    hide CycleView, CycleItems, ValidCycle, Evaluate, OutcomeOf;
  }

  /** What the stop policy checked when it said to continue. */
  lemma Continued(c: Config, v: View, logs: seq<CycleLog>)
    requires logs != [] && ValidCycles(c, v, logs) && Decision(c, v, logs) == CONTINUE
    ensures ValidCycle(c, RunView(c, v, Front(logs)), Last(logs))
    ensures !Last(logs).cancelled && !OutcomeOf(Last(logs).runtime, Last(logs).execution).fatal
    ensures var w := RunView(c, v, logs);
            && (w.history != [] ==> !Last(w.history).objectiveCompleted)
            && (c.policy.maxFailures.Some? ==> Failures(w.history) < c.policy.maxFailures.value)
            && w.currentCycle < c.policy.maxCycles
  {
    hide CycleView, ValidCycle, OutcomeOf, RunView;
  }

  lemma Answered(c: Config, v: View, log: CycleLog)
    requires ValidCycle(c, v, log)
    ensures log.runtime != [] && !Last(log.runtime).Executed?
    ensures Last(log.runtime).Planned? ==> log.execution != [] && !Last(log.execution).Planned?
  {
  }

  // ------------------------------------------------------------ the shape of the history

  /** Cycle numbers count from one, and each record has either an execution or an error. */
  predicate HistoryShaped(history: seq<CycleRecord>) {
    forall k | 0 <= k < |history| :: RecordShaped(history[k], k + 1)
  }

  predicate RecordShaped(r: CycleRecord, cycle: nat) {
    r.cycle == cycle && (r.execution.Some? <==> r.error.None?) && (r.objectiveCompleted ==> r.error.None?)
  }

  ghost predicate Fresh(v: View) {
    v.currentCycle == 0 && v.history == [] && v.lastExecution.None?
  }

  lemma CycleShape(c: Config, v: View, log: CycleLog)
    requires ValidCycle(c, v, log)
    ensures var w := CycleView(c, v, log);
            && w.currentCycle == v.currentCycle + 1 && w.objective == v.objective && w.startedAt == v.startedAt
            && w.history != [] && w.history == v.history + [Last(w.history)]
            && var r := Last(w.history);
               && RecordShaped(r, v.currentCycle + 1) && r.finishedAt == log.finishedAt
               && r.startedAt == (if v.history == [] then v.startedAt else Last(v.history).finishedAt)
               && r.durationMs == r.finishedAt - r.startedAt
               && r.error == OutcomeOf(log.runtime, log.execution).error
               && r.objectiveCompleted == OutcomeOf(log.runtime, log.execution).objectiveCompleted
               && w.lastExecution == (if r.execution.Some? then r.execution else v.lastExecution)
  {
    hide ValidCall, Waited;
  }

  /** One more cycle adds one record, which starts where the one before it ended. */
  lemma Step(c: Config, v: View, logs: seq<CycleLog>)
    requires logs != [] && ValidCycles(c, v, logs)
    ensures ValidCycles(c, v, Front(logs))
    ensures var before, after := RunView(c, v, Front(logs)), RunView(c, v, logs);
            && after.currentCycle == before.currentCycle + 1
            && after.objective == before.objective && after.startedAt == before.startedAt
            && after.history != [] && after.history == before.history + [Last(after.history)]
            && Front(after.history) == before.history
            && var r := Last(after.history);
               && RecordShaped(r, before.currentCycle + 1) && r.finishedAt == Last(logs).finishedAt
               && r.startedAt == (if before.history == [] then before.startedAt else Last(before.history).finishedAt)
               && r.durationMs == r.finishedAt - r.startedAt
               && after.lastExecution == (if r.execution.Some? then r.execution else before.lastExecution)
  {
    UnfoldView(c, v, logs);
    CycleShape(c, RunView(c, v, Front(logs)), Last(logs));
    hide RunView, ValidCycles, CycleView, ValidCycle, OutcomeOf, RecordShaped;
  }

  lemma ShapeOfOneMore(h: seq<CycleRecord>, r: CycleRecord)
    requires HistoryShaped(h) && RecordShaped(r, |h| + 1)
    ensures HistoryShaped(h + [r])
  {
  }

  lemma {:induction false} RunShape(c: Config, v: View, logs: seq<CycleLog>)
    requires Fresh(v) && ValidCycles(c, v, logs)
    ensures var w := RunView(c, v, logs);
            && w.currentCycle == |logs| == |w.history| && w.objective == v.objective && w.startedAt == v.startedAt
            && HistoryShaped(w.history)
            && (forall k | 0 <= k < |logs| :: w.history[k].finishedAt == logs[k].finishedAt)
    decreases |logs|
  {
    if logs != [] {
      Step(c, v, logs);
      hide RunView, ValidCycles, HistoryShaped, RecordShaped;
      RunShape(c, v, Front(logs));
      var h := RunView(c, v, Front(logs)).history;
      var r := Last(RunView(c, v, logs).history);
      ShapeOfOneMore(h, r);
      EndsOfOneMore(h, r, logs);
    }
  }

  lemma EndsOfOneMore(h: seq<CycleRecord>, r: CycleRecord, logs: seq<CycleLog>)
    requires logs != [] && |h| == |logs| - 1 && r.finishedAt == Last(logs).finishedAt
    requires forall k | 0 <= k < |h| :: h[k].finishedAt == Front(logs)[k].finishedAt
    ensures forall k | 0 <= k < |logs| :: (h + [r])[k].finishedAt == logs[k].finishedAt
  {
    assert forall k | 0 <= k < |h| :: Front(logs)[k] == logs[k];
  }

  // ------------------------------------------------------------ events

  function EventOf(item: Item): seq<(EventType, nat)> {
    match item
    case Emitted(event, cycle) => [(event, cycle)]
    case _ => []
  }

  function Events(items: seq<Item>): seq<(EventType, nat)> {
    if items == [] then [] else Events(Front(items)) + EventOf(Last(items))
  }

  lemma FewEvents(a: Item, b: Item)
    ensures Events([]) == [] && Events([a]) == EventOf(a) && Events([a, b]) == EventOf(a) + EventOf(b)
  {
    assert Front([a]) == [] && Front([a, b]) == [a];
    assert Events([a]) == Events([]) + EventOf(a);
  }

  /** CYCLE_STARTED, REPLANNED from the second cycle on when asked for, then how the cycle went. */
  function EventsOfRecord(c: Config, r: CycleRecord): seq<(EventType, nat)> {
    [(CYCLE_STARTED, r.cycle)]
    + (if Replan(c, r.cycle) then [(REPLANNED, r.cycle)] else [])
    + (if r.error.Some? then [(CYCLE_FAILED, r.cycle)]
       else [(EXECUTION_COMPLETED, r.cycle)] + if r.objectiveCompleted then [(OBJECTIVE_REACHED, r.cycle)] else [])
  }

  function EventsOfHistory(c: Config, history: seq<CycleRecord>): seq<(EventType, nat)> {
    if history == [] then [] else EventsOfHistory(c, Front(history)) + EventsOfRecord(c, Last(history))
  }

  lemma {:induction false} EventsConcat(a: seq<Item>, b: seq<Item>)
    ensures Events(a + b) == Events(a) + Events(b)
  {
    hide EventOf;
    if b == [] {
      assert a + b == a;
    } else {
      EventsConcat(a, Front(b));
      assert Front(a + b) == a + Front(b);
    }
  }

  lemma {:induction false} CallsEmitNothing(retry: RetryPolicy, v: View, ask: Ask, replies: seq<Reply>)
    ensures Events(CallItems(retry, v, ask, replies)) == []
  {
    if replies != [] {
      hide Events;
      var front := replies[..|replies| - 1];
      CallsEmitNothing(retry, v, ask, front);
      var waits := if front == [] then [] else WaitItems(retry, v, |front|);
      FewEvents(Saved(v.(status := WAITING)), Slept(if front == [] then 0.0 else retry.DelayMs(|front|)));
      assert Events(waits) == [];
      FewEvents(Called(ask, Last(replies)), Slept(0.0));
      EventsConcat(CallItems(retry, v, ask, front), waits);
      EventsConcat(CallItems(retry, v, ask, front) + waits, [Called(ask, Last(replies))]);
    } else {
      FewEvents(Slept(0.0), Slept(0.0));
    }
  }

  lemma PortsEmitNothing(c: Config, v: View, log: CycleLog)
    requires ValidCycle(c, v, log)
    ensures Events(PortItems(c, v, log)) == []
  {
    Answered(c, v, log);
    hide ValidCall, CallItems, Waited, Events;
    var a, b := CallItems(c.retry, Started(c, v), RuntimeAsk(c, v), log.runtime), [];
    CallsEmitNothing(c.retry, Started(c, v), RuntimeAsk(c, v), log.runtime);
    FewEvents(Slept(0.0), Slept(0.0));
    if Last(log.runtime).Planned? {
      var w := AfterCall(c.retry, Started(c, v), |log.runtime|);
      b := CallItems(c.retry, w, ToExecution(Last(log.runtime).outcome.plan), log.execution);
      CallsEmitNothing(c.retry, w, ToExecution(Last(log.runtime).outcome.plan), log.execution);
    }
    assert PortItems(c, v, log) == a + b;
    EventsConcat(a, b);
  }

  lemma CycleEvents(c: Config, v: View, log: CycleLog)
    requires ValidCycle(c, v, log)
    ensures Events(CycleItems(c, v, log)) == EventsOfRecord(c, Last(CycleView(c, v, log).history))
  {
    Answered(c, v, log);
    var n, o := v.currentCycle + 1, OutcomeOf(log.runtime, log.execution);
    var s, p, e, d := StartItems(c, v), PortItems(c, v, log), OutcomeItems(n, o), Saved(CycleView(c, v, log));
    assert CycleItems(c, v, log) == s + p + e + [d] by { hide PortItems, StartItems, OutcomeItems, CycleView, OutcomeOf; }
    PortsEmitNothing(c, v, log);
    StartEvents(c, v);
    OutcomeEvents(n, o);
    RecordEvents(c, v, log);
    hide *;
    EventsOfFour(s, p, e, d);
  }

  lemma RecordEvents(c: Config, v: View, log: CycleLog)
    requires ValidCycle(c, v, log)
    ensures CycleView(c, v, log).history != []
    ensures var n, o := v.currentCycle + 1, OutcomeOf(log.runtime, log.execution);
            EventsOfRecord(c, Last(CycleView(c, v, log).history))
            == [(CYCLE_STARTED, n)] + (if Replan(c, n) then [(REPLANNED, n)] else [])
               + (if o.error.Some? then [(CYCLE_FAILED, n)]
                  else [(EXECUTION_COMPLETED, n)] + if o.objectiveCompleted then [(OBJECTIVE_REACHED, n)] else [])
  {
    CycleNumber(c, v, log);
    CycleShape(c, v, log);
    hide ValidCycle, CycleView, OutcomeOf, Replan, RecordShaped;
  }

  lemma CycleNumber(c: Config, v: View, log: CycleLog)
    requires ValidCycle(c, v, log)
    ensures Last(CycleView(c, v, log).history).cycle == v.currentCycle + 1
  {
    hide ValidCall, Waited;
  }

  lemma EventsOfFour(s: seq<Item>, p: seq<Item>, e: seq<Item>, d: Item)
    requires d.Saved? && Events(p) == []
    ensures Events(s + p + e + [d]) == Events(s) + Events(e)
  {
    assert EventOf(d) == [];
    hide Events, EventOf;
    EventsConcat(s, p);
    EventsConcat(s + p, e);
    EventsConcat(s + p + e, [d]);
    FewEvents(d, d);
  }

  lemma StartEvents(c: Config, v: View)
    ensures var n := v.currentCycle + 1;
            Events(StartItems(c, v)) == [(CYCLE_STARTED, n)] + if Replan(c, n) then [(REPLANNED, n)] else []
  {
    hide Events;
    var n := v.currentCycle + 1;
    var saved, started, replanned := Saved(Started(c, v)), Emitted(CYCLE_STARTED, n), Emitted(REPLANNED, n);
    FewEvents(saved, started);
    FewEvents(replanned, replanned);
    EventsConcat([saved, started], [replanned]);
    if Replan(c, n) {
      assert StartItems(c, v) == [saved, started] + [replanned];
    } else {
      assert StartItems(c, v) == [saved, started];
    }
  }

  lemma OutcomeEvents(n: nat, o: Outcome)
    ensures Events(OutcomeItems(n, o)) ==
            if o.error.Some? then [(CYCLE_FAILED, n)]
            else [(EXECUTION_COMPLETED, n)] + if o.objectiveCompleted then [(OBJECTIVE_REACHED, n)] else []
  {
    hide Events;
    FewEvents(Emitted(EXECUTION_COMPLETED, n), Emitted(OBJECTIVE_REACHED, n));
    FewEvents(Emitted(CYCLE_FAILED, n), Emitted(CYCLE_FAILED, n));
    if o.error.None? {
      if o.objectiveCompleted {
        assert OutcomeItems(n, o) == [Emitted(EXECUTION_COMPLETED, n), Emitted(OBJECTIVE_REACHED, n)];
      } else {
        assert OutcomeItems(n, o) == [Emitted(EXECUTION_COMPLETED, n)];
      }
    }
  }

  lemma {:induction false} RunEvents(c: Config, v: View, logs: seq<CycleLog>)
    requires ValidCycles(c, v, logs) && v.history == []
    ensures Events(RunItems(c, v, logs)) == EventsOfHistory(c, RunView(c, v, logs).history)
    decreases |logs|
  {
    if logs == [] {
      FewEvents(Slept(0.0), Slept(0.0));
    } else {
      Unfold(c, v, logs);
      hide CycleView, CycleItems, ValidCycle, Events, ValidCycles, RunView, RunItems;
      var w := RunView(c, v, Front(logs));
      RunEvents(c, v, Front(logs));
      CycleEvents(c, w, Last(logs));
      EventsConcat(RunItems(c, v, Front(logs)), CycleItems(c, w, Last(logs)));
      CycleShape(c, w, Last(logs));
      assert Front(CycleView(c, w, Last(logs)).history) == w.history;
    }
  }

  /**
   * The events of a whole run are LOOP_STARTED, those its history calls for, LOOP_FINISHED, and the
   * objective is reached at most once, in the last cycle.
   */
  lemma EventTrace(c: Config, v: View, logs: seq<CycleLog>, ending: Ending, end: int)
    requires Fresh(v) && ValidRun(c, v, logs, ending)
    ensures var w := FinalView(c, v, logs, ending, end);
            && Events([Saved(v), Emitted(LOOP_STARTED, 0)] + RunItems(c, v, logs)
                      + [Saved(w), Emitted(LOOP_FINISHED, w.currentCycle)])
               == [(LOOP_STARTED, 0)] + EventsOfHistory(c, w.history) + [(LOOP_FINISHED, |w.history|)]
            && w.currentCycle == |w.history| == |logs|
            && HistoryShaped(w.history)
            && (forall k | 0 <= k < |w.history| - 1 :: !w.history[k].objectiveCompleted)
  {
    var w := FinalView(c, v, logs, ending, end);
    assert ValidCycles(c, v, logs);
    hide RunItems, RunView, ValidRun, ValidCycles, EventsOfHistory, Events, HistoryShaped;
    RunEvents(c, v, logs);
    RunShape(c, v, logs);
    ObjectiveOnlyLast(c, v, logs);
    Bracketed(v, RunItems(c, v, logs), w);
  }

  lemma Bracketed(v: View, items: seq<Item>, w: View)
    ensures Events([Saved(v), Emitted(LOOP_STARTED, 0)] + items + [Saved(w), Emitted(LOOP_FINISHED, w.currentCycle)])
         == [(LOOP_STARTED, 0)] + Events(items) + [(LOOP_FINISHED, w.currentCycle)]
  {
    hide Events;
    var a: seq<Item> := [Saved(v), Emitted(LOOP_STARTED, 0)];
    var z: seq<Item> := [Saved(w), Emitted(LOOP_FINISHED, w.currentCycle)];
    FewEvents(a[0], a[1]);
    FewEvents(z[0], z[1]);
    EventsConcat(a, items);
    EventsConcat(a + items, z);
  }

  // ------------------------------------------------------------ how long a run can be

  lemma {:induction false} ObjectiveOnlyLast(c: Config, v: View, logs: seq<CycleLog>)
    requires Fresh(v) && ValidCycles(c, v, logs)
    ensures var h := RunView(c, v, logs).history;
            forall k | 0 <= k < |h| - 1 :: !h[k].objectiveCompleted
    decreases |logs|
  {
    if logs != [] {
      UnfoldView(c, v, logs);
      Step(c, v, logs);
      hide CycleView, ValidCycle, RunView, ValidCycles, OutcomeOf, RecordShaped, Decision, RunItems, CycleItems, Failures;
      ObjectiveOnlyLast(c, v, Front(logs));
      if Front(logs) != [] {
        Continued(c, v, Front(logs));
      }
    }
  }

  function Max(a: int, b: int): int {
    if a > b then a else b
  }

  /** The positions of the records that carry an error. */
  function FailedCycles(h: seq<CycleRecord>): set<nat> {
    set k: nat | k < |h| && h[k].error.Some?
  }

  /** What the stop policy counts is how many records carry an error. */
  lemma {:induction false} FailuresCounted(h: seq<CycleRecord>)
    ensures Failures(h) == |FailedCycles(h)|
  {
    if h == [] {
      assert FailedCycles(h) == {};
    } else {
      var n := |h| - 1;
      FailuresCounted(Front(h));
      assert FailedCycles(h) == FailedCycles(Front(h)) + if h[n].error.Some? then {n} else {};
    }
  }

  lemma FailuresOfOneMore(h: seq<CycleRecord>)
    requires h != []
    ensures Failures(h) <= Failures(Front(h)) + 1
  {
  }

  /** The limit of the policy is checked after a cycle, so one cycle is always run. */
  lemma {:induction false} CyclesBounded(c: Config, v: View, logs: seq<CycleLog>)
    requires Fresh(v) && ValidCycles(c, v, logs)
    ensures |logs| <= Max(1, c.policy.maxCycles)
    ensures c.policy.maxFailures.Some? ==>
              |FailedCycles(RunView(c, v, logs).history)| <= Max(1, c.policy.maxFailures.value)
    decreases |logs|
  {
    FailuresCounted(RunView(c, v, logs).history);
    if logs != [] {
      UnfoldView(c, v, logs);
      Step(c, v, logs);
      hide CycleView, ValidCycle, RunView, ValidCycles, OutcomeOf, RecordShaped, HistoryShaped, Decision, FailedCycles;
      CyclesBounded(c, v, Front(logs));
      FailuresCounted(RunView(c, v, Front(logs)).history);
      RunShape(c, v, Front(logs));
      if Front(logs) != [] {
        Continued(c, v, Front(logs));
      }
      FailuresOfOneMore(RunView(c, v, logs).history);
    }
  }

  function Attempts(retry: RetryPolicy): int {
    match retry
    case NoRetry => 1
    case ExponentialBackoff(maxRetries, _, _) => Max(1, maxRetries + 1)
  }

  lemma AttemptsBounded(retry: RetryPolicy, ask: Ask, replies: seq<Reply>, cut: bool)
    requires ValidCall(retry, ask, replies, cut)
    ensures |replies| <= Attempts(retry)
    ensures Last(replies).Threw? && !cut ==> |replies| == Attempts(retry)
  {
    if |replies| > 1 {
      assert Retried(retry, replies[|replies| - 2], |replies| - 1);
    }
  }

  function RuntimeCalls(items: seq<Item>): nat {
    if items == [] then 0
    else RuntimeCalls(Front(items)) + if Last(items).Called? && Last(items).ask.ToRuntime? then 1 else 0
  }

  function ExecutionCalls(items: seq<Item>): nat {
    if items == [] then 0
    else ExecutionCalls(Front(items)) + if Last(items).Called? && Last(items).ask.ToExecution? then 1 else 0
  }

  lemma {:induction false} CallsConcat(a: seq<Item>, b: seq<Item>)
    ensures RuntimeCalls(a + b) == RuntimeCalls(a) + RuntimeCalls(b)
    ensures ExecutionCalls(a + b) == ExecutionCalls(a) + ExecutionCalls(b)
  {
    if b == [] {
      assert a + b == a;
    } else {
      CallsConcat(a, Front(b));
      assert Front(a + b) == a + Front(b);
    }
  }

  /** A call of one more attempt: what came before, the wait if there was one, and the attempt. */
  lemma CallItemsSplit(retry: RetryPolicy, v: View, ask: Ask, replies: seq<Reply>)
    requires replies != []
    ensures var front := replies[..|replies| - 1];
            var waits := if front == [] then [] else WaitItems(retry, v, |front|);
            && CallItems(retry, v, ask, replies) == CallItems(retry, v, ask, front) + waits + [Called(ask, Last(replies))]
            && forall k | 0 <= k < |waits| :: !waits[k].Called?
  {
  }

  lemma NoAttemptYet(retry: RetryPolicy, v: View, ask: Ask)
    ensures CallItems(retry, v, ask, []) == []
    ensures RuntimeCalls([]) == 0 && ExecutionCalls([]) == 0
  {
  }

  lemma OneCall(ask: Ask, reply: Reply)
    ensures RuntimeCalls([Called(ask, reply)]) == if ask.ToRuntime? then 1 else 0
    ensures ExecutionCalls([Called(ask, reply)]) == if ask.ToExecution? then 1 else 0
  {
    assert Front([Called(ask, reply)]) == [];
  }

  lemma {:induction false} CallItemsCount(retry: RetryPolicy, v: View, ask: Ask, replies: seq<Reply>)
    ensures RuntimeCalls(CallItems(retry, v, ask, replies)) == if ask.ToRuntime? then |replies| else 0
    ensures ExecutionCalls(CallItems(retry, v, ask, replies)) == if ask.ToExecution? then |replies| else 0
  {
    hide CallItems, RuntimeCalls, ExecutionCalls, WaitItems;
    NoAttemptYet(retry, v, ask);
    if replies != [] {
      var front := replies[..|replies| - 1];
      CallItemsCount(retry, v, ask, front);
      CallItemsSplit(retry, v, ask, replies);
      var waits := if front == [] then [] else WaitItems(retry, v, |front|);
      NoCallsAmong(waits);
      OneCall(ask, Last(replies));
      CallsConcat(CallItems(retry, v, ask, front), waits);
      CallsConcat(CallItems(retry, v, ask, front) + waits, [Called(ask, Last(replies))]);
    }
  }

  lemma {:induction false} NoCallsAmong(items: seq<Item>)
    requires forall k | 0 <= k < |items| :: !items[k].Called?
    ensures RuntimeCalls(items) == 0 && ExecutionCalls(items) == 0
  {
    if items != [] {
      NoCallsAmong(Front(items));
    }
  }

  lemma CycleCalls(c: Config, v: View, log: CycleLog)
    requires ValidCycle(c, v, log)
    ensures RuntimeCalls(CycleItems(c, v, log)) == |log.runtime| <= Attempts(c.retry)
    ensures ExecutionCalls(CycleItems(c, v, log)) == |log.execution| <= Attempts(c.retry)
  {
    hide CallItems, RuntimeCalls, ExecutionCalls, AfterCalls, AfterCall, Attempts;
    AttemptsBounded(c.retry, RuntimeAsk(c, v), log.runtime, log.cut);
    var a, b := CallItems(c.retry, Started(c, v), RuntimeAsk(c, v), log.runtime), [];
    CallItemsCount(c.retry, Started(c, v), RuntimeAsk(c, v), log.runtime);
    if Last(log.runtime).Planned? {
      var plan := Last(log.runtime).outcome.plan;
      AttemptsBounded(c.retry, ToExecution(plan), log.execution, log.cut);
      b := CallItems(c.retry, AfterCall(c.retry, Started(c, v), |log.runtime|), ToExecution(plan), log.execution);
      CallItemsCount(c.retry, AfterCall(c.retry, Started(c, v), |log.runtime|), ToExecution(plan), log.execution);
    } else {
      NoCallsAmong(b);
      AttemptsPositive(c.retry);
    }
    var s := StartItems(c, v);
    var e := OutcomeItems(v.currentCycle + 1, OutcomeOf(log.runtime, log.execution));
    var d := [Saved(CycleView(c, v, log))];
    NoCallsAmong(s);
    NoCallsAmong(e);
    NoCallsAmong(d);
    CallsConcat(a, b);
    CallsConcat(s, a + b);
    CallsConcat(s + (a + b), e);
    CallsConcat(s + (a + b) + e, d);
  }

  lemma AttemptsPositive(retry: RetryPolicy)
    ensures Attempts(retry) >= 1
  {
  }

  predicate CallsAtMost(items: seq<Item>, n: int, attempts: int) {
    RuntimeCalls(items) <= n * attempts && ExecutionCalls(items) <= n * attempts
  }

  lemma OneMoreCycle(before: seq<Item>, now: seq<Item>, n: int, attempts: int)
    requires CallsAtMost(before, n, attempts)
    requires RuntimeCalls(now) <= attempts && ExecutionCalls(now) <= attempts
    ensures CallsAtMost(before + now, n + 1, attempts)
  {
    hide RuntimeCalls, ExecutionCalls;
    CallsConcat(before, now);
  }

  lemma NoCallsYet(c: Config, v: View)
    ensures CallsAtMost(RunItems(c, v, []), 0, Attempts(c.retry))
  {
  }

  /** Calls to each port are at most the cycles times the attempts a call may take. */
  lemma {:induction false} CallsBounded(c: Config, v: View, logs: seq<CycleLog>)
    requires ValidCycles(c, v, logs)
    ensures CallsAtMost(RunItems(c, v, logs), |logs|, Attempts(c.retry))
    decreases |logs|
  {
    hide CallsAtMost, Attempts, CycleItems, CycleView, RuntimeCalls, ExecutionCalls, RunView, RunItems, ValidCycles, ValidCalls;
    NoCallsYet(c, v);
    if logs != [] {
      Unfold(c, v, logs);
      var front := Front(logs);
      var before, now := RunItems(c, v, front), CycleItems(c, RunView(c, v, front), Last(logs));
      CallsBounded(c, v, front);
      CycleCalls(c, RunView(c, v, front), Last(logs));
      OneMoreCycle(before, now, |front|, Attempts(c.retry));
    }
  }

  // ------------------------------------------------------------ delays

  function SleptTotal(items: seq<Item>): real {
    if items == [] then 0.0
    else SleptTotal(Front(items)) + Sleep(Last(items))
  }

  lemma {:induction false} SleptConcat(a: seq<Item>, b: seq<Item>)
    ensures SleptTotal(a + b) == SleptTotal(a) + SleptTotal(b)
  {
    if b == [] {
      assert a + b == a;
    } else {
      SleptConcat(a, Front(b));
      assert Front(a + b) == a + Front(b);
    }
  }

  /** The delays the policy gives before the first n retries, and the part of them that is slept. */
  function DelaySum(retry: RetryPolicy, n: nat): real {
    if n == 0 then 0.0 else DelaySum(retry, n - 1) + retry.DelayMs(n)
  }

  function SleepSum(retry: RetryPolicy, n: nat): real {
    if n == 0 then 0.0 else SleepSum(retry, n - 1) + if retry.DelayMs(n) > 0.0 then retry.DelayMs(n) else 0.0
  }

  function Sleep(item: Item): real {
    if item.Slept? then item.ms else 0.0
  }

  lemma FewSleeps(a: Item, b: Item)
    ensures SleptTotal([]) == 0.0 && SleptTotal([a]) == Sleep(a) && SleptTotal([a, b]) == Sleep(a) + Sleep(b)
  {
    assert Front([a]) == [] && Front([a, b]) == [a];
    assert SleptTotal([a]) == SleptTotal([]) + Sleep(a);
  }

  /** A call sleeps exactly the positive delays of its retries. */
  lemma {:induction false} SleepsOfCall(retry: RetryPolicy, v: View, ask: Ask, replies: seq<Reply>)
    requires replies != []
    ensures SleptTotal(CallItems(retry, v, ask, replies)) == SleepSum(retry, |replies| - 1)
  {
    hide SleptTotal;
    var front := Front(replies);
    var call := [Called(ask, Last(replies))];
    FewSleeps(call[0], call[0]);
    if front == [] {
      assert CallItems(retry, v, ask, replies) == call;
    } else {
      SleepsOfCall(retry, v, ask, front);
      var waits := WaitItems(retry, v, |front|);
      FewSleeps(Saved(v.(status := WAITING)), Slept(retry.DelayMs(|front|)));
      SleptConcat(CallItems(retry, v, ask, front), waits);
      SleptConcat(CallItems(retry, v, ask, front) + waits, call);
    }
  }

  /** The sum of a geometric progression from `base`, p being the power of x after its last term. */
  predicate Geometric(x: real, base: real, sum: real, p: real) {
    (x - 1.0) * sum == base * (p - 1.0)
  }

  /** The delays before n retries are base, base * factor, ...: a geometric sum. */
  lemma {:induction false} DelaysGeometric(retry: RetryPolicy, n: nat)
    requires retry.ExponentialBackoff?
    ensures Geometric(retry.factor, retry.baseDelayMs, DelaySum(retry, n), Power(retry.factor, n))
  {
    if n > 0 {
      hide Geometric;
      DelaysGeometric(retry, n - 1);
      GeometricStep(retry.factor, retry.baseDelayMs, DelaySum(retry, n - 1), Power(retry.factor, n - 1));
    }
  }

  /** With a base and a factor that are not negative, all of it is slept. */
  lemma {:induction false} EveryDelaySlept(retry: RetryPolicy, n: nat)
    requires retry.ExponentialBackoff? && retry.baseDelayMs >= 0.0 && retry.factor >= 0.0
    ensures SleepSum(retry, n) == DelaySum(retry, n)
  {
    if n > 0 {
      hide Power;
      EveryDelaySlept(retry, n - 1);
      PowerNonNegative(retry.factor, n - 1);
      ProductNonNegative(retry.baseDelayMs, Power(retry.factor, n - 1));
    }
  }

  lemma PowerNonNegative(x: real, n: nat)
    requires x >= 0.0
    ensures Power(x, n) >= 0.0
  {
    if n > 0 {
      PowerNonNegative(x, n - 1);
      ProductNonNegative(x, Power(x, n - 1));
    }
  }

  lemma ProductNonNegative(x: real, y: real)
    requires x >= 0.0 && y >= 0.0
    ensures x * y >= 0.0
  {
  }

  lemma GeometricStep(x: real, base: real, sum: real, p: real)
    requires Geometric(x, base, sum, p)
    ensures Geometric(x, base, sum + base * p, x * p)
  {
    calc {
      (x - 1.0) * (sum + base * p);
      (x - 1.0) * sum + (x - 1.0) * (base * p);
      base * (p - 1.0) + base * (x * p - p);
      base * (x * p - 1.0);
    }
  }

  // ------------------------------------------------------------ time

  function TotalDuration(history: seq<CycleRecord>): int {
    if history == [] then 0 else TotalDuration(Front(history)) + Last(history).durationMs
  }

  predicate Abuts(start: int, history: seq<CycleRecord>, k: nat)
    requires k < |history|
  {
    history[k].startedAt == if k == 0 then start else history[k - 1].finishedAt
  }

  lemma ChronologicalFront(start: int, logs: seq<CycleLog>, end: int)
    requires logs != [] && Chronological(start, logs, end)
    ensures Chronological(start, Front(logs), end) && Last(logs).finishedAt <= end
    ensures Last(logs).finishedAt >= if Front(logs) == [] then start else Last(Front(logs)).finishedAt
  {
  }

  lemma AbutOneMore(start: int, h: seq<CycleRecord>, r: CycleRecord)
    requires forall k | 0 <= k < |h| :: Abuts(start, h, k) && h[k].durationMs >= 0
    requires r.startedAt == (if h == [] then start else Last(h).finishedAt) && r.durationMs >= 0
    ensures forall k | 0 <= k < |h + [r]| :: Abuts(start, h + [r], k) && (h + [r])[k].durationMs >= 0
  {
  }

  /** Records abut, so their durations telescope; none is negative when the clock does not go back. */
  lemma {:induction false} DurationsTelescope(c: Config, v: View, logs: seq<CycleLog>, end: int)
    requires Fresh(v) && ValidCycles(c, v, logs) && Chronological(v.startedAt, logs, end)
    ensures var h := RunView(c, v, logs).history;
            && (forall k | 0 <= k < |h| :: Abuts(v.startedAt, h, k) && h[k].durationMs >= 0)
            && TotalDuration(h) == (if h == [] then 0 else Last(h).finishedAt - v.startedAt) <= end - v.startedAt
    decreases |logs|
  {
    if logs != [] {
      Step(c, v, logs);
      hide RunView, ValidCycles, HistoryShaped, Abuts, Chronological, RecordShaped;
      var front := Front(logs);
      ChronologicalFront(v.startedAt, logs, end);
      DurationsTelescope(c, v, front, end);
      RunShape(c, v, front);
      var h, r := RunView(c, v, front).history, Last(RunView(c, v, logs).history);
      AbutOneMore(v.startedAt, h, r);
      assert Front(h + [r]) == h;
    }
  }

  // ------------------------------------------------------------ the last execution

  function Latest(history: seq<CycleRecord>): Option<ExecutionSummary> {
    if history == [] then None
    else if Last(history).execution.Some? then Last(history).execution
    else Latest(Front(history))
  }

  lemma {:induction false} LastExecutionIsLatest(c: Config, v: View, logs: seq<CycleLog>)
    requires Fresh(v) && ValidCycles(c, v, logs)
    ensures RunView(c, v, logs).lastExecution == Latest(RunView(c, v, logs).history)
    decreases |logs|
  {
    if logs != [] {
      Step(c, v, logs);
      hide RunView, ValidCycles, RecordShaped;
      LastExecutionIsLatest(c, v, Front(logs));
    }
  }

  lemma {:induction false} CallItemsAsk(retry: RetryPolicy, v: View, ask: Ask, replies: seq<Reply>)
    ensures forall x | x in CallItems(retry, v, ask, replies) && x.Called? :: x.ask == ask
  {
    if replies != [] {
      CallItemsAsk(retry, v, ask, Front(replies));
    }
  }

  /**
   * In every cycle the runtime is asked with the objective, the cycle's number and the latest execution
   * before it, at every attempt; the execution engine is asked with the plan the runtime just returned.
   */
  lemma CycleAsks(c: Config, v: View, logs: seq<CycleLog>)
    requires Fresh(v) && logs != [] && ValidCycles(c, v, logs)
    ensures var before := RunView(c, v, Front(logs));
            forall x | x in CycleItems(c, before, Last(logs)) && x.Called? ::
              match x.ask
              case ToRuntime(request) =>
                request == RuntimeRequest(v.objective, |logs|, Latest(before.history))
              case ToExecution(plan) =>
                Last(Last(logs).runtime).Planned? && plan == Last(Last(logs).runtime).outcome.plan
  {
    UnfoldView(c, v, logs);
    hide RunView, ValidCycles, CycleView, ValidCycle, HistoryShaped;
    var before, log := RunView(c, v, Front(logs)), Last(logs);
    RunShape(c, v, Front(logs));
    LastExecutionIsLatest(c, v, Front(logs));
    PortsAsked(c, before, log);
    NothingElseAsked(c, before, log);
  }

  lemma PortsAsked(c: Config, v: View, log: CycleLog)
    requires ValidCycle(c, v, log)
    ensures forall x | x in PortItems(c, v, log) && x.Called? ::
              x.ask == RuntimeAsk(c, v)
              || (Last(log.runtime).Planned? && x.ask == ToExecution(Last(log.runtime).outcome.plan))
  {
    Answered(c, v, log);
    hide CallItems, AfterCall, ValidCall;
    CallItemsAsk(c.retry, Started(c, v), RuntimeAsk(c, v), log.runtime);
    if Last(log.runtime).Planned? {
      CallItemsAsk(c.retry, AfterCall(c.retry, Started(c, v), |log.runtime|),
                   ToExecution(Last(log.runtime).outcome.plan), log.execution);
    }
  }

  lemma NothingElseAsked(c: Config, v: View, log: CycleLog)
    requires ValidCycle(c, v, log)
    ensures forall x | x in CycleItems(c, v, log) && x.Called? :: x in PortItems(c, v, log)
  {
    hide PortItems, CycleView, OutcomeOf, ValidCall;
  }

  // ------------------------------------------------------------ how a run ends

  /** COMPLETED iff the last cycle reached the objective and nobody had aborted; CANCELLED iff somebody had. */
  lemma FinalStatusIff(c: Config, v: View, logs: seq<CycleLog>, ending: Ending)
    requires Fresh(v) && ValidRun(c, v, logs, ending)
    ensures FinalStatus(ending) in {COMPLETED, FAILED, CANCELLED}
    ensures var h := RunView(c, v, logs).history;
            && (FinalStatus(ending) == COMPLETED <==>
                  h != [] && Last(h).objectiveCompleted && !Last(logs).cancelled)
            && (FinalStatus(ending) == CANCELLED <==> ending == AbortedBefore || Last(logs).cancelled)
  {
    hide CycleView, ValidCycle, RunView, ValidCycles, HistoryShaped, RecordShaped, Failures;
    RunShape(c, v, logs);
    if logs != [] {
      UnfoldView(c, v, logs);
      Answered(c, RunView(c, v, Front(logs)), Last(logs));
      CycleShape(c, RunView(c, v, Front(logs)), Last(logs));
    }
  }

  /** A limit of the policy has been reached after the last cycle. */
  predicate LimitReached(policy: LoopPolicy, history: seq<CycleRecord>, elapsedMs: int) {
    || (policy.maxFailures.Some? && |FailedCycles(history)| >= policy.maxFailures.value)
    || (policy.maxDurationMs.Some? && elapsedMs >= policy.maxDurationMs.value)
    || |history| >= policy.maxCycles
  }

  /** FAILED exactly when, after some cycle and without an abort, a fatal throw or a limit stopped the run. */
  lemma FailedIff(c: Config, v: View, logs: seq<CycleLog>, ending: Ending)
    requires Fresh(v) && ValidRun(c, v, logs, ending)
    ensures FinalStatus(ending) == FAILED <==>
            && ending != AbortedBefore && logs != [] && !Last(logs).cancelled
            && var h := RunView(c, v, logs).history;
               && h != [] && !Last(h).objectiveCompleted
               && (EndedFatally(Last(logs)) || LimitReached(c.policy, h, Last(logs).elapsedMs))
  {
    hide CycleView, ValidCycle, RunView, ValidCycles, Failures, HistoryShaped, RecordShaped, FailedCycles;
    RunShape(c, v, logs);
    FailuresCounted(RunView(c, v, logs).history);
    if logs != [] {
      UnfoldView(c, v, logs);
      Answered(c, RunView(c, v, Front(logs)), Last(logs));
      CycleShape(c, RunView(c, v, Front(logs)), Last(logs));
    }
  }

  /** The last call of the cycle gave up on a fatal throw. */
  predicate EndedFatally(log: CycleLog) {
    log.runtime != [] &&
    match Last(log.runtime)
    case Threw(_, fatal) => fatal
    case _ => log.execution != [] && Last(log.execution).Threw? && Last(log.execution).fatal
  }

  lemma {:induction false} HistoryPrefix(c: Config, v: View, logs: seq<CycleLog>, k: nat)
    requires Fresh(v) && ValidCycles(c, v, logs) && k <= |logs|
    ensures ValidCycles(c, v, logs[..k])
    ensures k <= |RunView(c, v, logs).history|
    ensures RunView(c, v, logs[..k]).history == RunView(c, v, logs).history[..k]
    decreases |logs|
  {
    hide RunView, ValidCycles, HistoryShaped, RecordShaped;
    RunShape(c, v, logs);
    if k == |logs| {
      assert logs[..k] == logs;
    } else {
      Step(c, v, logs);
      RunShape(c, v, Front(logs));
      HistoryPrefix(c, v, Front(logs), k);
      assert Front(logs)[..k] == logs[..k];
    }
  }

  /**
   * The run stops as soon as it must: after every cycle but the last nobody had aborted, the objective was not
   * reached, no fatal throw ended the cycle and no limit of the policy was reached.
   */
  lemma StopsAtFirst(c: Config, v: View, logs: seq<CycleLog>, k: nat)
    requires Fresh(v) && ValidCycles(c, v, logs) && 0 < k < |logs|
    ensures |RunView(c, v, logs).history| == |logs|
    ensures var h := RunView(c, v, logs).history;
            && !logs[k - 1].cancelled && !h[k - 1].objectiveCompleted && !EndedFatally(logs[k - 1])
            && !LimitReached(c.policy, h[..k], logs[k - 1].elapsedMs)
  {
    hide CycleView, ValidCycle, RunView, ValidCycles, Failures, HistoryShaped, RecordShaped, FailedCycles;
    var first := logs[..k];
    PrefixContinues(c, v, logs, k);
    HistoryPrefix(c, v, logs, k);
    RunShape(c, v, logs);
    RunShape(c, v, first);
    Answered(c, RunView(c, v, Front(first)), Last(first));
    FailuresCounted(RunView(c, v, first).history);
    assert Last(RunView(c, v, first).history) == RunView(c, v, logs).history[k - 1];
  }

  /** A run that went on after k cycles was told to continue then. */
  lemma {:induction false} PrefixContinues(c: Config, v: View, logs: seq<CycleLog>, k: nat)
    requires ValidCycles(c, v, logs) && 0 < k < |logs|
    ensures ValidCycles(c, v, logs[..k]) && Decision(c, v, logs[..k]) == CONTINUE
    ensures ValidCycles(c, v, Front(logs[..k]))
    ensures ValidCycle(c, RunView(c, v, Front(logs[..k])), Last(logs[..k]))
    decreases |logs|
  {
    hide RunView, CycleView, ValidCycle, ValidCycles, Decision;
    UnfoldView(c, v, logs);
    if k == |logs| - 1 {
      UnfoldView(c, v, logs[..k]);
    } else {
      PrefixContinues(c, v, Front(logs), k);
      assert Front(logs)[..k] == logs[..k];
    }
  }

  /** A run goes on after a cycle only if nobody had aborted and the cycle did not fail fatally. */
  lemma {:induction false} EarlierContinue(c: Config, v: View, logs: seq<CycleLog>, k: nat)
    requires ValidCycles(c, v, logs) && k < |logs|
    ensures ValidCycles(c, v, logs[..k]) && ValidCycle(c, RunView(c, v, logs[..k]), logs[k])
    ensures k < |logs| - 1 ==> !logs[k].cancelled && !OutcomeOf(logs[k].runtime, logs[k].execution).fatal
    decreases |logs|
  {
    hide RunView, CycleView, ValidCycle, ValidCycles, Decision, OutcomeOf;
    UnfoldView(c, v, logs);
    var front := Front(logs);
    assert front == logs[..|logs| - 1] && Last(logs) == logs[|logs| - 1];
    if k < |logs| - 1 {
      Continued(c, v, front);
      EarlierContinue(c, v, front, k);
      assert front[..k] == logs[..k] && front[k] == logs[k];
      assert k == |front| - 1 ==> Last(front) == logs[k];
    }
  }

  /** A retry cut short by an abort is in the last cycle of a run that ends CANCELLED. */
  lemma CutMeansCancelled(c: Config, v: View, logs: seq<CycleLog>, ending: Ending, k: nat)
    requires Fresh(v) && ValidRun(c, v, logs, ending) && k < |logs| && logs[k].cut
    ensures k == |logs| - 1 && FinalStatus(ending) == CANCELLED
  {
    EarlierContinue(c, v, logs, k);
    FinalStatusIff(c, v, logs, ending);
  }

  /** After a cycle that failed fatally there is no other, and the run does not complete. */
  lemma FatalIsLast(c: Config, v: View, logs: seq<CycleLog>, ending: Ending, k: nat)
    requires Fresh(v) && ValidRun(c, v, logs, ending) && k < |logs|
    requires ValidCycles(c, v, logs[..k]) && ValidCycle(c, RunView(c, v, logs[..k]), logs[k])
    requires OutcomeOf(logs[k].runtime, logs[k].execution).fatal
    ensures k == |logs| - 1 && FinalStatus(ending) == if ending == AbortedBefore || logs[k].cancelled then CANCELLED else FAILED
  {
    EarlierContinue(c, v, logs, k);
    FinalStatusIff(c, v, logs, ending);
  }

  /**
   * A fatal throw is not final for the retry policy, which never looks at the error: unless somebody
   * aborts, a call that only throws, fatally or not, is made as often as the policy allows.
   */
  lemma FatalIsRetried(retry: RetryPolicy, ask: Ask, replies: seq<Reply>)
    requires ValidCall(retry, ask, replies, false) && replies[0].Threw? && replies[0].fatal
    ensures |replies| == 1 <==> Attempts(retry) == 1
    ensures Last(replies).Threw? ==> |replies| == Attempts(retry)
  {
    AttemptsBounded(retry, ask, replies, false);
  }
}
