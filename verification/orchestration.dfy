/**
 * The orchestration engine and its loop, run against ports that may answer anything
 * (packages/orchestration-engine/src/engine/orchestration-loop.ts, orchestration-engine.ts).
 */
module Orchestration {
  import opened Texts
  import opened Clocks
  import opened OrchestrationSpec
  import opened WorkspaceAdapters

  class OrchestrationState {
    const objective: Text
    const startedAt: int
    var currentCycle: nat
    var status: Status
    var finishedAt: Option<int>
    var lastExecution: Option<ExecutionSummary>
    var history: seq<CycleRecord>

    constructor (objective: Text, startedAt: int)
      ensures Snapshot() == View(objective, startedAt, 0, CREATED, None, None, [])
    {
      this.objective, this.startedAt := objective, startedAt;
      currentCycle, status, finishedAt, lastExecution, history := 0, CREATED, None, None, [];
    }

    function Snapshot(): View
      reads this
    {
      View(objective, startedAt, currentCycle, status, finishedAt, lastExecution, history)
    }
  }

  /** The adapters of the workspace runtime. */
  datatype Stack = Stack(runtime: RuntimeAdapter, execution: ExecutionAdapter)

  /**
   * Runtime, execution engine, state store, event publisher, timer and abort signal. The runtime and the
   * execution engine may answer or throw, anything at all or, with a stack, what its adapters answer; the
   * others never throw. `trace` is everything asked of them.
   */
  class Ports {
    const clock: Clock
    const stack: Option<Stack>
    var aborted: bool
    ghost var trace: seq<Item>

    constructor (clock: Clock, stack: Option<Stack>)
      ensures this.clock == clock && this.stack == stack && trace == []
    {
      this.clock, this.stack := clock, stack;
      aborted := false;
      trace := [];
    }

    /** What a call may change besides the trace. */
    function Engines(): set<object> {
      if stack.None? then {} else {stack.value.runtime, stack.value.execution.engine, stack.value.execution.engine.clock}
    }

    /** An abort signal, once raised, stays raised. */
    method Aborted() returns (b: bool)
      modifies this`aborted
      ensures b == aborted && (old(aborted) ==> aborted)
    {
      var raised: bool := *;
      aborted := aborted || raised;
      b := aborted;
    }

    method Call(ask: Ask) returns (reply: Reply)
      modifies this`trace, Engines()
      ensures Fits(ask, reply) && trace == old(trace) + [Called(ask, reply)]
      ensures stack.Some? ==> Answers(ask, reply)
      ensures old(clock.time) <= clock.time
    {
      if stack.Some? {
        match ask {
          case ToRuntime(request) => reply := stack.value.runtime.Run(request);
          case ToExecution(plan) =>
            ghost var results;
            reply, results := stack.value.execution.Execute(plan);
        }
      } else {
        reply := *;
        if !Fits(ask, reply) {
          reply := Threw([], false);
        }
      }
      trace := trace + [Called(ask, reply)];
    }

    method Save(v: View)
      modifies this`trace
      ensures trace == old(trace) + [Saved(v)]
    {
      trace := trace + [Saved(v)];
    }

    method Publish(event: EventType, cycle: nat)
      modifies this`trace
      ensures trace == old(trace) + [Emitted(event, cycle)]
    {
      trace := trace + [Emitted(event, cycle)];
    }

    method Sleep(ms: real)
      modifies this`trace
      ensures trace == old(trace) + [Slept(ms)]
    {
      trace := trace + [Slept(ms)];
    }
  }

  class OrchestrationLoop {
    const ports: Ports
    const config: Config

    constructor (ports: Ports, config: Config)
      ensures this.ports == ports && this.config == config
    {
      this.ports, this.config := ports, config;
    }

    /** Runs cycles until the flag is up or the stop policy stops; the policy's cycle limit makes that happen. */
    method Run(state: OrchestrationState)
      returns (ghost logs: seq<CycleLog>, ghost ending: Ending, ghost end: int, ghost start: int)
      modifies state, ports, ports.clock, ports.Engines()
      ensures ValidRun(config, old(state.Snapshot()), logs, ending)
      ensures ports.stack.Some? ==> AllComposed(logs)
      ensures state.Snapshot() == FinalView(config, old(state.Snapshot()), logs, ending, end)
      ensures ports.trace == old(ports.trace) + RunItems(config, old(state.Snapshot()), logs) + [Saved(state.Snapshot())]
      ensures Chronological(old(ports.clock.time), logs, end) && end <= ports.clock.time
      ensures old(ports.clock.time) <= start && ElapsedSince(start, logs, end)
      ensures ending == AbortedBefore || (logs != [] && Last(logs).cancelled) <==> ports.aborted
      ensures old(ports.aborted) ==> logs == []
    {
      hide ValidCycles, RunView, RunItems, CycleView, CycleItems, ValidCalls, AfterCalls, PortItems, OutcomeItems, StartItems,
           OutcomeOf, RecordOf, Evaluate, Decision, Chronological, ElapsedSince, Composed;
      ghost var first := state.Snapshot();
      ghost var before := ports.trace;
      var loopStart := ports.clock.Now();
      logs, start := [], loopStart;
      NoCycleYet(config, first);
      NoTimeYet(old(ports.clock.time), start);
      while true
        invariant ValidCycles(config, first, logs) && (logs != [] ==> Decision(config, first, logs) == CONTINUE)
        invariant state.Snapshot() == RunView(config, first, logs)
        invariant ports.trace == before + RunItems(config, first, logs)
        invariant ports.stack.Some? ==> AllComposed(logs)
        invariant Chronological(old(ports.clock.time), logs, ports.clock.time)
        invariant old(ports.clock.time) <= start == loopStart <= ports.clock.time && ElapsedSince(start, logs, ports.clock.time)
        invariant logs != [] ==> state.currentCycle < config.policy.maxCycles && !ports.aborted && !old(ports.aborted)
        invariant old(ports.aborted) ==> ports.aborted
        decreases config.policy.maxCycles - state.currentCycle
      {
        var aborted := ports.Aborted();
        ghost var now := ports.clock.time;
        if aborted {
          ending := AbortedBefore;
          end := Finalize(state, CANCELLED);
          TimesLater(old(ports.clock.time), start, logs, now, end);
          return;
        }
        var reason;
        ghost var log;
        ghost var v := state.Snapshot();
        reason, log := Cycle(state, loopStart);
        Extend(config, first, logs, log);
        TimesExtend(old(ports.clock.time), start, logs, now, log, ports.clock.time);
        now := ports.clock.time;
        assert ports.trace == before + (RunItems(config, first, logs) + CycleItems(config, v, log));
        logs := logs + [log];
        if reason != CONTINUE {
          ending := StoppedBy(reason);
          end := Finalize(state, StatusFromStopReason(reason));
          TimesLater(old(ports.clock.time), start, logs, now, end);
          return;
        }
      }
    }

    /** One pass of the loop: start, calls, record, stop policy. */
    method Cycle(state: OrchestrationState, loopStart: int) returns (reason: StopReason, ghost log: CycleLog)
      modifies state, ports, ports.clock, ports.Engines()
      ensures ValidCycle(config, old(state.Snapshot()), log)
      ensures ports.stack.Some? ==> Composed(log)
      ensures state.Snapshot() == CycleView(config, old(state.Snapshot()), log)
      ensures state.currentCycle == old(state.currentCycle) + 1
      ensures ports.trace == old(ports.trace) + CycleItems(config, old(state.Snapshot()), log)
      ensures reason == Evaluate(config.policy, state.Snapshot(), log.elapsedMs, log.cancelled,
                                 OutcomeOf(log.runtime, log.execution).fatal)
      ensures log.finishedAt <= loopStart + log.elapsedMs <= ports.clock.time
      ensures reason == CONTINUE ==> state.currentCycle < config.policy.maxCycles && !log.cancelled
      ensures (old(ports.aborted) ==> ports.aborted) && (log.cancelled <==> ports.aborted)
      ensures old(ports.clock.time) <= log.finishedAt <= ports.clock.time
    {
      hide CycleView, CycleItems, ValidCalls, AfterCalls, PortItems, OutcomeItems, StartItems, OutcomeOf, RecordOf, Evaluate,
           ValidCycle, Started;
      ghost var v := state.Snapshot();
      StartCycle(state);
      var outcome;
      ghost var calls;
      outcome, calls := RunCycle(state, v);
      var finishedAt := RecordCycle(state, outcome);
      var now := ports.clock.Now();
      var cancelled := ports.Aborted();
      log := calls.(finishedAt := finishedAt, elapsedMs := now - loopStart, cancelled := cancelled);
      FinishCycle(config, v, calls, log);
      reason := Evaluate(config.policy, state.Snapshot(), now - loopStart, cancelled, outcome.fatal);
      if reason == CONTINUE {
        CyclesLeft(config.policy, state.Snapshot(), now - loopStart, cancelled, outcome.fatal);
      }
    }

    method StartCycle(state: OrchestrationState)
      modifies state, ports`trace
      ensures state.Snapshot() == Started(config, old(state.Snapshot()))
      ensures ports.trace == old(ports.trace) + StartItems(config, old(state.Snapshot()))
    {
      state.currentCycle := state.currentCycle + 1;
      var replanning := state.currentCycle > 1 && config.policy.autoReplan;
      state.status := if replanning then REPLANNING else RUNNING;
      ports.Save(state.Snapshot());
      ports.Publish(CYCLE_STARTED, state.currentCycle);
      if replanning {
        ports.Publish(REPLANNED, state.currentCycle);
      }
    }

    /** Any throw, from either port, ends the cycle as a failure; `v` is the state before the cycle started. */
    method RunCycle(state: OrchestrationState, ghost v: View) returns (o: Outcome, ghost log: CycleLog)
      requires state.Snapshot() == Started(config, v)
      modifies state, ports, ports.Engines()
      ensures ports.stack.Some? ==> Composed(log)
      ensures old(ports.clock.time) <= ports.clock.time
      ensures ValidCalls(config, v, log) && o == OutcomeOf(log.runtime, log.execution)
      ensures state.Snapshot() == AfterCalls(config, v, log)
      ensures ports.trace == old(ports.trace) + PortItems(config, v, log) + OutcomeItems(v.currentCycle + 1, o)
      ensures (old(ports.aborted) ==> ports.aborted) && (log.cut ==> ports.aborted)
    {
      hide ValidCall, CallItems, AfterCall, ValidCalls, AfterCalls, PortItems, OutcomeOf, AllAnswer, Composed, Started, RuntimeAsk;
      AskOf(config, v);
      var request := RuntimeRequest(state.objective, state.currentCycle, state.lastExecution);
      var planned;
      ghost var runtime;
      ghost var cut;
      planned, runtime, cut := WithRetry(state, ToRuntime(request));
      log := CycleLog(runtime, [], cut, 0, 0, false);
      RuntimeCalled(config, v, log);
      if planned.Threw? {
        ports.Publish(CYCLE_FAILED, state.currentCycle);
        return Outcome(false, None, Some(planned.error), planned.fatal), log;
      }
      var executed;
      ghost var execution;
      executed, execution, cut := WithRetry(state, ToExecution(planned.outcome.plan));
      log := CycleLog(runtime, execution, cut, 0, 0, false);
      ExecutionCalled(config, v, log);
      if executed.Threw? {
        ports.Publish(CYCLE_FAILED, state.currentCycle);
        return Outcome(false, None, Some(executed.error), executed.fatal), log;
      }
      state.lastExecution := Some(executed.summary);
      ports.Publish(EXECUTION_COMPLETED, state.currentCycle);
      if planned.outcome.objectiveCompleted {
        ports.Publish(OBJECTIVE_REACHED, state.currentCycle);
      }
      o := Outcome(planned.outcome.objectiveCompleted, Some(executed.summary), None, false);
    }

    method RecordCycle(state: OrchestrationState, outcome: Outcome) returns (finishedAt: int)
      modifies state, ports`trace, ports.clock
      ensures var v := old(state.Snapshot());
              state.Snapshot() == v.(history := v.history + [RecordOf(v, finishedAt, outcome)])
      ensures ports.trace == old(ports.trace) + [Saved(state.Snapshot())]
      ensures old(ports.clock.time) <= finishedAt == ports.clock.time
    {
      finishedAt := ports.clock.Now();
      var previous := if state.history == [] then state.startedAt else Last(state.history).finishedAt;
      var record := CycleRecord(state.currentCycle, previous, finishedAt, finishedAt - previous,
                                outcome.objectiveCompleted, outcome.execution, outcome.error);
      state.history := state.history + [record];
      ports.Save(state.Snapshot());
    }

    /** Calls a port until it answers, the abort flag is up, or the retry policy gives up. */
    method WithRetry(state: OrchestrationState, ask: Ask)
      returns (reply: Reply, ghost replies: seq<Reply>, ghost cut: bool)
      modifies state, ports, ports.Engines()
      ensures ports.stack.Some? ==> AllAnswer(ask, replies)
      ensures old(ports.clock.time) <= ports.clock.time
      ensures ValidCall(config.retry, ask, replies, cut) && reply == Last(replies)
      ensures state.Snapshot() == AfterCall(config.retry, old(state.Snapshot()), |replies|)
      ensures ports.trace == old(ports.trace) + CallItems(config.retry, old(state.Snapshot()), ask, replies)
      ensures (old(ports.aborted) ==> ports.aborted) && (cut ==> ports.aborted)
      ensures reply.Threw? ==> (cut <==> ports.aborted)
      ensures |replies| > 1 ==> !old(ports.aborted)
    {
      hide CallItems, ValidCall, Waited, AfterCall, Fits, Answers, AllAnswer, RetryPolicy.DelayMs, WaitItems, Attempted, AttemptItems;
      ghost var v := state.Snapshot();
      var attempt: nat := 0;
      replies, cut := [], false;
      NoAttempt(config.retry, v, ask);
      while true
        invariant attempt == |replies| && Attempted(config.retry, ask, replies)
        invariant state.Snapshot() == AfterCall(config.retry, v, attempt + 1)
        invariant ports.trace == old(ports.trace) + AttemptItems(config.retry, v, ask, replies)
        invariant ports.stack.Some? ==> AllAnswer(ask, replies)
        invariant old(ports.clock.time) <= ports.clock.time && (old(ports.aborted) ==> ports.aborted)
        invariant attempt > 0 ==> !ports.aborted
        decreases (if config.retry.NoRetry? then 0 else config.retry.maxRetries) - attempt
      {
        reply := ports.Call(ask);
        ghost var earlier := replies;
        OneMoreCall(config.retry, v, ask, earlier, reply);
        replies := earlier + [reply];
        if !reply.Threw? {
          LastCall(config.retry, ask, earlier, reply, cut);
          return;
        }
        attempt := attempt + 1;
        var aborted := ports.Aborted();
        if aborted || !config.retry.ShouldRetry(attempt) {
          cut := aborted;
          LastCall(config.retry, ask, earlier, reply, cut);
          return;
        }
        CallToRetry(config.retry, v, ask, earlier, reply);
        Wait(state, attempt);
      }
    }

    /** Between two attempts: when there is a delay, the state is saved as WAITING and the delay slept. */
    method Wait(state: OrchestrationState, attempt: nat)
      requires attempt > 0
      modifies state`status, ports`trace
      ensures state.Snapshot()
           == (if config.retry.DelayMs(attempt) > 0.0 then old(state.Snapshot()).(status := WAITING) else old(state.Snapshot()))
      ensures ports.trace == old(ports.trace) + WaitItems(config.retry, old(state.Snapshot()), attempt)
    {
      var delay := config.retry.DelayMs(attempt);
      if delay > 0.0 {
        state.status := WAITING;
        ports.Save(state.Snapshot());
        ports.Sleep(delay);
      }
    }

    method Finalize(state: OrchestrationState, status: Status) returns (finishedAt: int)
      modifies state, ports`trace, ports.clock
      ensures state.Snapshot() == old(state.Snapshot()).(status := status, finishedAt := Some(finishedAt))
      ensures ports.trace == old(ports.trace) + [Saved(state.Snapshot())]
      ensures old(ports.clock.time) <= finishedAt == ports.clock.time
    {
      state.status := status;
      finishedAt := ports.clock.Now();
      state.finishedAt := Some(finishedAt);
      ports.Save(state.Snapshot());
    }
  }

  predicate Attempted(retry: RetryPolicy, ask: Ask, replies: seq<Reply>) {
    forall k | 0 <= k < |replies| :: Fits(ask, replies[k]) && Retried(retry, replies[k], k + 1)
  }

  /** A call that goes on: its attempts so far, and the wait after the last of them. */
  function AttemptItems(retry: RetryPolicy, v: View, ask: Ask, replies: seq<Reply>): seq<Item> {
    CallItems(retry, v, ask, replies) + if replies == [] then [] else WaitItems(retry, v, |replies|)
  }

  lemma NoAttempt(retry: RetryPolicy, v: View, ask: Ask)
    ensures Attempted(retry, ask, []) && AttemptItems(retry, v, ask, []) == [] && AfterCall(retry, v, 1) == v
    ensures AllAnswer(ask, [])
  {
  }

  lemma OneMoreCall(retry: RetryPolicy, v: View, ask: Ask, earlier: seq<Reply>, reply: Reply)
    ensures CallItems(retry, v, ask, earlier + [reply]) == AttemptItems(retry, v, ask, earlier) + [Called(ask, reply)]
    ensures AllAnswer(ask, earlier) && Answers(ask, reply) ==> AllAnswer(ask, earlier + [reply])
  {
    hide Answers, WaitItems;
    assert (earlier + [reply])[..|earlier|] == earlier;
  }

  lemma LastCall(retry: RetryPolicy, ask: Ask, earlier: seq<Reply>, reply: Reply, cut: bool)
    requires Attempted(retry, ask, earlier) && Fits(ask, reply)
    requires reply.Threw? ==> cut || !retry.ShouldRetry(|earlier| + 1)
    ensures ValidCall(retry, ask, earlier + [reply], cut) && Last(earlier + [reply]) == reply
  {
    hide Fits;
  }

  lemma CallToRetry(retry: RetryPolicy, v: View, ask: Ask, earlier: seq<Reply>, reply: Reply)
    requires Attempted(retry, ask, earlier) && Fits(ask, reply) && reply.Threw? && retry.ShouldRetry(|earlier| + 1)
    ensures var replies, n := earlier + [reply], |earlier| + 1;
            && Attempted(retry, ask, replies)
            && WaitItems(retry, AfterCall(retry, v, n), n) == WaitItems(retry, v, n)
            && AttemptItems(retry, v, ask, replies) == CallItems(retry, v, ask, replies) + WaitItems(retry, v, n)
            && AfterCall(retry, v, n + 1)
               == if retry.DelayMs(n) > 0.0 then AfterCall(retry, v, n).(status := WAITING) else AfterCall(retry, v, n)
  {
    hide Fits, CallItems, RetryPolicy.DelayMs;
  }

  /** The runtime is asked with what the state holds once the cycle has started. */
  lemma AskOf(c: Config, v: View)
    ensures var w := Started(c, v);
            && RuntimeAsk(c, v) == ToRuntime(RuntimeRequest(w.objective, w.currentCycle, w.lastExecution))
            && w.currentCycle == v.currentCycle + 1
    ensures forall n :: AfterCall(c.retry, Started(c, v), n).currentCycle == v.currentCycle + 1
  {
  }

  /** A cycle whose runtime has been called: it is over when the runtime threw. */
  lemma RuntimeCalled(c: Config, v: View, log: CycleLog)
    requires ValidCall(c.retry, RuntimeAsk(c, v), log.runtime, log.cut) && log.execution == []
    ensures log.runtime != [] && !Last(log.runtime).Executed?
    ensures AllAnswer(RuntimeAsk(c, v), log.runtime) && Last(log.runtime).Threw? ==> Composed(log)
    ensures Last(log.runtime).Threw? ==>
              && ValidCalls(c, v, log)
              && AfterCalls(c, v, log) == AfterCall(c.retry, Started(c, v), |log.runtime|)
              && PortItems(c, v, log) == CallItems(c.retry, Started(c, v), RuntimeAsk(c, v), log.runtime)
              && OutcomeOf(log.runtime, log.execution)
                 == Outcome(false, None, Some(Last(log.runtime).error), Last(log.runtime).fatal)
  {
    hide CallItems, RuntimeReply;
  }

  /** A cycle whose runtime answered with a plan and whose execution engine has been called. */
  lemma ExecutionCalled(c: Config, v: View, log: CycleLog)
    requires log.runtime != [] && Last(log.runtime).Planned?
    requires exists cut :: ValidCall(c.retry, RuntimeAsk(c, v), log.runtime, cut)
    requires ValidCall(c.retry, ToExecution(Last(log.runtime).outcome.plan), log.execution, log.cut)
    ensures ValidCalls(c, v, log) && log.execution != [] && !Last(log.execution).Planned?
    ensures AllAnswer(RuntimeAsk(c, v), log.runtime) && AllAnswer(ToExecution(Last(log.runtime).outcome.plan), log.execution)
            ==> Composed(log)
    ensures var plan, last := Last(log.runtime).outcome.plan, Last(log.execution);
            var w := AfterCall(c.retry, Started(c, v), |log.runtime|);
            && PortItems(c, v, log)
               == CallItems(c.retry, Started(c, v), RuntimeAsk(c, v), log.runtime)
                  + CallItems(c.retry, w, ToExecution(plan), log.execution)
            && OutcomeOf(log.runtime, log.execution)
               == (if last.Threw? then Outcome(false, None, Some(last.error), last.fatal)
                   else Outcome(Last(log.runtime).outcome.objectiveCompleted, Some(last.summary), None, false))
            && AfterCalls(c, v, log)
               == AfterCall(c.retry, w, |log.execution|)
                    .(lastExecution := if last.Threw? then v.lastExecution else Some(last.summary))
            && (last.Threw? ==> AfterCalls(c, v, log) == AfterCall(c.retry, w, |log.execution|))
            && AfterCalls(c, v, log).currentCycle == v.currentCycle + 1
  {
    hide CallItems, RuntimeReply, ExecutionReply, RetryPolicy.ShouldRetry;
  }

  /** Stamping a cycle with its end keeps its calls and adds its record. */
  lemma FinishCycle(c: Config, v: View, log: CycleLog, done: CycleLog)
    requires ValidCalls(c, v, log) && (log.cut ==> done.cancelled)
    requires done == log.(finishedAt := done.finishedAt, elapsedMs := done.elapsedMs, cancelled := done.cancelled)
    ensures CycleView(c, v, done).currentCycle == v.currentCycle + 1
    ensures ValidCycle(c, v, done) && OutcomeOf(done.runtime, done.execution) == OutcomeOf(log.runtime, log.execution)
    ensures var w := AfterCalls(c, v, log);
            CycleView(c, v, done)
            == w.(history := w.history + [RecordOf(w, done.finishedAt, OutcomeOf(log.runtime, log.execution))])
    ensures CycleItems(c, v, done)
         == StartItems(c, v) + PortItems(c, v, log)
            + OutcomeItems(v.currentCycle + 1, OutcomeOf(log.runtime, log.execution)) + [Saved(CycleView(c, v, done))]
  {
    hide ValidCall, CallItems, Waited, RecordOf, OutcomeOf;
  }

  lemma NoTimeYet(start: int, loopStart: int)
    requires start <= loopStart
    ensures Chronological(start, [], loopStart) && ElapsedSince(loopStart, [], loopStart)
  {
  }

  lemma TimesLater(start: int, loopStart: int, logs: seq<CycleLog>, now: int, end: int)
    requires Chronological(start, logs, now) && ElapsedSince(loopStart, logs, now) && now <= end
    ensures Chronological(start, logs, end) && ElapsedSince(loopStart, logs, end)
  {
  }

  lemma TimesExtend(start: int, loopStart: int, logs: seq<CycleLog>, now: int, log: CycleLog, end: int)
    requires Chronological(start, logs, now) && ElapsedSince(loopStart, logs, now) && start <= loopStart <= now
    requires now <= log.finishedAt <= loopStart + log.elapsedMs <= end
    ensures Chronological(start, logs + [log], end) && ElapsedSince(loopStart, logs + [log], end)
  {
  }

  lemma NoCycleYet(c: Config, v: View)
    ensures ValidCycles(c, v, []) && RunView(c, v, []) == v && RunItems(c, v, []) == []
  {
  }

  /** A policy that says continue has cycles left. */
  lemma CyclesLeft(policy: LoopPolicy, v: View, elapsedMs: int, cancelled: bool, fatal: bool)
    requires Evaluate(policy, v, elapsedMs, cancelled, fatal) == CONTINUE
    ensures v.currentCycle < policy.maxCycles && !cancelled
  {
  }

  /** One more valid cycle extends the run. */
  lemma Extend(c: Config, v: View, logs: seq<CycleLog>, log: CycleLog)
    requires ValidCycles(c, v, logs) && (logs != [] ==> Decision(c, v, logs) == CONTINUE)
    requires ValidCycle(c, RunView(c, v, logs), log)
    ensures ValidCycles(c, v, logs + [log])
    ensures RunView(c, v, logs + [log]) == CycleView(c, RunView(c, v, logs), log)
    ensures RunItems(c, v, logs + [log]) == RunItems(c, v, logs) + CycleItems(c, RunView(c, v, logs), log)
    ensures Decision(c, v, logs + [log])
         == Evaluate(c.policy, CycleView(c, RunView(c, v, logs), log), log.elapsedMs, log.cancelled,
                     OutcomeOf(log.runtime, log.execution).fatal)
  {
    hide ValidCalls, CycleView, CycleItems, Evaluate, OutcomeOf;
    assert (logs + [log])[..|logs|] == logs;
  }

  /** The result handed to the caller. */
  datatype OrchestrationResult = OrchestrationResult(
    status: Status, cycles: nat, history: seq<CycleRecord>, startedAt: int, finishedAt: int, duration: int,
    objectiveCompleted: bool, executionSummary: Option<ExecutionSummary>)

  class OrchestrationEngine {
    const ports: Ports
    const config: Config

    constructor (ports: Ports, config: Config)
      ensures this.ports == ports && this.config == config
    {
      this.ports, this.config := ports, config;
    }

    /**
     * Everything a run asks of its ports, in order, and its result, are those of a valid run over the
     * answers the environment gave.
     */
    method Run(objective: Text)
      returns (r: OrchestrationResult, ghost logs: seq<CycleLog>, ghost ending: Ending, ghost loopStart: int)
      modifies ports, ports.clock, ports.Engines()
      ensures ports.stack.Some? ==> AllComposed(logs)
      ensures var first := View(objective, r.startedAt, 0, CREATED, None, None, []);
              && ValidRun(config, first, logs, ending)
              && Chronological(r.startedAt, logs, r.finishedAt)
              && r.startedAt <= loopStart && ElapsedSince(loopStart, logs, r.finishedAt)
              && var final := FinalView(config, first, logs, ending, r.finishedAt);
                 && ports.trace == old(ports.trace)
                      + [Saved(first), Emitted(LOOP_STARTED, 0)]
                      + RunItems(config, first, logs)
                      + [Saved(final), Emitted(LOOP_FINISHED, final.currentCycle)]
                 && r.status == final.status && r.cycles == final.currentCycle && r.history == final.history
                 && r.duration == r.finishedAt - r.startedAt
                 && r.objectiveCompleted == (final.status == COMPLETED)
                 && r.executionSummary == final.lastExecution
      ensures r.startedAt >= old(ports.clock.time)
      ensures ending == AbortedBefore || (logs != [] && Last(logs).cancelled) <==> ports.aborted
      ensures old(ports.aborted) ==> logs == []
    {
      hide ValidRun, RunItems, RunView;
      var startedAt := ports.clock.Now();
      var state := new OrchestrationState(objective, startedAt);
      ports.Save(state.Snapshot());
      ports.Publish(LOOP_STARTED, state.currentCycle);
      var loop := new OrchestrationLoop(ports, config);
      ghost var end;
      logs, ending, end, loopStart := loop.Run(state);
      ports.Publish(LOOP_FINISHED, state.currentCycle);
      var finishedAt := if state.finishedAt.Some? then state.finishedAt.value else startedAt;
      r := OrchestrationResult(state.status, state.currentCycle, state.history, state.startedAt, finishedAt,
                               finishedAt - state.startedAt, state.status == COMPLETED, state.lastExecution);
    }
  }
}
