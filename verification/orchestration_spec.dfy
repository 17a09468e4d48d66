/**
 * What a run of the orchestration loop is, as a function of what its environment answers
 * (packages/orchestration-engine/src/engine/orchestration-loop.ts, orchestration-engine.ts, policies/).
 */
module OrchestrationSpec {
  import opened Texts
  import PlanExecutor

  datatype Status = CREATED | RUNNING | WAITING | REPLANNING | COMPLETED | FAILED | CANCELLED

  datatype OutcomeStatus = Succeeded | Partly | Unsuccessful

  datatype ExecutionSummary = ExecutionSummary(status: OutcomeStatus, executed: nat, failed: nat, durationMs: int)

  /** The payload is opaque to the loop, which only passes it on. */
  datatype ProposedPlan = ProposedPlan(id: Text, actionCount: nat, payload: PlanExecutor.Plan)

  datatype RuntimeRequest = RuntimeRequest(objective: Text, cycle: nat, previousExecution: Option<ExecutionSummary>)

  datatype RuntimeOutcome = RuntimeOutcome(plan: ProposedPlan, objectiveCompleted: bool)

  datatype CycleRecord = CycleRecord(
    cycle: nat, startedAt: int, finishedAt: int, durationMs: int, objectiveCompleted: bool,
    execution: Option<ExecutionSummary>, error: Option<Text>)

  /** The mutable state of a run, as it is saved. */
  datatype View = View(
    objective: Text, startedAt: int, currentCycle: nat, status: Status, finishedAt: Option<int>,
    lastExecution: Option<ExecutionSummary>, history: seq<CycleRecord>)

  // ------------------------------------------------------------ policies

  datatype LoopPolicy = LoopPolicy(maxCycles: int, maxDurationMs: Option<int>, maxFailures: Option<int>, autoReplan: bool)

  datatype RetryPolicy = NoRetry | ExponentialBackoff(maxRetries: int, baseDelayMs: real, factor: real)
  {
    predicate ShouldRetry(attempt: int) {
      ExponentialBackoff? && attempt <= maxRetries
    }

    function DelayMs(attempt: nat): real
      requires attempt > 0
    {
      if NoRetry? then 0.0 else baseDelayMs * Power(factor, attempt - 1)
    }
  }

  function Power(x: real, n: nat): real {
    if n == 0 then 1.0 else x * Power(x, n - 1)
  }

  datatype StopReason =
    | CONTINUE | OBJECTIVE_COMPLETED | MAX_CYCLES | MAX_FAILURES | MAX_DURATION | ABORTED | FATAL_ERROR

  function Failures(history: seq<CycleRecord>): nat {
    if history == [] then 0
    else Failures(history[..|history| - 1]) + if history[|history| - 1].error.Some? then 1 else 0
  }

  function Evaluate(policy: LoopPolicy, v: View, elapsedMs: int, cancelled: bool, fatal: bool): StopReason {
    if cancelled then ABORTED
    else if fatal then FATAL_ERROR
    else if v.history != [] && v.history[|v.history| - 1].objectiveCompleted then OBJECTIVE_COMPLETED
    else if policy.maxFailures.Some? && Failures(v.history) >= policy.maxFailures.value then MAX_FAILURES
    else if policy.maxDurationMs.Some? && elapsedMs >= policy.maxDurationMs.value then MAX_DURATION
    else if v.currentCycle >= policy.maxCycles then MAX_CYCLES
    else CONTINUE
  }

  function StatusFromStopReason(reason: StopReason): Status {
    match reason
    case OBJECTIVE_COMPLETED => COMPLETED
    case ABORTED => CANCELLED
    case CONTINUE => RUNNING
    case _ => FAILED
  }

  // ------------------------------------------------------------ what a run does, in order

  datatype EventType =
    | LOOP_STARTED | LOOP_FINISHED | CYCLE_STARTED | REPLANNED | EXECUTION_COMPLETED | CYCLE_FAILED | OBJECTIVE_REACHED

  datatype Ask = ToRuntime(request: RuntimeRequest) | ToExecution(plan: ProposedPlan)

  datatype Reply = Planned(outcome: RuntimeOutcome) | Executed(summary: ExecutionSummary) | Threw(error: Text, fatal: bool)

  datatype Item = Emitted(event: EventType, cycle: nat) | Saved(view: View) | Called(ask: Ask, reply: Reply) | Slept(ms: real)

  datatype Config = Config(policy: LoopPolicy, retry: RetryPolicy)

  /** What the environment answers in one cycle. */
  datatype CycleLog = CycleLog(
    runtime: seq<Reply>,     // the replies of the runtime, one per attempt
    execution: seq<Reply>,   // the replies of the execution engine, none when the runtime failed
    cut: bool,               // the abort flag, as read when the last call of the cycle gave up
    finishedAt: int,
    elapsedMs: int,
    cancelled: bool)         // the abort flag, as read for the stop policy

  function Last<T>(s: seq<T>): T
    requires s != []
  {
    s[|s| - 1]
  }

  // ------------------------------------------------------------ one call, with retries

  predicate Fits(ask: Ask, reply: Reply) {
    match reply
    case Planned(_) => ask.ToRuntime?
    case Executed(_) => ask.ToExecution?
    case Threw(_, _) => true
  }

  predicate Retried(retry: RetryPolicy, reply: Reply, attempt: int) {
    reply.Threw? && retry.ShouldRetry(attempt)
  }

  /** Attempts go on exactly while the port throws, the policy allows one more and nobody aborted. */
  predicate ValidCall(retry: RetryPolicy, ask: Ask, replies: seq<Reply>, cut: bool) {
    && replies != []
    && (forall k | 0 <= k < |replies| :: Fits(ask, replies[k]))
    && (forall k | 0 <= k < |replies| - 1 :: Retried(retry, replies[k], k + 1))
    && (Last(replies).Threw? ==> cut || !retry.ShouldRetry(|replies|))
  }

  /** Between the n-th attempt and the next: nothing, or a save as WAITING and a sleep. */
  function WaitItems(retry: RetryPolicy, v: View, n: nat): seq<Item>
    requires n > 0
  {
    if retry.DelayMs(n) > 0.0 then [Saved(v.(status := WAITING)), Slept(retry.DelayMs(n))] else []
  }

  function CallItems(retry: RetryPolicy, v: View, ask: Ask, replies: seq<Reply>): seq<Item> {
    if replies == [] then []
    else
      var front := replies[..|replies| - 1];
      CallItems(retry, v, ask, front)
      + (if front == [] then [] else WaitItems(retry, v, |front|))
      + [Called(ask, Last(replies))]
  }

  /** Some wait happened among n attempts; the status then stays WAITING for the rest of the cycle. */
  predicate Waited(retry: RetryPolicy, n: nat) {
    n >= 2 && (Waited(retry, n - 1) || retry.DelayMs(n - 1) > 0.0)
  }

  function AfterCall(retry: RetryPolicy, v: View, n: nat): View {
    if Waited(retry, n) then v.(status := WAITING) else v
  }

  // ------------------------------------------------------------ one cycle

  datatype Outcome = Outcome(objectiveCompleted: bool, execution: Option<ExecutionSummary>, error: Option<Text>, fatal: bool)

  predicate Replan(c: Config, cycle: nat) {
    cycle > 1 && c.policy.autoReplan
  }

  function Started(c: Config, v: View): View {
    v.(currentCycle := v.currentCycle + 1, status := if Replan(c, v.currentCycle + 1) then REPLANNING else RUNNING)
  }

  function RuntimeAsk(c: Config, v: View): Ask {
    ToRuntime(RuntimeRequest(v.objective, v.currentCycle + 1, v.lastExecution))
  }

  predicate ValidCalls(c: Config, v: View, log: CycleLog) {
    && ValidCall(c.retry, RuntimeAsk(c, v), log.runtime, log.cut)
    && (if Last(log.runtime).Planned?
        then ValidCall(c.retry, ToExecution(Last(log.runtime).outcome.plan), log.execution, log.cut)
        else log.execution == [])
  }

  /** An abort that cut the retries short is still up when the stop policy looks. */
  predicate ValidCycle(c: Config, v: View, log: CycleLog) {
    ValidCalls(c, v, log) && (log.cut ==> log.cancelled)
  }

  function OutcomeOf(runtime: seq<Reply>, execution: seq<Reply>): Outcome
    requires runtime != [] && !Last(runtime).Executed?
    requires Last(runtime).Planned? ==> execution != [] && !Last(execution).Planned?
  {
    match Last(runtime)
    case Threw(error, fatal) => Outcome(false, None, Some(error), fatal)
    case Planned(outcome) =>
      match Last(execution)
      case Threw(error, fatal) => Outcome(false, None, Some(error), fatal)
      case Executed(summary) => Outcome(outcome.objectiveCompleted, Some(summary), None, false)
  }

  function RecordOf(v: View, finishedAt: int, o: Outcome): CycleRecord {
    var previous := if v.history == [] then v.startedAt else Last(v.history).finishedAt;
    CycleRecord(v.currentCycle, previous, finishedAt, finishedAt - previous, o.objectiveCompleted, o.execution, o.error)
  }

  /** The state once the calls of a cycle are over. */
  function AfterCalls(c: Config, v: View, log: CycleLog): View
    requires ValidCalls(c, v, log)
  {
    var o := OutcomeOf(log.runtime, log.execution);
    AfterCall(c.retry, AfterCall(c.retry, Started(c, v), |log.runtime|), |log.execution|)
      .(lastExecution := if o.execution.Some? then o.execution else v.lastExecution)
  }

  function CycleView(c: Config, v: View, log: CycleLog): View
    requires ValidCalls(c, v, log)
  {
    var w := AfterCalls(c, v, log);
    w.(history := w.history + [RecordOf(w, log.finishedAt, OutcomeOf(log.runtime, log.execution))])
  }

  function StartItems(c: Config, v: View): seq<Item> {
    var n := v.currentCycle + 1;
    [Saved(Started(c, v)), Emitted(CYCLE_STARTED, n)] + if Replan(c, n) then [Emitted(REPLANNED, n)] else []
  }

  function PortItems(c: Config, v: View, log: CycleLog): seq<Item>
    requires ValidCalls(c, v, log)
  {
    CallItems(c.retry, Started(c, v), RuntimeAsk(c, v), log.runtime)
    + if Last(log.runtime).Planned?
      then CallItems(c.retry, AfterCall(c.retry, Started(c, v), |log.runtime|),
                     ToExecution(Last(log.runtime).outcome.plan), log.execution)
      else []
  }

  function OutcomeItems(cycle: nat, o: Outcome): seq<Item> {
    if o.error.Some? then [Emitted(CYCLE_FAILED, cycle)]
    else [Emitted(EXECUTION_COMPLETED, cycle)] + if o.objectiveCompleted then [Emitted(OBJECTIVE_REACHED, cycle)] else []
  }

  function CycleItems(c: Config, v: View, log: CycleLog): seq<Item>
    requires ValidCalls(c, v, log)
  {
    StartItems(c, v) + PortItems(c, v, log) + OutcomeItems(v.currentCycle + 1, OutcomeOf(log.runtime, log.execution))
    + [Saved(CycleView(c, v, log))]
  }

  // ------------------------------------------------------------ the whole run

  /** Every cycle is valid where it starts; cycles before the last were told to continue. */
  predicate ValidCycles(c: Config, v: View, logs: seq<CycleLog>)
    decreases |logs|, 0
  {
    logs == [] ||
    var front := logs[..|logs| - 1];
    && ValidCycles(c, v, front)
    && (front != [] ==> Decision(c, v, front) == CONTINUE)
    && ValidCycle(c, RunView(c, v, front), Last(logs))
  }

  function RunView(c: Config, v: View, logs: seq<CycleLog>): View
    requires ValidCycles(c, v, logs)
    decreases |logs|, 1
  {
    if logs == [] then v else CycleView(c, RunView(c, v, logs[..|logs| - 1]), Last(logs))
  }

  function RunItems(c: Config, v: View, logs: seq<CycleLog>): seq<Item>
    requires ValidCycles(c, v, logs)
    decreases |logs|, 1
  {
    if logs == [] then []
    else RunItems(c, v, logs[..|logs| - 1]) + CycleItems(c, RunView(c, v, logs[..|logs| - 1]), Last(logs))
  }

  /** What the stop policy says after the last cycle. */
  function Decision(c: Config, v: View, logs: seq<CycleLog>): StopReason
    requires logs != [] && ValidCycles(c, v, logs)
    decreases |logs|, 2
  {
    Evaluate(c.policy, RunView(c, v, logs), Last(logs).elapsedMs, Last(logs).cancelled,
             OutcomeOf(Last(logs).runtime, Last(logs).execution).fatal)
  }

  /** A run ends when the flag is found up before a cycle, or when the stop policy stops it. */
  datatype Ending = AbortedBefore | StoppedBy(reason: StopReason)

  predicate ValidRun(c: Config, v: View, logs: seq<CycleLog>, ending: Ending) {
    && ValidCycles(c, v, logs)
    && match ending
       case AbortedBefore => logs != [] ==> Decision(c, v, logs) == CONTINUE
       case StoppedBy(reason) => logs != [] && reason != CONTINUE && Decision(c, v, logs) == reason
  }

  function FinalStatus(ending: Ending): Status {
    match ending
    case AbortedBefore => CANCELLED
    case StoppedBy(reason) => StatusFromStopReason(reason)
  }

  function FinalView(c: Config, v: View, logs: seq<CycleLog>, ending: Ending, finishedAt: int): View
    requires ValidRun(c, v, logs, ending)
  {
    RunView(c, v, logs).(status := FinalStatus(ending), finishedAt := Some(finishedAt))
  }

  /** Cycles finish in order, none before the run starts or after it ends. */
  predicate Chronological(start: int, logs: seq<CycleLog>, end: int) {
    && start <= end
    && (logs != [] ==> start <= logs[0].finishedAt && Last(logs).finishedAt <= end)
    && (forall j, k | 0 <= j < k < |logs| :: logs[j].finishedAt <= logs[k].finishedAt)
  }

  /** The elapsed time the stop policy sees is read between a cycle's end and the next, and counts from loopStart. */
  predicate ElapsedSince(loopStart: int, logs: seq<CycleLog>, end: int) {
    && (logs != [] ==> loopStart <= logs[0].finishedAt)
    && (forall k | 0 <= k < |logs| :: logs[k].finishedAt <= loopStart + logs[k].elapsedMs <= end)
    && (forall j, k | 0 <= j < k < |logs| :: loopStart + logs[j].elapsedMs <= logs[k].finishedAt)
  }
}
