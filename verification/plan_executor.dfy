/**
 * The execution engine: a plan of actions, run in order under a policy
 * (packages/execution-engine/src/execution/execution-engine.ts, executors/registry.ts).
 */
module PlanExecutor {
  import opened Texts
  import opened Clocks

  datatype Action = Action(id: Text, kind: Text)

  /** A plan whose `actions` is not a list is refused like any other invalid one. */
  datatype Plan = NotAPlan | Plan(id: Text, actions: seq<Action>)

  datatype PlanError = NoActionList | ActionWithoutId | ActionWithoutType(id: Text) | DuplicateId(id: Text)

  datatype PolicyDecision = PolicyDecision(allowed: bool, reason: Option<Text>)

  datatype Policy = Policy(canExecute: Action -> PolicyDecision, validate: Option<Action -> PolicyDecision>)

  datatype Executor = Executor(name: Text, supports: Action -> bool)

  datatype ActionStatus = SUCCESS | FAILED | SKIPPED

  datatype ActionResult = ActionResult(
    actionId: Text, kind: Text, status: ActionStatus, executor: Option<Text>, startedAt: int, finishedAt: int, durationMs: int)

  datatype Phase = PLAN_VALIDATED | ACTION_START | ACTION_FINISH | ACTION_ERROR | EXECUTION_FINISH

  datatype LogEntry = LogEntry(phase: Phase, actionId: Option<Text>, executor: Option<Text>)

  /** A call of an executor, and whether it threw. */
  datatype ExecutorCall = ExecutorCall(executor: Executor, action: Action, threw: bool)

  datatype ExecutionStatus = AllDone | Partial | NoneDone

  datatype ExecutionResult = ExecutionResult(
    status: ExecutionStatus, executed: seq<ActionResult>, failed: seq<ActionResult>, results: seq<ActionResult>,
    durationMs: int, logs: seq<LogEntry>)

  // ------------------------------------------------------------ what is decided before an action runs

  datatype Verdict = Skip | NoExecutor | RunWith(executor: Executor)

  /** The position of the first registered executor that supports the action, or the length of the registry. */
  function Resolve(registry: seq<Executor>, action: Action): (k: nat)
    ensures k <= |registry| && (k < |registry| ==> registry[k].supports(action))
    ensures forall j | 0 <= j < k :: !registry[j].supports(action)
  {
    if registry == [] || registry[0].supports(action) then 0 else 1 + Resolve(registry[1..], action)
  }

  /** canExecute, then validate when the policy has one, then the registry. */
  function Decide(policy: Policy, registry: seq<Executor>, action: Action): Verdict {
    if !policy.canExecute(action).allowed then Skip
    else if policy.validate.Some? && !policy.validate.value(action).allowed then Skip
    else if Resolve(registry, action) == |registry| then NoExecutor
    else RunWith(registry[Resolve(registry, action)])
  }

  /**
   * An action is skipped exactly when the policy or its validation refuses it; an executor is called exactly for the
   * others that some registered executor supports, and it is the first that does.
   */
  lemma DecideIff(policy: Policy, registry: seq<Executor>, action: Action)
    ensures var verdict := Decide(policy, registry, action);
            var refused := !policy.canExecute(action).allowed || (policy.validate.Some? && !policy.validate.value(action).allowed);
            && (verdict.Skip? <==> refused)
            && (verdict.RunWith? <==> !refused && exists k | 0 <= k < |registry| :: registry[k].supports(action))
            && (verdict.RunWith? ==>
                  exists k | 0 <= k < |registry| ::
                    && registry[k].supports(action) && verdict.executor == registry[k]
                    && forall j | 0 <= j < k :: !registry[j].supports(action))
  {
  }

  // ------------------------------------------------------------ validatePlan

  predicate ValidPlan(plan: Plan) {
    plan.Plan?
    && (forall i | 0 <= i < |plan.actions| :: plan.actions[i].id != [] && plan.actions[i].kind != [])
    && (forall i, j | 0 <= i < j < |plan.actions| :: plan.actions[i].id != plan.actions[j].id)
  }

  method ValidatePlan(plan: Plan) returns (error: Option<PlanError>)
    ensures error.None? <==> ValidPlan(plan)
    ensures error.None? ==> plan.Plan?
  {
    if plan.NotAPlan? {
      return Some(NoActionList);
    }
    var ids: set<Text> := {};
    for i := 0 to |plan.actions|
      invariant forall k | 0 <= k < i :: plan.actions[k].id != [] && plan.actions[k].kind != []
      invariant forall j, k | 0 <= j < k < i :: plan.actions[j].id != plan.actions[k].id
      invariant forall id :: id in ids <==> exists k | 0 <= k < i :: plan.actions[k].id == id
    {
      var action := plan.actions[i];
      if action.id == [] {
        return Some(ActionWithoutId);
      }
      if action.kind == [] {
        return Some(ActionWithoutType(action.id));
      }
      if action.id in ids {
        return Some(DuplicateId(action.id));
      }
      ids := ids + {action.id};
    }
    return None;
  }

  // ------------------------------------------------------------ aggregate status

  predicate AnyWith(results: seq<ActionResult>, status: ActionStatus) {
    exists i | 0 <= i < |results| :: results[i].status == status
  }

  function ResolveStatus(results: seq<ActionResult>): ExecutionStatus {
    if |results| == 0 then AllDone
    else
      var anyFailed, anySucceeded, anySkipped := AnyWith(results, FAILED), AnyWith(results, SUCCESS), AnyWith(results, SKIPPED);
      if anyFailed && anySucceeded then Partial
      else if anySkipped && anySucceeded then Partial
      else if anyFailed || (anySkipped && !anySucceeded) then NoneDone
      else AllDone
  }

  function WithStatus(results: seq<ActionResult>, status: ActionStatus): (r: seq<ActionResult>)
    ensures forall i | 0 <= i < |r| :: r[i].status == status && r[i] in results
  {
    if results == [] then []
    else if results[0].status == status then [results[0]] + WithStatus(results[1..], status)
    else WithStatus(results[1..], status)
  }

  /** The places of the results with a status. */
  function Places(results: seq<ActionResult>, status: ActionStatus): set<nat> {
    set k: nat | k < |results| && results[k].status == status
  }

  /** The filter takes one result for each of these places. */
  lemma {:induction false} CountedByPlaces(results: seq<ActionResult>, status: ActionStatus)
    ensures |WithStatus(results, status)| == |Places(results, status)|
  {
    hide WithStatus;
    NoPlaces(status);
    if results != [] {
      hide Places;
      var n := |results| - 1;
      CountedByPlaces(results[..n], status);
      WithStatusLast(results, status);
      PlacesLast(results, status);
    }
  }

  lemma NoPlaces(status: ActionStatus)
    ensures Places([], status) == {} && WithStatus([], status) == []
  {
  }

  lemma PlacesLast(results: seq<ActionResult>, status: ActionStatus)
    requires results != []
    ensures var n := |results| - 1;
            |Places(results, status)| == |Places(results[..n], status)| + if results[n].status == status then 1 else 0
  {
    var n := |results| - 1;
    assert Places(results, status) == Places(results[..n], status) + if results[n].status == status then {n} else {};
  }

  /** Nothing is lost and nothing counted twice. */
  lemma {:induction false} Conservation(results: seq<ActionResult>)
    ensures |WithStatus(results, SUCCESS)| + |WithStatus(results, FAILED)| + |WithStatus(results, SKIPPED)| == |results|
  {
    if results != [] {
      Conservation(results[1..]);
    }
  }

  /** Success is all of them or none to do, failure is none of them, anything else is partial. */
  lemma {:induction false} StatusByCount(results: seq<ActionResult>)
    ensures var done := |WithStatus(results, SUCCESS)|;
            && (ResolveStatus(results) == AllDone <==> done == |results|)
            && (ResolveStatus(results) == NoneDone <==> |results| > 0 && done == 0)
            && (ResolveStatus(results) == Partial <==> 0 < done < |results|)
  {
    Conservation(results);
    AnyIffCounted(results, SUCCESS);
    AnyIffCounted(results, FAILED);
    AnyIffCounted(results, SKIPPED);
  }

  lemma {:induction false} AnyIffCounted(results: seq<ActionResult>, status: ActionStatus)
    ensures AnyWith(results, status) <==> |WithStatus(results, status)| > 0
  {
    if results != [] {
      AnyIffCounted(results[1..], status);
      if AnyWith(results, status) && results[0].status != status {
        var i :| 0 <= i < |results| && results[i].status == status;
        assert results[1..][i - 1].status == status;
      }
      if AnyWith(results[1..], status) {
        var i :| 0 <= i < |results[1..]| && results[1..][i].status == status;
        assert results[i + 1].status == status;
      }
    }
  }

  // ------------------------------------------------------------ what a run leaves behind

  /** What a verdict lets the result of its action be. */
  predicate Follows(verdict: Verdict, action: Action, r: ActionResult) {
    && r.actionId == action.id && r.kind == action.kind
    && r.startedAt <= r.finishedAt && r.durationMs == r.finishedAt - r.startedAt
    && match verdict
       case Skip => r.status == SKIPPED && r.executor.None?
       case NoExecutor => r.status == FAILED && r.executor.None?
       case RunWith(executor) => r.status != SKIPPED && r.executor == Some(executor.name)
  }

  function LogOf(verdict: Verdict, r: ActionResult): seq<LogEntry> {
    match verdict
    case RunWith(executor) =>
      [LogEntry(ACTION_START, Some(r.actionId), r.executor),
       LogEntry(if r.status == SUCCESS then ACTION_FINISH else ACTION_ERROR, Some(r.actionId), r.executor)]
    case _ => [LogEntry(ACTION_ERROR, Some(r.actionId), None)]
  }

  function LogsOf(policy: Policy, registry: seq<Executor>, actions: seq<Action>, results: seq<ActionResult>): seq<LogEntry>
    requires |results| <= |actions|
  {
    if results == [] then []
    else
      var n := |results| - 1;
      LogsOf(policy, registry, actions, results[..n]) + LogOf(Decide(policy, registry, actions[n]), results[n])
  }

  /** The call one action makes: none, or one, which threw when its action failed. */
  function CallOf(verdict: Verdict, action: Action, r: ActionResult): seq<ExecutorCall> {
    match verdict
    case RunWith(executor) => [ExecutorCall(executor, action, r.status == FAILED)]
    case _ => []
  }

  /** The executor calls behind the results: one for each action that is allowed, valid and resolved. */
  function CallsOf(policy: Policy, registry: seq<Executor>, actions: seq<Action>, results: seq<ActionResult>): seq<ExecutorCall>
    requires |results| <= |actions|
  {
    if results == [] then []
    else
      var n := |results| - 1;
      CallsOf(policy, registry, actions, results[..n]) + CallOf(Decide(policy, registry, actions[n]), actions[n], results[n])
  }

  lemma RunStart(policy: Policy, registry: seq<Executor>, actions: seq<Action>)
    ensures LogsOf(policy, registry, actions, []) == [] && CallsOf(policy, registry, actions, []) == []
  {
  }

  lemma RunStep(policy: Policy, registry: seq<Executor>, actions: seq<Action>, results: seq<ActionResult>, r: ActionResult)
    requires |results| < |actions|
    ensures var n := |results|;
            && LogsOf(policy, registry, actions, results + [r])
               == LogsOf(policy, registry, actions, results) + LogOf(Decide(policy, registry, actions[n]), r)
            && CallsOf(policy, registry, actions, results + [r])
               == CallsOf(policy, registry, actions, results) + CallOf(Decide(policy, registry, actions[n]), actions[n], r)
  {
    hide Decide, LogOf, CallOf;
    var n := |results|;
    assert (results + [r])[..n] == results;
  }

  /** The results are those of the whole plan, or of the prefix that ends at the first failure. */
  predicate RunsThrough(stopOnError: bool, actions: seq<Action>, results: seq<ActionResult>) {
    && |results| <= |actions|
    && (stopOnError ==> forall i | 0 <= i < |results| - 1 :: results[i].status != FAILED)
    && (|results| < |actions| ==> stopOnError && |results| > 0 && results[|results| - 1].status == FAILED)
  }

  predicate InOrder(results: seq<ActionResult>) {
    forall i | 0 <= i < |results| - 1 :: results[i].finishedAt <= results[i + 1].startedAt
  }

  class ExecutionEngine {
    const registry: seq<Executor>
    const policy: Policy
    const stopOnError: bool
    const clock: Clock
    ghost var calls: seq<ExecutorCall>

    constructor (registry: seq<Executor>, policy: Policy, stopOnError: bool, clock: Clock)
      ensures this.registry == registry && this.policy == policy && this.stopOnError == stopOnError && this.clock == clock
      ensures calls == []
    {
      this.registry, this.policy, this.stopOnError, this.clock := registry, policy, stopOnError, clock;
      calls := [];
    }

    method Execute(plan: Plan) returns (r: Result<ExecutionResult, PlanError>)
      modifies this, clock
      ensures clock.time >= old(clock.time)
      ensures r.Err? <==> !ValidPlan(plan)
      ensures r.Err? ==> calls == old(calls)
      ensures r.Ok? ==>
                && RunsThrough(stopOnError, plan.actions, r.value.results)
                && (forall i | 0 <= i < |r.value.results| ::
                      Follows(Decide(policy, registry, plan.actions[i]), plan.actions[i], r.value.results[i]))
                && InOrder(r.value.results)
                && r.value.executed == WithStatus(r.value.results, SUCCESS)
                && r.value.failed == WithStatus(r.value.results, FAILED)
                && r.value.status == ResolveStatus(r.value.results)
                && r.value.durationMs >= 0
                && r.value.logs == [LogEntry(PLAN_VALIDATED, None, None)]
                                   + LogsOf(policy, registry, plan.actions, r.value.results)
                                   + [LogEntry(EXECUTION_FINISH, None, None)]
                && calls == old(calls) + CallsOf(policy, registry, plan.actions, r.value.results)
    {
      hide Decide, Follows, LogsOf, CallsOf, WithStatus, ResolveStatus, ValidPlan, RunsThrough, InOrder;
      var startedAt := clock.Now();
      var error := ValidatePlan(plan);
      if error.Some? {
        return Err(error.value);
      }
      var logs := [LogEntry(PLAN_VALIDATED, None, None)];
      var results, log := RunActions(plan.actions);
      logs := logs + log;
      var end := clock.Now();
      logs := logs + [LogEntry(EXECUTION_FINISH, None, None)];
      return Ok(ExecutionResult(ResolveStatus(results), WithStatus(results, SUCCESS), WithStatus(results, FAILED),
                                results, end - startedAt, logs));
    }

    /** The loop of `execute`. */
    method RunActions(actions: seq<Action>) returns (results: seq<ActionResult>, logs: seq<LogEntry>)
      modifies this, clock
      ensures clock.time >= old(clock.time)
      ensures RunsThrough(stopOnError, actions, results)
      ensures forall i | 0 <= i < |results| :: Follows(Decide(policy, registry, actions[i]), actions[i], results[i])
      ensures InOrder(results)
      ensures logs == LogsOf(policy, registry, actions, results)
      ensures calls == old(calls) + CallsOf(policy, registry, actions, results)
    {
      hide Decide, Follows, LogOf, LogsOf, CallsOf;
      RunStart(policy, registry, actions);
      results, logs := [], [];
      var i := 0;
      while i < |actions|
        invariant 0 <= i == |results| <= |actions|
        invariant clock.time >= old(clock.time)
        invariant forall k | 0 <= k < i :: Follows(Decide(policy, registry, actions[k]), actions[k], results[k])
        invariant InOrder(results) && (i > 0 ==> results[i - 1].finishedAt <= clock.time)
        invariant stopOnError ==> forall k | 0 <= k < i :: results[k].status != FAILED
        invariant logs == LogsOf(policy, registry, actions, results)
        invariant calls == old(calls) + CallsOf(policy, registry, actions, results)
      {
        var result, log := ExecuteAction(actions[i]);
        RunStep(policy, registry, actions, results, result);
        logs := logs + log;
        results := results + [result];
        i := i + 1;
        if result.status == FAILED && stopOnError {
          break;
        }
      }
    }

    /** An executor may return or throw. */
    method Invoke(executor: Executor, action: Action) returns (threw: bool)
      modifies this`calls
      ensures calls == old(calls) + [ExecutorCall(executor, action, threw)]
    {
      threw := *;
      calls := calls + [ExecutorCall(executor, action, threw)];
    }

    /** An executor may return or throw; a throw is a failure of its action alone. */
    method ExecuteAction(action: Action) returns (r: ActionResult, log: seq<LogEntry>)
      modifies this, clock
      ensures Follows(Decide(policy, registry, action), action, r)
      ensures log == LogOf(Decide(policy, registry, action), r)
      ensures old(clock.time) <= r.startedAt <= r.finishedAt <= clock.time
      ensures calls == old(calls) + CallOf(Decide(policy, registry, action), action, r)
    {
      var startedAt := clock.Now();
      var can := policy.canExecute(action);
      if !can.allowed {
        var finishedAt := clock.Now();
        return ActionResult(action.id, action.kind, SKIPPED, None, startedAt, finishedAt, finishedAt - startedAt),
               [LogEntry(ACTION_ERROR, Some(action.id), None)];
      }
      var valid := if policy.validate.Some? then policy.validate.value(action) else PolicyDecision(true, None);
      if !valid.allowed {
        var finishedAt := clock.Now();
        return ActionResult(action.id, action.kind, SKIPPED, None, startedAt, finishedAt, finishedAt - startedAt),
               [LogEntry(ACTION_ERROR, Some(action.id), None)];
      }
      var k := Resolve(registry, action);
      if k == |registry| {
        var finishedAt := clock.Now();
        return ActionResult(action.id, action.kind, FAILED, None, startedAt, finishedAt, finishedAt - startedAt),
               [LogEntry(ACTION_ERROR, Some(action.id), None)];
      }
      var executor := registry[k];
      var name := Some(executor.name);
      log := [LogEntry(ACTION_START, Some(action.id), name)];
      var throws := Invoke(executor, action);
      var finishedAt := clock.Now();
      var status := if throws then FAILED else SUCCESS;
      log := log + [LogEntry(if throws then ACTION_ERROR else ACTION_FINISH, Some(action.id), name)];
      r := ActionResult(action.id, action.kind, status, name, startedAt, finishedAt, finishedAt - startedAt);
    }
  }

  // ------------------------------------------------------------ properties of what is left behind

  /** An action start is followed at once by the finish or the error of the same action and executor. */
  predicate StartsClosed(logs: seq<LogEntry>) {
    forall k | 0 <= k < |logs| && logs[k].phase == ACTION_START ::
      && k + 1 < |logs|
      && logs[k + 1].phase in {ACTION_FINISH, ACTION_ERROR}
      && logs[k + 1].actionId == logs[k].actionId && logs[k + 1].executor == logs[k].executor
  }

  /** Finishes and starts pair up: a finish always follows the start of the same action. */
  predicate FinishesOpened(logs: seq<LogEntry>) {
    forall k | 0 <= k < |logs| && logs[k].phase == ACTION_FINISH ::
      k > 0 && logs[k - 1] == logs[k].(phase := ACTION_START)
  }

  lemma {:induction false} LogsPair(policy: Policy, registry: seq<Executor>, actions: seq<Action>, results: seq<ActionResult>)
    requires |results| <= |actions|
    ensures StartsClosed(LogsOf(policy, registry, actions, results))
    ensures FinishesOpened(LogsOf(policy, registry, actions, results))
  {
    if results != [] {
      var n := |results| - 1;
      LogsPair(policy, registry, actions, results[..n]);
      var front := LogsOf(policy, registry, actions, results[..n]);
      var last := LogOf(Decide(policy, registry, actions[n]), results[n]);
      var all := front + last;
      forall k | 0 <= k < |all| ensures k < |front| ==> all[k] == front[k] {
      }
      forall k | |front| <= k < |all| ensures all[k] == last[k - |front|] {
      }
    }
  }

  /** A plan that was accepted yields results with distinct ids, at most one executor call each. */
  lemma ResultsOfPlan(policy: Policy, registry: seq<Executor>, stopOnError: bool, plan: Plan, results: seq<ActionResult>)
    requires ValidPlan(plan) && RunsThrough(stopOnError, plan.actions, results)
    requires forall i | 0 <= i < |results| ::
               Follows(Decide(policy, registry, plan.actions[i]), plan.actions[i], results[i])
    ensures forall i, j | 0 <= i < j < |results| :: results[i].actionId != results[j].actionId
    ensures |CallsOf(policy, registry, plan.actions, results)| ==
            |results| - |WithStatus(results, SKIPPED)| - Unresolved(results)
    ensures |WithStatus(results, SUCCESS)| + |WithStatus(results, FAILED)| <= |plan.actions|
  {
    Conservation(results);
    CallCount(policy, registry, plan.actions, results);
  }

  /** Failures that never reached an executor. */
  function Unresolved(results: seq<ActionResult>): nat {
    if results == [] then 0
    else
      var n := |results| - 1;
      Unresolved(results[..n]) + if results[n].status == FAILED && results[n].executor.None? then 1 else 0
  }

  lemma {:induction false} CallCount(policy: Policy, registry: seq<Executor>, actions: seq<Action>, results: seq<ActionResult>)
    requires |results| <= |actions|
    requires forall i | 0 <= i < |results| :: Follows(Decide(policy, registry, actions[i]), actions[i], results[i])
    ensures |CallsOf(policy, registry, actions, results)| + |WithStatus(results, SKIPPED)| + Unresolved(results) == |results|
  {
    if results != [] {
      hide Decide, Follows, CallsOf, WithStatus, Unresolved;
      var n := |results| - 1;
      CallCount(policy, registry, actions, results[..n]);
      CallCountStep(policy, registry, actions, results);
    }
  }

  lemma CallCountStep(policy: Policy, registry: seq<Executor>, actions: seq<Action>, results: seq<ActionResult>)
    requires 0 < |results| <= |actions|
    requires var n := |results| - 1; Follows(Decide(policy, registry, actions[n]), actions[n], results[n])
    ensures var n := |results| - 1;
            |CallsOf(policy, registry, actions, results)| + |WithStatus(results, SKIPPED)| + Unresolved(results)
            == |CallsOf(policy, registry, actions, results[..n])| + |WithStatus(results[..n], SKIPPED)| + Unresolved(results[..n]) + 1
  {
    hide Decide, WithStatus, CallsOf, LogsOf;
    var n := |results| - 1;
    RunStep(policy, registry, actions, results[..n], results[n]);
    assert results[..n] + [results[n]] == results;
    WithStatusLast(results, SKIPPED);
  }

  lemma {:induction false} WithStatusLast(results: seq<ActionResult>, status: ActionStatus)
    requires results != []
    ensures var n := |results| - 1;
            WithStatus(results, status)
            == WithStatus(results[..n], status) + if results[n].status == status then [results[n]] else []
  {
    var n := |results| - 1;
    if n > 0 {
      WithStatusLast(results[1..], status);
      assert results[1..][..n - 1] == results[..n][1..];
    }
  }
}
