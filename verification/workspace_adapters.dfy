/**
 * The adapters that stand behind the ports of the loop in the workspace runtime: an agent whose plan says what
 * to do, and the execution engine that does it (packages/workspace-runtime/src/adapters/).
 */
module WorkspaceAdapters {
  import opened Texts
  import opened OrchestrationSpec
  import PlanExecutor

  /** What the agent answers, mapped to a plan; a plan without actions says that the objective is reached. */
  function RuntimeOutcomeOf(plan: PlanExecutor.Plan): RuntimeOutcome
    requires plan.Plan?
  {
    RuntimeOutcome(ProposedPlan(plan.id, |plan.actions|, plan), |plan.actions| == 0)
  }

  function MapStatus(status: PlanExecutor.ExecutionStatus): OutcomeStatus {
    match status
    case AllDone => Succeeded
    case Partial => Partly
    case NoneDone => Unsuccessful
  }

  function Summarize(r: PlanExecutor.ExecutionResult): ExecutionSummary
    requires r.durationMs >= 0
  {
    ExecutionSummary(MapStatus(r.status), |r.executed|, |r.failed|, r.durationMs)
  }

  /** What the runtime of the stack can answer. */
  predicate RuntimeReply(reply: Reply) {
    && !reply.Executed?
    && (reply.Planned? ==>
          var plan := reply.outcome.plan;
          && plan.payload.Plan? && plan.id == plan.payload.id && plan.actionCount == |plan.payload.actions|
          && (reply.outcome.objectiveCompleted <==> plan.payload.actions == []))
  }

  /** What the execution engine of the stack can answer: it refuses exactly the plans that are not valid. */
  predicate ExecutionReply(plan: ProposedPlan, reply: Reply) {
    && !reply.Planned?
    && (reply.Executed? <==> PlanExecutor.ValidPlan(plan.payload))
    && (reply.Executed? ==>
          && reply.summary.durationMs >= 0
          && exists tried: nat | tried <= |plan.payload.actions| :: Tallied(reply.summary, tried, |plan.payload.actions|))
  }

  /** The counts and the status of so many actions tried: all done, none done, or something in between. */
  predicate Tallied(s: ExecutionSummary, tried: nat, planned: nat) {
    && s.executed + s.failed <= tried && (tried < planned ==> s.failed > 0)
    && (s.status == Succeeded <==> s.executed == tried)
    && (s.status == Unsuccessful <==> tried > 0 && s.executed == 0)
  }

  /** The summary of these results: how many were done and how many failed, wherever they stand. */
  predicate SummarizesResults(s: ExecutionSummary, results: seq<PlanExecutor.ActionResult>) {
    && s.executed == |set k: nat | k < |results| && results[k].status == PlanExecutor.SUCCESS|
    && s.failed == |set k: nat | k < |results| && results[k].status == PlanExecutor.FAILED|
    && (s.status == Succeeded <==> forall k | 0 <= k < |results| :: results[k].status == PlanExecutor.SUCCESS)
    && (s.status == Unsuccessful <==> results != [] && forall k | 0 <= k < |results| :: results[k].status != PlanExecutor.SUCCESS)
  }

  lemma SummaryTells(r: PlanExecutor.ExecutionResult)
    requires r.durationMs >= 0 && r.status == PlanExecutor.ResolveStatus(r.results)
    requires r.executed == PlanExecutor.WithStatus(r.results, PlanExecutor.SUCCESS)
    requires r.failed == PlanExecutor.WithStatus(r.results, PlanExecutor.FAILED)
    ensures SummarizesResults(Summarize(r), r.results)
    ensures Summarize(r).executed + Summarize(r).failed <= |r.results|
    ensures Summarize(r).durationMs == r.durationMs
  {
    PlanExecutor.Conservation(r.results);
    PlanExecutor.StatusByCount(r.results);
    PlanExecutor.CountedByPlaces(r.results, PlanExecutor.SUCCESS);
    PlanExecutor.CountedByPlaces(r.results, PlanExecutor.FAILED);
    AllOrNone(r.results);
    hide PlanExecutor.WithStatus, PlanExecutor.ResolveStatus;
  }

  /** As many done as there are results means all of them, and none done means none. */
  lemma AllOrNone(results: seq<PlanExecutor.ActionResult>)
    ensures var done := |PlanExecutor.WithStatus(results, PlanExecutor.SUCCESS)|;
            && (done == |results| <==> forall k | 0 <= k < |results| :: results[k].status == PlanExecutor.SUCCESS)
            && (done == 0 <==> forall k | 0 <= k < |results| :: results[k].status != PlanExecutor.SUCCESS)
  {
    PlanExecutor.Conservation(results);
    PlanExecutor.AnyIffCounted(results, PlanExecutor.SUCCESS);
    PlanExecutor.AnyIffCounted(results, PlanExecutor.FAILED);
    PlanExecutor.AnyIffCounted(results, PlanExecutor.SKIPPED);
    hide PlanExecutor.WithStatus;
  }

  lemma SummaryTallied(stopOnError: bool, actions: seq<PlanExecutor.Action>, results: seq<PlanExecutor.ActionResult>, s: ExecutionSummary)
    requires PlanExecutor.RunsThrough(stopOnError, actions, results) && SummarizesResults(s, results)
    requires s.executed + s.failed <= |results|
    ensures Tallied(s, |results|, |actions|)
  {
    AllOrNone(results);
    PlanExecutor.CountedByPlaces(results, PlanExecutor.SUCCESS);
    hide PlanExecutor.WithStatus;
    if |results| < |actions| {
      assert |results| - 1 in PlanExecutor.Places(results, PlanExecutor.FAILED);
    }
  }

  predicate Answers(ask: Ask, reply: Reply) {
    match ask
    case ToRuntime(_) => RuntimeReply(reply)
    case ToExecution(plan) => ExecutionReply(plan, reply)
  }

  /** What the agent, asked through its runtime and plan mapper, comes up with: any plan, or a throw. */
  datatype AgentAnswer = Plans(id: Text, actions: seq<PlanExecutor.Action>) | Fails(fatal: bool)

  /** The reply passes on the agent's plan, with its count of actions, and the objective as reached when there are none. */
  predicate RepliesWith(answer: AgentAnswer, reply: Reply) {
    match answer
    case Fails(fatal) => reply.Threw? && reply.fatal == fatal
    case Plans(id, actions) =>
      reply == Planned(RuntimeOutcome(ProposedPlan(id, |actions|, PlanExecutor.Plan(id, actions)), actions == []))
  }

  class RuntimeAdapter {
    ghost var asked: seq<(RuntimeRequest, AgentAnswer)>

    constructor ()
      ensures asked == []
    {
      asked := [];
    }

    method Ask(request: RuntimeRequest) returns (answer: AgentAnswer)
      modifies this
      ensures asked == old(asked) + [(request, answer)]
    {
      answer := *;
      asked := asked + [(request, answer)];
    }

    /** The agent is asked once, and the reply is what it answers. */
    method Run(request: RuntimeRequest) returns (reply: Reply)
      modifies this
      ensures RuntimeReply(reply)
      ensures |asked| == |old(asked)| + 1 && asked[..|old(asked)|] == old(asked)
      ensures asked[|old(asked)|].0 == request && RepliesWith(asked[|old(asked)|].1, reply)
    {
      var answer := Ask(request);
      match answer
      case Fails(fatal) => reply := Threw(Lit("AgentFailed"), fatal);
      case Plans(id, actions) => reply := Planned(RuntimeOutcomeOf(PlanExecutor.Plan(id, actions)));
    }
  }

  class ExecutionAdapter {
    const engine: PlanExecutor.ExecutionEngine

    constructor (engine: PlanExecutor.ExecutionEngine)
      ensures this.engine == engine
    {
      this.engine := engine;
    }

    /** `results` is what the engine answered; the summary counts its results and says whether all or none were done. */
    method Execute(plan: ProposedPlan) returns (reply: Reply, ghost results: seq<PlanExecutor.ActionResult>)
      modifies engine, engine.clock
      ensures ExecutionReply(plan, reply) && old(engine.clock.time) <= engine.clock.time
      ensures reply.Executed? ==>
                && PlanExecutor.RunsThrough(engine.stopOnError, plan.payload.actions, results)
                && SummarizesResults(reply.summary, results)
    {
      results := [];
      var result := engine.Execute(plan.payload);
      if result.Err? {
        return Threw(Lit("InvalidPlan"), false), results;
      }
      var r := result.value;
      results := r.results;
      SummaryTells(r);
      reply := Executed(Summarize(r));
      SummaryTallied(engine.stopOnError, plan.payload.actions, r.results, reply.summary);
    }
  }

  // ------------------------------------------------------------ what the adapters answer in a run

  predicate AllAnswer(ask: Ask, replies: seq<Reply>) {
    forall k | 0 <= k < |replies| :: Answers(ask, replies[k])
  }

  /** Every reply of a cycle is one an adapter can give. */
  predicate Composed(log: CycleLog) {
    && (forall k | 0 <= k < |log.runtime| :: RuntimeReply(log.runtime[k]))
    && (log.runtime != [] && Last(log.runtime).Planned? ==> AllAnswer(ToExecution(Last(log.runtime).outcome.plan), log.execution))
  }

  predicate AllComposed(logs: seq<CycleLog>) {
    forall k | 0 <= k < |logs| :: Composed(logs[k])
  }
}
