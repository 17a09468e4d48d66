/**
 * Sessions over the composed stack: the orchestration loop, whose ports answer through the adapters
 * (packages/workspace-runtime/src/workspace/workspace-manager.ts, workspace-state.ts, composition/).
 */
module WorkspaceSessions {
  import opened Texts
  import opened Clocks
  import opened OrchestrationSpec
  import opened OrchestrationProperties
  import opened WorkspaceAdapters
  import Orchestration
  import PlanExecutor

  // ------------------------------------------------------------ runs of the stack

  /** The actions of the plan that a cycle ran. */
  function PlannedActions(log: CycleLog): nat {
    if log.runtime != [] && Last(log.runtime).Planned? then Last(log.runtime).outcome.plan.actionCount else 0
  }

  predicate WithinPlan(r: CycleRecord, log: CycleLog) {
    r.execution.Some? ==> r.execution.value.executed + r.execution.value.failed <= PlannedActions(log)
  }

  lemma CycleWithinPlan(c: Config, v: View, log: CycleLog)
    requires ValidCycle(c, v, log) && Composed(log)
    ensures CycleView(c, v, log).history != [] && WithinPlan(Last(CycleView(c, v, log).history), log)
  {
    Answered(c, v, log);
    hide Waited;
    if Last(log.runtime).Planned? {
      assert RuntimeReply(log.runtime[|log.runtime| - 1]);
      assert ExecutionReply(Last(log.runtime).outcome.plan, log.execution[|log.execution| - 1]);
    }
  }

  predicate AllWithinPlan(h: seq<CycleRecord>, logs: seq<CycleLog>) {
    |h| == |logs| && forall k | 0 <= k < |h| :: WithinPlan(h[k], logs[k])
  }

  lemma WithinMore(h: seq<CycleRecord>, logs: seq<CycleLog>, r: CycleRecord, log: CycleLog)
    requires AllWithinPlan(h, logs) && WithinPlan(r, log)
    ensures AllWithinPlan(h + [r], logs + [log])
  {
    hide WithinPlan;
  }

  /** No cycle reports more done and failed than its plan had actions. */
  lemma {:induction false} ExecutedWithinPlan(c: Config, v: View, logs: seq<CycleLog>)
    requires Fresh(v) && ValidCycles(c, v, logs) && AllComposed(logs)
    ensures AllWithinPlan(RunView(c, v, logs).history, logs)
    decreases |logs|
  {
    hide RunView, CycleView, ValidCycle, ValidCycles, Composed, AllComposed, AllWithinPlan, Decision;
    if logs == [] {
      NothingRun(c, v);
    } else {
      UnfoldView(c, v, logs);
      ComposedParts(logs);
      ExecutedWithinPlan(c, v, Front(logs));
      OneCycleWithinPlan(c, RunView(c, v, Front(logs)), Front(logs), Last(logs));
      assert Front(logs) + [Last(logs)] == logs;
    }
  }

  lemma NothingRun(c: Config, v: View)
    requires Fresh(v)
    ensures ValidCycles(c, v, []) && AllWithinPlan(RunView(c, v, []).history, [])
  {
  }

  lemma ComposedParts(logs: seq<CycleLog>)
    requires logs != [] && AllComposed(logs)
    ensures AllComposed(Front(logs)) && Composed(Last(logs))
  {
    hide Composed;
  }

  lemma OneCycleWithinPlan(c: Config, before: View, logs: seq<CycleLog>, log: CycleLog)
    requires ValidCycle(c, before, log) && Composed(log) && AllWithinPlan(before.history, logs)
    ensures AllWithinPlan(CycleView(c, before, log).history, logs + [log])
  {
    CycleWithinPlan(c, before, log);
    CycleShape(c, before, log);
    hide CycleView, ValidCycle, Composed, WithinPlan, AllWithinPlan, OutcomeOf, RecordShaped;
    WithinMore(before.history, logs, Last(CycleView(c, before, log).history), log);
  }

  /** The agent was asked in the first cycle and proposed nothing to do. */
  predicate NothingProposed(logs: seq<CycleLog>) {
    && logs != [] && logs[0].runtime != [] && Last(logs[0].runtime).Planned?
    && Last(logs[0].runtime).outcome.plan.payload.Plan? && Last(logs[0].runtime).outcome.plan.payload.actions == []
  }

  /** Then the cycle succeeds and reaches the objective. */
  lemma NothingToDo(c: Config, v: View, log: CycleLog)
    requires ValidCycle(c, v, log) && Composed(log) && NothingProposed([log])
    ensures Last(CycleView(c, v, log).history).objectiveCompleted && log.execution != [] && Last(log.execution).Executed?
  {
    Answered(c, v, log);
    hide Waited;
    assert RuntimeReply(log.runtime[|log.runtime| - 1]);
    var plan := Last(log.runtime).outcome.plan;
    assert PlanExecutor.ValidPlan(plan.payload);
    assert ExecutionReply(plan, log.execution[|log.execution| - 1]);
  }

  /** An agent with nothing to propose ends the run after exactly one cycle, COMPLETED unless somebody aborted. */
  lemma NothingProposedCompletes(c: Config, v: View, logs: seq<CycleLog>, ending: Ending)
    requires Fresh(v) && ValidRun(c, v, logs, ending) && AllComposed(logs) && NothingProposed(logs)
    ensures |logs| == 1 && RunView(c, v, logs).currentCycle == 1
    ensures FinalStatus(ending) == if logs[0].cancelled then CANCELLED else COMPLETED
  {
    var first := logs[..1];
    EarlierContinue(c, v, logs, 0);
    assert logs[..0] == [] && RunView(c, v, []) == v;
    assert Composed(logs[0]);
    NothingToDo(c, v, logs[0]);
    FirstCycleEnds(c, v, logs);
    RunShape(c, v, logs);
    assert logs == [logs[0]];
    Unfold(c, v, logs);
    hide ValidCycle, CycleView;
    FinalStatusIff(c, v, logs, ending);
    AloneEnding(c, v, logs, ending);
  }

  /** A first cycle that reaches the objective is the last. */
  lemma FirstCycleEnds(c: Config, v: View, logs: seq<CycleLog>)
    requires Fresh(v) && ValidCycles(c, v, logs) && logs != []
    requires ValidCycle(c, v, logs[0]) && Last(CycleView(c, v, logs[0]).history).objectiveCompleted
    ensures |logs| == 1
  {
    if |logs| > 1 {
      FirstOfHistory(c, v, logs);
      ObjectiveOnlyLast(c, v, logs);
      RunShape(c, v, logs);
    }
  }

  /** The first record of a run is that of its first cycle. */
  lemma {:induction false} FirstOfHistory(c: Config, v: View, logs: seq<CycleLog>)
    requires Fresh(v) && ValidCycles(c, v, logs) && logs != []
    ensures ValidCycle(c, v, logs[0])
    ensures RunView(c, v, logs).history != []
    ensures CycleView(c, v, logs[0]).history != [] && RunView(c, v, logs).history[0] == Last(CycleView(c, v, logs[0]).history)
    decreases |logs|
  {
    Unfold(c, v, logs);
    Step(c, v, logs);
    hide ValidCycle, CycleView, ValidCycles;
    if |logs| == 1 {
      assert Front(logs) == [] && RunView(c, v, []) == v;
    } else {
      hide RunView;
      FirstOfHistory(c, v, Front(logs));
    }
  }

  /** A run that reached its objective was stopped by the policy, not by a flag found up before a further cycle. */
  lemma AloneEnding(c: Config, v: View, logs: seq<CycleLog>, ending: Ending)
    requires ValidRun(c, v, logs, ending) && logs != []
    requires RunView(c, v, logs).history != [] && Last(RunView(c, v, logs).history).objectiveCompleted
    ensures ending != AbortedBefore
  {
    if Decision(c, v, logs) == CONTINUE {
      Continued(c, v, logs);
    }
  }

  // ------------------------------------------------------------ sessions

  datatype SessionStatus = SessionCreated | SessionRunning | SessionWaiting | SessionCompleted | SessionFailed | SessionCancelled

  function StatusFromOrchestration(status: Status): SessionStatus {
    match status
    case COMPLETED => SessionCompleted
    case FAILED => SessionFailed
    case CANCELLED => SessionCancelled
    case WAITING => SessionWaiting
    case _ => SessionRunning
  }

  datatype Session = Session(
    id: nat, workspaceId: Text, objective: Text, status: SessionStatus, currentCycle: nat, startedAt: int,
    finishedAt: Option<int>, history: seq<CycleRecord>, executionSummary: Option<ExecutionSummary>)

  datatype SessionError = WorkspaceNotFound(workspaceId: Text) | SessionNotFound(sessionId: nat)

  class WorkspaceManager {
    const workspaces: set<Text>
    const clock: Clock
    const runner: Orchestration.OrchestrationEngine
    var store: map<nat, Session>
    var issued: nat
    ghost var saves: seq<Session>

    constructor (workspaces: set<Text>, clock: Clock, runner: Orchestration.OrchestrationEngine)
      requires runner.ports.stack.Some?
      ensures this.workspaces == workspaces && this.clock == clock && this.runner == runner
      ensures store == map[] && saves == [] && Valid()
    {
      this.workspaces, this.clock, this.runner := workspaces, clock, runner;
      store, issued, saves := map[], 0, [];
    }

    /** The runner's ports answer through the adapters, and the store keeps sessions under their ids. */
    ghost predicate Valid()
      reads this
    {
      runner.ports.stack.Some? && forall id | id in store :: id < issued && store[id].id == id
    }

    method Save(session: Session)
      modifies this`store, this`saves
      ensures store == old(store)[session.id := session] && saves == old(saves) + [session]
    {
      store := store[session.id := session];
      saves := saves + [session];
    }

    /**
     * A session is saved three times, as created, as running and as it ended; it ends with a terminal status
     * and as many cycles as its history has records; no other session changes. In no cycle are more actions
     * done and failed than the agent's plan has; and an agent that proposes nothing ends the session after
     * exactly one cycle, completed unless somebody aborted. `logs` is what agent and engine answered.
     */
    method StartSession(workspaceId: Text, objective: Text)
      returns (r: Result<Session, SessionError>, ghost first: View, ghost logs: seq<CycleLog>, ghost ending: Ending)
      requires Valid()
      modifies this, clock, runner.ports, runner.ports.clock, runner.ports.Engines()
      ensures Valid()
      ensures r.Err? <==> workspaceId !in workspaces
      ensures r.Err? ==> store == old(store) && saves == old(saves)
      ensures r.Ok? ==>
                && r.value.id !in old(store) && store == old(store)[r.value.id := r.value]
                && r.value.workspaceId == workspaceId && r.value.objective == objective
                && r.value.status in {SessionCompleted, SessionFailed, SessionCancelled}
                && r.value.currentCycle == |r.value.history| && HistoryShaped(r.value.history)
                && r.value.finishedAt.Some? && r.value.executionSummary == Latest(r.value.history)
                && saves == old(saves) + [Opened(r.value, SessionCreated), Opened(r.value, SessionRunning), r.value]
      ensures r.Ok? ==>
                && ValidCycles(runner.config, first, logs) && first.objective == objective
                && old(runner.ports.trace) + [Saved(first), Emitted(LOOP_STARTED, 0)] + RunItems(runner.config, first, logs)
                   <= runner.ports.trace
                && r.value.history == RunView(runner.config, first, logs).history
      ensures r.Ok? ==> EndsAs(r.value, logs, ending) && (r.value.status == SessionCancelled <==> runner.ports.aborted)
      ensures r.Ok? ==> AllWithinPlan(r.value.history, logs)
      ensures r.Ok? && NothingProposed(logs) ==>
                && r.value.currentCycle == 1
                && r.value.status == if logs[0].cancelled then SessionCancelled else SessionCompleted
    {
      hide ValidRun, ValidCycles, RunItems, RunView, HistoryShaped, Latest, AllComposed, AllWithinPlan, NothingProposed, EndsAs,
           FinalView, ElapsedSince, Chronological;
      first, logs, ending := View(objective, 0, 0, CREATED, None, None, []), [], AbortedBefore;
      if workspaceId !in workspaces {
        return Err(WorkspaceNotFound(workspaceId)), first, logs, ending;
      }
      var startedAt := clock.Now();
      var session := Session(issued, workspaceId, objective, SessionCreated, 0, startedAt, None, [], None);
      issued := issued + 1;
      Save(session);
      session := session.(status := SessionRunning);
      Save(session);
      var result;
      ghost var loopStart;
      result, logs, ending, loopStart := runner.Run(objective);
      first := View(objective, result.startedAt, 0, CREATED, None, None, []);
      RunResult(runner.config, first, logs, ending, result.finishedAt);
      StackResult(runner.config, first, logs, ending, result.finishedAt);
      session := session.(status := StatusFromOrchestration(result.status), currentCycle := result.cycles, history := result.history,
                          executionSummary := result.executionSummary, finishedAt := Some(result.finishedAt));
      Save(session);
      SessionEnd(runner.config, first, logs, ending, result.finishedAt, session);
      r := Ok(session);
    }

    /** A session is only found through its own workspace. */
    method GetSession(workspaceId: Text, sessionId: nat) returns (r: Result<Session, SessionError>)
      ensures r.Ok? <==> sessionId in store && store[sessionId].workspaceId == workspaceId
      ensures r.Ok? ==> r.value == store[sessionId]
    {
      if sessionId !in store || store[sessionId].workspaceId != workspaceId {
        return Err(SessionNotFound(sessionId));
      }
      r := Ok(store[sessionId]);
    }
  }

  /**
   * How a session ends: cancelled when the run found the abort flag up, completed when its last cycle reached the
   * objective without that, failed otherwise.
   */
  predicate EndsAs(s: Session, logs: seq<CycleLog>, ending: Ending) {
    var cancelled := ending == AbortedBefore || (logs != [] && Last(logs).cancelled);
    && (s.status == SessionCancelled <==> cancelled)
    && (s.status == SessionCompleted <==> !cancelled && s.history != [] && Last(s.history).objectiveCompleted)
    && (s.status == SessionFailed <==> !cancelled && (s.history == [] || !Last(s.history).objectiveCompleted))
  }

  lemma SessionEnd(c: Config, first: View, logs: seq<CycleLog>, ending: Ending, finishedAt: int, s: Session)
    requires Fresh(first) && ValidRun(c, first, logs, ending)
    requires var final := FinalView(c, first, logs, ending, finishedAt);
             s.status == StatusFromOrchestration(final.status) && s.history == final.history
    ensures EndsAs(s, logs, ending)
    ensures s.status in {SessionCompleted, SessionFailed, SessionCancelled}
    ensures s.status == SessionCancelled <==> ending == AbortedBefore || (logs != [] && Last(logs).cancelled)
  {
    FinalStatusIff(c, first, logs, ending);
    hide RunView, ValidCycles, CycleView;
  }

  /** The session before its run. */
  function Opened(s: Session, status: SessionStatus): Session {
    Session(s.id, s.workspaceId, s.objective, status, 0, s.startedAt, None, [], None)
  }

  /** What the result of any run gives its session. */
  lemma RunResult(c: Config, first: View, logs: seq<CycleLog>, ending: Ending, finishedAt: int)
    requires Fresh(first) && ValidRun(c, first, logs, ending)
    ensures var final := FinalView(c, first, logs, ending, finishedAt);
            && final.status in {COMPLETED, FAILED, CANCELLED} && final.currentCycle == |final.history|
            && HistoryShaped(final.history) && final.lastExecution == Latest(final.history)
  {
    FinalStatusIff(c, first, logs, ending);
    RunShape(c, first, logs);
    LastExecutionIsLatest(c, first, logs);
    hide RunView, ValidCycles, HistoryShaped, Latest;
  }

  /** What it has when the agent and the engine of the stack answered. */
  lemma StackResult(c: Config, first: View, logs: seq<CycleLog>, ending: Ending, finishedAt: int)
    requires Fresh(first) && ValidRun(c, first, logs, ending) && AllComposed(logs)
    ensures var final := FinalView(c, first, logs, ending, finishedAt);
            && ValidCycles(c, first, logs) && final.history == RunView(c, first, logs).history
            && AllWithinPlan(final.history, logs)
            && (NothingProposed(logs) ==>
                  final.currentCycle == 1 && final.status == if logs[0].cancelled then CANCELLED else COMPLETED)
  {
    hide RunView, ValidCycles, AllComposed, AllWithinPlan;
    ExecutedWithinPlan(c, first, logs);
    if NothingProposed(logs) {
      NothingProposedCompletes(c, first, logs, ending);
    }
  }
}
