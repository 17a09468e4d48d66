/**
 * Action requests: the policy, the ledger of mutable rows, and what one request does to its row
 * (packages/action-runtime/src/action-policy.ts, ledgers/execution-ledger.ts, action-executor.ts).
 */
module ActionLedger {
  import opened Texts

  datatype Status = REQUESTED | APPROVED | RUNNING | SUCCESS | FAILED | DENIED

  datatype Request = Request(workspaceId: Text, requestedBy: Text, actionId: Text, target: Text)

  datatype Reply = Reply(success: bool, output: Text, error: Option<Text>)

  datatype Record = Record(
    id: nat, workspaceId: Text, employeeId: Text, actionId: Text, target: Text, status: Status, requestedAt: int,
    startedAt: Option<int>, finishedAt: Option<int>, result: Option<Reply>, error: Option<Text>)

  /** None leaves a field as it is; Some(None) clears it. */
  datatype Patch = Patch(
    startedAt: Option<Option<int>>, finishedAt: Option<Option<int>>, result: Option<Option<Reply>>, error: Option<Option<Text>>)

  const NO_PATCH := Patch(None, None, None, None)

  function Patched<T>(field: Option<T>, patch: Option<Option<T>>): Option<T> {
    if patch.Some? then patch.value else field
  }

  function Updated(r: Record, status: Status, patch: Patch): Record {
    r.(status := status, startedAt := Patched(r.startedAt, patch.startedAt), finishedAt := Patched(r.finishedAt, patch.finishedAt),
       result := Patched(r.result, patch.result), error := Patched(r.error, patch.error))
  }

  function NewRecord(id: nat, request: Request, now: int): Record {
    Record(id, request.workspaceId, request.requestedBy, request.actionId, request.target, REQUESTED, now, None, None, None, None)
  }

  // ------------------------------------------------------------ policy

  function KnownActions(): set<Text> {
    {Lit("docker.status"), Lit("docker.logs"), Lit("docker.restart"), Lit("systemd.status"), Lit("caddy.validate")}
  }

  datatype Decision = Decision(allowed: bool, reason: Text)

  datatype Policy = Policy(employeeGroups: map<Text, seq<Text>>, groupActions: map<Text, seq<Text>>)
  {
    function GroupsFor(employeeId: Text): seq<Text> {
      if employeeId in employeeGroups then employeeGroups[employeeId] else []
    }

    function ActionsOf(group: Text): seq<Text> {
      if group in groupActions then groupActions[group] else []
    }

    /** Some group of the employee lists the action. */
    predicate Lists(employeeId: Text, actionId: Text) {
      exists g | 0 <= g < |GroupsFor(employeeId)| :: actionId in ActionsOf(GroupsFor(employeeId)[g])
    }

    function Decide(employeeId: Text, actionId: Text, workspaceId: Text): (d: Decision)
      ensures d.allowed <==> !Blank(workspaceId) && actionId in KnownActions() && Lists(employeeId, actionId)
    {
      if Blank(workspaceId) then Decision(false, Lit("workspaceId obrigatorio"))
      else if actionId !in KnownActions() then Decision(false, Lit("Acao desconhecida: ") + actionId)
      else if !Lists(employeeId, actionId) then
        Decision(false, Lit("Employee ") + employeeId + Lit(" sem permissao para ") + actionId)
      else Decision(true, Lit("Permitido: ") + employeeId + [0x20, 0x2192, 0x20] + actionId + Lit(" @ ") + workspaceId)
    }

    /** The union of the groups' actions, each once. */
    method AllowedActions(employeeId: Text) returns (actions: seq<Text>)
      ensures forall a :: a in actions <==> Lists(employeeId, a)
      ensures forall i, j | 0 <= i < j < |actions| :: actions[i] != actions[j]
    {
      var groups := GroupsFor(employeeId);
      actions := [];
      for g := 0 to |groups|
        invariant forall a :: a in actions <==> exists k | 0 <= k < g :: a in ActionsOf(groups[k])
        invariant forall i, j | 0 <= i < j < |actions| :: actions[i] != actions[j]
      {
        var listed := ActionsOf(groups[g]);
        ghost var before := actions;
        for i := 0 to |listed|
          invariant forall a :: a in actions <==> a in before || a in listed[..i]
          invariant forall i, j | 0 <= i < j < |actions| :: actions[i] != actions[j]
        {
          assert listed[..i + 1] == listed[..i] + [listed[i]];
          if listed[i] !in actions {
            actions := actions + [listed[i]];
          }
        }
        assert listed[..|listed|] == listed;
      }
    }

    method IsAllowed(employeeId: Text, actionId: Text) returns (allowed: bool)
      ensures allowed <==> actionId in KnownActions() && Lists(employeeId, actionId)
    {
      if actionId !in KnownActions() {
        return false;
      }
      var actions := AllowedActions(employeeId);
      allowed := actionId in actions;
    }
  }

  // ------------------------------------------------------------ how one request can end

  /** What decided a request. A scope that throws rejects the call before anything is written. */
  datatype Verdict =
    | DeniedFor(reason: Text)
    | NoAdapter(reason: Text)
    | Ran(reply: Reply)
    | AdapterThrew(message: Text)
    | ScopeThrew

  datatype ScopeAnswer = Granted | Refused | Threw

  datatype AdapterAnswer = Replied(reply: Reply) | Raised(message: Text)

  datatype Config = Config(policy: Policy, adapters: map<Text, nat>, scoped: bool)

  function Decide(c: Config, r: Request): Decision {
    c.policy.Decide(r.requestedBy, r.actionId, r.workspaceId)
  }

  /**
   * Who may have what done: a workspace is named, the action is one of the five, and some group of the employee
   * who asks has it among its actions.
   */
  predicate Permitted(c: Config, r: Request) {
    && (exists i | 0 <= i < |r.workspaceId| :: !IsSpace(r.workspaceId[i]))
    && (exists name | name in {"docker.status", "docker.logs", "docker.restart", "systemd.status", "caddy.validate"} ::
          r.actionId == Lit(name))
    && r.requestedBy in c.policy.employeeGroups
    && exists group | group in c.policy.employeeGroups[r.requestedBy] ::
         group in c.policy.groupActions && r.actionId in c.policy.groupActions[group]
  }

  /** Why a request is refused: the first thing that is missing, named by its own workspace, action and employee. */
  lemma RefusedFor(c: Config, r: Request)
    requires !Decide(c, r).allowed
    ensures Decide(c, r).reason ==
              if forall i | 0 <= i < |r.workspaceId| :: IsSpace(r.workspaceId[i]) then Lit("workspaceId obrigatorio")
              else if forall name | name in {"docker.status", "docker.logs", "docker.restart", "systemd.status", "caddy.validate"} ::
                        r.actionId != Lit(name) then Lit("Acao desconhecida: ") + r.actionId
              else Lit("Employee ") + r.requestedBy + Lit(" sem permissao para ") + r.actionId
  {
    hide Lit;
  }

  lemma DecideIff(c: Config, r: Request)
    ensures Decide(c, r).allowed <==> Permitted(c, r)
  {
    hide Lit;
    if Permitted(c, r) {
      var group :| group in c.policy.employeeGroups[r.requestedBy]
                   && group in c.policy.groupActions && r.actionId in c.policy.groupActions[group];
      var groups := c.policy.GroupsFor(r.requestedBy);
      var g :| 0 <= g < |groups| && groups[g] == group;
      assert r.actionId in c.policy.ActionsOf(groups[g]);
    }
    if Decide(c, r).allowed {
      var groups := c.policy.GroupsFor(r.requestedBy);
      var g :| 0 <= g < |groups| && r.actionId in c.policy.ActionsOf(groups[g]);
      assert groups[g] in c.policy.employeeGroups[r.requestedBy];
    }
  }

  function OutOfScope(r: Request): Text {
    Lit("Target fora do workspace ") + r.workspaceId + Lit(": ") + r.target
  }

  function Unadapted(r: Request): Text {
    Lit("Adapter ausente para ") + r.actionId
  }

  /** The verdict on a request, given what the scope and the adapter answer if they are asked. */
  function VerdictOn(c: Config, r: Request, scope: ScopeAnswer, adapter: AdapterAnswer): Verdict {
    if !Decide(c, r).allowed then DeniedFor(Decide(c, r).reason)
    else if c.scoped && scope.Threw? then ScopeThrew
    else if c.scoped && scope.Refused? then DeniedFor(OutOfScope(r))
    else if r.actionId !in c.adapters then NoAdapter(Unadapted(r))
    else match adapter case Replied(reply) => Ran(reply) case Raised(message) => AdapterThrew(message)
  }

  predicate Invoked(v: Verdict) {
    v.Ran? || v.AdapterThrew?
  }

  /** The statuses a row goes through. */
  function Path(v: Verdict): seq<Status> {
    match v
    case DeniedFor(_) => [REQUESTED, DENIED]
    case NoAdapter(_) => [REQUESTED, FAILED]
    case Ran(reply) => [REQUESTED, APPROVED, RUNNING, if reply.success then SUCCESS else FAILED]
    case AdapterThrew(_) => [REQUESTED, APPROVED, RUNNING, FAILED]
    case ScopeThrew => [REQUESTED]
  }

  function LastOf(path: seq<Status>): Status
    requires path != []
  {
    path[|path| - 1]
  }

  predicate Belongs(record: Record, request: Request) {
    && record.workspaceId == request.workspaceId && record.employeeId == request.requestedBy
    && record.actionId == request.actionId && record.target == request.target
  }

  /** A row whose statuses so far are `path`: times and results are set exactly when the path says so. */
  predicate Along(record: Record, path: seq<Status>) {
    && path != [] && record.status == LastOf(path)
    && (record.startedAt.Some? <==> RUNNING in path)
    && (record.finishedAt.Some? <==> record.status in {SUCCESS, FAILED, DENIED})
  }

  /** The row of a request that ended with a verdict. */
  predicate Closed(record: Record, request: Request, v: Verdict) {
    && Belongs(record, request) && Along(record, Path(v))
    && record.result == (if v.Ran? then Some(v.reply) else None)
    && record.error == match v
                       case DeniedFor(reason) => Some(reason)
                       case NoAdapter(reason) => Some(reason)
                       case Ran(reply) => reply.error
                       case AdapterThrew(message) => Some(message)
                       case ScopeThrew => None
  }

  /** A row and every status it has had, in order. */
  datatype Entry = Entry(record: Record, history: seq<Status>)

  function Moved(e: Entry, status: Status, patch: Patch): Entry {
    Entry(Updated(e.record, status, patch), e.history + [status])
  }

  function Requested(id: nat, request: Request, now: int): Entry {
    Entry(NewRecord(id, request, now), [REQUESTED])
  }

  function ClosingPatch(now: int, reply: Option<Reply>, error: Option<Text>): Patch {
    Patch(None, Some(Some(now)), if reply.Some? then Some(reply) else None, Some(error))
  }

  /** The entry of a request that ended with a verdict. */
  predicate ClosedEntry(e: Entry, id: nat, request: Request, v: Verdict) {
    e.record.id == id && Closed(e.record, request, v) && e.history == Path(v)
  }

  /** A request that never ran: its row goes from requested to its end. */
  lemma EndsUnrun(id: nat, request: Request, at: int, now: int, v: Verdict)
    requires v.DeniedFor? || v.NoAdapter?
    ensures ClosedEntry(Moved(Requested(id, request, at), LastOf(Path(v)), ClosingPatch(now, None, Some(v.reason))), id, request, v)
  {
  }

  lemma EndsUntouched(id: nat, request: Request, at: int)
    ensures ClosedEntry(Requested(id, request, at), id, request, ScopeThrew)
    ensures AnswerOf(id, ScopeThrew) == Rejected
  {
  }

  function RunningEntry(id: nat, request: Request, at: int, startedAt: int): Entry {
    Moved(Moved(Requested(id, request, at), APPROVED, NO_PATCH), RUNNING, NO_PATCH.(startedAt := Some(Some(startedAt))))
  }

  lemma EndsRun(id: nat, request: Request, at: int, startedAt: int, now: int, v: Verdict)
    requires Invoked(v)
    ensures ClosedEntry(Moved(RunningEntry(id, request, at, startedAt), LastOf(Path(v)),
                              ClosingPatch(now, if v.Ran? then Some(v.reply) else None,
                                           if v.Ran? then v.reply.error else Some(v.message))),
                        id, request, v)
  {
  }

  function RunVerdict(adapter: AdapterAnswer): Verdict {
    match adapter
    case Replied(reply) => Ran(reply)
    case Raised(message) => AdapterThrew(message)
  }

  /** What the caller gets: the id and final status of its row, or the scope's own error. */
  datatype Answer = Answered(executionId: nat, status: Status, success: bool, error: Option<Text>) | Rejected

  function AnswerOf(id: nat, v: Verdict): Answer {
    match v
    case DeniedFor(reason) => Answered(id, DENIED, false, Some(reason))
    case NoAdapter(reason) => Answered(id, FAILED, false, Some(reason))
    case Ran(reply) => Answered(id, if reply.success then SUCCESS else FAILED, reply.success, reply.error)
    case AdapterThrew(message) => Answered(id, FAILED, false, Some(message))
    case ScopeThrew => Rejected
  }
}
