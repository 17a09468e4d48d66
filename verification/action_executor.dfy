/** The ledgered action executor over a ledger of rows that are assigned in place. */
module ActionExecutors {
  import opened Texts
  import opened Clocks
  import opened ActionLedger

  /** One row: its fields are assigned one by one. `history` is every status it has had. */
  class Row {
    const id: nat
    const request: Request
    const requestedAt: int
    var status: Status
    var startedAt: Option<int>
    var finishedAt: Option<int>
    var result: Option<Reply>
    var error: Option<Text>
    ghost var history: seq<Status>

    constructor (id: nat, request: Request, now: int)
      ensures Frozen() == NewRecord(id, request, now) && history == [REQUESTED]
    {
      this.id, this.request, this.requestedAt := id, request, now;
      status, startedAt, finishedAt, result, error := REQUESTED, None, None, None, None;
      history := [REQUESTED];
    }

    /** The copy that leaves the ledger. */
    function Frozen(): Record
      reads this
    {
      Record(id, request.workspaceId, request.requestedBy, request.actionId, request.target, status, requestedAt,
             startedAt, finishedAt, result, error)
    }

    method Assign(newStatus: Status, patch: Patch)
      modifies this
      ensures Frozen() == old(Updated(Frozen(), newStatus, patch)) && history == old(history) + [newStatus]
    {
      status := newStatus;
      history := history + [newStatus];
      if patch.startedAt.Some? { startedAt := patch.startedAt.value; }
      if patch.finishedAt.Some? { finishedAt := patch.finishedAt.value; }
      if patch.result.Some? { result := patch.result.value; }
      if patch.error.Some? { error := patch.error.value; }
    }
  }

  class InMemoryExecutionLedger {
    var records: map<nat, Row>
    var issued: nat
    const clock: Clock

    constructor (clock: Clock)
      ensures Valid() && this.clock == clock && records == map[]
    {
      records, issued := map[], 0;
      this.clock := clock;
    }

    /** Rows are kept under their own id, so no two ids share a row. */
    ghost predicate Valid()
      reads this, records.Values
    {
      forall id | id in records :: records[id].id == id && id < issued
    }

    ghost function Entries(): (e: map<nat, Entry>)
      reads this, records.Values
      ensures e.Keys == records.Keys
    {
      map id | id in records :: Entry(records[id].Frozen(), records[id].history)
    }

    method CreateExecution(request: Request) returns (record: Record)
      requires Valid()
      modifies this, clock
      ensures Valid() && record.id !in old(records) && record == NewRecord(record.id, request, record.requestedAt)
      ensures record.id in records && fresh(records[record.id]) && records == old(records)[record.id := records[record.id]]
      ensures Entries() == old(Entries())[record.id := Requested(record.id, request, record.requestedAt)]
    {
      var now := clock.Now();
      var row := new Row(issued, request, now);
      records := records[issued := row];
      issued := issued + 1;
      record := row.Frozen();
    }

    method UpdateExecutionStatus(id: nat, status: Status, patch: Patch) returns (r: Result<Record, Text>)
      requires Valid()
      modifies if id in records then {records[id]} else {}
      ensures Valid()
      ensures r.Ok? <==> id in records
      ensures id !in records ==> Entries() == old(Entries())
      ensures id in records ==>
                Entries() == old(Entries()[id := Moved(Entries()[id], status, patch)]) && r == Ok(Entries()[id].record)
    {
      if id !in records {
        return Err(Lit("ExecutionLedger: registro nao encontrado"));
      }
      var current := records[id];
      assert forall k | k in records && k != id :: records[k] != current;
      current.Assign(status, patch);
      r := Ok(current.Frozen());
    }

    method CompleteExecution(id: nat, status: Status, result: Option<Reply>, error: Option<Text>) returns (r: Result<Record, Text>)
      requires Valid() && status in {SUCCESS, FAILED, DENIED}
      modifies if id in records then {records[id]} else {}, clock
      ensures Valid()
      ensures id in records ==>
                && r.Ok? && r.value.status == status && r.value.finishedAt.Some?
                && r.value.result == result && r.value.error == error
                && Entries() == old(Entries()[id := Entry(r.value, Entries()[id].history + [status])])
      ensures id !in records ==> r.Err? && Entries() == old(Entries())
    {
      var now := clock.Now();
      r := UpdateExecutionStatus(id, status, Patch(None, Some(Some(now)), Some(result), Some(error)));
    }
  }

  /** The scope and the adapters: either may answer anything. Every request they were asked about and their answers are kept. */
  class ActionPorts {
    ghost var scopes: seq<(Request, ScopeAnswer)>
    ghost var calls: seq<(Request, AdapterAnswer)>

    constructor ()
      ensures calls == [] && scopes == []
    {
      calls, scopes := [], [];
    }

    method IsTargetAllowed(request: Request) returns (answer: ScopeAnswer)
      modifies this`scopes
      ensures scopes == old(scopes) + [(request, answer)]
    {
      answer := *;
      scopes := scopes + [(request, answer)];
    }

    method Invoke(request: Request) returns (answer: AdapterAnswer)
      modifies this`calls
      ensures calls == old(calls) + [(request, answer)]
    {
      answer := *;
      calls := calls + [(request, answer)];
    }
  }

  class ActionExecutor {
    const config: Config
    const ledger: InMemoryExecutionLedger
    const ports: ActionPorts

    constructor (config: Config, ledger: InMemoryExecutionLedger, ports: ActionPorts)
      ensures this.config == config && this.ledger == ledger && this.ports == ports
    {
      this.config, this.ledger, this.ports := config, ledger, ports;
    }

    /**
     * One request adds one row and touches no other; the row ends as the verdict says, and an adapter is
     * called, once, only for a request that the policy and the scope let through.
     */
    method Execute(request: Request) returns (answer: Answer, id: nat, scope: ScopeAnswer, adapter: AdapterAnswer)
      requires ledger.Valid()
      modifies ledger, ledger.clock, ports
      ensures ledger.Valid()
      ensures var v := VerdictOn(config, request, scope, adapter);
              && answer == AnswerOf(id, v)
              && id !in old(ledger.records) && id in ledger.records
              && ledger.Entries() == old(ledger.Entries())[id := ledger.Entries()[id]]
              && ClosedEntry(ledger.Entries()[id], id, request, v)
              && ports.calls == old(ports.calls) + if Invoked(v) then [(request, adapter)] else []
      ensures ports.scopes == old(ports.scopes) + if config.scoped && Permitted(config, request) then [(request, scope)] else []
      ensures ports.calls != old(ports.calls) ==> Permitted(config, request) && (config.scoped ==> scope == Granted)
      ensures ledger.Entries()[id].history == [REQUESTED, DENIED]
         <==> !Permitted(config, request) || (config.scoped && scope == Refused)
    {
      hide ClosedEntry, KnownActions, Lit, Requested, Path, AnswerOf, Decide;
      hide InMemoryExecutionLedger.Entries, InMemoryExecutionLedger.Valid;
      scope, adapter := Granted, Raised([]);
      DecideIff(config, request);
      DeniedWhen(config, request);
      ghost var before := ledger.Entries();
      var record := ledger.CreateExecution(request);
      id := record.id;
      ghost var first := Requested(id, request, record.requestedAt);
      var decision := Decide(config, request);
      PolicyKnows(config, request);
      if !decision.allowed || request.actionId !in KnownActions() {
        answer := Refuse(id, request, record.requestedAt, DeniedFor(decision.reason));
        Overwritten(before, id, first, ledger.Entries()[id]);
        return;
      }
      if config.scoped {
        scope := ports.IsTargetAllowed(request);
        if scope.Threw? {
          EndsUntouched(id, request, record.requestedAt);
          return Rejected, id, scope, adapter;
        }
        if scope.Refused? {
          answer := Refuse(id, request, record.requestedAt, DeniedFor(Lit("Target fora do workspace ") + request.workspaceId + Lit(": ") + request.target));
          Overwritten(before, id, first, ledger.Entries()[id]);
          return;
        }
      }
      if request.actionId !in config.adapters {
        answer := Refuse(id, request, record.requestedAt, NoAdapter(Lit("Adapter ausente para ") + request.actionId));
        Overwritten(before, id, first, ledger.Entries()[id]);
        return;
      }
      answer, adapter := RunApproved(id, request, record.requestedAt);
      Overwritten(before, id, first, ledger.Entries()[id]);
    }

    /** A request that does not get to run: its row is closed, as DENIED or FAILED, with the reason. */
    method Refuse(id: nat, ghost request: Request, ghost at: int, v: Verdict) returns (answer: Answer)
      requires v.DeniedFor? || v.NoAdapter?
      requires ledger.Valid() && id in ledger.records && ledger.Entries()[id] == Requested(id, request, at)
      modifies ledger.records[id], ledger.clock
      ensures ledger.Valid()
      ensures ledger.Entries() == old(ledger.Entries())[id := ledger.Entries()[id]]
      ensures answer == AnswerOf(id, v) && ClosedEntry(ledger.Entries()[id], id, request, v)
    {
      hide ClosedEntry, Moved, Requested, ClosingPatch, InMemoryExecutionLedger.Entries, InMemoryExecutionLedger.Valid;
      ghost var now;
      answer, now := Close(id, if v.DeniedFor? then DENIED else FAILED, None, Some(v.reason));
      EndsUnrun(id, request, at, now, v);
    }

    /** Approved: the row runs, the adapter is called, the row ends as the adapter says. */
    method RunApproved(id: nat, request: Request, ghost at: int) returns (answer: Answer, adapter: AdapterAnswer)
      requires ledger.Valid() && id in ledger.records && ledger.Entries()[id] == Requested(id, request, at)
      modifies ledger.records[id], ledger.clock, ports
      ensures ledger.Valid()
      ensures ledger.Entries() == old(ledger.Entries())[id := ledger.Entries()[id]]
      ensures answer == AnswerOf(id, RunVerdict(adapter)) && ClosedEntry(ledger.Entries()[id], id, request, RunVerdict(adapter))
      ensures ports.calls == old(ports.calls) + [(request, adapter)] && ports.scopes == old(ports.scopes)
    {
      hide ClosedEntry, Moved, Requested, RunningEntry, ClosingPatch, InMemoryExecutionLedger.Entries, InMemoryExecutionLedger.Valid;
      ghost var before := ledger.Entries();
      ghost var startedAt := StartRun(id, request, at);
      ghost var running := RunningEntry(id, request, at, startedAt);
      adapter := ports.Invoke(request);
      ghost var now;
      match adapter
      case Replied(reply) =>
        answer, now := Close(id, if reply.success then SUCCESS else FAILED, Some(reply), reply.error);
        EndsRun(id, request, at, startedAt, now, Ran(reply));
      case Raised(message) =>
        answer, now := Close(id, FAILED, None, Some(message));
        EndsRun(id, request, at, startedAt, now, AdapterThrew(message));
      Overwritten(before, id, running, ledger.Entries()[id]);
    }

    method StartRun(id: nat, ghost request: Request, ghost at: int) returns (ghost startedAt: int)
      requires ledger.Valid() && id in ledger.records && ledger.Entries()[id] == Requested(id, request, at)
      modifies ledger.records[id], ledger.clock
      ensures ledger.Valid()
      ensures ledger.Entries() == old(ledger.Entries())[id := RunningEntry(id, request, at, startedAt)]
    {
      hide Moved, Requested, InMemoryExecutionLedger.Entries, InMemoryExecutionLedger.Valid;
      ghost var before, e := ledger.Entries(), Requested(id, request, at);
      var approved := ledger.UpdateExecutionStatus(id, APPROVED, NO_PATCH);
      var now := ledger.clock.Now();
      startedAt := now;
      var running := ledger.UpdateExecutionStatus(id, RUNNING, NO_PATCH.(startedAt := Some(Some(now))));
      Overwritten(before, id, Moved(e, APPROVED, NO_PATCH), RunningEntry(id, request, at, startedAt));
    }

    /** The last update of a request, and its answer. */
    method Close(id: nat, status: Status, reply: Option<Reply>, error: Option<Text>) returns (answer: Answer, ghost now: int)
      requires ledger.Valid() && id in ledger.records
      modifies ledger.records[id], ledger.clock
      ensures ledger.Valid()
      ensures ledger.Entries() == old(ledger.Entries()[id := Moved(ledger.Entries()[id], status, ClosingPatch(now, reply, error))])
      ensures answer == Answered(id, status, reply.Some? && reply.value.success, error)
    {
      hide Moved;
      var finishedAt := ledger.clock.Now();
      now := finishedAt;
      var updated := ledger.UpdateExecutionStatus(id, status, ClosingPatch(finishedAt, reply, error));
      answer := Answered(id, status, reply.Some? && reply.value.success, error);
    }
  }

  /** A row goes from requested to denied exactly when the policy or the scope said no. */
  lemma DeniedWhen(c: Config, r: Request)
    ensures forall scope, adapter ::
              var v := VerdictOn(c, r, scope, adapter);
              && (Path(v) == [REQUESTED, DENIED] <==> !Decide(c, r).allowed || (c.scoped && scope == Refused))
              && (Invoked(v) ==> Decide(c, r).allowed && (c.scoped ==> scope == Granted))
    ensures forall e, id, v :: ClosedEntry(e, id, r, v) ==> e.history == Path(v)
  {
    hide Decide;
    forall scope, adapter
      ensures Path(VerdictOn(c, r, scope, adapter)) == [REQUESTED, DENIED]
           <==> !Decide(c, r).allowed || (c.scoped && scope == Refused)
    {
      DeniedPath(VerdictOn(c, r, scope, adapter));
    }
  }

  lemma DeniedPath(v: Verdict)
    ensures Path(v) == [REQUESTED, DENIED] <==> v.DeniedFor?
  {
    assert Path(v) == [REQUESTED, DENIED] ==> |Path(v)| == 2 && Path(v)[1] == DENIED;
  }

  lemma Overwritten(m: map<nat, Entry>, id: nat, a: Entry, b: Entry)
    ensures m[id := a][id := b] == m[id := b]
  {
  }

  /** What the policy allows is a known action, so the executor's own test adds nothing. */
  lemma PolicyKnows(c: Config, r: Request)
    ensures Decide(c, r).allowed ==> r.actionId in KnownActions()
  {
  }
}
