/**
 * Any number of action requests at once over one ledger: a request is a few steps, one per await, and a
 * schedule says whose turn it is and what the scope and the adapters answer
 * (packages/action-runtime/src/action-executor.ts, ledgers/execution-ledger.ts).
 */
module ActionProtocol {
  import opened Texts
  import opened ActionLedger

  /** Where a request stands. */
  datatype Pc =
    | Start
    | Open(id: nat)                          // row created, the policy is next
    | Scoping(id: nat)                       // waiting for the scope
    | Cleared(id: nat, scope: ScopeAnswer)   // policy and scope let it through
    | Approved(id: nat, scope: ScopeAnswer)
    | Running(id: nat, scope: ScopeAnswer)   // the adapter is next
    | Awaiting(id: nat, scope: ScopeAnswer)  // the adapter has been called
    | Done(id: nat, scope: ScopeAnswer, adapter: AdapterAnswer)

  /** `calls` is the request of every adapter call, in order. */
  datatype State = State(entries: map<nat, Entry>, issued: nat, pcs: seq<Pc>, calls: seq<nat>)

  datatype Turn = Turn(request: nat, now: int, scope: ScopeAnswer, adapter: AdapterAnswer)

  const UNASKED: AdapterAnswer := Raised([])

  /** A request's row, closed with a verdict. */
  function Close(e: Entry, v: Verdict, now: int): Entry
    requires !v.ScopeThrew?
  {
    var reply := if v.Ran? then Some(v.reply) else None;
    var error := match v case DeniedFor(reason) => Some(reason) case NoAdapter(reason) => Some(reason)
                         case Ran(r) => r.error case AdapterThrew(message) => Some(message);
    Moved(e, LastOf(Path(v)), ClosingPatch(now, reply, error))
  }

  /** One turn of a request that has a row: its new place and row. */
  function Advance(c: Config, r: Request, pc: Pc, e: Entry, t: Turn): (Pc, Entry)
    requires !pc.Start?
  {
    match pc
    case Open(id) =>
      if !Decide(c, r).allowed then (Done(id, Granted, UNASKED), Close(e, DeniedFor(Decide(c, r).reason), t.now))
      else if c.scoped then (Scoping(id), e)
      else (Cleared(id, Granted), e)
    case Scoping(id) =>
      (match t.scope
       case Threw => (Done(id, Threw, UNASKED), e)
       case Refused => (Done(id, Refused, UNASKED), Close(e, DeniedFor(OutOfScope(r)), t.now))
       case Granted => (Cleared(id, Granted), e))
    case Cleared(id, scope) =>
      if r.actionId !in c.adapters then (Done(id, scope, UNASKED), Close(e, NoAdapter(Unadapted(r)), t.now))
      else (Approved(id, scope), Moved(e, APPROVED, NO_PATCH))
    case Approved(id, scope) => (Running(id, scope), Moved(e, RUNNING, NO_PATCH.(startedAt := Some(Some(t.now)))))
    case Running(id, scope) => (Awaiting(id, scope), e)
    case Awaiting(id, scope) => (Done(id, scope, t.adapter), Close(e, RunVerdict(t.adapter), t.now))
    case Done(_, _, _) => (pc, e)
  }

  function Step(c: Config, requests: seq<Request>, s: State, t: Turn): (u: State)
    requires |s.pcs| == |requests|
    ensures |u.pcs| == |requests|
  {
    if t.request >= |requests| then s
    else
      var i, r, pc := t.request, requests[t.request], s.pcs[t.request];
      if pc.Start? then
        State(s.entries[s.issued := Requested(s.issued, r, t.now)], s.issued + 1, s.pcs[i := Open(s.issued)], s.calls)
      else if pc.id !in s.entries then s
      else
        var (next, e) := Advance(c, r, pc, s.entries[pc.id], t);
        State(s.entries[pc.id := e], s.issued, s.pcs[i := next], if pc.Running? then s.calls + [i] else s.calls)
  }

  function Run(c: Config, requests: seq<Request>, s: State, schedule: seq<Turn>): (u: State)
    requires |s.pcs| == |requests|
    ensures |u.pcs| == |requests|
    decreases |schedule|
  {
    if schedule == [] then s
    else Step(c, requests, Run(c, requests, s, schedule[..|schedule| - 1]), schedule[|schedule| - 1])
  }

  function Begin(entries: map<nat, Entry>, issued: nat, n: nat): State {
    State(entries, issued, seq(n, i requires 0 <= i < n => Start), [])
  }

  // ------------------------------------------------------------ the invariant

  /** The policy and, when there is one, the scope let the request through. */
  predicate LetThrough(c: Config, r: Request, scope: ScopeAnswer) {
    Decide(c, r).allowed && (c.scoped ==> scope == Granted)
  }

  predicate IsRequested(e: Entry, id: nat, r: Request) {
    e == Requested(id, r, e.record.requestedAt)
  }

  /** What the place of a request says about its row. */
  predicate RowHolds(c: Config, r: Request, pc: Pc, e: Entry)
    requires !pc.Start?
  {
    match pc
    case Open(id) => IsRequested(e, id, r)
    case Scoping(id) => IsRequested(e, id, r) && Decide(c, r).allowed && c.scoped
    case Cleared(id, scope) => IsRequested(e, id, r) && LetThrough(c, r, scope)
    case Approved(id, scope) =>
      && e == Moved(Requested(id, r, e.record.requestedAt), APPROVED, NO_PATCH)
      && LetThrough(c, r, scope) && r.actionId in c.adapters
    case Running(id, scope) => IsRunning(e, id, r) && LetThrough(c, r, scope) && r.actionId in c.adapters
    case Awaiting(id, scope) => IsRunning(e, id, r) && LetThrough(c, r, scope) && r.actionId in c.adapters
    case Done(id, scope, adapter) => ClosedEntry(e, id, r, VerdictOn(c, r, scope, adapter))
  }

  predicate IsRunning(e: Entry, id: nat, r: Request) {
    e.record.startedAt.Some? && e == RunningEntry(id, r, e.record.requestedAt, e.record.startedAt.value)
  }

  /** The adapter has been called for a request at this place. */
  predicate HasCalled(c: Config, r: Request, pc: Pc) {
    pc.Awaiting? || (pc.Done? && Invoked(VerdictOn(c, r, pc.scope, pc.adapter)))
  }

  lemma AdvanceKeepsRow(c: Config, r: Request, pc: Pc, e: Entry, t: Turn)
    requires !pc.Start? && RowHolds(c, r, pc, e)
    ensures var (next, f) := Advance(c, r, pc, e, t);
            && !next.Start? && next.id == pc.id && RowHolds(c, r, next, f)
            && (HasCalled(c, r, next) <==> HasCalled(c, r, pc) || pc.Running?)
            && (HasCalled(c, r, pc) ==> !pc.Running?)
  {
    var at := e.record.requestedAt;
    hide Decide, Requested, Moved, ClosedEntry, OutOfScope, Unadapted;
    match pc
    case Open(id) =>
      EndsUnrun(id, r, at, t.now, DeniedFor(Decide(c, r).reason));
    case Scoping(id) =>
      EndsUnrun(id, r, at, t.now, DeniedFor(OutOfScope(r)));
      EndsUntouched(id, r, at);
    case Cleared(id, scope) =>
      EndsUnrun(id, r, at, t.now, NoAdapter(Unadapted(r)));
      ApprovedRow(id, r, at);
    case Approved(id, scope) =>
      RunningRow(id, r, at, t.now);
    case Awaiting(id, scope) =>
      EndsRun(id, r, at, e.record.startedAt.value, t.now, RunVerdict(t.adapter));
    case _ =>
  }

  lemma ApprovedRow(id: nat, r: Request, at: int)
    ensures Moved(Requested(id, r, at), APPROVED, NO_PATCH).record.requestedAt == at
  {
  }

  lemma RunningRow(id: nat, r: Request, at: int, now: int)
    ensures IsRunning(RunningEntry(id, r, at, now), id, r)
  {
  }

  ghost predicate Owns(s: State, i: nat, id: nat)
    requires i < |s.pcs|
  {
    !s.pcs[i].Start? && s.pcs[i].id == id
  }

  predicate PlaceHolds(c: Config, r: Request, pc: Pc, entries: map<nat, Entry>) {
    pc.Start? || (pc.id in entries && RowHolds(c, r, pc, entries[pc.id]))
  }

  /** The rows there were before are untouched, and the issued ids cover every row. */
  predicate LedgerHolds(first: map<nat, Entry>, issued: nat, s: State) {
    && issued <= s.issued
    && (forall id | id in first :: id < issued && id in s.entries && s.entries[id] == first[id])
    && (forall id | id in s.entries && id !in first :: issued <= id < s.issued)
  }

  ghost predicate OwnersHold(first: map<nat, Entry>, issued: nat, s: State) {
    && (forall i | 0 <= i < |s.pcs| && !s.pcs[i].Start? :: issued <= s.pcs[i].id < s.issued && s.pcs[i].id !in first)
    && (forall i, j | 0 <= i < j < |s.pcs| && !s.pcs[i].Start? && !s.pcs[j].Start? :: s.pcs[i].id != s.pcs[j].id)
    && (forall id | id in s.entries && id !in first :: exists i | 0 <= i < |s.pcs| :: Owns(s, i, id))
  }

  predicate Distinct(calls: seq<nat>) {
    forall j, k | 0 <= j < k < |calls| :: calls[j] != calls[k]
  }

  ghost predicate Invariant(c: Config, requests: seq<Request>, first: map<nat, Entry>, issued: nat, s: State)
    requires |s.pcs| == |requests|
  {
    && LedgerHolds(first, issued, s) && OwnersHold(first, issued, s)
    && (forall i | 0 <= i < |requests| :: PlaceHolds(c, requests[i], s.pcs[i], s.entries))
    && Distinct(s.calls)
    && (forall i | 0 <= i < |requests| :: i in s.calls <==> HasCalled(c, requests[i], s.pcs[i]))
    && (forall k | 0 <= k < |s.calls| :: s.calls[k] < |requests|)
  }

  lemma CreateKeepsInvariant(c: Config, requests: seq<Request>, first: map<nat, Entry>, issued: nat, s: State, t: Turn)
    requires |s.pcs| == |requests| && Invariant(c, requests, first, issued, s)
    requires t.request < |requests| && s.pcs[t.request].Start?
    ensures Invariant(c, requests, first, issued, Step(c, requests, s, t))
  {
    hide RowHolds, HasCalled, Requested, Distinct, OwnersHold;
    var i, u := t.request, Step(c, requests, s, t);
    NewOwner(first, issued, s, i, Requested(s.issued, requests[i], t.now));
    RequestedHolds(c, requests[i], s.issued, t.now);
    StartHasNotCalled(c, requests[i], s.pcs[i]);
    assert u.pcs[i] == Open(s.issued);
    forall j | 0 <= j < |requests| ensures PlaceHolds(c, requests[j], u.pcs[j], u.entries) {
      assert PlaceHolds(c, requests[j], s.pcs[j], s.entries);
      if !s.pcs[j].Start? { OwnedIsIssued(first, issued, s, j); }
    }
  }

  lemma OwnedIsIssued(first: map<nat, Entry>, issued: nat, s: State, j: nat)
    requires OwnersHold(first, issued, s) && j < |s.pcs| && !s.pcs[j].Start?
    ensures s.pcs[j].id < s.issued && s.pcs[j].id !in first
  {
  }

  /** A new row has an owner of its own. */
  lemma NewOwner(first: map<nat, Entry>, issued: nat, s: State, i: nat, e: Entry)
    requires LedgerHolds(first, issued, s) && OwnersHold(first, issued, s) && i < |s.pcs| && s.pcs[i].Start?
    ensures OwnersHold(first, issued, State(s.entries[s.issued := e], s.issued + 1, s.pcs[i := Open(s.issued)], s.calls))
  {
    var u := State(s.entries[s.issued := e], s.issued + 1, s.pcs[i := Open(s.issued)], s.calls);
    assert u.pcs[i] == Open(s.issued);
    forall id | id in u.entries && id !in first ensures exists j | 0 <= j < |u.pcs| :: Owns(u, j, id) {
      if id == s.issued {
        assert Owns(u, i, id);
      } else {
        var j :| 0 <= j < |s.pcs| && Owns(s, j, id);
        assert Owns(u, j, id);
      }
    }
  }

  /** A request that moves keeps its row. */
  lemma SameOwner(first: map<nat, Entry>, issued: nat, s: State, i: nat, next: Pc, e: Entry, calls: seq<nat>)
    requires OwnersHold(first, issued, s) && i < |s.pcs| && !s.pcs[i].Start? && s.pcs[i].id in s.entries
    requires !next.Start? && next.id == s.pcs[i].id
    ensures OwnersHold(first, issued, State(s.entries[next.id := e], s.issued, s.pcs[i := next], calls))
  {
    var u := State(s.entries[next.id := e], s.issued, s.pcs[i := next], calls);
    forall id | id in u.entries && id !in first ensures exists j | 0 <= j < |u.pcs| :: Owns(u, j, id) {
      var j :| 0 <= j < |s.pcs| && Owns(s, j, id);
      assert Owns(u, j, id);
    }
  }

  lemma RequestedHolds(c: Config, r: Request, id: nat, now: int)
    ensures RowHolds(c, r, Open(id), Requested(id, r, now)) && !HasCalled(c, r, Open(id))
  {
  }

  lemma StartHasNotCalled(c: Config, r: Request, pc: Pc)
    requires pc.Start?
    ensures !HasCalled(c, r, pc)
  {
  }

  lemma AdvanceKeepsInvariant(c: Config, requests: seq<Request>, first: map<nat, Entry>, issued: nat, s: State, t: Turn)
    requires |s.pcs| == |requests| && Invariant(c, requests, first, issued, s)
    requires t.request < |requests| && !s.pcs[t.request].Start?
    ensures Invariant(c, requests, first, issued, Step(c, requests, s, t))
  {
    hide RowHolds, HasCalled, Advance, OwnersHold;
    var i, u := t.request, Step(c, requests, s, t);
    var pc := s.pcs[i];
    assert PlaceHolds(c, requests[i], pc, s.entries);
    AdvanceKeepsRow(c, requests[i], pc, s.entries[pc.id], t);
    SameOwner(first, issued, s, i, u.pcs[i], u.entries[pc.id], u.calls);
    OwnedIsIssued(first, issued, s, i);
    forall j | 0 <= j < |requests| && j != i ensures PlaceHolds(c, requests[j], u.pcs[j], u.entries) {
      assert PlaceHolds(c, requests[j], s.pcs[j], s.entries);
      if !s.pcs[j].Start? { OwnersDiffer(first, issued, s, i, j); }
    }
    CallsKept(c, requests, s, u, i);
  }

  lemma OwnersDiffer(first: map<nat, Entry>, issued: nat, s: State, i: nat, j: nat)
    requires OwnersHold(first, issued, s) && i < |s.pcs| && j < |s.pcs| && i != j && !s.pcs[i].Start? && !s.pcs[j].Start?
    ensures s.pcs[i].id != s.pcs[j].id
  {
    if i < j { assert s.pcs[i].id != s.pcs[j].id; } else { assert s.pcs[j].id != s.pcs[i].id; }
  }

  lemma CallsKept(c: Config, requests: seq<Request>, s: State, u: State, i: nat)
    requires |s.pcs| == |u.pcs| == |requests| && i < |requests| && u.pcs == s.pcs[i := u.pcs[i]]
    requires u.calls == if s.pcs[i].Running? then s.calls + [i] else s.calls
    requires Distinct(s.calls) && forall k | 0 <= k < |s.calls| :: s.calls[k] < |requests|
    requires forall j | 0 <= j < |requests| :: j in s.calls <==> HasCalled(c, requests[j], s.pcs[j])
    requires HasCalled(c, requests[i], u.pcs[i]) <==> HasCalled(c, requests[i], s.pcs[i]) || s.pcs[i].Running?
    requires HasCalled(c, requests[i], s.pcs[i]) ==> !s.pcs[i].Running?
    ensures Distinct(u.calls) && forall k | 0 <= k < |u.calls| :: u.calls[k] < |requests|
    ensures forall j | 0 <= j < |requests| :: j in u.calls <==> HasCalled(c, requests[j], u.pcs[j])
  {
    hide HasCalled;
  }

  lemma StepKeepsInvariant(c: Config, requests: seq<Request>, first: map<nat, Entry>, issued: nat, s: State, t: Turn)
    requires |s.pcs| == |requests| && Invariant(c, requests, first, issued, s)
    ensures Invariant(c, requests, first, issued, Step(c, requests, s, t))
  {
    if t.request < |requests| {
      hide Invariant, Advance;
      if s.pcs[t.request].Start? {
        CreateKeepsInvariant(c, requests, first, issued, s, t);
      } else {
        AdvanceKeepsInvariant(c, requests, first, issued, s, t);
      }
    }
  }

  lemma {:induction false} RunKeepsInvariant(c: Config, requests: seq<Request>, first: map<nat, Entry>, issued: nat, schedule: seq<Turn>)
    requires forall id | id in first :: id < issued
    ensures Invariant(c, requests, first, issued, Run(c, requests, Begin(first, issued, |requests|), schedule))
    decreases |schedule|
  {
    hide Step;
    if schedule != [] {
      hide Invariant;
      var n := |schedule| - 1;
      RunKeepsInvariant(c, requests, first, issued, schedule[..n]);
      StepKeepsInvariant(c, requests, first, issued, Run(c, requests, Begin(first, issued, |requests|), schedule[..n]), schedule[n]);
    }
  }

  // ------------------------------------------------------------ main results

  /** How a row looks while its request is at a place, and once it is done. */
  predicate RowTells(c: Config, r: Request, pc: Pc, e: Entry)
    requires !pc.Start?
  {
    && Belongs(e.record, r) && e.record.id == pc.id && Along(e.record, e.history)
    && (!pc.Done? ==> e.history in {[REQUESTED], [REQUESTED, APPROVED], [REQUESTED, APPROVED, RUNNING]})
    && (pc.Done? ==>
          var v := VerdictOn(c, r, pc.scope, pc.adapter);
          && e.history == Path(v) && Closed(e.record, r, v)
          && (e.history == [REQUESTED, DENIED] <==> !Permitted(c, r) || (c.scoped && pc.scope == Refused))
          && (AnswerOf(pc.id, v).Answered? ==> AnswerOf(pc.id, v).status == e.record.status)
          && (AnswerOf(pc.id, v).Rejected? <==> e.history == [REQUESTED]))
  }

  lemma RowToldByPlace(c: Config, r: Request, pc: Pc, e: Entry)
    requires !pc.Start? && RowHolds(c, r, pc, e)
    ensures RowTells(c, r, pc, e)
  {
    hide Decide, VerdictOn;
    assert [REQUESTED] + [APPROVED] == [REQUESTED, APPROVED];
    assert [REQUESTED, APPROVED] + [RUNNING] == [REQUESTED, APPROVED, RUNNING];
    if pc.Done? {
      PathTells(pc.id, VerdictOn(c, r, pc.scope, pc.adapter));
      DeniedTells(c, r, pc.scope, pc.adapter);
    } else {
      assert e.history in {[REQUESTED], [REQUESTED, APPROVED], [REQUESTED, APPROVED, RUNNING]};
      assert e.record.status == LastOf(e.history);
      assert [REQUESTED, APPROVED, RUNNING][2] == RUNNING;
    }
  }

  lemma DeniedTells(c: Config, r: Request, scope: ScopeAnswer, adapter: AdapterAnswer)
    ensures Path(VerdictOn(c, r, scope, adapter)) == [REQUESTED, DENIED] <==> !Permitted(c, r) || (c.scoped && scope == Refused)
  {
    hide Decide, Permitted;
    DecideIff(c, r);
    var path := Path(VerdictOn(c, r, scope, adapter));
    assert path == [REQUESTED, DENIED] ==> |path| == 2 && path[1] == DENIED;
  }

  /** The answer to a request says the last status of its path, and is missing only when the scope threw. */
  lemma PathTells(id: nat, v: Verdict)
    ensures AnswerOf(id, v).Answered? ==> AnswerOf(id, v).status == LastOf(Path(v))
    ensures AnswerOf(id, v).Rejected? <==> Path(v) == [REQUESTED]
  {
    assert |Path(v)| == 1 <==> v.ScopeThrew?;
  }

  /** An adapter is called for a request only once the policy allowed it, the scope if any granted it, and an adapter exists. */
  predicate CallJustified(c: Config, r: Request, pc: Pc, e: Entry) {
    && !pc.Start? && Permitted(c, r) && r.actionId in c.adapters && RUNNING in e.history
    && (c.scoped ==> (pc.Awaiting? || pc.Done?) && pc.scope == Granted)
  }

  lemma CallIsJustified(c: Config, r: Request, pc: Pc, e: Entry)
    requires !pc.Start? && RowHolds(c, r, pc, e) && HasCalled(c, r, pc)
    ensures CallJustified(c, r, pc, e)
  {
    hide Decide, Permitted;
    DecideIff(c, r);
  }

  /**
   * Whatever the schedule: old rows are untouched; every request that has started owns one new row, no two
   * the same, and there is no other new row; a row's statuses are those of its request's verdict, its
   * times and results agree with them, and the answer gives its final status; no request calls an adapter
   * twice, and none without leave.
   */
  lemma OneRowPerRequest(c: Config, requests: seq<Request>, first: map<nat, Entry>, issued: nat, schedule: seq<Turn>)
    requires forall id | id in first :: id < issued
    ensures var s := Run(c, requests, Begin(first, issued, |requests|), schedule);
            && (forall id | id in first :: id in s.entries && s.entries[id] == first[id])
            && (forall i | 0 <= i < |requests| && !s.pcs[i].Start? ::
                  s.pcs[i].id !in first && s.pcs[i].id in s.entries && RowTells(c, requests[i], s.pcs[i], s.entries[s.pcs[i].id]))
            && (forall i, j | 0 <= i < j < |requests| && !s.pcs[i].Start? && !s.pcs[j].Start? :: s.pcs[i].id != s.pcs[j].id)
            && (forall id | id in s.entries && id !in first :: exists i | 0 <= i < |requests| :: Owns(s, i, id))
            && Distinct(s.calls)
            && (forall i | 0 <= i < |requests| && s.pcs[i].Done? ::
                  i in s.calls <==> Invoked(VerdictOn(c, requests[i], s.pcs[i].scope, s.pcs[i].adapter)))
            && (forall k | 0 <= k < |s.calls| ::
                  && s.calls[k] < |requests| && !s.pcs[s.calls[k]].Start? && s.pcs[s.calls[k]].id in s.entries
                  && CallJustified(c, requests[s.calls[k]], s.pcs[s.calls[k]], s.entries[s.pcs[s.calls[k]].id]))
  {
    RunKeepsInvariant(c, requests, first, issued, schedule);
    var s := Run(c, requests, Begin(first, issued, |requests|), schedule);
    hide RowHolds, HasCalled, RowTells, CallJustified, Run, Begin;
    forall i | 0 <= i < |requests| && !s.pcs[i].Start?
      ensures s.pcs[i].id in s.entries && RowTells(c, requests[i], s.pcs[i], s.entries[s.pcs[i].id])
    {
      assert PlaceHolds(c, requests[i], s.pcs[i], s.entries);
      RowToldByPlace(c, requests[i], s.pcs[i], s.entries[s.pcs[i].id]);
    }
    forall i | 0 <= i < |requests| && s.pcs[i].Done?
      ensures i in s.calls <==> Invoked(VerdictOn(c, requests[i], s.pcs[i].scope, s.pcs[i].adapter))
    {
      assert HasCalled(c, requests[i], s.pcs[i]) <==> Invoked(VerdictOn(c, requests[i], s.pcs[i].scope, s.pcs[i].adapter)) by {
        CalledWhenDone(c, requests[i], s.pcs[i]);
      }
    }
    forall k | 0 <= k < |s.calls|
      ensures && s.calls[k] < |requests| && !s.pcs[s.calls[k]].Start? && s.pcs[s.calls[k]].id in s.entries
              && CallJustified(c, requests[s.calls[k]], s.pcs[s.calls[k]], s.entries[s.pcs[s.calls[k]].id])
    {
      var i := s.calls[k];
      assert i in s.calls;
      assert PlaceHolds(c, requests[i], s.pcs[i], s.entries);
      CalledHasStarted(c, requests[i], s.pcs[i]);
      CallIsJustified(c, requests[i], s.pcs[i], s.entries[s.pcs[i].id]);
    }
  }

  lemma CalledWhenDone(c: Config, r: Request, pc: Pc)
    requires pc.Done?
    ensures HasCalled(c, r, pc) <==> Invoked(VerdictOn(c, r, pc.scope, pc.adapter))
  {
  }

  lemma CalledHasStarted(c: Config, r: Request, pc: Pc)
    requires HasCalled(c, r, pc)
    ensures !pc.Start?
  {
  }

  function Remaining(pc: Pc): nat {
    match pc
    case Start => 7 case Open(_) => 6 case Scoping(_) => 5 case Cleared(_, _) => 4
    case Approved(_, _) => 3 case Running(_, _) => 2 case Awaiting(_, _) => 1 case Done(_, _, _) => 0
  }

  function Turns(schedule: seq<Turn>, i: nat): nat {
    if schedule == [] then 0
    else Turns(schedule[..|schedule| - 1], i) + if schedule[|schedule| - 1].request == i then 1 else 0
  }

  /** A turn moves its own request forward and no other. */
  lemma TurnMoves(c: Config, requests: seq<Request>, s: State, t: Turn, i: nat)
    requires |s.pcs| == |requests| && i < |requests| && PlaceHolds(c, requests[i], s.pcs[i], s.entries)
    ensures var u := Step(c, requests, s, t);
            if t.request == i then Remaining(u.pcs[i]) == 0 || Remaining(u.pcs[i]) < Remaining(s.pcs[i])
            else u.pcs[i] == s.pcs[i]
  {
    hide Decide, RowHolds, Close, OutOfScope, Requested, Moved;
  }

  lemma {:induction false} TurnsComplete(c: Config, requests: seq<Request>, first: map<nat, Entry>, issued: nat,
                                         schedule: seq<Turn>, i: nat)
    requires (forall id | id in first :: id < issued) && i < |requests|
    ensures var r := Remaining(Run(c, requests, Begin(first, issued, |requests|), schedule).pcs[i]);
            r == 0 || r + Turns(schedule, i) <= 7
    decreases |schedule|
  {
    hide Step, PlaceHolds, OwnersHold, LedgerHolds, HasCalled, Distinct;
    if schedule != [] {
      var n := |schedule| - 1;
      var s := Run(c, requests, Begin(first, issued, |requests|), schedule[..n]);
      TurnsComplete(c, requests, first, issued, schedule[..n], i);
      RunKeepsInvariant(c, requests, first, issued, schedule[..n]);
      TurnMoves(c, requests, s, schedule[n], i);
    }
  }

  /** However the others are interleaved, a request that gets seven turns completes. */
  lemma EveryRequestCompletes(c: Config, requests: seq<Request>, first: map<nat, Entry>, issued: nat, schedule: seq<Turn>, i: nat)
    requires (forall id | id in first :: id < issued) && i < |requests| && Turns(schedule, i) >= 7
    ensures Run(c, requests, Begin(first, issued, |requests|), schedule).pcs[i].Done?
  {
    hide Run, Turns;
    TurnsComplete(c, requests, first, issued, schedule, i);
  }
}
