/**
 * What the schedule answers a request is what its row says: the outcome of each request depends on its own turns
 * only, however the others are interleaved (packages/action-runtime/src/action-executor.ts:40-171).
 */
module ActionAnswers {
  import opened Texts
  import opened ActionLedger
  import opened ActionProtocol

  /** The turns of one request, in order. */
  function Mine(schedule: seq<Turn>, i: nat): seq<Turn> {
    if schedule == [] then []
    else
      var n := |schedule| - 1;
      Mine(schedule[..n], i) + if schedule[n].request == i then [schedule[n]] else []
  }

  /** The scope answers in a request's third turn. */
  predicate ScopeSays(c: Config, mine: seq<Turn>, answer: ScopeAnswer) {
    c.scoped && |mine| > 2 && mine[2].scope == answer
  }

  predicate InScope(c: Config, mine: seq<Turn>) {
    c.scoped ==> ScopeSays(c, mine, Granted)
  }

  /** The adapter answers three turns after it was found: in the seventh with a scope, in the sixth without. */
  predicate AdapterSays(c: Config, mine: seq<Turn>, answer: AdapterAnswer) {
    var n := if c.scoped then 6 else 5;
    |mine| > n && mine[n].adapter == answer
  }

  /** Where a request stands after its turns, and what its place remembers of them. */
  predicate Placed(c: Config, r: Request, pc: Pc, mine: seq<Turn>) {
    var cleared := if c.scoped then 3 else 2;
    match pc
    case Start => |mine| == 0
    case Open(_) => |mine| == 1
    case Scoping(_) => |mine| == 2 && Permitted(c, r) && c.scoped
    case Cleared(_, scope) => |mine| == cleared && Permitted(c, r) && InScope(c, mine)
    case Approved(_, scope) => |mine| == cleared + 1 && Permitted(c, r) && InScope(c, mine) && r.actionId in c.adapters
    case Running(_, scope) => |mine| == cleared + 2 && Permitted(c, r) && InScope(c, mine) && r.actionId in c.adapters
    case Awaiting(_, scope) => |mine| == cleared + 3 && Permitted(c, r) && InScope(c, mine) && r.actionId in c.adapters
    case Done(_, scope, adapter) =>
      || !Permitted(c, r)
      || (ScopeSays(c, mine, Refused) && scope == Refused)
      || (ScopeSays(c, mine, Threw) && scope == Threw)
      || (InScope(c, mine) && (c.scoped ==> scope == Granted)
          && (r.actionId in c.adapters ==> AdapterSays(c, mine, adapter)))
  }

  lemma TurnPlaces(c: Config, r: Request, pc: Pc, e: Entry, t: Turn, mine: seq<Turn>)
    requires !pc.Start? && Placed(c, r, pc, mine) && RowHolds(c, r, pc, e)
    ensures Placed(c, r, Advance(c, r, pc, e, t).0, mine + [t])
  {
    DecideIff(c, r);
    hide Decide, Permitted, Close, Requested, Moved, RunningEntry, VerdictOn, ClosedEntry, OutOfScope, Unadapted, RunVerdict, IsRequested,
         IsRunning;
    var more := mine + [t];
    assert |mine| > 2 ==> more[2] == mine[2];
    assert |mine| > 5 ==> more[5] == mine[5];
    assert |mine| > 6 ==> more[6] == mine[6];
    assert more[|mine|] == t;
  }

  lemma StepPlaces(c: Config, requests: seq<Request>, s: State, t: Turn, i: nat, mine: seq<Turn>)
    requires |s.pcs| == |requests| && i < |requests| && PlaceHolds(c, requests[i], s.pcs[i], s.entries)
    requires Placed(c, requests[i], s.pcs[i], mine)
    ensures Placed(c, requests[i], Step(c, requests, s, t).pcs[i], if t.request == i then mine + [t] else mine)
  {
    hide Placed, RowHolds, Advance;
    if t.request == i {
      if s.pcs[i].Start? {
        Opened(c, requests[i], s.issued, mine, t);
      } else {
        TurnPlaces(c, requests[i], s.pcs[i], s.entries[s.pcs[i].id], t, mine);
      }
    }
  }

  lemma Opened(c: Config, r: Request, id: nat, mine: seq<Turn>, t: Turn)
    requires Placed(c, r, Start, mine)
    ensures Placed(c, r, Open(id), mine + [t])
  {
  }

  lemma {:induction false} RunPlaces(c: Config, requests: seq<Request>, first: map<nat, Entry>, issued: nat, schedule: seq<Turn>, i: nat)
    requires (forall id | id in first :: id < issued) && i < |requests|
    ensures Placed(c, requests[i], Run(c, requests, Begin(first, issued, |requests|), schedule).pcs[i], Mine(schedule, i))
    decreases |schedule|
  {
    hide Step, PlaceHolds, OwnersHold, LedgerHolds, HasCalled, Distinct;
    if schedule != [] {
      var n := |schedule| - 1;
      var s := Run(c, requests, Begin(first, issued, |requests|), schedule[..n]);
      RunPlaces(c, requests, first, issued, schedule[..n], i);
      RunKeepsInvariant(c, requests, first, issued, schedule[..n]);
      hide Placed;
      StepPlaces(c, requests, s, schedule[n], i, Mine(schedule[..n], i));
    }
  }

  /** The row of a request once it is done, from what its own turns answered. */
  predicate RowSays(c: Config, r: Request, mine: seq<Turn>, e: Entry) {
    if !Permitted(c, r) || ScopeSays(c, mine, Refused) then e.history == [REQUESTED, DENIED]
    else if ScopeSays(c, mine, Threw) then e.history == [REQUESTED]
    else if r.actionId !in c.adapters then e.history == [REQUESTED, FAILED]
    else
      var n := if c.scoped then 6 else 5;
      && InScope(c, mine) && |mine| > n
      && match mine[n].adapter
         case Replied(reply) =>
           && e.history == [REQUESTED, APPROVED, RUNNING, if reply.success then SUCCESS else FAILED]
           && e.record.result == Some(reply) && e.record.error == reply.error
         case Raised(message) =>
           && e.history == [REQUESTED, APPROVED, RUNNING, FAILED]
           && e.record.result == None && e.record.error == Some(message)
  }

  lemma RowAnswered(c: Config, r: Request, pc: Pc, e: Entry, mine: seq<Turn>)
    requires pc.Done? && Placed(c, r, pc, mine) && RowHolds(c, r, pc, e)
    ensures RowSays(c, r, mine, e)
  {
    DecideIff(c, r);
    hide Decide, Permitted, OutOfScope, Unadapted, Belongs, Along;
    if Permitted(c, r) && InScope(c, mine) && r.actionId in c.adapters {
      assert AdapterSays(c, mine, pc.adapter);
    }
  }

  lemma CalledInScope(c: Config, r: Request, pc: Pc, mine: seq<Turn>)
    requires HasCalled(c, r, pc) && Placed(c, r, pc, mine)
    ensures Permitted(c, r) && InScope(c, mine) && r.actionId in c.adapters
  {
    DecideIff(c, r);
    hide Decide, Permitted, OutOfScope, Unadapted;
  }

  /**
   * Whatever the schedule: a request that is done has the row that its own turns say, and an adapter has been called
   * only for a request that is permitted and that the scope, if there is one, granted in the request's own turn.
   */
  lemma OwnTurnsDecide(c: Config, requests: seq<Request>, first: map<nat, Entry>, issued: nat, schedule: seq<Turn>, i: nat)
    requires (forall id | id in first :: id < issued) && i < |requests|
    ensures var s := Run(c, requests, Begin(first, issued, |requests|), schedule);
            && (s.pcs[i].Done? ==> s.pcs[i].id in s.entries && RowSays(c, requests[i], Mine(schedule, i), s.entries[s.pcs[i].id]))
            && (i in s.calls ==> Permitted(c, requests[i]) && InScope(c, Mine(schedule, i)) && requests[i].actionId in c.adapters)
  {
    RunKeepsInvariant(c, requests, first, issued, schedule);
    RunPlaces(c, requests, first, issued, schedule, i);
    var s := Run(c, requests, Begin(first, issued, |requests|), schedule);
    hide Placed, RowSays, RowHolds, HasCalled, Permitted, InScope, Mine, Run, Begin, OwnersHold, LedgerHolds, Distinct;
    assert PlaceHolds(c, requests[i], s.pcs[i], s.entries);
    if s.pcs[i].Done? {
      RowAnswered(c, requests[i], s.pcs[i], s.entries[s.pcs[i].id], Mine(schedule, i));
    }
    if i in s.calls {
      CalledInScope(c, requests[i], s.pcs[i], Mine(schedule, i));
    }
  }
}
