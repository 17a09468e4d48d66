/**
 * Any number of `ingest` calls running at once: each call is a few steps, one per await, and a
 * schedule says whose turn it is (packages/domain-signals/src/domain-signal-service.ts:63-142).
 * The store's insert is one step, as the unique key of the store port makes it.
 */
module IngestProtocol {
  import opened Texts
  import opened JsonValues
  import opened PayloadRedaction
  import opened SignalLedger
  import opened SignalService

  datatype Answer = CreatedAs(id: Id) | DuplicateOf(id: Id) | RejectedWith(error: ServiceError)

  /** Where a call stands: before the lookup, before the binding check, before the insert, in the catch, done. */
  datatype Pc = Start | Looked | Ready | Caught | Done(answer: Answer)

  datatype State = State(ledger: Ledger, pcs: seq<Pc>)

  function Lookup(l: Ledger, input: IngestInput): Option<Signal> {
    FindByDelivery(l.signals, input.sourceType, input.deliveryId)
  }

  /** One step of one call: its new place and the new store. */
  function CallStep(l: Ledger, pc: Pc, input: IngestInput, now: int): (Ledger, Pc) {
    match pc
    case Start =>
      if ArgumentError(input).Some? then (l, Done(RejectedWith(ArgumentError(input).value)))
      else if Lookup(l, input).Some? then (l, Done(DuplicateOf(Lookup(l, input).value.id)))
      else (l, Looked)
    case Looked =>
      if BindingError(l.bindings, input).Some? then (l, Done(RejectedWith(BindingError(l.bindings, input).value)))
      else (l, Ready)
    case Ready =>
      if Lookup(l, input).Some? then (l, Caught)
      else (Inserted(l, input, now), Done(CreatedAs(RowOf(input, l.issued, now).id)))
    case Caught =>
      if Lookup(l, input).Some? then (l, Done(DuplicateOf(Lookup(l, input).value.id)))
      else (l, Done(RejectedWith(DuplicateDelivery)))
    case Done(_) => (l, pc)
  }

  function Step(inputs: seq<IngestInput>, s: State, i: nat, now: int): (t: State)
    requires |s.pcs| == |inputs|
    ensures |t.pcs| == |inputs|
  {
    if i >= |inputs| then s
    else
      var (l, pc) := CallStep(s.ledger, s.pcs[i], inputs[i], now);
      State(l, s.pcs[i := pc])
  }

  function Run(inputs: seq<IngestInput>, s: State, schedule: seq<(nat, int)>): (t: State)
    requires |s.pcs| == |inputs|
    ensures |t.pcs| == |inputs|
    decreases |schedule|
  {
    if schedule == [] then s
    else
      var before := Run(inputs, s, schedule[..|schedule| - 1]);
      Step(inputs, before, schedule[|schedule| - 1].0, schedule[|schedule| - 1].1)
  }

  function Begin(l: Ledger, n: nat): State {
    State(l, seq(n, i requires 0 <= i < n => Start))
  }

  // ------------------------------------------------------------ the invariant

  /** The id of the signal a completed call answered with. */
  function Answered(pc: Pc): Option<Id> {
    match pc
    case Done(CreatedAs(id)) => Some(id)
    case Done(DuplicateOf(id)) => Some(id)
    case _ => None
  }

  predicate StoredAs(l: Ledger, input: IngestInput, id: Id) {
    Lookup(l, input).Some? && Lookup(l, input).value.id == id
  }

  /** What the place of a call implies about the store. */
  predicate PlaceHolds(l: Ledger, pc: Pc, input: IngestInput) {
    && (Answered(pc).Some? ==> StoredAs(l, input, Answered(pc).value))
    && (pc.Caught? ==> Lookup(l, input).Some?)
    && (pc.Ready? ==> BindingError(l.bindings, input).None?)
    && (pc != Done(RejectedWith(DuplicateDelivery)))
  }

  predicate Created(pc: Pc) {
    pc.Done? && pc.answer.CreatedAs?
  }

  ghost predicate Invariant(inputs: seq<IngestInput>, first: Ledger, s: State)
    requires |s.pcs| == |inputs|
  {
    && Valid(s.ledger) && Evolves(first, s.ledger) && s.ledger.bindings == first.bindings
    && (forall i | 0 <= i < |inputs| :: PlaceHolds(s.ledger, s.pcs[i], inputs[i]))
    && (forall i, j | 0 <= i < j < |inputs| && Created(s.pcs[i]) && Created(s.pcs[j]) :: s.pcs[i] != s.pcs[j])
    && (forall k | |first.signals| <= k < |s.ledger.signals| ::
          exists i | 0 <= i < |inputs| :: s.pcs[i] == Done(CreatedAs(s.ledger.signals[k].id)))
    && (forall i | 0 <= i < |inputs| && Created(s.pcs[i]) ::
          forall k | 0 <= k < |first.signals| :: first.signals[k].id != s.pcs[i].answer.id)
  }

  lemma LookupAfterInsert(l: Ledger, input: IngestInput, other: IngestInput, now: int)
    requires Lookup(l, input).None?
    ensures Lookup(l, other).Some? ==> Lookup(Inserted(l, input, now), other) == Lookup(l, other)
    ensures Lookup(Inserted(l, input, now), input) == Some(RowOf(input, l.issued, now))
  {
    FindAppended(l.signals, RowOf(input, l.issued, now), other.sourceType, other.deliveryId);
    FindAppended(l.signals, RowOf(input, l.issued, now), input.sourceType, input.deliveryId);
  }

  lemma {:induction false} FindAppended(signals: seq<Signal>, row: Signal, sourceType: Text, deliveryId: Text)
    ensures FindByDelivery(signals, sourceType, deliveryId).Some? ==>
              FindByDelivery(signals + [row], sourceType, deliveryId) == FindByDelivery(signals, sourceType, deliveryId)
    ensures FindByDelivery(signals, sourceType, deliveryId).None? && row.sourceType == sourceType && row.deliveryId == deliveryId ==>
              FindByDelivery(signals + [row], sourceType, deliveryId) == Some(row)
  {
    if signals != [] {
      FindAppended(signals[1..], row, sourceType, deliveryId);
      assert (signals + [row])[1..] == signals[1..] + [row];
    }
  }

  lemma EvolvesByInsert(first: Ledger, l: Ledger, input: IngestInput, now: int)
    requires Evolves(first, l)
    ensures Evolves(first, Inserted(l, input, now))
  {
    hide KeyOf, RedactPayload, SignalEvolves, BindingEvolves;
  }

  lemma StepKeepsInvariant(inputs: seq<IngestInput>, first: Ledger, s: State, i: nat, now: int)
    requires |s.pcs| == |inputs| && Invariant(inputs, first, s)
    ensures Invariant(inputs, first, Step(inputs, s, i, now))
  {
    if i < |inputs| {
      hide Valid, Evolves, FindByDelivery, PlaceHolds;
      if s.pcs[i].Ready? && Lookup(s.ledger, inputs[i]).None? {
        InsertKeepsInvariant(inputs, first, s, i, now);
      } else {
        assert PlaceHolds(s.ledger, s.pcs[i], inputs[i]);
        QuietStep(s.ledger, s.pcs[i], inputs[i], now);
        MoveKeepsInvariant(inputs, first, s, i, CallStep(s.ledger, s.pcs[i], inputs[i], now).1);
      }
    }
  }

  lemma QuietStep(l: Ledger, pc: Pc, input: IngestInput, now: int)
    requires PlaceHolds(l, pc, input) && !(pc.Ready? && Lookup(l, input).None?)
    ensures var (m, next) := CallStep(l, pc, input, now);
            m == l && PlaceHolds(l, next, input) && (Created(next) || Created(pc) ==> next == pc)
  {
    hide KeyOf, RedactPayload, FindByDelivery, Blank;
  }

  lemma MoveKeepsInvariant(inputs: seq<IngestInput>, first: Ledger, s: State, i: nat, pc: Pc)
    requires |s.pcs| == |inputs| && Invariant(inputs, first, s) && i < |inputs|
    requires PlaceHolds(s.ledger, pc, inputs[i]) && (Created(pc) || Created(s.pcs[i]) ==> pc == s.pcs[i])
    ensures Invariant(inputs, first, State(s.ledger, s.pcs[i := pc]))
  {
    hide Valid, Evolves, PlaceHolds;
    var t := State(s.ledger, s.pcs[i := pc]);
    forall k | |first.signals| <= k < |s.ledger.signals|
      ensures exists j | 0 <= j < |inputs| :: t.pcs[j] == Done(CreatedAs(s.ledger.signals[k].id))
    {
      var j :| 0 <= j < |inputs| && s.pcs[j] == Done(CreatedAs(s.ledger.signals[k].id));
      assert Created(s.pcs[j]);
      assert t.pcs[j] == s.pcs[j];
    }
  }

  lemma InsertKeepsInvariant(inputs: seq<IngestInput>, first: Ledger, s: State, i: nat, now: int)
    requires |s.pcs| == |inputs| && Invariant(inputs, first, s) && i < |inputs|
    requires s.pcs[i].Ready? && Lookup(s.ledger, inputs[i]).None?
    ensures Invariant(inputs, first, Step(inputs, s, i, now))
  {
    hide Valid, Evolves, KeyOf, RedactPayload, BindingError, ArgumentError, FindByDelivery;
    var l, t, id := s.ledger, Step(inputs, s, i, now), RowOf(inputs[i], s.ledger.issued, now).id;
    InsertKeepsValid(l, inputs[i], now);
    EvolvesByInsert(first, l, inputs[i], now);
    assert PlaceHolds(l, s.pcs[i], inputs[i]);
    forall j | 0 <= j < |inputs| ensures PlaceHolds(t.ledger, t.pcs[j], inputs[j]) {
      LookupAfterInsert(l, inputs[i], inputs[j], now);
    }
    forall j | 0 <= j < |inputs| && j != i && Created(s.pcs[j]) ensures s.pcs[j].answer.id != id {
      StoredSomewhere(l, inputs[j], s.pcs[j].answer.id);
    }
    forall k | |first.signals| <= k < |t.ledger.signals|
      ensures exists j | 0 <= j < |inputs| :: t.pcs[j] == Done(CreatedAs(t.ledger.signals[k].id))
    {
      if k < |l.signals| {
        var j :| 0 <= j < |inputs| && s.pcs[j] == Done(CreatedAs(l.signals[k].id));
        assert t.pcs[j] == s.pcs[j];
      } else {
        assert t.pcs[i] == Done(CreatedAs(t.ledger.signals[k].id));
      }
    }
    EvolvesIds(first, l);
  }

  lemma StoredSomewhere(l: Ledger, input: IngestInput, id: Id)
    requires StoredAs(l, input, id)
    ensures exists k | 0 <= k < |l.signals| :: l.signals[k].id == id
  {
    var row := Lookup(l, input).value;
    var k :| 0 <= k < |l.signals| && l.signals[k] == row;
  }

  lemma EvolvesIds(first: Ledger, l: Ledger)
    requires Evolves(first, l)
    ensures |first.signals| <= |l.signals| && forall k | 0 <= k < |first.signals| :: first.signals[k].id == l.signals[k].id
  {
    assert forall k | 0 <= k < |first.signals| :: SignalEvolves(first.signals[k], l.signals[k]);
  }

  lemma {:induction false} RunKeepsInvariant(inputs: seq<IngestInput>, first: Ledger, schedule: seq<(nat, int)>)
    requires Valid(first)
    ensures Invariant(inputs, first, Run(inputs, Begin(first, |inputs|), schedule))
    decreases |schedule|
  {
    hide Invariant, Valid, Step;
    if schedule == [] {
      BeginHolds(inputs, first);
    } else {
      var front := schedule[..|schedule| - 1];
      RunKeepsInvariant(inputs, first, front);
      StepKeepsInvariant(inputs, first, Run(inputs, Begin(first, |inputs|), front),
                         schedule[|schedule| - 1].0, schedule[|schedule| - 1].1);
    }
  }

  lemma BeginHolds(inputs: seq<IngestInput>, first: Ledger)
    requires Valid(first)
    ensures Invariant(inputs, first, Begin(first, |inputs|))
  {
    hide Valid;
    EvolvesReflexive(first);
  }

  // ------------------------------------------------------------ main results

  predicate SameDelivery(a: IngestInput, b: IngestInput) {
    a.sourceType == b.sourceType && a.deliveryId == b.deliveryId
  }

  /**
   * Whatever the schedule, and whatever the store held: one delivery has at most one signal; calls of one
   * delivery that answered with a signal answered with that one; at most one of them says it created it;
   * every new signal was created by a call; and no call ever rethrows the duplicate error.
   */
  lemma OneSignalPerDelivery(inputs: seq<IngestInput>, first: Ledger, schedule: seq<(nat, int)>)
    requires Valid(first)
    ensures var s := Run(inputs, Begin(first, |inputs|), schedule);
            && Valid(s.ledger)
            && (forall i | 0 <= i < |inputs| && Answered(s.pcs[i]).Some? ::
                  StoredAs(s.ledger, inputs[i], Answered(s.pcs[i]).value))
            && (forall i, j | 0 <= i < j < |inputs| && SameDelivery(inputs[i], inputs[j])
                              && Answered(s.pcs[i]).Some? && Answered(s.pcs[j]).Some? ::
                  Answered(s.pcs[i]) == Answered(s.pcs[j]) && !(Created(s.pcs[i]) && Created(s.pcs[j])))
            && (forall k | |first.signals| <= k < |s.ledger.signals| ::
                  exists i | 0 <= i < |inputs| :: s.pcs[i] == Done(CreatedAs(s.ledger.signals[k].id)))
            && (forall i | 0 <= i < |inputs| :: s.pcs[i] != Done(RejectedWith(DuplicateDelivery)))
  {
    RunKeepsInvariant(inputs, first, schedule);
    var s := Run(inputs, Begin(first, |inputs|), schedule);
    hide Valid, Evolves, FindByDelivery, Run;
    assert forall i | 0 <= i < |inputs| :: PlaceHolds(s.ledger, s.pcs[i], inputs[i]);
    forall i, j | 0 <= i < j < |inputs| && SameDelivery(inputs[i], inputs[j])
                  && Answered(s.pcs[i]).Some? && Answered(s.pcs[j]).Some?
      ensures Answered(s.pcs[i]) == Answered(s.pcs[j]) && !(Created(s.pcs[i]) && Created(s.pcs[j]))
    {
      assert Lookup(s.ledger, inputs[i]) == Lookup(s.ledger, inputs[j]);
    }
  }

  /** A delivery that was not stored at first and is now has its row among the new ones. */
  lemma NewRow(first: Ledger, l: Ledger, input: IngestInput) returns (k: nat)
    requires Evolves(first, l) && Lookup(first, input).None? && Lookup(l, input).Some?
    ensures |first.signals| <= k < |l.signals| && l.signals[k] == Lookup(l, input).value
  {
    hide FindByDelivery, CanTransition;
    k :| 0 <= k < |l.signals| && l.signals[k] == Lookup(l, input).value;
    assert forall i | 0 <= i < |first.signals| :: first.signals[i] in first.signals;
  }

  lemma OneRowPerId(l: Ledger, a: Signal, b: Signal)
    requires Valid(l) && a in l.signals && b in l.signals && a.id == b.id
    ensures a == b
  {
    hide BindingsValid, Isolated, AuditsIsolated, Coherent;
  }

  lemma CreatorOf(inputs: seq<IngestInput>, first: Ledger, s: State, i: nat) returns (j: nat)
    requires |s.pcs| == |inputs| && Invariant(inputs, first, s) && i < |inputs|
    requires Lookup(first, inputs[i]).None? && Answered(s.pcs[i]).Some?
    ensures j < |inputs| && SameDelivery(inputs[i], inputs[j]) && s.pcs[j] == Done(CreatedAs(Answered(s.pcs[i]).value))
  {
    hide Valid, Evolves, FindByDelivery;
    assert PlaceHolds(s.ledger, s.pcs[i], inputs[i]);
    var k := NewRow(first, s.ledger, inputs[i]);
    j :| 0 <= j < |inputs| && s.pcs[j] == Done(CreatedAs(s.ledger.signals[k].id));
    assert PlaceHolds(s.ledger, s.pcs[j], inputs[j]);
    OneRowPerId(s.ledger, Lookup(s.ledger, inputs[i]).value, Lookup(s.ledger, inputs[j]).value);
  }

  /** When none was stored before, whoever is answered, exactly one call of the delivery created its signal. */
  lemma ExactlyOneCreated(inputs: seq<IngestInput>, first: Ledger, schedule: seq<(nat, int)>, i: nat) returns (j: nat)
    requires Valid(first) && i < |inputs| && Lookup(first, inputs[i]).None?
    requires Answered(Run(inputs, Begin(first, |inputs|), schedule).pcs[i]).Some?
    ensures var s := Run(inputs, Begin(first, |inputs|), schedule);
            && j < |inputs| && SameDelivery(inputs[i], inputs[j])
            && s.pcs[j] == Done(CreatedAs(Answered(s.pcs[i]).value))
            && forall k | 0 <= k < |inputs| && SameDelivery(inputs[i], inputs[k]) && Created(s.pcs[k]) :: k == j
  {
    hide Valid, Invariant, Run, Lookup, StoredAs;
    RunKeepsInvariant(inputs, first, schedule);
    OneSignalPerDelivery(inputs, first, schedule);
    j := CreatorOf(inputs, first, Run(inputs, Begin(first, |inputs|), schedule), i);
  }

  function Remaining(pc: Pc): nat {
    match pc case Start => 4 case Looked => 3 case Ready => 2 case Caught => 1 case Done(_) => 0
  }

  function Turns(schedule: seq<(nat, int)>, i: nat): nat {
    if schedule == [] then 0
    else Turns(schedule[..|schedule| - 1], i) + if schedule[|schedule| - 1].0 == i then 1 else 0
  }

  /** A turn moves its own call forward and no other. */
  lemma TurnMoves(inputs: seq<IngestInput>, s: State, i: nat, now: int, j: nat)
    requires |s.pcs| == |inputs| && j < |inputs|
    ensures var t := Step(inputs, s, i, now);
            if i == j then Remaining(t.pcs[j]) == 0 || Remaining(t.pcs[j]) < Remaining(s.pcs[j]) else t.pcs[j] == s.pcs[j]
  {
    hide ArgumentError, BindingError, RowOf, FindByDelivery, IdsFor;
  }

  lemma {:induction false} TurnsComplete(inputs: seq<IngestInput>, s: State, schedule: seq<(nat, int)>, i: nat)
    requires |s.pcs| == |inputs| && i < |inputs|
    ensures var r := Remaining(Run(inputs, s, schedule).pcs[i]); r == 0 || r + Turns(schedule, i) <= Remaining(s.pcs[i])
    decreases |schedule|
  {
    hide Step, Remaining;
    if schedule != [] {
      var n := |schedule| - 1;
      TurnsComplete(inputs, s, schedule[..n], i);
      TurnMoves(inputs, Run(inputs, s, schedule[..n]), schedule[n].0, schedule[n].1, i);
    }
  }

  /** However the others are interleaved, a call that gets four turns completes. */
  lemma EveryCallCompletes(inputs: seq<IngestInput>, first: Ledger, schedule: seq<(nat, int)>, i: nat)
    requires i < |inputs| && Turns(schedule, i) >= 4
    ensures Run(inputs, Begin(first, |inputs|), schedule).pcs[i].Done?
  {
    hide Run, Turns;
    TurnsComplete(inputs, Begin(first, |inputs|), schedule, i);
  }

  /** A call that runs alone does what the sequential service promises. */
  lemma AloneIsSequential(input: IngestInput, l: Ledger, now: int)
    requires Valid(l) && WellFormed(input.payload)
    ensures var s := Run([input], Begin(l, 1), [(0, now), (0, now), (0, now)]);
            var existing := FindByDelivery(l.signals, input.sourceType, input.deliveryId);
            if ArgumentError(input).Some? then
              s == State(l, [Done(RejectedWith(ArgumentError(input).value))])
            else if existing.Some? then
              s == State(l, [Done(DuplicateOf(existing.value.id))])
            else if BindingError(l.bindings, input).Some? then
              s == State(l, [Done(RejectedWith(BindingError(l.bindings, input).value))])
            else
              && |s.ledger.signals| == |l.signals| + 1
              && s.ledger.signals == l.signals + [s.ledger.signals[|l.signals|]]
              && FreshSignal(s.ledger.signals[|l.signals|], input, now)
              && s.pcs == [Done(CreatedAs(s.ledger.signals[|l.signals|].id))]
  {
    hide Valid, KeyOf, RedactPayload, BindingError, ArgumentError, FindByDelivery;
    var s0 := Begin(l, 1);
    var turn: (nat, int) := (0, now);
    var s1, s2 := Step([input], s0, 0, now), Step([input], Step([input], s0, 0, now), 0, now);
    assert [turn, turn, turn][..2] == [turn, turn] && [turn, turn][..1] == [turn];
    var none: seq<(nat, int)> := [];
    assert [turn][..0] == none;
    assert Run([input], s0, none) == s0;
    assert Run([input], s0, [turn]) == s1;
    assert Run([input], s0, [turn, turn]) == s2;
    assert s0.pcs == [Start];
  }
}
