/**
 * Concurrent `ingest` calls over a store whose insert awaits between its own duplicate check and its write,
 * as the one in memory does (packages/domain-signals/src/in-memory-domain-signal-store.ts:109-147).
 */
module SplitInsert {
  import opened Texts
  import opened JsonValues
  import opened SignalLedger
  import opened SignalService
  import opened IngestProtocol

  /** A place of the protocol, or between the check of the insert and its write. */
  datatype Place = At(pc: Pc) | Checked

  datatype Split = Split(ledger: Ledger, places: seq<Place>)

  function SplitStep(l: Ledger, place: Place, input: IngestInput, now: int): (Ledger, Place) {
    match place
    case Checked => (Inserted(l, input, now), At(Done(CreatedAs(RowOf(input, l.issued, now).id))))
    case At(pc) =>
      if pc.Ready? && Lookup(l, input).None? then (l, Checked)
      else
        var (m, next) := CallStep(l, pc, input, now);
        (m, At(next))
  }

  function Next(inputs: seq<IngestInput>, s: Split, i: nat, now: int): (t: Split)
    requires |s.places| == |inputs|
    ensures |t.places| == |inputs|
  {
    if i >= |inputs| then s
    else
      var (l, place) := SplitStep(s.ledger, s.places[i], inputs[i], now);
      Split(l, s.places[i := place])
  }

  function Open(l: Ledger, n: nat): Split {
    Split(l, seq(n, i requires 0 <= i < n => At(Start)))
  }

  function RunSplit(inputs: seq<IngestInput>, first: Ledger, schedule: seq<(nat, int)>): (t: Split)
    ensures |t.places| == |inputs|
    decreases |schedule|
  {
    if schedule == [] then Open(first, |inputs|)
    else
      var n := |schedule| - 1;
      Next(inputs, RunSplit(inputs, first, schedule[..n]), schedule[n].0, schedule[n].1)
  }

  predicate BothChecked(s: Split, i: nat, j: nat)
    requires i < |s.places| && j < |s.places|
  {
    s.places[i].Checked? && s.places[j].Checked?
  }

  /** At some moment of the run both calls were past the check and neither had written. */
  predicate Overlapped(inputs: seq<IngestInput>, first: Ledger, schedule: seq<(nat, int)>, i: nat, j: nat)
    requires i < |inputs| && j < |inputs|
    decreases |schedule|
  {
    BothChecked(RunSplit(inputs, first, schedule), i, j)
    || (schedule != [] && Overlapped(inputs, first, schedule[..|schedule| - 1], i, j))
  }

  predicate UniqueDeliveries(l: Ledger) {
    forall i, j | 0 <= i < j < |l.signals| :: Delivery(l.signals[i]) != Delivery(l.signals[j])
  }

  predicate Written(place: Place) {
    place.At? && IngestProtocol.Created(place.pc)
  }

  /** Two calls of one delivery overlapped, and both have written. */
  predicate Collided(inputs: seq<IngestInput>, first: Ledger, schedule: seq<(nat, int)>, i: nat, j: nat)
    requires i < |inputs| && j < |inputs|
  {
    && i != j && SameDelivery(inputs[i], inputs[j]) && Overlapped(inputs, first, schedule, i, j)
    && !RunSplit(inputs, first, schedule).places[i].Checked? && !RunSplit(inputs, first, schedule).places[j].Checked?
  }

  // ------------------------------------------------------------ the invariant

  /** A written call has its own row. */
  predicate HasRow(l: Ledger, place: Place, input: IngestInput) {
    Written(place) ==>
      exists k | 0 <= k < |l.signals| ::
        l.signals[k].id == place.pc.answer.id && l.signals[k].sourceType == input.sourceType
        && l.signals[k].deliveryId == input.deliveryId
  }

  predicate RowsHold(inputs: seq<IngestInput>, s: Split)
    requires |s.places| == |inputs|
  {
    && (forall i | 0 <= i < |inputs| :: HasRow(s.ledger, s.places[i], inputs[i]))
    && (forall i, j | 0 <= i < j < |inputs| && Written(s.places[i]) && Written(s.places[j]) ::
          s.places[i].pc.answer.id != s.places[j].pc.answer.id)
    && (forall i | 0 <= i < |inputs| && Written(s.places[i]) ::
          s.places[i].pc.answer.id.Uuid? && s.places[i].pc.answer.id.serial < s.ledger.issued)
  }

  lemma {:induction false} RowsKept(inputs: seq<IngestInput>, first: Ledger, schedule: seq<(nat, int)>)
    ensures RowsHold(inputs, RunSplit(inputs, first, schedule))
    decreases |schedule|
  {
    hide RowsHold, Next;
    if schedule == [] {
      RowsAtFirst(inputs, first);
    } else {
      var n := |schedule| - 1;
      RowsKept(inputs, first, schedule[..n]);
      NextKeepsRows(inputs, RunSplit(inputs, first, schedule[..n]), schedule[n].0, schedule[n].1);
    }
  }

  lemma RowsAtFirst(inputs: seq<IngestInput>, first: Ledger)
    ensures RowsHold(inputs, Open(first, |inputs|))
  {
  }

  lemma NextKeepsRows(inputs: seq<IngestInput>, s: Split, i: nat, now: int)
    requires |s.places| == |inputs| && RowsHold(inputs, s)
    ensures RowsHold(inputs, Next(inputs, s, i, now))
  {
    if i < |inputs| {
      var t := Next(inputs, s, i, now);
      StepShape(s.ledger, s.places[i], inputs[i], now);
      hide SplitStep, HasRow, Inserted, RowOf;
      forall j | 0 <= j < |inputs| ensures HasRow(t.ledger, t.places[j], inputs[j]) {
        RowStays(s.ledger, t.ledger, s.places[j], inputs[j]);
      }
    }
  }

  /** A turn writes exactly when the call is past the check; then its own row is new. */
  lemma StepShape(l: Ledger, place: Place, input: IngestInput, now: int)
    ensures var (m, next) := SplitStep(l, place, input, now);
            && l.signals <= m.signals && l.issued <= m.issued
            && (if place.Checked? then
                  && Written(next) && next.pc.answer.id.Uuid? && l.issued <= next.pc.answer.id.serial < m.issued
                  && HasRow(m, next, input) && m == Inserted(l, input, now)
                else
                  && m == l && (if Written(place) then next == place else !Written(next))
                  && (next.Checked? ==> Lookup(l, input).None?))
  {
    hide KeyOf, ArgumentError, BindingError, FindByDelivery, PayloadRedaction.RedactPayload;
    if place.Checked? {
      var m := Inserted(l, input, now);
      assert m.signals[|l.signals|] == RowOf(input, l.issued, now);
    }
  }

  lemma RowStays(l: Ledger, m: Ledger, place: Place, input: IngestInput)
    requires l.signals <= m.signals && HasRow(l, place, input)
    ensures HasRow(m, place, input)
  {
    if Written(place) {
      var k :| 0 <= k < |l.signals| && l.signals[k].id == place.pc.answer.id && l.signals[k].sourceType == input.sourceType
               && l.signals[k].deliveryId == input.deliveryId;
      assert m.signals[k] == l.signals[k];
    }
  }

  // ------------------------------------------------------------ how deliveries come to be stored twice

  /** A call past the check stays there until it has written. */
  lemma {:induction false} OverlappedPlaces(inputs: seq<IngestInput>, first: Ledger, schedule: seq<(nat, int)>, i: nat, j: nat)
    requires i < |inputs| && j < |inputs| && Overlapped(inputs, first, schedule, i, j)
    ensures var s := RunSplit(inputs, first, schedule);
            (s.places[i].Checked? || Written(s.places[i])) && (s.places[j].Checked? || Written(s.places[j]))
    decreases |schedule|
  {
    hide RunSplit, SplitStep;
    var s := RunSplit(inputs, first, schedule);
    if !BothChecked(s, i, j) {
      var n := |schedule| - 1;
      OverlappedPlaces(inputs, first, schedule[..n], i, j);
      Unfolded(inputs, first, schedule);
      var before := RunSplit(inputs, first, schedule[..n]);
      TurnShape(inputs, before, schedule[n].0, schedule[n].1, i);
      TurnShape(inputs, before, schedule[n].0, schedule[n].1, j);
    }
  }

  lemma Unfolded(inputs: seq<IngestInput>, first: Ledger, schedule: seq<(nat, int)>)
    requires schedule != []
    ensures var n := |schedule| - 1;
            RunSplit(inputs, first, schedule)
            == Next(inputs, RunSplit(inputs, first, schedule[..n]), schedule[n].0, schedule[n].1)
  {
    hide Next;
  }

  /** What a turn does to the place of one call. */
  lemma TurnShape(inputs: seq<IngestInput>, s: Split, i: nat, now: int, j: nat)
    requires |s.places| == |inputs| && j < |inputs|
    ensures var t := Next(inputs, s, i, now);
            && (i != j ==> t.places[j] == s.places[j])
            && (i == j && s.places[j].Checked? ==> Written(t.places[j]))
            && (Written(s.places[j]) ==> t.places[j] == s.places[j])
            && (t.places[j].Checked? && !s.places[j].Checked? ==>
                  t.ledger == s.ledger && Lookup(s.ledger, inputs[j]).None?)
  {
    hide SplitStep, HasRow, Inserted;
    if i < |inputs| {
      StepShape(s.ledger, s.places[i], inputs[i], now);
    }
  }

  /** Only a call past the check writes. */
  lemma TurnWrites(inputs: seq<IngestInput>, s: Split, i: nat, now: int)
    requires |s.places| == |inputs|
    ensures Next(inputs, s, i, now).ledger
         == if i < |inputs| && s.places[i].Checked? then Inserted(s.ledger, inputs[i], now) else s.ledger
  {
    hide SplitStep, HasRow, Inserted;
    if i < |inputs| {
      StepShape(s.ledger, s.places[i], inputs[i], now);
    }
  }

  /** When another call's write makes a delivery known, it was of that delivery. */
  lemma KnownByWrite(l: Ledger, input: IngestInput, other: IngestInput, now: int)
    requires Lookup(l, input).None? && Lookup(Inserted(l, other, now), input).Some?
    ensures SameDelivery(input, other)
  {
    hide FindByDelivery, KeyOf;
    var m := Inserted(l, other, now);
    var row := Lookup(m, input).value;
    assert row in m.signals && row !in l.signals;
  }

  /** Past the check, a delivery is in the store only because another call, past it too at the time, wrote it. */
  lemma {:induction false} StoredMeanwhile(inputs: seq<IngestInput>, first: Ledger, schedule: seq<(nat, int)>, i: nat)
    returns (j: nat)
    requires i < |inputs| && RunSplit(inputs, first, schedule).places[i].Checked?
    requires Lookup(RunSplit(inputs, first, schedule).ledger, inputs[i]).Some?
    ensures j < |inputs| && j != i && SameDelivery(inputs[i], inputs[j]) && Overlapped(inputs, first, schedule, i, j)
    ensures !RunSplit(inputs, first, schedule).places[j].Checked?
    decreases |schedule|
  {
    hide Next, Lookup, Inserted;
    var n := |schedule| - 1;
    Unfolded(inputs, first, schedule);
    var before := RunSplit(inputs, first, schedule[..n]);
    var turn := schedule[n];
    TurnShape(inputs, before, turn.0, turn.1, i);
    TurnWrites(inputs, before, turn.0, turn.1);
    if Lookup(before.ledger, inputs[i]).Some? {
      j := StoredMeanwhile(inputs, first, schedule[..n], i);
      OverlappedPlaces(inputs, first, schedule[..n], i, j);
      TurnShape(inputs, before, turn.0, turn.1, j);
    } else {
      j := turn.0;
      TurnShape(inputs, before, turn.0, turn.1, j);
      KnownByWrite(before.ledger, inputs[i], inputs[j], turn.1);
    }
  }

  lemma UniqueKept(l: Ledger, input: IngestInput, now: int)
    requires UniqueDeliveries(l) && Lookup(l, input).None?
    ensures UniqueDeliveries(Inserted(l, input, now))
  {
    hide KeyOf, FindByDelivery;
    forall k | 0 <= k < |l.signals| ensures Delivery(l.signals[k]) != Delivery(RowOf(input, l.issued, now)) {
      assert l.signals[k] in l.signals;
    }
  }

  /** A delivery stored twice was written by two calls that overlapped. */
  lemma {:induction false} TwiceMeansCollided(inputs: seq<IngestInput>, first: Ledger, schedule: seq<(nat, int)>)
    returns (i: nat, j: nat)
    requires UniqueDeliveries(first) && !UniqueDeliveries(RunSplit(inputs, first, schedule).ledger)
    ensures i < |inputs| && j < |inputs| && Collided(inputs, first, schedule, i, j)
    decreases |schedule|
  {
    hide Next, Lookup, Inserted, UniqueDeliveries;
    var n := |schedule| - 1;
    Unfolded(inputs, first, schedule);
    var before := RunSplit(inputs, first, schedule[..n]);
    var turn := schedule[n];
    if UniqueDeliveries(before.ledger) {
      i := turn.0;
      TurnWrites(inputs, before, turn.0, turn.1);
      if Lookup(before.ledger, inputs[i]).None? {
        UniqueKept(before.ledger, inputs[i], turn.1);
      }
      j := StoredMeanwhile(inputs, first, schedule[..n], i);
    } else {
      i, j := TwiceMeansCollided(inputs, first, schedule[..n]);
    }
    OverlappedPlaces(inputs, first, schedule[..n], i, j);
    TurnShape(inputs, before, turn.0, turn.1, i);
    TurnShape(inputs, before, turn.0, turn.1, j);
  }

  /** Two calls of one delivery that overlapped and have both written stored it twice. */
  lemma CollidedMeansTwice(inputs: seq<IngestInput>, first: Ledger, schedule: seq<(nat, int)>, i: nat, j: nat)
    requires i < |inputs| && j < |inputs| && Collided(inputs, first, schedule, i, j)
    ensures !UniqueDeliveries(RunSplit(inputs, first, schedule).ledger)
  {
    OverlappedPlaces(inputs, first, schedule, i, j);
    RowsKept(inputs, first, schedule);
    var s := RunSplit(inputs, first, schedule);
    hide RunSplit, Overlapped;
    assert HasRow(s.ledger, s.places[i], inputs[i]) && HasRow(s.ledger, s.places[j], inputs[j]);
    var k :| 0 <= k < |s.ledger.signals| && s.ledger.signals[k].id == s.places[i].pc.answer.id
             && Delivery(s.ledger.signals[k]) == (inputs[i].sourceType, inputs[i].deliveryId);
    var m :| 0 <= m < |s.ledger.signals| && s.ledger.signals[m].id == s.places[j].pc.answer.id
             && Delivery(s.ledger.signals[m]) == (inputs[j].sourceType, inputs[j].deliveryId);
    assert k != m;
  }

  // ------------------------------------------------------------ main results

  /**
   * With the insert split in two, under any schedule: deliveries stay unique exactly when no two calls of one
   * delivery were both past the check before either wrote, and went on to write.
   */
  lemma UniqueIff(inputs: seq<IngestInput>, first: Ledger, schedule: seq<(nat, int)>)
    requires UniqueDeliveries(first)
    ensures UniqueDeliveries(RunSplit(inputs, first, schedule).ledger)
       <==> !exists i, j | 0 <= i < |inputs| && 0 <= j < |inputs| :: Collided(inputs, first, schedule, i, j)
  {
    hide UniqueDeliveries, Collided, RunSplit;
    if UniqueDeliveries(RunSplit(inputs, first, schedule).ledger) {
      forall i, j | 0 <= i < |inputs| && 0 <= j < |inputs| ensures !Collided(inputs, first, schedule, i, j) {
        if Collided(inputs, first, schedule, i, j) {
          CollidedMeansTwice(inputs, first, schedule, i, j);
        }
      }
    } else {
      var i, j := TwiceMeansCollided(inputs, first, schedule);
    }
  }

  lemma Extended(inputs: seq<IngestInput>, first: Ledger, schedule: seq<(nat, int)>, i: nat, now: int)
    ensures RunSplit(inputs, first, schedule + [(i, now)]) == Next(inputs, RunSplit(inputs, first, schedule), i, now)
  {
    hide Next;
    assert (schedule + [(i, now)])[..|schedule|] == schedule;
  }

  /** Two calls of one input, taking the same step one after the other. */
  lemma InStep(input: IngestInput, first: Ledger, schedule: seq<(nat, int)>, now: int, l: Ledger, place: Place, next: Place)
    requires RunSplit([input, input], first, schedule) == Split(l, [place, place])
    requires SplitStep(l, place, input, now) == (l, next)
    ensures RunSplit([input, input], first, schedule + [(0, now)] + [(1, now)]) == Split(l, [next, next])
  {
    hide RunSplit, SplitStep;
    Extended([input, input], first, schedule, 0, now);
    Extended([input, input], first, schedule + [(0, now)], 1, now);
  }

  /** Two calls past the check, writing one after the other. */
  lemma BothWrite(input: IngestInput, first: Ledger, schedule: seq<(nat, int)>, now: int, l: Ledger)
    requires RunSplit([input, input], first, schedule) == Split(l, [Checked, Checked])
    ensures var m := Inserted(l, input, now);
            RunSplit([input, input], first, schedule + [(0, now)] + [(1, now)])
            == Split(Inserted(m, input, now), [At(Done(CreatedAs(RowOf(input, l.issued, now).id))),
                                               At(Done(CreatedAs(RowOf(input, m.issued, now).id)))])
  {
    hide RunSplit, RowOf, Inserted, CallStep;
    Extended([input, input], first, schedule, 0, now);
    Extended([input, input], first, schedule + [(0, now)], 1, now);
  }

  lemma StepsToWrite(input: IngestInput, l: Ledger, now: int)
    requires ArgumentError(input).None? && BindingError(l.bindings, input).None? && Lookup(l, input).None?
    ensures SplitStep(l, At(Start), input, now) == (l, At(Looked))
    ensures SplitStep(l, At(Looked), input, now) == (l, At(Ready))
    ensures SplitStep(l, At(Ready), input, now) == (l, Checked)
  {
    hide FindByDelivery, ArgumentError, BindingError, RowOf;
  }

  /** So many turns of each of two calls, in lockstep. */
  function InLockstep(rounds: nat, now: int): seq<(nat, int)> {
    if rounds == 0 then [] else InLockstep(rounds - 1, now) + [(0, now)] + [(1, now)]
  }

  lemma OneRoundMore(rounds: nat, now: int)
    ensures InLockstep(rounds + 1, now) == InLockstep(rounds, now) + [(0, now)] + [(1, now)]
  {
  }

  /**
   * The schedule that stores a delivery twice: any new delivery, ingested by two calls that both look up, both
   * pass the binding and the check, and then both write.
   */
  lemma LockstepStoresTwice(input: IngestInput, first: Ledger, now: int)
    requires ArgumentError(input).None? && BindingError(first.bindings, input).None? && Lookup(first, input).None?
    ensures var s := RunSplit([input, input], first, InLockstep(4, now));
            var a, b := RowOf(input, first.issued, now), RowOf(input, first.issued + IdsFor(input), now);
            && s.ledger.signals == first.signals + [a, b] && Delivery(a) == Delivery(b) && a.id != b.id
            && s.places == [At(Done(CreatedAs(a.id))), At(Done(CreatedAs(b.id)))]
  {
    hide RunSplit, Lookup, ArgumentError, BindingError, RowOf, IdsFor, SplitStep, Inserted, InLockstep, Delivery;
    BothStart(input, first, now);
    StepsToWrite(input, first, now);
    OneRoundMore(0, now);
    OneRoundMore(1, now);
    OneRoundMore(2, now);
    OneRoundMore(3, now);
    InStep(input, first, InLockstep(0, now), now, first, At(Start), At(Looked));
    InStep(input, first, InLockstep(1, now), now, first, At(Looked), At(Ready));
    InStep(input, first, InLockstep(2, now), now, first, At(Ready), Checked);
    BothWrite(input, first, InLockstep(3, now), now, first);
    RowsOfTwo(input, first, now);
  }

  lemma BothStart(input: IngestInput, first: Ledger, now: int)
    ensures RunSplit([input, input], first, InLockstep(0, now)) == Split(first, [At(Start), At(Start)])
  {
  }

  lemma RowsOfTwo(input: IngestInput, l: Ledger, now: int)
    ensures var a, b := RowOf(input, l.issued, now), RowOf(input, l.issued + IdsFor(input), now);
            && Inserted(l, input, now).issued == l.issued + IdsFor(input)
            && Inserted(Inserted(l, input, now), input, now).signals == l.signals + [a, b]
            && Delivery(a) == Delivery(b) && a.id != b.id
  {
    hide KeyOf, Trim;
  }

  // ------------------------------------------------------------ without overlap the split does not show

  function PcOf(place: Place): Pc {
    match place case At(pc) => pc case Checked => Ready
  }

  function Atomic(s: Split): State {
    State(s.ledger, seq(|s.places|, i requires 0 <= i < |s.places| => PcOf(s.places[i])))
  }

  /** A turn is a step of the atomic protocol, or the check alone, which changes nothing there. */
  lemma TurnIsStep(inputs: seq<IngestInput>, s: Split, i: nat, now: int)
    requires |s.places| == |inputs|
    requires i < |inputs| && s.places[i].Checked? ==> Lookup(s.ledger, inputs[i]).None?
    ensures var t := Next(inputs, s, i, now);
            Atomic(t) == Atomic(s) || Atomic(t) == Step(inputs, Atomic(s), i, now)
  {
    hide FindByDelivery, ArgumentError, BindingError, Inserted, RowOf;
    if i < |inputs| {
      var t := Next(inputs, s, i, now);
      var u := Step(inputs, Atomic(s), i, now);
      assert forall j | 0 <= j < |inputs| && j != i :: Atomic(t).pcs[j] == Atomic(s).pcs[j] == u.pcs[j];
      if s.places[i] == At(Ready) && Lookup(s.ledger, inputs[i]).None? {
        assert Atomic(t).pcs == Atomic(s).pcs;
      } else {
        assert Atomic(t).pcs == u.pcs;
      }
    }
  }

  /**
   * When no two calls of one delivery overlap between check and write, the run is one of the protocol with an
   * atomic insert, so everything proved of that protocol holds of it.
   */
  lemma {:induction false} WithoutOverlapAtomic(inputs: seq<IngestInput>, first: Ledger, schedule: seq<(nat, int)>)
    returns (atomic: seq<(nat, int)>)
    requires forall i, j | 0 <= i < |inputs| && 0 <= j < |inputs| && i != j && SameDelivery(inputs[i], inputs[j]) ::
               !Overlapped(inputs, first, schedule, i, j)
    ensures Run(inputs, Begin(first, |inputs|), atomic) == Atomic(RunSplit(inputs, first, schedule))
    decreases |schedule|
  {
    hide Next, Step, Lookup;
    if schedule == [] {
      atomic := [];
      assert Begin(first, |inputs|).pcs == Atomic(Open(first, |inputs|)).pcs;
    } else {
      var n := |schedule| - 1;
      atomic := WithoutOverlapAtomic(inputs, first, schedule[..n]);
      var before, turn := RunSplit(inputs, first, schedule[..n]), schedule[n];
      if turn.0 < |inputs| && before.places[turn.0].Checked? && Lookup(before.ledger, inputs[turn.0]).Some? {
        var j := StoredMeanwhile(inputs, first, schedule[..n], turn.0);
      }
      TurnIsStep(inputs, before, turn.0, turn.1);
      Unfolded(inputs, first, schedule);
      if Atomic(RunSplit(inputs, first, schedule)) != Atomic(before) {
        assert (atomic + [turn])[..|atomic|] == atomic;
        atomic := atomic + [turn];
      }
    }
  }
}
