/**
 * When an ingest is accepted, what it is answered with and what it stores, said about the fields of the input and
 * the rows of the store (packages/domain-signals/src/domain-signal-service.ts:60-190, lifecycle.ts,
 * in-memory-domain-signal-store.ts:200-230).
 */
module IngestTerms {
  import opened Texts
  import opened TextMeaning
  import opened JsonValues
  import opened StableStringify
  import opened SignalHash
  import opened SignalLedger
  import opened SignalService
  import opened PrintedForm

  // ------------------------------------------------------------ acceptance

  /** Some unit of the text is not white space. */
  predicate Said(t: Text) {
    exists k | 0 <= k < |t| :: !White(t[k])
  }

  lemma SaidIff(t: Text)
    ensures Said(t) <==> !Blank(t)
    ensures Said(t) <==> Trim(t) != []
  {
    BlankIff(t);
    hide White;
  }

  /** A binding is named: an identifier is given, and it is not the empty text. */
  predicate NamesBinding(input: IngestInput) {
    input.bindingId != None && input.bindingId != Some(Given([]))
  }

  /** The named binding is there, belongs to the workspace of the input and is enabled. */
  predicate BindingOpen(bindings: seq<Binding>, input: IngestInput) {
    exists b | b in bindings :: Some(b.id) == input.bindingId && b.workspaceId == input.workspaceId && b.enabled
  }

  predicate Delivered(signals: seq<Signal>, input: IngestInput) {
    exists s | s in signals :: s.sourceType == input.sourceType && s.deliveryId == input.deliveryId
  }

  /** The first of the four texts that is blank is the one the refusal names. */
  lemma ArgumentRefused(input: IngestInput)
    ensures ArgumentError(input).None? <==>
              Said(input.workspaceId) && Said(input.sourceType) && Said(input.kind) && Said(input.deliveryId)
    ensures ArgumentError(input).Some? ==>
              ArgumentError(input).value == MissingArgument(
                if !Said(input.workspaceId) then "workspaceId" else if !Said(input.sourceType) then "sourceType"
                else if !Said(input.kind) then "type" else "deliveryId")
  {
    SaidIff(input.workspaceId);
    SaidIff(input.sourceType);
    SaidIff(input.kind);
    SaidIff(input.deliveryId);
    hide Said, Blank, Trim;
  }

  /** A named binding is refused because it is not there, because it is of another workspace, or because it is off. */
  lemma BindingRefused(l: Ledger, input: IngestInput)
    requires BindingsValid(l.bindings, l.issued)
    ensures BindingError(l.bindings, input).None? <==> !NamesBinding(input) || BindingOpen(l.bindings, input)
    ensures BindingError(l.bindings, input) == Some(BindingNotFound) <==>
              NamesBinding(input) && forall b | b in l.bindings :: Some(b.id) != input.bindingId
    ensures BindingError(l.bindings, input) == Some(BindingOfOtherWorkspace) <==>
              NamesBinding(input) && exists b | b in l.bindings :: Some(b.id) == input.bindingId && b.workspaceId != input.workspaceId
    ensures BindingError(l.bindings, input) == Some(BindingDisabled) <==>
              NamesBinding(input)
              && exists b | b in l.bindings :: Some(b.id) == input.bindingId && b.workspaceId == input.workspaceId && !b.enabled
  {
    assert NamesBinding(input) <==> Refers(input.bindingId);
    if Refers(input.bindingId) {
      hide NamesBinding, Refers;
      var bindings, id := l.bindings, input.bindingId.value;
      var k := BindingIndex(bindings, id);
      forall b | b in bindings && b.id == id ensures k < |bindings| && b == bindings[k] {
        var i :| 0 <= i < |bindings| && bindings[i] == b;
      }
      if k < |bindings| {
        assert bindings[k] in bindings;
      }
    }
  }

  /**
   * A call succeeds exactly when no text is missing and the delivery is already stored, or no binding is named, or
   * the named one is there, of the workspace, and enabled; only in the last two cases the store changes, by one row.
   */
  lemma AcceptedIff(l: Ledger, input: IngestInput, now: int)
    requires BindingsValid(l.bindings, l.issued)
    ensures var said := Said(input.workspaceId) && Said(input.sourceType) && Said(input.kind) && Said(input.deliveryId);
            var open := !NamesBinding(input) || BindingOpen(l.bindings, input);
            && (Ingested(l, input, now) != l <==> said && !Delivered(l.signals, input) && open)
            && (Ingested(l, input, now) != l ==>
                  && |Ingested(l, input, now).signals| == |l.signals| + 1 && l.signals <= Ingested(l, input, now).signals
                  && Ingested(l, input, now).bindings == l.bindings)
  {
    ArgumentRefused(input);
    BindingRefused(l, input);
    hide RowOf, FindByDelivery, BindingError, ArgumentError, Said, BindingOpen, NamesBinding;
    assert Delivered(l.signals, input) <==> FindByDelivery(l.signals, input.sourceType, input.deliveryId).Some?;
    assert |Inserted(l, input, now).signals| == |l.signals| + 1;
  }

  // ------------------------------------------------------------ what is stored

  predicate KeyGiven(input: IngestInput) {
    input.signalHash.Some? && Said(input.signalHash.value)
  }

  /** Workspace, kind, source, reference and the printed relevant fields, with bars between them. */
  function KeyText(input: IngestInput): Text {
    var bar: Text := [0x7C];
    var source: Text, reference: Text :=
      (if input.sourceId.Some? then input.sourceId.value else []), (if input.externalRef.Some? then input.externalRef.value else []);
    input.workspaceId + bar + input.kind + bar + source + bar + reference + bar + Stringify(Obj(Relevant(input.payload)))
  }

  /** The similarity key: the given one, trimmed, or else the hash of that text. */
  lemma KeyStored(input: IngestInput)
    ensures KeyGiven(input) ==> KeyOf(input) == Supplied(Trim(input.signalHash.value))
    ensures !KeyGiven(input) ==> KeyOf(input) == HashOf(KeyText(input))
  {
    if input.signalHash.Some? {
      SaidIff(input.signalHash.value);
    }
    HashedText(HashParts(input.workspaceId, input.kind, input.sourceId, input.externalRef), input.payload);
    hide PreHash, Stringify, Relevant, Trim, Said;
  }

  /** The correlation id is the given one, trimmed, unless it is missing or blank; then it is a generated one of its own. */
  lemma CorrelationStored(input: IngestInput, issued: nat, now: int)
    ensures var s := RowOf(input, issued, now);
            if input.correlationId.Some? && Said(input.correlationId.value)
            then s.correlationId == Given(Trim(input.correlationId.value))
            else s.correlationId.Uuid? && s.correlationId != s.id
  {
    if input.correlationId.Some? {
      SaidIff(input.correlationId.value);
    }
    hide Trim, Said, KeyOf;
  }

  // ------------------------------------------------------------ the lifecycle

  /** The moves of a status: to itself, or one of these. */
  lemma TransitionIff(from: Status, to: Status)
    ensures CanTransition(from, to) <==>
              || from == to
              || (from == DETECTED && (to == EVALUATED || to == IGNORED || to == EXPIRED))
              || (from == EVALUATED && (to == CONVERTED || to == IGNORED || to == EXPIRED || to == DETECTED))
              || (from == CONVERTED && to == RESOLVED)
  {
  }

  // ------------------------------------------------------------ equal times

  /** The signals received at a time, in order. */
  function ReceivedAt(signals: seq<Signal>, time: int): seq<Signal> {
    if signals == [] then []
    else (if signals[0].receivedAt == time then [signals[0]] else []) + ReceivedAt(signals[1..], time)
  }

  /** Among signals received at one time, the latest-first order is that of the store. */
  lemma {:induction false} TiesKeepOrder(signals: seq<Signal>, time: int)
    ensures ReceivedAt(MostRecentFirst(signals), time) == ReceivedAt(signals, time)
  {
    if signals != [] {
      TiesKeepOrder(signals[1..], time);
      MostRecentSorted(signals[1..]);
      InsertedBefore(signals[0], MostRecentFirst(signals[1..]), time);
    }
  }

  lemma {:induction false} InsertedBefore(s: Signal, sorted: seq<Signal>, time: int)
    requires Descending(sorted)
    ensures ReceivedAt(InsertRecent(s, sorted), time) == ReceivedAt([s] + sorted, time)
  {
    assert ([s] + sorted)[1..] == sorted;
    if sorted != [] && s.receivedAt < sorted[0].receivedAt {
      InsertedBefore(s, sorted[1..], time);
      assert ([s] + sorted[1..])[1..] == sorted[1..];
    }
  }
}
