/**
 * The store and the service of the domain signal layer
 * (packages/domain-signals/src/in-memory-domain-signal-store.ts, domain-signal-service.ts).
 * Calls here are sequential; IngestProtocol interleaves them.
 */
module SignalService {
  import opened Texts
  import opened JsonValues
  import opened PayloadRedaction
  import opened SignalHash
  import opened SignalLedger

  datatype ServiceError =
    | MissingArgument(name: string)
    | BindingNotFound
    | BindingOfOtherWorkspace
    | BindingDisabled
    | DuplicateDelivery
    | SignalNotFound
    | InvalidTransition(from: Status, to: Status)
    | NotEvaluated
    | NotConvertible

  datatype IngestInput = IngestInput(
    workspaceId: Text, sourceType: Text, kind: Text, deliveryId: Text, payload: Json, sourceId: Option<Text>,
    bindingId: Option<Id>, externalRef: Option<Text>, correlationId: Option<Text>, signalHash: Option<Text>,
    metadata: Option<Json>, occurredAt: Option<int>, expiresAt: Option<int>, payloadVersion: Option<int>)

  datatype IngestResult = Created(signal: Signal) | Duplicate(signal: Signal)

  /** The fields of an update that are given; the others keep their values. */
  datatype Patch = Patch(
    status: Status, evaluation: Option<Evaluation>, missionId: Option<Text>, convertedAt: Option<int>, resolvedAt: Option<int>)

  function Or<T>(given: Option<T>, kept: Option<T>): Option<T> {
    if given.Some? then given else kept
  }

  function Apply(s: Signal, p: Patch, now: int): Signal {
    s.(status := p.status, evaluation := Or(p.evaluation, s.evaluation), missionId := Or(p.missionId, s.missionId),
       convertedAt := Or(p.convertedAt, s.convertedAt), resolvedAt := Or(p.resolvedAt, s.resolvedAt), updatedAt := now)
  }

  // ------------------------------------------------------------ preservation

  /** The signals a list of ids may name as similar to s. */
  predicate SimilarIn(signals: seq<Signal>, s: Signal, ids: seq<Id>) {
    forall id | id in ids :: exists t | t in signals ::
      t.id == id && t.workspaceId == s.workspaceId && t.signalHash == s.signalHash && t.id != s.id
  }

  lemma UpdateKeepsValid(l: Ledger, k: nat, s: Signal)
    requires Valid(l) && k < |l.signals|
    requires SignalEvolves(l.signals[k], s) && Coherent(s)
    requires s.evaluation.Some? ==> SimilarIn(l.signals, s, s.evaluation.value.similarSignalIds)
    ensures var m := l.(signals := l.signals[k := s]); Valid(m) && Evolves(l, m)
  {
    hide BindingsValid, SignalsValid, Isolated, AuditsIsolated, Coherent;
    UpdateKeepsSignals(l, k, s);
    UpdateKeepsIsolated(l, k, s);
    UpdateKeepsAudits(l, k, s);
  }

  lemma UpdateKeepsSignals(l: Ledger, k: nat, s: Signal)
    requires SignalsValid(l.signals, l.issued) && k < |l.signals| && SameOrigin(l.signals[k], s) && Coherent(s)
    ensures SignalsValid(l.signals[k := s], l.issued)
  {
    hide Coherent;
  }

  lemma UpdateKeepsIsolated(l: Ledger, k: nat, s: Signal)
    requires Isolated(l) && k < |l.signals| && SameOrigin(l.signals[k], s)
    ensures Isolated(l.(signals := l.signals[k := s]))
  {
    var m := l.(signals := l.signals[k := s]);
    forall x | x in m.signals && Refers(x.bindingId)
      ensures exists b | b in m.bindings :: b.id == x.bindingId.value && b.workspaceId == x.workspaceId
    {
      var i :| 0 <= i < |m.signals| && m.signals[i] == x;
      assert l.signals[i] in l.signals && SameOrigin(l.signals[i], x);
    }
  }

  lemma UpdateKeepsAudits(l: Ledger, k: nat, s: Signal)
    requires AuditsIsolated(l) && k < |l.signals| && SameOrigin(l.signals[k], s)
    requires s.evaluation.Some? ==> SimilarIn(l.signals, s, s.evaluation.value.similarSignalIds)
    ensures AuditsIsolated(l.(signals := l.signals[k := s]))
  {
    var m := l.(signals := l.signals[k := s]);
    forall x, id | x in m.signals && x.evaluation.Some? && id in x.evaluation.value.similarSignalIds
      ensures exists t | t in m.signals ::
                t.id == id && t.workspaceId == x.workspaceId && t.signalHash == x.signalHash && t.id != x.id
    {
      assert x == s || x in l.signals;
      var t :| t in l.signals && t.id == id && t.workspaceId == x.workspaceId && t.signalHash == x.signalHash && t.id != x.id;
      var j :| 0 <= j < |l.signals| && l.signals[j] == t;
      assert m.signals[j] in m.signals && SameOrigin(t, m.signals[j]);
    }
  }

  lemma AppendKeepsValid(l: Ledger, s: Signal, issued: nat)
    requires Valid(l) && l.issued < issued
    requires s.id.Uuid? && l.issued <= s.id.serial < issued
    requires FindByDelivery(l.signals, s.sourceType, s.deliveryId).None?
    requires s.status.DETECTED? && s.evaluation.None? && s.missionId.None? && s.convertedAt.None?
    requires Refers(s.bindingId) ==>
               exists b | b in l.bindings :: b.id == s.bindingId.value && b.workspaceId == s.workspaceId
    ensures var m := Ledger(l.bindings, l.signals + [s], issued); Valid(m) && Evolves(l, m)
  {
    hide SignalsValid, AuditsIsolated;
    assert Coherent(s);
    AppendKeepsSignals(l, s, issued);
    AppendKeepsAudits(l, s, issued);
  }

  lemma AppendKeepsSignals(l: Ledger, s: Signal, issued: nat)
    requires SignalsValid(l.signals, l.issued) && l.issued < issued && Coherent(s)
    requires s.id.Uuid? && l.issued <= s.id.serial < issued
    requires FindByDelivery(l.signals, s.sourceType, s.deliveryId).None?
    ensures SignalsValid(l.signals + [s], issued)
  {
    hide Coherent;
    forall i | 0 <= i < |l.signals| ensures Delivery(l.signals[i]) != Delivery(s) {
      assert l.signals[i] in l.signals;
    }
  }

  lemma AppendKeepsAudits(l: Ledger, s: Signal, issued: nat)
    requires AuditsIsolated(l) && s.evaluation.None?
    ensures AuditsIsolated(Ledger(l.bindings, l.signals + [s], issued))
  {
    assert forall x | x in l.signals + [s] :: x in l.signals || x == s;
    assert forall x | x in l.signals :: x in l.signals + [s];
  }

  lemma EvolvesReflexive(l: Ledger)
    ensures Evolves(l, l)
  {
  }

  lemma FreshId(l: Ledger, id: Id)
    requires Valid(l) && id.Uuid? && id.serial >= l.issued
    ensures id !in Ids(l.signals)
  {
    hide Coherent, Isolated, AuditsIsolated;
  }

  lemma Stored(l: Ledger, k: nat)
    requires Valid(l) && k < |l.signals|
    ensures Coherent(l.signals[k])
    ensures l.signals[k].evaluation.Some? ==>
              SimilarIn(l.signals, l.signals[k], l.signals[k].evaluation.value.similarSignalIds)
  {
    hide Coherent;
    assert l.signals[k] in l.signals;
  }

  // ------------------------------------------------------------ the store

  class InMemoryDomainSignalStore {
    var bindings: seq<Binding>
    var signals: seq<Signal>
    var issued: nat

    constructor ()
      ensures Contents() == Ledger([], [], 0) && Valid(Contents())
    {
      bindings, signals, issued := [], [], 0;
    }

    function Contents(): Ledger
      reads this
    {
      Ledger(bindings, signals, issued)
    }

    /** A second binding of the same workspace, source and reference updates the first. */
    method UpsertBinding(workspaceId: Text, sourceType: Text, externalRef: Text, enabled: Option<bool>,
                         configJson: Option<Option<Json>>, secretRef: Option<Option<Text>>, now: int)
      returns (b: Binding)
      requires Valid(Contents())
      modifies this
      ensures Valid(Contents()) && Evolves(old(Contents()), Contents())
      ensures signals == old(signals)
      ensures Triple(b) == (workspaceId, sourceType, externalRef)
      ensures var k := FindBinding(old(bindings), workspaceId, sourceType, externalRef);
              if k < |old(bindings)| then
                && bindings == old(bindings)[k := b]
                && issued == old(issued)
                && b == old(bindings)[k].(
                     enabled := match enabled { case Some(e) => e case None => old(bindings)[k].enabled },
                     configJson := match configJson { case Some(c) => c case None => old(bindings)[k].configJson },
                     secretRef := match secretRef { case Some(r) => r case None => old(bindings)[k].secretRef },
                     updatedAt := now)
              else
                && bindings == old(bindings) + [b]
                && issued == old(issued) + 1
                && b == Binding(Uuid(old(issued)), workspaceId, sourceType, externalRef, enabled.None? || enabled.value,
                                if configJson.Some? then configJson.value else None,
                                if secretRef.Some? then secretRef.value else None, now, now)
    {
      hide Valid, Evolves;
      var k := FindBinding(bindings, workspaceId, sourceType, externalRef);
      if k < |bindings| {
        var existing := bindings[k];
        b := existing.(
          enabled := match enabled { case Some(e) => e case None => existing.enabled },
          configJson := match configJson { case Some(c) => c case None => existing.configJson },
          secretRef := match secretRef { case Some(r) => r case None => existing.secretRef },
          updatedAt := now);
        ReplaceBinding(Contents(), k, b);
        bindings := bindings[k := b];
      } else {
        b := Binding(Uuid(issued), workspaceId, sourceType, externalRef, enabled.None? || enabled.value,
                     if configJson.Some? then configJson.value else None,
                     if secretRef.Some? then secretRef.value else None, now, now);
        AddBinding(Contents(), b);
        issued := issued + 1;
        bindings := bindings + [b];
      }
    }

    /** Fails when the delivery is already stored, otherwise adds one signal at the end. */
    method CreateSignal(data: Signal, now: int) returns (r: Result<Signal, ServiceError>)
      modifies this
      ensures bindings == old(bindings)
      ensures r.Err? <==> FindByDelivery(old(signals), data.sourceType, data.deliveryId).Some?
      ensures r.Err? ==> Contents() == old(Contents()) && r.error == DuplicateDelivery
      ensures r.Ok? ==>
                && issued == old(issued) + 1
                && r.value == data.(id := Uuid(old(issued)), status := DETECTED, evaluation := None, missionId := None,
                                    convertedAt := None, resolvedAt := None, receivedAt := now, updatedAt := now)
                && signals == old(signals) + [r.value]
    {
      if FindByDelivery(signals, data.sourceType, data.deliveryId).Some? {
        return Err(DuplicateDelivery);
      }
      var row := data.(id := Uuid(issued), status := DETECTED, evaluation := None, missionId := None,
                       convertedAt := None, resolvedAt := None, receivedAt := now, updatedAt := now);
      issued := issued + 1;
      signals := signals + [row];
      return Ok(row);
    }

    method UpdateSignal(id: Id, patch: Patch, now: int) returns (r: Result<Signal, ServiceError>)
      modifies this
      ensures bindings == old(bindings) && issued == old(issued)
      ensures var k := IndexOf(old(signals), id);
              if k < |old(signals)| then
                r == Ok(Apply(old(signals)[k], patch, now)) && signals == old(signals)[k := r.value]
              else
                r == Err(SignalNotFound) && signals == old(signals)
    {
      var k := IndexOf(signals, id);
      if k == |signals| {
        return Err(SignalNotFound);
      }
      var updated := Apply(signals[k], patch, now);
      signals := signals[k := updated];
      return Ok(updated);
    }
  }

  lemma ReplaceBinding(l: Ledger, k: nat, b: Binding)
    requires Valid(l) && k < |l.bindings| && BindingEvolves(l.bindings[k], b)
    ensures var m := l.(bindings := l.bindings[k := b]); Valid(m) && Evolves(l, m)
  {
    hide SignalsValid, Isolated, AuditsIsolated, Evolves;
    KeepBindings(l, l.(bindings := l.bindings[k := b]));
  }

  lemma AddBinding(l: Ledger, b: Binding)
    requires Valid(l) && b.id == Uuid(l.issued)
    requires FindBinding(l.bindings, b.workspaceId, b.sourceType, b.externalRef) == |l.bindings|
    ensures var m := Ledger(l.bindings + [b], l.signals, l.issued + 1); Valid(m) && Evolves(l, m)
  {
    hide SignalsValid, Isolated, AuditsIsolated, Evolves;
    KeepBindings(l, Ledger(l.bindings + [b], l.signals, l.issued + 1));
  }

  lemma KeepBindings(l: Ledger, m: Ledger)
    requires Valid(l) && m.signals == l.signals && l.issued <= m.issued
    requires BindingsValid(m.bindings, m.issued) && |l.bindings| <= |m.bindings|
    requires forall i | 0 <= i < |l.bindings| :: BindingEvolves(l.bindings[i], m.bindings[i])
    ensures Valid(m) && Evolves(l, m)
  {
    forall s | s in m.signals && Refers(s.bindingId)
      ensures exists b | b in m.bindings :: b.id == s.bindingId.value && b.workspaceId == s.workspaceId
    {
      var b :| b in l.bindings && b.id == s.bindingId.value && b.workspaceId == s.workspaceId;
      var i :| 0 <= i < |l.bindings| && l.bindings[i] == b;
      assert m.bindings[i] in m.bindings && BindingEvolves(b, m.bindings[i]);
    }
  }

  // ------------------------------------------------------------ the service

  /** The first check of `ingest` that fails, if any does. */
  function ArgumentError(input: IngestInput): Option<ServiceError> {
    if Blank(input.workspaceId) then Some(MissingArgument("workspaceId"))
    else if Blank(input.sourceType) then Some(MissingArgument("sourceType"))
    else if Blank(input.kind) then Some(MissingArgument("type"))
    else if Blank(input.deliveryId) then Some(MissingArgument("deliveryId"))
    else None
  }

  function BindingError(bindings: seq<Binding>, input: IngestInput): Option<ServiceError> {
    if !Refers(input.bindingId) then None
    else
      var k := BindingIndex(bindings, input.bindingId.value);
      if k == |bindings| then Some(BindingNotFound)
      else if bindings[k].workspaceId != input.workspaceId then Some(BindingOfOtherWorkspace)
      else if !bindings[k].enabled then Some(BindingDisabled)
      else None
  }

  lemma BoundHere(bindings: seq<Binding>, input: IngestInput)
    requires BindingError(bindings, input).None? && Refers(input.bindingId)
    ensures exists b | b in bindings :: b.id == input.bindingId.value && b.workspaceId == input.workspaceId
  {
    assert bindings[BindingIndex(bindings, input.bindingId.value)] in bindings;
  }

  /** The similarity key `ingest` stores. */
  function KeyOf(input: IngestInput): SimilarityKey {
    if input.signalHash.Some? && Trim(input.signalHash.value) != [] then Supplied(Trim(input.signalHash.value))
    else HashOf(PreHash(HashParts(input.workspaceId, input.kind, input.sourceId, input.externalRef), input.payload))
  }

  // ------------------------------------------------------------ the row of a delivery

  predicate HasCorrelation(input: IngestInput) {
    input.correlationId.Some? && Trim(input.correlationId.value) != []
  }

  /** How many identifiers an insert generates: the signal's, and a correlation id when none is given. */
  function IdsFor(input: IngestInput): nat {
    if HasCorrelation(input) then 1 else 2
  }

  /** The row the insert adds. */
  function RowOf(input: IngestInput, issued: nat, now: int): Signal {
    var correlationId := if HasCorrelation(input) then Given(Trim(input.correlationId.value)) else Uuid(issued);
    Signal(Uuid(issued + IdsFor(input) - 1), input.workspaceId, input.bindingId, input.sourceType, input.sourceId, input.kind,
           input.deliveryId, KeyOf(input), correlationId, DETECTED, RedactPayload(input.payload, DenyKeys()),
           input.metadata, None, None, if input.payloadVersion.Some? then input.payloadVersion.value else 1,
           input.occurredAt, now, None, None, input.expiresAt, now)
  }

  function Inserted(l: Ledger, input: IngestInput, now: int): Ledger {
    Ledger(l.bindings, l.signals + [RowOf(input, l.issued, now)], l.issued + IdsFor(input))
  }

  /** What `ingest` makes of the store. */
  function Ingested(l: Ledger, input: IngestInput, now: int): Ledger {
    if ArgumentError(input).Some? || FindByDelivery(l.signals, input.sourceType, input.deliveryId).Some?
       || BindingError(l.bindings, input).Some? then l
    else Inserted(l, input, now)
  }

  lemma RowIsFresh(input: IngestInput, issued: nat, now: int)
    ensures FreshSignal(RowOf(input, issued, now), input, now)
  {
    hide KeyOf, RedactPayload, Trim;
  }

  lemma InsertKeepsValid(l: Ledger, input: IngestInput, now: int)
    requires Valid(l) && FindByDelivery(l.signals, input.sourceType, input.deliveryId).None?
    requires BindingError(l.bindings, input).None?
    ensures Valid(Inserted(l, input, now)) && Evolves(l, Inserted(l, input, now))
    ensures RowOf(input, l.issued, now).id !in Ids(l.signals)
  {
    hide Valid, Evolves, KeyOf, RedactPayload, BindingError, FindByDelivery, Trim, Ids;
    if Refers(input.bindingId) {
      BoundHere(l.bindings, input);
    }
    AppendKeepsValid(l, RowOf(input, l.issued, now), l.issued + IdsFor(input));
    FreshId(l, RowOf(input, l.issued, now).id);
  }

  lemma IngestKeepsValid(l: Ledger, input: IngestInput, now: int)
    requires Valid(l)
    ensures Valid(Ingested(l, input, now)) && Evolves(l, Ingested(l, input, now))
  {
    hide Valid, Evolves, Inserted, ArgumentError, BindingError, FindByDelivery, RowOf, Ids;
    EvolvesReflexive(l);
    if Ingested(l, input, now) != l {
      InsertKeepsValid(l, input, now);
    }
  }

  class DomainSignalService {
    const store: InMemoryDomainSignalStore

    constructor (store: InMemoryDomainSignalStore)
      ensures this.store == store
    {
      this.store := store;
    }

    /**
     * A delivery already stored is answered with its signal before the binding is looked at;
     * a rejected call leaves the store as it was; otherwise one DETECTED signal is added.
     */
    method Ingest(input: IngestInput, now: int) returns (r: Result<IngestResult, ServiceError>)
      requires Valid(store.Contents()) && WellFormed(input.payload)
      modifies store
      ensures Valid(store.Contents()) && Evolves(old(store.Contents()), store.Contents())
      ensures store.Contents() == Ingested(old(store.Contents()), input, now)
      ensures store.bindings == old(store.bindings)
      ensures var existing := FindByDelivery(old(store.signals), input.sourceType, input.deliveryId);
              if ArgumentError(input).Some? then
                r == Err(ArgumentError(input).value) && store.signals == old(store.signals)
              else if existing.Some? then
                r == Ok(Duplicate(existing.value)) && store.signals == old(store.signals)
              else if BindingError(old(store.bindings), input).Some? then
                r == Err(BindingError(old(store.bindings), input).value) && store.signals == old(store.signals)
              else
                && r.Ok? && r.value.Created?
                && store.signals == old(store.signals) + [r.value.signal]
                && FreshSignal(r.value.signal, input, now)
                && r.value.signal.id !in Ids(old(store.signals))
    {
      hide Valid, Evolves, RowOf, IdsFor, FindByDelivery, BindingError, ArgumentError, Ids, FreshSignal;
      IngestKeepsValid(store.Contents(), input, now);
      var bad := ArgumentError(input);
      if bad.Some? {
        return Err(bad.value);
      }
      var existing := FindByDelivery(store.signals, input.sourceType, input.deliveryId);
      if existing.Some? {
        return Ok(Duplicate(existing.value));
      }
      bad := BindingError(store.bindings, input);
      if bad.Some? {
        return Err(bad.value);
      }
      InsertKeepsValid(store.Contents(), input, now);
      RowIsFresh(input, store.issued, now);
      var created := Insert(input, now);
      return Ok(Created(created));
    }

    /** Redaction, key, correlation id and the insert, for a delivery that is not stored. */
    method Insert(input: IngestInput, now: int) returns (created: Signal)
      requires FindByDelivery(store.signals, input.sourceType, input.deliveryId).None? && WellFormed(input.payload)
      modifies store
      ensures store.Contents() == Inserted(old(store.Contents()), input, now)
      ensures created == RowOf(input, old(store.issued), now)
    {
      hide KeyOf, RedactPayload, FindByDelivery, Trim;
      var payloadJson, signalHash := Prepare(input);
      var correlationId := Uuid(store.issued);
      if HasCorrelation(input) {
        correlationId := Given(Trim(input.correlationId.value));
      } else {
        store.issued := store.issued + 1;
      }
      var row := store.CreateSignal(
        Signal(correlationId, input.workspaceId, input.bindingId, input.sourceType, input.sourceId, input.kind,
               input.deliveryId, signalHash, correlationId, DETECTED, payloadJson, input.metadata, None, None,
               if input.payloadVersion.Some? then input.payloadVersion.value else 1,
               input.occurredAt, now, None, None, input.expiresAt, now), now);
      created := row.value;
    }

    /** The redacted payload and the similarity key of a signal. */
    static method Prepare(input: IngestInput) returns (payloadJson: seq<Field>, signalHash: SimilarityKey)
      requires WellFormed(input.payload)
      ensures payloadJson == RedactPayload(input.payload, DenyKeys()) && signalHash == KeyOf(input)
    {
      var redacted := Redact(input.payload, DenyKeys());
      payloadJson := if redacted.Obj? then redacted.fields else [Field(Lit("value"), redacted)];
      var relevant := PickRelevant(payloadJson);
      var given := if input.signalHash.Some? then Trim(input.signalHash.value) else [];
      signalHash := if given != [] then Supplied(given)
                    else HashOf(HashText(HashParts(input.workspaceId, input.kind, input.sourceId, input.externalRef), relevant));
    }

    method Evaluate(signalId: Id, decision: Decision, policy: Text, reason: Text, inputs: Option<Json>,
                    includeSimilar: bool, now: int)
      returns (r: Result<Signal, ServiceError>)
      requires Valid(store.Contents())
      modifies store
      ensures Valid(store.Contents()) && Evolves(old(store.Contents()), store.Contents())
      ensures r.Err? ==> store.Contents() == old(store.Contents())
      ensures var k := IndexOf(old(store.signals), signalId);
              && (r.Ok? <==> k < |old(store.signals)| && old(store.signals)[k].status in {DETECTED, EVALUATED}
                             && !Blank(policy) && !Blank(reason))
              && (r.Ok? ==>
                    var was := old(store.signals)[k];
                    var similar := FindBySignalHash(old(store.signals), was.workspaceId, was.signalHash, was.id, 10);
                    && r.value == was.(
                         status := if decision.IGNORE? then IGNORED else EVALUATED,
                         evaluation := Some(Evaluation(decision, policy, reason, inputs,
                                                       if includeSimilar then Ids(similar) else [], now)),
                         updatedAt := now)
                    && store.Contents() == old(store.Contents()).(signals := old(store.signals)[k := r.value]))
    {
      hide Valid, Evolves, Blank, FindBySignalHash, Ids;
      EvolvesReflexive(store.Contents());
      var k := IndexOf(store.signals, signalId);
      if k == |store.signals| {
        return Err(SignalNotFound);
      }
      var signal := store.signals[k];
      if !CanTransition(signal.status, EVALUATED) {
        return Err(InvalidTransition(signal.status, EVALUATED));
      }
      if Blank(policy) {
        return Err(MissingArgument("policy"));
      }
      if Blank(reason) {
        return Err(MissingArgument("reason"));
      }
      var similarSignalIds := [];
      if includeSimilar {
        similarSignalIds := Ids(FindBySignalHash(store.signals, signal.workspaceId, signal.signalHash, signal.id, 10));
      }
      var nextStatus := if decision.IGNORE? then IGNORED else EVALUATED;
      if nextStatus == IGNORED && !CanTransition(signal.status, IGNORED) {
        return Err(InvalidTransition(signal.status, IGNORED));
      }
      var evaluation := Evaluation(decision, policy, reason, inputs, similarSignalIds, now);
      r := store.UpdateSignal(signal.id, Patch(nextStatus, Some(evaluation), None, None, None), now);
      SimilarIds(old(store.Contents()), k, includeSimilar);
      hide SimilarIn;
      Stored(old(store.Contents()), k);
      UpdateKeepsValid(old(store.Contents()), k, r.value);
    }

    /** Only a signal evaluated as CONVERT_CANDIDATE or DEFER takes a mission, and only a named one. */
    method MarkConverted(signalId: Id, missionId: Text, now: int) returns (r: Result<Signal, ServiceError>)
      requires Valid(store.Contents())
      modifies store
      ensures Valid(store.Contents()) && Evolves(old(store.Contents()), store.Contents())
      ensures r.Err? ==> store.Contents() == old(store.Contents())
      ensures var k := IndexOf(old(store.signals), signalId);
              && (r.Ok? <==> k < |old(store.signals)| && old(store.signals)[k].status == EVALUATED && !Blank(missionId))
              && (r.Ok? ==>
                    && r.value == old(store.signals)[k].(status := CONVERTED, missionId := Some(missionId),
                                                         convertedAt := Some(now), updatedAt := now)
                    && store.Contents() == old(store.Contents()).(signals := old(store.signals)[k := r.value]))
    {
      hide BindingsValid, SignalsValid, Isolated, AuditsIsolated;
      var k := IndexOf(store.signals, signalId);
      if k == |store.signals| {
        return Err(SignalNotFound);
      }
      var signal := store.signals[k];
      Stored(store.Contents(), k);
      if signal.status != EVALUATED {
        return Err(NotEvaluated);
      }
      if signal.evaluation.None? || signal.evaluation.value.decision !in {CONVERT_CANDIDATE, DEFER} {
        return Err(NotConvertible);
      }
      if Blank(missionId) {
        return Err(MissingArgument("missionId"));
      }
      r := store.UpdateSignal(signal.id, Patch(CONVERTED, None, Some(missionId), Some(now), None), now);
      UpdateKeepsValid(old(store.Contents()), k, r.value);
    }

    method MarkResolved(signalId: Id, now: int) returns (r: Result<Signal, ServiceError>)
      requires Valid(store.Contents())
      modifies store
      ensures Valid(store.Contents()) && Evolves(old(store.Contents()), store.Contents())
      ensures r.Err? ==> store.Contents() == old(store.Contents())
      ensures var k := IndexOf(old(store.signals), signalId);
              && (r.Ok? <==> k < |old(store.signals)| && old(store.signals)[k].status in {CONVERTED, RESOLVED})
              && (r.Ok? ==>
                    && r.value == old(store.signals)[k].(status := RESOLVED, resolvedAt := Some(now), updatedAt := now)
                    && store.Contents() == old(store.Contents()).(signals := old(store.signals)[k := r.value]))
    {
      r := Mark(signalId, RESOLVED, now);
    }

    method MarkExpired(signalId: Id, now: int) returns (r: Result<Signal, ServiceError>)
      requires Valid(store.Contents())
      modifies store
      ensures Valid(store.Contents()) && Evolves(old(store.Contents()), store.Contents())
      ensures r.Err? ==> store.Contents() == old(store.Contents())
      ensures var k := IndexOf(old(store.signals), signalId);
              && (r.Ok? <==> k < |old(store.signals)| && old(store.signals)[k].status in {DETECTED, EVALUATED, EXPIRED})
              && (r.Ok? ==>
                    && r.value == old(store.signals)[k].(status := EXPIRED, resolvedAt := Some(now), updatedAt := now)
                    && store.Contents() == old(store.Contents()).(signals := old(store.signals)[k := r.value]))
    {
      r := Mark(signalId, EXPIRED, now);
    }

    /** The body markResolved and markExpired share. */
    method Mark(signalId: Id, to: Status, now: int) returns (r: Result<Signal, ServiceError>)
      requires Valid(store.Contents()) && to in {RESOLVED, EXPIRED}
      modifies store
      ensures Valid(store.Contents()) && Evolves(old(store.Contents()), store.Contents())
      ensures r.Err? ==> store.Contents() == old(store.Contents())
      ensures var k := IndexOf(old(store.signals), signalId);
              && (r.Ok? <==> k < |old(store.signals)| && CanTransition(old(store.signals)[k].status, to))
              && (r.Ok? ==>
                    && r.value == old(store.signals)[k].(status := to, resolvedAt := Some(now), updatedAt := now)
                    && store.Contents() == old(store.Contents()).(signals := old(store.signals)[k := r.value]))
    {
      hide BindingsValid, SignalsValid, Isolated, AuditsIsolated;
      var k := IndexOf(store.signals, signalId);
      if k == |store.signals| {
        return Err(SignalNotFound);
      }
      var signal := store.signals[k];
      Stored(store.Contents(), k);
      if !CanTransition(signal.status, to) {
        return Err(InvalidTransition(signal.status, to));
      }
      r := store.UpdateSignal(signalId, Patch(to, None, None, None, Some(now)), now);
      UpdateKeepsValid(old(store.Contents()), k, r.value);
    }
  }

  /** The row a delivery starts as. */
  predicate FreshSignal(s: Signal, input: IngestInput, now: int) {
    && s.workspaceId == input.workspaceId && s.bindingId == input.bindingId
    && s.sourceType == input.sourceType && s.sourceId == input.sourceId && s.kind == input.kind
    && s.deliveryId == input.deliveryId && s.signalHash == KeyOf(input)
    && s.status == DETECTED && s.payloadJson == RedactPayload(input.payload, DenyKeys())
    && s.metadataJson == input.metadata && s.occurredAt == input.occurredAt && s.expiresAt == input.expiresAt
    && s.payloadVersion == (if input.payloadVersion.Some? then input.payloadVersion.value else 1)
    && s.receivedAt == now && s.updatedAt == now && s.resolvedAt.None?
    && (if HasCorrelation(input) then s.correlationId == Given(Trim(input.correlationId.value)) else s.correlationId.Uuid?)
  }

  /** The ids an evaluation lists are at most ten, not the signal's own, and of its workspace and hash. */
  lemma SimilarIds(l: Ledger, k: nat, includeSimilar: bool)
    requires k < |l.signals|
    ensures var s := l.signals[k];
            var ids := if includeSimilar then Ids(FindBySignalHash(l.signals, s.workspaceId, s.signalHash, s.id, 10)) else [];
            && |ids| <= 10 && s.id !in ids
            && SimilarIn(l.signals, s, ids)
  {
    var s := l.signals[k];
    SimilarSignals(l.signals, s.workspaceId, s.signalHash, s.id, 10);
    var similar := FindBySignalHash(l.signals, s.workspaceId, s.signalHash, s.id, 10);
    forall id | id in Ids(similar)
      ensures exists t | t in l.signals ::
                t.id == id && t.workspaceId == s.workspaceId && t.signalHash == s.signalHash && t.id != s.id
    {
      var i :| 0 <= i < |similar| && Ids(similar)[i] == id;
      assert similar[i] in similar;
    }
  }
}
