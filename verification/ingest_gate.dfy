/**
 * The gate in front of the service: bridge, binding, ingest, evaluation context
 * (packages/domain-signals/src/domain-signal-ingest-service.ts).
 */
module IngestGate {
  import opened Texts
  import opened JsonValues
  import PayloadRedaction
  import opened SignalHash
  import opened SignalLedger
  import opened SignalService

  datatype Rejection =
    | UnknownBridge | AuthFailed | HmacFailed | ReplaySkew | InvalidContext | BindingMissing | BindingOff

  datatype Prepared = Prepared(
    workspaceId: Text, sourceType: Text, externalRef: Text, deliveryId: Text, kind: Text, sourceId: Option<Text>,
    correlationId: Option<Text>, payload: Json, metadata: Option<Json>, occurredAt: Option<int>)

  /** What a registered bridge answers for an event: a refusal, or the event prepared for the ledger. */
  datatype Bridge = Refuses(reason: Rejection) | Prepares(event: Prepared)

  datatype Observation = Rejected(reason: Rejection) | Accepted(signalId: Id) | DuplicateSeen(signalId: Id)

  datatype GateError = Refused(reason: Rejection) | Failed(error: ServiceError)

  /** A success carries the signal and the ids of its look-alikes, the part of the evaluation context that is modelled. */
  datatype Success = Success(result: IngestResult, similarSignalIds: seq<Id>)

  function InputOf(p: Prepared, bindingId: Id): IngestInput {
    IngestInput(p.workspaceId, p.sourceType, p.kind, p.deliveryId, p.payload, p.sourceId, Some(bindingId),
                Some(p.externalRef), p.correlationId, None, p.metadata, p.occurredAt, None, None)
  }

  /** The gate lets an event in: an enabled binding of its own workspace, and nothing missing. */
  predicate Admits(l: Ledger, p: Prepared) {
    var k := FindBinding(l.bindings, p.workspaceId, p.sourceType, p.externalRef);
    k < |l.bindings| && l.bindings[k].enabled && ArgumentError(InputOf(p, l.bindings[k].id)).None?
  }

  class DomainSignalIngestService {
    const signals: DomainSignalService
    var observed: seq<Observation>

    constructor (signals: DomainSignalService)
      ensures this.signals == signals && observed == []
    {
      this.signals := signals;
      observed := [];
    }

    /**
     * Only an enabled binding of the event's own workspace lets a delivery in; a created signal carries
     * that binding and workspace; a rejected event changes nothing and is observed once. A duplicate is
     * answered with the stored signal, which is of the event's workspace iff it was first delivered there.
     */
    method Ingest(bridge: Option<Bridge>, now: int) returns (r: Result<Success, GateError>)
      requires Valid(signals.store.Contents())
      requires bridge.Some? && bridge.value.Prepares? ==> WellFormed(bridge.value.event.payload)
      modifies this, signals.store
      ensures Valid(signals.store.Contents()) && Evolves(old(signals.store.Contents()), signals.store.Contents())
      ensures signals.store.bindings == old(signals.store.bindings)
      ensures r.Err? ==> signals.store.signals == old(signals.store.signals)
      ensures r.Err? && r.error.Refused? ==> observed == old(observed) + [Rejected(r.error.reason)]
      ensures r.Err? && r.error.Failed? ==> observed == old(observed)
      ensures r.Ok? <==> bridge.Some? && bridge.value.Prepares? && Admits(old(signals.store.Contents()), bridge.value.event)
      ensures bridge.None? ==> r == Err(Refused(UnknownBridge))
      ensures bridge.Some? && bridge.value.Refuses? ==> r == Err(Refused(bridge.value.reason))
      ensures r.Ok? ==>
                && bridge.Some? && bridge.value.Prepares?
                && var p := bridge.value.event;
                   var k := FindBinding(old(signals.store.bindings), p.workspaceId, p.sourceType, p.externalRef);
                   var existing := FindByDelivery(old(signals.store.signals), p.sourceType, p.deliveryId);
                   && k < |old(signals.store.bindings)|
                   && old(signals.store.bindings)[k].enabled
                   && (r.value.result.Duplicate? <==> existing.Some?)
                   && (existing.Some? ==>
                         r.value.result.signal == existing.value && signals.store.signals == old(signals.store.signals))
                   && (existing.None? ==>
                         && FreshSignal(r.value.result.signal, InputOf(p, old(signals.store.bindings)[k].id), now)
                         && RowOfEvent(r.value.result.signal, p, old(signals.store.bindings)[k].id, now)
                         && signals.store.signals == old(signals.store.signals) + [r.value.result.signal])
                   && (r.value.result.signal.workspaceId == p.workspaceId
                       <==> existing.None? || existing.value.workspaceId == p.workspaceId)
                   && observed == old(observed) + [if existing.Some? then DuplicateSeen(r.value.result.signal.id)
                                                   else Accepted(r.value.result.signal.id)]
      ensures r.Ok? ==>
                |r.value.similarSignalIds| <= 10 && r.value.result.signal.id !in r.value.similarSignalIds
                && SimilarIn(signals.store.signals, r.value.result.signal, r.value.similarSignalIds)
    {
      hide Valid, Evolves, FreshSignal, RowOfEvent, Blank, BindingError, SimilarIn, FindByDelivery;
      EvolvesReflexive(signals.store.Contents());
      if bridge.None? {
        observed := observed + [Rejected(UnknownBridge)];
        return Err(Refused(UnknownBridge));
      }
      if bridge.value.Refuses? {
        observed := observed + [Rejected(bridge.value.reason)];
        return Err(Refused(bridge.value.reason));
      }
      var p := bridge.value.event;
      var k := FindBinding(signals.store.bindings, p.workspaceId, p.sourceType, p.externalRef);
      if k == |signals.store.bindings| {
        observed := observed + [Rejected(BindingMissing)];
        return Err(Refused(BindingMissing));
      }
      var binding := signals.store.bindings[k];
      if !binding.enabled {
        observed := observed + [Rejected(BindingOff)];
        return Err(Refused(BindingOff));
      }
      // The source's third gate, on a binding of another workspace, is never taken: the lookup matched it.
      assert binding.workspaceId == p.workspaceId;
      BindingPasses(signals.store.Contents(), k, p);
      var ingested := signals.Ingest(InputOf(p, binding.id), now);
      if ingested.Err? {
        return Err(Failed(ingested.error));
      }
      var signal := ingested.value.signal;
      CreatedFromEvent(ingested.value, p, binding.id, now);
      var at := IndexOf(signals.store.signals, signal.id);
      SignalIsStored(signals.store.Contents(), signal);
      var similar := Ids(FindBySignalHash(signals.store.signals, signal.workspaceId, signal.signalHash, signal.id, 10));
      SimilarIds(signals.store.Contents(), at, true);
      observed := observed + [if ingested.value.Duplicate? then DuplicateSeen(signal.id) else Accepted(signal.id)];
      return Ok(Success(ingested.value, similar));
    }
  }

  lemma BindingPasses(l: Ledger, k: nat, p: Prepared)
    requires Valid(l) && k < |l.bindings| && l.bindings[k].enabled && l.bindings[k].workspaceId == p.workspaceId
    ensures BindingError(l.bindings, InputOf(p, l.bindings[k].id)).None?
  {
    hide SignalsValid, Isolated, AuditsIsolated;
    assert BindingIndex(l.bindings, l.bindings[k].id) == k;
  }

  /** The row an event of the gate starts as: its own fields, the binding that let it in, and no mission in sight. */
  predicate RowOfEvent(s: Signal, p: Prepared, bindingId: Id, now: int) {
    && s.workspaceId == p.workspaceId && s.bindingId == Some(bindingId) && s.sourceType == p.sourceType
    && s.sourceId == p.sourceId && s.kind == p.kind && s.deliveryId == p.deliveryId
    && s.signalHash == HashOf(PreHash(HashParts(p.workspaceId, p.kind, p.sourceId, Some(p.externalRef)), p.payload))
    && s.payloadJson == PayloadRedaction.RedactPayload(p.payload, PayloadRedaction.DenyKeys())
    && s.metadataJson == p.metadata && s.occurredAt == p.occurredAt && s.expiresAt.None? && s.payloadVersion == 1
    && s.status == DETECTED && s.receivedAt == now && s.updatedAt == now && s.resolvedAt.None?
    && (if p.correlationId.Some? && Trim(p.correlationId.value) != []
        then s.correlationId == Given(Trim(p.correlationId.value)) else s.correlationId.Uuid?)
  }

  lemma CreatedFromEvent(result: IngestResult, p: Prepared, bindingId: Id, now: int)
    ensures FreshSignal(result.signal, InputOf(p, bindingId), now) ==>
              result.signal.workspaceId == p.workspaceId && RowOfEvent(result.signal, p, bindingId, now)
  {
    hide PreHash, PayloadRedaction.RedactPayload, Trim;
  }

  lemma SignalIsStored(l: Ledger, s: Signal)
    requires Valid(l) && s in l.signals
    ensures var k := IndexOf(l.signals, s.id); k < |l.signals| && l.signals[k] == s
  {
    hide BindingsValid, Isolated, AuditsIsolated, Coherent;
    var i :| 0 <= i < |l.signals| && l.signals[i] == s;
  }

  // ------------------------------------------------------------ a duplicate of another workspace

  function BindingFor(serial: nat, workspaceId: Text, p: Prepared, now: int): Binding {
    Binding(Uuid(serial), workspaceId, p.sourceType, p.externalRef, true, None, None, now, now)
  }

  /** Two workspaces that each bind the source of an event. */
  function BothBound(p: Prepared, other: Text, now: int): Ledger {
    Ledger([BindingFor(0, other, p, now), BindingFor(1, p.workspaceId, p, now)], [], 2)
  }

  /** The store after the other workspace's event of the same delivery came in. */
  function AfterOther(p: Prepared, other: Text, now: int): Ledger {
    Ingested(BothBound(p, other, now), InputOf(p.(workspaceId := other), Uuid(0)), now)
  }

  lemma BothBoundValid(p: Prepared, other: Text, now: int)
    requires p.workspaceId != other
    ensures Valid(BothBound(p, other, now))
    ensures BindingError(BothBound(p, other, now).bindings, InputOf(p.(workspaceId := other), Uuid(0))).None?
    ensures FindBinding(BothBound(p, other, now).bindings, p.workspaceId, p.sourceType, p.externalRef) == 1
  {
    var bindings := BothBound(p, other, now).bindings;
    assert bindings[1..] == [bindings[1]];
    assert BindingIndex(bindings, Uuid(0)) == 0;
  }

  /**
   * The dedupe key leaves the workspace out. Whenever two workspaces bind one source, a delivery that came in
   * for one answers the other's event: the store is valid, the event passes the gate with a binding of its own
   * workspace, and the lookup finds the signal of the other one.
   */
  lemma DuplicateAcrossWorkspaces(p: Prepared, other: Text, now: int)
    requires p.workspaceId != other && !Blank(other) && ArgumentError(InputOf(p, Uuid(1))).None?
    ensures var l := AfterOther(p, other, now);
            && Valid(l) && Admits(l, p)
            && l.bindings == BothBound(p, other, now).bindings
            && BindingError(l.bindings, InputOf(p, l.bindings[1].id)).None?
            && |l.signals| == 1 && l.signals[0].workspaceId == other
            && FindByDelivery(l.signals, p.sourceType, p.deliveryId) == Some(l.signals[0])
  {
    hide Valid, KeyOf, PayloadRedaction.RedactPayload, BindingError, FindBinding;
    var first, input := BothBound(p, other, now), InputOf(p.(workspaceId := other), Uuid(0));
    BothBoundValid(p, other, now);
    SameArguments(p, other);
    IngestKeepsValid(first, input, now);
    var l := AfterOther(p, other, now);
    assert l == Inserted(first, input, now);
    BindingPasses(l, 1, p);
  }

  lemma SameArguments(p: Prepared, other: Text)
    requires !Blank(other) && ArgumentError(InputOf(p, Uuid(1))).None?
    ensures ArgumentError(InputOf(p.(workspaceId := other), Uuid(0))).None?
  {
    hide Blank;
  }
}
