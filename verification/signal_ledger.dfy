/**
 * Records of the domain signal layer, the lifecycle table and what every store keeps true
 * (packages/domain-signals/src/types.ts, lifecycle.ts, in-memory-domain-signal-store.ts).
 */
module SignalLedger {
  import opened Texts
  import opened JsonValues

  /** Generated identifiers are fresh values; callers may present any text as one. */
  datatype Id = Uuid(serial: nat) | Given(text: Text)

  datatype Status = DETECTED | EVALUATED | CONVERTED | RESOLVED | IGNORED | EXPIRED

  datatype Decision = CONVERT_CANDIDATE | IGNORE | DEFER

  /** A similarity key is supplied by the caller or is the hash of a text; hashes are taken as injective. */
  datatype SimilarityKey = Supplied(text: Text) | HashOf(text: Text)

  datatype Binding = Binding(
    id: Id, workspaceId: Text, sourceType: Text, externalRef: Text, enabled: bool,
    configJson: Option<Json>, secretRef: Option<Text>, createdAt: int, updatedAt: int)

  datatype Evaluation = Evaluation(
    decision: Decision, policy: Text, reason: Text, inputs: Option<Json>, similarSignalIds: seq<Id>, evaluatedAt: int)

  datatype Signal = Signal(
    id: Id, workspaceId: Text, bindingId: Option<Id>, sourceType: Text, sourceId: Option<Text>, kind: Text,
    deliveryId: Text, signalHash: SimilarityKey, correlationId: Id, status: Status, payloadJson: seq<Field>,
    metadataJson: Option<Json>, evaluation: Option<Evaluation>, missionId: Option<Text>, payloadVersion: int,
    occurredAt: Option<int>, receivedAt: int, convertedAt: Option<int>, resolvedAt: Option<int>,
    expiresAt: Option<int>, updatedAt: int)

  /** Maps in insertion order, as `Map.values` lists them; `issued` counts the identifiers generated. */
  datatype Ledger = Ledger(bindings: seq<Binding>, signals: seq<Signal>, issued: nat)

  // ------------------------------------------------------------ lifecycle table

  function Allowed(from: Status): set<Status> {
    match from
    case DETECTED => {EVALUATED, IGNORED, EXPIRED}
    case EVALUATED => {CONVERTED, IGNORED, EXPIRED, DETECTED}
    case CONVERTED => {RESOLVED}
    case RESOLVED => {}
    case IGNORED => {}
    case EXPIRED => {}
  }

  predicate CanTransition(from: Status, to: Status) {
    from == to || to in Allowed(from)
  }

  predicate Terminal(s: Status) {
    s.RESOLVED? || s.IGNORED? || s.EXPIRED?
  }

  // ------------------------------------------------------------ lookups

  function FindByDelivery(signals: seq<Signal>, sourceType: Text, deliveryId: Text): (r: Option<Signal>)
    ensures r.Some? ==> r.value in signals && r.value.sourceType == sourceType && r.value.deliveryId == deliveryId
    ensures r.None? ==> forall s | s in signals :: !(s.sourceType == sourceType && s.deliveryId == deliveryId)
  {
    if signals == [] then None
    else if signals[0].sourceType == sourceType && signals[0].deliveryId == deliveryId then Some(signals[0])
    else FindByDelivery(signals[1..], sourceType, deliveryId)
  }

  /** The position of an identifier, or the length when it is unknown. */
  function IndexOf(signals: seq<Signal>, id: Id): (k: nat)
    ensures k <= |signals| && (k < |signals| ==> signals[k].id == id)
    ensures forall i | 0 <= i < k :: signals[i].id != id
  {
    if signals == [] || signals[0].id == id then 0 else 1 + IndexOf(signals[1..], id)
  }

  function FindBinding(bindings: seq<Binding>, workspaceId: Text, sourceType: Text, externalRef: Text): (k: nat)
    ensures k <= |bindings|
    ensures k < |bindings| ==> Triple(bindings[k]) == (workspaceId, sourceType, externalRef)
    ensures forall i | 0 <= i < k :: Triple(bindings[i]) != (workspaceId, sourceType, externalRef)
  {
    if bindings == [] || Triple(bindings[0]) == (workspaceId, sourceType, externalRef) then 0
    else 1 + FindBinding(bindings[1..], workspaceId, sourceType, externalRef)
  }

  function Triple(b: Binding): (Text, Text, Text) {
    (b.workspaceId, b.sourceType, b.externalRef)
  }

  function BindingIndex(bindings: seq<Binding>, id: Id): (k: nat)
    ensures k <= |bindings| && (k < |bindings| ==> bindings[k].id == id)
    ensures forall i | 0 <= i < k :: bindings[i].id != id
  {
    if bindings == [] || bindings[0].id == id then 0 else 1 + BindingIndex(bindings[1..], id)
  }

  predicate Matches(s: Signal, workspaceId: Text, hash: SimilarityKey, excludeId: Id) {
    s.workspaceId == workspaceId && s.signalHash == hash && s.id != excludeId
  }

  function Filter(signals: seq<Signal>, workspaceId: Text, hash: SimilarityKey, excludeId: Id): seq<Signal> {
    if signals == [] then []
    else if Matches(signals[0], workspaceId, hash, excludeId)
    then [signals[0]] + Filter(signals[1..], workspaceId, hash, excludeId)
    else Filter(signals[1..], workspaceId, hash, excludeId)
  }

  /** A stable insertion by descending time of receipt. */
  function InsertRecent(s: Signal, sorted: seq<Signal>): seq<Signal> {
    if sorted == [] || s.receivedAt >= sorted[0].receivedAt then [s] + sorted
    else [sorted[0]] + InsertRecent(s, sorted[1..])
  }

  function MostRecentFirst(signals: seq<Signal>): seq<Signal> {
    if signals == [] then [] else InsertRecent(signals[0], MostRecentFirst(signals[1..]))
  }

  function FindBySignalHash(signals: seq<Signal>, workspaceId: Text, hash: SimilarityKey, excludeId: Id, limit: nat)
    : seq<Signal>
  {
    var all := MostRecentFirst(Filter(signals, workspaceId, hash, excludeId));
    if |all| <= limit then all else all[..limit]
  }

  function Ids(signals: seq<Signal>): (r: seq<Id>)
    ensures |r| == |signals| && forall i | 0 <= i < |signals| :: r[i] == signals[i].id
  {
    seq(|signals|, i requires 0 <= i < |signals| => signals[i].id)
  }

  // ------------------------------------------------------------ what the similarity lookup returns

  lemma {:induction false} FilterMembers(signals: seq<Signal>, workspaceId: Text, hash: SimilarityKey, excludeId: Id)
    ensures forall s :: s in Filter(signals, workspaceId, hash, excludeId)
                   <==> s in signals && Matches(s, workspaceId, hash, excludeId)
  {
    if signals != [] {
      FilterMembers(signals[1..], workspaceId, hash, excludeId);
      assert signals == [signals[0]] + signals[1..];
    }
  }

  predicate Descending(signals: seq<Signal>) {
    forall i, j | 0 <= i < j < |signals| :: signals[i].receivedAt >= signals[j].receivedAt
  }

  lemma {:induction false} InsertRecentMembers(s: Signal, sorted: seq<Signal>)
    ensures multiset(InsertRecent(s, sorted)) == multiset(sorted) + multiset{s}
  {
    if !(sorted == [] || s.receivedAt >= sorted[0].receivedAt) {
      InsertRecentMembers(s, sorted[1..]);
      assert sorted == [sorted[0]] + sorted[1..];
    }
  }

  lemma {:induction false} InsertRecentSorted(s: Signal, sorted: seq<Signal>)
    requires Descending(sorted)
    ensures Descending(InsertRecent(s, sorted))
  {
    if !(sorted == [] || s.receivedAt >= sorted[0].receivedAt) {
      var tail := sorted[1..];
      InsertRecentSorted(s, tail);
      InsertRecentMembers(s, tail);
      var r := InsertRecent(s, tail);
      forall j | 0 <= j < |r| ensures sorted[0].receivedAt >= r[j].receivedAt {
        assert r[j] in multiset(tail) + multiset{s};
        assert r[j] == s || r[j] in tail;
      }
    }
  }

  lemma {:induction false} MostRecentSorted(signals: seq<Signal>)
    ensures Descending(MostRecentFirst(signals))
    ensures multiset(MostRecentFirst(signals)) == multiset(signals)
  {
    if signals != [] {
      MostRecentSorted(signals[1..]);
      InsertRecentSorted(signals[0], MostRecentFirst(signals[1..]));
      InsertRecentMembers(signals[0], MostRecentFirst(signals[1..]));
      assert signals == [signals[0]] + signals[1..];
    }
  }

  /**
   * The similar signals are at most `limit`, all of the workspace and hash asked for, never the
   * excluded one, latest first, and a match that was left out is no later than any that is in.
   */
  lemma SimilarSignals(signals: seq<Signal>, workspaceId: Text, hash: SimilarityKey, excludeId: Id, limit: nat)
    ensures var r := FindBySignalHash(signals, workspaceId, hash, excludeId, limit);
            && |r| <= limit
            && Descending(r)
            && (forall s | s in r :: s in signals && s.workspaceId == workspaceId && s.signalHash == hash && s.id != excludeId)
            && (forall s | s in signals && s.workspaceId == workspaceId && s.signalHash == hash && s.id != excludeId && s !in r ::
                  |r| == limit && forall t | t in r :: t.receivedAt >= s.receivedAt)
  {
    hide Filter, MostRecentFirst;
    var matching := Filter(signals, workspaceId, hash, excludeId);
    var all := MostRecentFirst(matching);
    FilterMembers(signals, workspaceId, hash, excludeId);
    MostRecentSorted(matching);
    forall s ensures s in all <==> s in matching {
      assert s in multiset(all) <==> s in multiset(matching);
    }
    LatestFirst(all, limit);
    forall s | s in FindBySignalHash(signals, workspaceId, hash, excludeId, limit)
      ensures s in signals && s.workspaceId == workspaceId && s.signalHash == hash && s.id != excludeId
    {
      assert s in all && s in matching;
    }
  }

  lemma LatestFirst(all: seq<Signal>, limit: nat)
    requires Descending(all)
    ensures var r := if |all| <= limit then all else all[..limit];
            && |r| <= limit && Descending(r) && (forall s | s in r :: s in all)
            && (forall s | s in all && s !in r :: |r| == limit && forall t | t in r :: t.receivedAt >= s.receivedAt)
  {
    var r := if |all| <= limit then all else all[..limit];
    forall s, t | s in all && s !in r && t in r ensures t.receivedAt >= s.receivedAt {
      var i :| 0 <= i < |all| && all[i] == s;
      var j :| 0 <= j < |r| && r[j] == t;
      assert all[j] == t;
      assert forall k | 0 <= k < |r| :: r[k] == all[k];
    }
  }

  // ------------------------------------------------------------ what every state keeps

  /** What the status of one signal implies about its other fields. */
  predicate Coherent(s: Signal) {
    && (s.status.DETECTED? ==> s.evaluation.None?)
    && (s.status.EVALUATED? || s.status.CONVERTED? || s.status.RESOLVED? ==>
          s.evaluation.Some? && s.evaluation.value.decision in {CONVERT_CANDIDATE, DEFER})
    && (s.status.IGNORED? ==> s.evaluation.Some? && s.evaluation.value.decision == IGNORE)
    && (s.missionId.Some? <==> s.status.CONVERTED? || s.status.RESOLVED?)
    && (s.convertedAt.Some? <==> s.missionId.Some?)
    && (s.missionId.Some? ==> !Blank(s.missionId.value))
    && (s.evaluation.Some? ==> AuditSound(s, s.evaluation.value))
  }

  /** Similar ids in an audit: at most ten, never the signal's own. */
  predicate AuditSound(s: Signal, e: Evaluation) {
    |e.similarSignalIds| <= 10 && s.id !in e.similarSignalIds && !Blank(e.policy) && !Blank(e.reason)
  }

  /** A stored binding reference; an empty text is no reference, as the truth test of the source has it. */
  predicate Refers(bindingId: Option<Id>) {
    bindingId.Some? && bindingId.value != Given([])
  }

  predicate BindingsValid(bindings: seq<Binding>, issued: nat) {
    && (forall i | 0 <= i < |bindings| :: bindings[i].id.Uuid? && bindings[i].id.serial < issued)
    && (forall i, j | 0 <= i < j < |bindings| :: bindings[i].id != bindings[j].id)
    && (forall i, j | 0 <= i < j < |bindings| :: Triple(bindings[i]) != Triple(bindings[j]))
  }

  predicate SignalsValid(signals: seq<Signal>, issued: nat) {
    && (forall i | 0 <= i < |signals| :: signals[i].id.Uuid? && signals[i].id.serial < issued)
    && (forall i, j | 0 <= i < j < |signals| :: signals[i].id != signals[j].id)
    && (forall i, j | 0 <= i < j < |signals| :: Delivery(signals[i]) != Delivery(signals[j]))
    && (forall i | 0 <= i < |signals| :: Coherent(signals[i]))
  }

  function Delivery(s: Signal): (Text, Text) {
    (s.sourceType, s.deliveryId)
  }

  /** Workspace isolation: the binding a signal refers to exists and belongs to the signal's workspace. */
  predicate Isolated(l: Ledger) {
    forall s | s in l.signals && Refers(s.bindingId) ::
      exists b | b in l.bindings :: b.id == s.bindingId.value && b.workspaceId == s.workspaceId
  }

  /** The ids an audit lists belong to signals of the same workspace and similarity key. */
  predicate AuditsIsolated(l: Ledger) {
    forall s | s in l.signals && s.evaluation.Some? ::
      forall id | id in s.evaluation.value.similarSignalIds ::
        exists t | t in l.signals ::
          t.id == id && t.workspaceId == s.workspaceId && t.signalHash == s.signalHash && t.id != s.id
  }

  predicate Valid(l: Ledger) {
    BindingsValid(l.bindings, l.issued) && SignalsValid(l.signals, l.issued) && Isolated(l) && AuditsIsolated(l)
  }

  // ------------------------------------------------------------ what every call keeps

  /** One call on one stored signal. */
  predicate SignalEvolves(a: Signal, b: Signal) {
    && SameOrigin(a, b)
    && CanTransition(a.status, b.status)
    && (b.status.DETECTED? ==> a.status.DETECTED?)
    && (a.missionId.Some? ==> b.missionId == a.missionId && b.convertedAt == a.convertedAt)
  }

  predicate SameOrigin(a: Signal, b: Signal) {
    && a.id == b.id && a.workspaceId == b.workspaceId && a.bindingId == b.bindingId && a.sourceType == b.sourceType
    && a.sourceId == b.sourceId && a.kind == b.kind && a.deliveryId == b.deliveryId && a.signalHash == b.signalHash
    && a.correlationId == b.correlationId && a.payloadJson == b.payloadJson && a.receivedAt == b.receivedAt
    && a.payloadVersion == b.payloadVersion && a.occurredAt == b.occurredAt
  }

  predicate BindingEvolves(a: Binding, b: Binding) {
    a.id == b.id && Triple(a) == Triple(b) && a.createdAt == b.createdAt
  }

  /** One call on the store: nothing is deleted, old rows evolve in place, new signals start DETECTED. */
  predicate Evolves(l: Ledger, m: Ledger) {
    && l.issued <= m.issued
    && |l.bindings| <= |m.bindings| && |l.signals| <= |m.signals|
    && (forall i | 0 <= i < |l.bindings| :: BindingEvolves(l.bindings[i], m.bindings[i]))
    && (forall i | 0 <= i < |l.signals| :: SignalEvolves(l.signals[i], m.signals[i]))
    && (forall i | |l.signals| <= i < |m.signals| :: m.signals[i].status.DETECTED?)
  }

  // ------------------------------------------------------------ whole runs

  /** The statuses a signal can have after any number of calls. */
  predicate Later(from: Status, to: Status) {
    match from
    case DETECTED => true
    case EVALUATED => !to.DETECTED?
    case CONVERTED => to.CONVERTED? || to.RESOLVED?
    case _ => to == from
  }

  ghost predicate IsRun(run: seq<Ledger>) {
    forall k | 0 <= k < |run| - 1 :: Evolves(run[k], run[k + 1])
  }

  /**
   * Over any number of steps: a stored signal keeps its origin and its place, never returns to
   * DETECTED, stays put once IGNORED, RESOLVED or EXPIRED, and keeps the mission it was converted to.
   */
  lemma {:induction false} SignalOverRun(run: seq<Ledger>, j: nat, k: nat, i: nat)
    requires IsRun(run) && j <= k < |run| && i < |run[j].signals|
    ensures i < |run[k].signals|
    ensures var (a, b) := (run[j].signals[i], run[k].signals[i]);
            && SameOrigin(a, b)
            && Later(a.status, b.status)
            && (b.status.DETECTED? ==> a.status.DETECTED?)
            && (Terminal(a.status) ==> b.status == a.status)
            && (a.missionId.Some? ==> b.missionId == a.missionId && b.convertedAt == a.convertedAt)
    decreases k - j
  {
    if j < k {
      SignalOverRun(run, j, k - 1, i);
      assert Evolves(run[k - 1], run[k - 1 + 1]);
      assert SignalEvolves(run[k - 1].signals[i], run[k].signals[i]);
    }
  }
}
