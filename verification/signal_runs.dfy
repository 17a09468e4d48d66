/**
 * Sequences of service calls: what each call makes of the store, and what any number of them keeps
 * (packages/domain-signals/src/domain-signal-service.ts, lifecycle.ts). Calls come one after the other.
 */
module SignalRuns {
  import opened Texts
  import opened JsonValues
  import opened SignalLedger
  import opened SignalService

  datatype Call =
    | UpsertBinding(workspaceId: Text, sourceType: Text, externalRef: Text, enabled: Option<bool>,
                    configJson: Option<Option<Json>>, secretRef: Option<Option<Text>>)
    | Ingest(input: IngestInput)
    | Evaluate(signalId: Id, decision: Decision, policy: Text, reason: Text, inputs: Option<Json>, includeSimilar: bool)
    | MarkConverted(signalId: Id, missionId: Text)
    | MarkResolved(signalId: Id)
    | MarkExpired(signalId: Id)

  datatype Timed = Timed(call: Call, now: int)

  // ------------------------------------------------------------ what one call makes of the store

  function Upserted(l: Ledger, c: Call, now: int): Ledger
    requires c.UpsertBinding?
  {
    var k := FindBinding(l.bindings, c.workspaceId, c.sourceType, c.externalRef);
    if k < |l.bindings| then
      l.(bindings := l.bindings[k := l.bindings[k].(
        enabled := match c.enabled { case Some(e) => e case None => l.bindings[k].enabled },
        configJson := match c.configJson { case Some(j) => j case None => l.bindings[k].configJson },
        secretRef := match c.secretRef { case Some(r) => r case None => l.bindings[k].secretRef },
        updatedAt := now)])
    else
      Ledger(l.bindings + [Binding(Uuid(l.issued), c.workspaceId, c.sourceType, c.externalRef,
                                   c.enabled.None? || c.enabled.value,
                                   if c.configJson.Some? then c.configJson.value else None,
                                   if c.secretRef.Some? then c.secretRef.value else None, now, now)],
             l.signals, l.issued + 1)
  }

  /** The evaluated signal. */
  function Evaluated(l: Ledger, s: Signal, c: Call, now: int): Signal
    requires c.Evaluate?
  {
    var similar := FindBySignalHash(l.signals, s.workspaceId, s.signalHash, s.id, 10);
    s.(status := if c.decision.IGNORE? then IGNORED else EVALUATED,
       evaluation := Some(Evaluation(c.decision, c.policy, c.reason, c.inputs,
                                     if c.includeSimilar then Ids(similar) else [], now)),
       updatedAt := now)
  }

  /** What a call that names a signal makes of it, when it is not refused. */
  function Marked(l: Ledger, s: Signal, c: Call, now: int): Option<Signal>
    requires !c.UpsertBinding? && !c.Ingest?
  {
    match c
    case Evaluate(_, _, policy, reason, _, _) =>
      if s.status in {DETECTED, EVALUATED} && !Blank(policy) && !Blank(reason) then Some(Evaluated(l, s, c, now)) else None
    case MarkConverted(_, missionId) =>
      if s.status == EVALUATED && !Blank(missionId)
      then Some(s.(status := CONVERTED, missionId := Some(missionId), convertedAt := Some(now), updatedAt := now))
      else None
    case MarkResolved(_) =>
      if s.status in {CONVERTED, RESOLVED} then Some(s.(status := RESOLVED, resolvedAt := Some(now), updatedAt := now)) else None
    case MarkExpired(_) =>
      if s.status in {DETECTED, EVALUATED, EXPIRED}
      then Some(s.(status := EXPIRED, resolvedAt := Some(now), updatedAt := now))
      else None
  }

  function After(l: Ledger, t: Timed): Ledger {
    match t.call
    case UpsertBinding(_, _, _, _, _, _) => Upserted(l, t.call, t.now)
    case Ingest(input) => Ingested(l, input, t.now)
    case _ =>
      var k := IndexOf(l.signals, t.call.signalId);
      if k < |l.signals| && Marked(l, l.signals[k], t.call, t.now).Some?
      then l.(signals := l.signals[k := Marked(l, l.signals[k], t.call, t.now).value])
      else l
  }

  // ------------------------------------------------------------ the service makes exactly that

  method Perform(service: DomainSignalService, t: Timed)
    requires Valid(service.store.Contents())
    requires t.call.Ingest? ==> WellFormed(t.call.input.payload)
    modifies service.store
    ensures service.store.Contents() == After(old(service.store.Contents()), t)
    ensures Valid(service.store.Contents())
  {
    hide Valid, Evolves, Ingested, Blank, FindBySignalHash, Ids, IndexOf, FindBinding, FreshSignal;
    match t.call
    case UpsertBinding(workspaceId, sourceType, externalRef, enabled, configJson, secretRef) =>
      var b := service.store.UpsertBinding(workspaceId, sourceType, externalRef, enabled, configJson, secretRef, t.now);
    case Ingest(input) =>
      var r := service.Ingest(input, t.now);
    case Evaluate(signalId, decision, policy, reason, inputs, includeSimilar) =>
      var r := service.Evaluate(signalId, decision, policy, reason, inputs, includeSimilar, t.now);
    case MarkConverted(signalId, missionId) =>
      var r := service.MarkConverted(signalId, missionId, t.now);
    case MarkResolved(signalId) =>
      var r := service.MarkResolved(signalId, t.now);
    case MarkExpired(signalId) =>
      var r := service.MarkExpired(signalId, t.now);
  }

  // ------------------------------------------------------------ what one call keeps

  lemma UpsertKeeps(l: Ledger, c: Call, now: int)
    requires Valid(l) && c.UpsertBinding?
    ensures Valid(Upserted(l, c, now)) && Evolves(l, Upserted(l, c, now))
  {
    hide Valid, Evolves;
    var k := FindBinding(l.bindings, c.workspaceId, c.sourceType, c.externalRef);
    if k < |l.bindings| {
      ReplaceBinding(l, k, Upserted(l, c, now).bindings[k]);
    } else {
      AddBinding(l, Upserted(l, c, now).bindings[k]);
    }
  }

  /** A marked signal is a coherent successor, and what its audit lists is stored. */
  lemma MarkedEvolves(l: Ledger, k: nat, c: Call, now: int)
    requires Valid(l) && k < |l.signals| && !c.UpsertBinding? && !c.Ingest? && Marked(l, l.signals[k], c, now).Some?
    ensures var s := Marked(l, l.signals[k], c, now).value;
            && SignalEvolves(l.signals[k], s) && Coherent(s)
            && (s.evaluation.Some? ==> SimilarIn(l.signals, s, s.evaluation.value.similarSignalIds))
  {
    hide Valid, Blank, FindBySignalHash, Ids, SimilarIn;
    Stored(l, k);
    if c.Evaluate? {
      SimilarIds(l, k, c.includeSimilar);
      EvaluatedSimilar(l, k, c, now);
    } else {
      MarkedKeepsEvaluation(l, k, c, now);
    }
  }

  lemma EvaluatedSimilar(l: Ledger, k: nat, c: Call, now: int)
    requires k < |l.signals| && c.Evaluate?
    requires var s := l.signals[k];
             SimilarIn(l.signals, s, if c.includeSimilar then Ids(FindBySignalHash(l.signals, s.workspaceId, s.signalHash, s.id, 10)) else [])
    ensures var s := Evaluated(l, l.signals[k], c, now); SimilarIn(l.signals, s, s.evaluation.value.similarSignalIds)
  {
    hide FindBySignalHash, Ids;
  }

  lemma MarkedKeepsEvaluation(l: Ledger, k: nat, c: Call, now: int)
    requires k < |l.signals| && !c.UpsertBinding? && !c.Ingest? && !c.Evaluate? && Marked(l, l.signals[k], c, now).Some?
    requires l.signals[k].evaluation.Some? ==> SimilarIn(l.signals, l.signals[k], l.signals[k].evaluation.value.similarSignalIds)
    ensures var s := Marked(l, l.signals[k], c, now).value;
            s.evaluation.Some? ==> SimilarIn(l.signals, s, s.evaluation.value.similarSignalIds)
  {
  }

  lemma AfterKeeps(l: Ledger, t: Timed)
    requires Valid(l)
    ensures Valid(After(l, t)) && Evolves(l, After(l, t))
  {
    hide Valid, Evolves, Ingested, Upserted, Marked, SignalEvolves, Coherent, SimilarIn;
    EvolvesReflexive(l);
    if t.call.UpsertBinding? {
      UpsertKeeps(l, t.call, t.now);
    } else if t.call.Ingest? {
      IngestKeepsValid(l, t.call.input, t.now);
    } else {
      var k := IndexOf(l.signals, t.call.signalId);
      if k < |l.signals| && Marked(l, l.signals[k], t.call, t.now).Some? {
        MarkedEvolves(l, k, t.call, t.now);
        UpdateKeepsValid(l, k, Marked(l, l.signals[k], t.call, t.now).value);
      }
    }
  }

  // ------------------------------------------------------------ runs of calls

  /** The store before each call and after the last. */
  function RunOf(l: Ledger, calls: seq<Timed>): (run: seq<Ledger>)
    ensures |run| == |calls| + 1 && run[0] == l
  {
    if calls == [] then [l]
    else
      var n := |calls| - 1;
      var before := RunOf(l, calls[..n]);
      before + [After(before[n], calls[n])]
  }

  method PerformAll(service: DomainSignalService, calls: seq<Timed>)
    requires Valid(service.store.Contents())
    requires forall k | 0 <= k < |calls| && calls[k].call.Ingest? :: WellFormed(calls[k].call.input.payload)
    modifies service.store
    ensures service.store.Contents() == RunOf(old(service.store.Contents()), calls)[|calls|]
  {
    hide Valid, After;
    for i := 0 to |calls|
      invariant Valid(service.store.Contents())
      invariant service.store.Contents() == RunOf(old(service.store.Contents()), calls[..i])[i]
    {
      Perform(service, calls[i]);
      assert calls[..i + 1][..i] == calls[..i];
    }
    assert calls[..|calls|] == calls;
  }

  /** Every run of calls from a valid store is a run in which the store stays valid, call by call. */
  lemma {:induction false} CallsRun(l: Ledger, calls: seq<Timed>)
    requires Valid(l)
    ensures var run := RunOf(l, calls);
            && IsRun(run)
            && (forall k | 0 <= k < |run| :: Valid(run[k]))
            && (forall k | 0 <= k < |calls| :: run[k + 1] == After(run[k], calls[k]))
  {
    hide Valid, After, Evolves;
    if calls != [] {
      var n := |calls| - 1;
      CallsRun(l, calls[..n]);
      AfterKeeps(RunOf(l, calls[..n])[n], calls[n]);
    }
  }

  /**
   * Over any sequence of calls: a stored signal keeps its origin and its place and follows the lifecycle table;
   * it never returns to DETECTED, stays put once IGNORED, RESOLVED or EXPIRED, and keeps the mission it was
   * converted to. EVALUATED, CONVERTED and RESOLVED imply a decision to convert or defer; the mission and the
   * time of conversion are set exactly in CONVERTED and RESOLVED.
   */
  lemma SignalOverCalls(l: Ledger, calls: seq<Timed>, j: nat, k: nat, i: nat)
    requires Valid(l) && j <= k <= |calls| && i < |RunOf(l, calls)[j].signals|
    ensures i < |RunOf(l, calls)[k].signals|
    ensures var (a, b) := (RunOf(l, calls)[j].signals[i], RunOf(l, calls)[k].signals[i]);
            && SameOrigin(a, b)
            && Later(a.status, b.status)
            && (k == j + 1 ==> CanTransition(a.status, b.status))
            && (b.status.DETECTED? ==> a.status.DETECTED?)
            && (Terminal(a.status) ==> b.status == a.status)
            && (a.missionId.Some? ==> b.missionId == a.missionId && b.convertedAt == a.convertedAt)
            && (b.status in {EVALUATED, CONVERTED, RESOLVED} ==>
                  b.evaluation.Some? && b.evaluation.value.decision in {CONVERT_CANDIDATE, DEFER})
            && (b.missionId.Some? <==> b.status in {CONVERTED, RESOLVED})
            && (b.convertedAt.Some? <==> b.status in {CONVERTED, RESOLVED})
  {
    var run := RunOf(l, calls);
    CallsRun(l, calls);
    SignalOverRun(run, j, k, i);
    Stored(run[k], i);
    hide Valid, After, RunOf, SameOrigin;
    if k == j + 1 {
      assert Evolves(run[j], run[j + 1]);
      assert SignalEvolves(run[j].signals[i], run[k].signals[i]);
    }
  }

  lemma MissionByMark(l: Ledger, s: Signal, c: Call, now: int)
    requires !c.UpsertBinding? && !c.Ingest? && Marked(l, s, c, now).Some?
    ensures var m := Marked(l, s, c, now).value;
            m.missionId == s.missionId
            || (s.status == EVALUATED && m.status == CONVERTED && m.convertedAt == Some(now)
                && c.MarkConverted? && m.missionId == Some(c.missionId))
  {
    hide Blank, FindBySignalHash, Ids;
  }

  /** Signals a call does not name keep their rows. */
  lemma OthersKept(l: Ledger, t: Timed, i: nat)
    requires i < |l.signals|
    ensures i < |After(l, t).signals|
    ensures After(l, t).signals[i] == l.signals[i]
         || (!t.call.UpsertBinding? && !t.call.Ingest? && t.call.signalId == l.signals[i].id
             && Marked(l, l.signals[i], t.call, t.now) == Some(After(l, t).signals[i]))
  {
    hide Marked, RowOf, ArgumentError, BindingError, FindByDelivery, FindBinding;
  }

  /** A mission is given by one call only: the conversion, of that signal, from EVALUATED, with that mission. */
  lemma MissionByConversion(l: Ledger, calls: seq<Timed>, k: nat, i: nat)
    requires Valid(l) && k < |calls| && i < |RunOf(l, calls)[k].signals|
    requires i < |RunOf(l, calls)[k + 1].signals|
    requires RunOf(l, calls)[k].signals[i].missionId != RunOf(l, calls)[k + 1].signals[i].missionId
    ensures var (a, b) := (RunOf(l, calls)[k].signals[i], RunOf(l, calls)[k + 1].signals[i]);
            && a.status == EVALUATED && b.status == CONVERTED && b.missionId.Some?
            && calls[k].call == MarkConverted(a.id, b.missionId.value) && b.convertedAt == Some(calls[k].now)
  {
    hide Valid, IsRun, RunOf, After, Marked;
    CallsRun(l, calls);
    var before := RunOf(l, calls)[k];
    assert RunOf(l, calls)[k + 1] == After(before, calls[k]);
    OthersKept(before, calls[k], i);
    MissionByMark(before, before.signals[i], calls[k].call, calls[k].now);
  }

  /** A call adds at most one signal, and only an ingest does, as the fresh row of its input. */
  lemma SignalByIngest(l: Ledger, calls: seq<Timed>, k: nat)
    requires Valid(l) && k < |calls|
    ensures var (before, after) := (RunOf(l, calls)[k].signals, RunOf(l, calls)[k + 1].signals);
            if |after| == |before| then true
            else
              && calls[k].call.Ingest? && |after| == |before| + 1 && after[..|before|] == before
              && FreshSignal(after[|before|], calls[k].call.input, calls[k].now)
              && FindByDelivery(before, calls[k].call.input.sourceType, calls[k].call.input.deliveryId).None?
  {
    CallsRun(l, calls);
    hide Valid, IsRun, RunOf, Blank, Marked, ArgumentError, BindingError, FindByDelivery, FindBinding, RowOf, FreshSignal;
    var before := RunOf(l, calls)[k];
    assert RunOf(l, calls)[k + 1] == After(before, calls[k]);
    if calls[k].call.Ingest? {
      RowIsFresh(calls[k].call.input, before.issued, calls[k].now);
    }
  }

  /**
   * Workspace isolation after any sequence of calls: one binding per workspace, source and reference; a signal's
   * binding is of its workspace; an audit lists at most ten signals, never the audited one, all of its workspace
   * and similarity key; and a delivery is stored once.
   */
  lemma IsolationOverCalls(l: Ledger, calls: seq<Timed>, k: nat)
    requires Valid(l) && k <= |calls|
    ensures var m := RunOf(l, calls)[k];
            && (forall i, j | 0 <= i < j < |m.bindings| :: Triple(m.bindings[i]) != Triple(m.bindings[j]))
            && (forall i, j | 0 <= i < j < |m.signals| :: Delivery(m.signals[i]) != Delivery(m.signals[j]))
            && (forall s | s in m.signals && Refers(s.bindingId) ::
                  exists b | b in m.bindings :: b.id == s.bindingId.value && b.workspaceId == s.workspaceId)
            && (forall s | s in m.signals && s.evaluation.Some? ::
                  && |s.evaluation.value.similarSignalIds| <= 10 && s.id !in s.evaluation.value.similarSignalIds
                  && forall id | id in s.evaluation.value.similarSignalIds ::
                       exists t | t in m.signals ::
                         t.id == id && t.workspaceId == s.workspaceId && t.signalHash == s.signalHash && t.id != s.id)
  {
    CallsRun(l, calls);
    var m := RunOf(l, calls)[k];
    hide RunOf, IsRun, After;
    assert Valid(m);
    forall s | s in m.signals && s.evaluation.Some?
      ensures |s.evaluation.value.similarSignalIds| <= 10 && s.id !in s.evaluation.value.similarSignalIds
           && SimilarIn(m.signals, s, s.evaluation.value.similarSignalIds)
    {
      var i :| 0 <= i < |m.signals| && m.signals[i] == s;
      Stored(m, i);
    }
  }
}
