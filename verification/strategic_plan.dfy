/**
 * From an objective to an ordered plan of specialists
 * (packages/agents/src/operaia-ceo/ceo-specialization-resolver.ts, ceo-strategic-plan.ts).
 */
module StrategicPlans {
  import opened Texts
  import opened Specializations

  /** The regular expressions, of which nothing is assumed: which specialists a text calls for, and launches. */
  datatype Classifier = Classifier(calls: (Text, Specialization) -> bool, launches: Text -> bool)

  datatype Input = Input(
    objective: Text, pendingTitles: seq<Text>, saturated: set<Specialization>, maxDelegations: Option<int>)

  datatype Plan = Plan(specializations: seq<Specialization>, edges: seq<Edge>)

  /** The specialists in the order their rules are listed. */
  const RULE_ORDER: seq<Specialization> :=
    [LEGAL, FINANCE, MARKETING, AUTOMATION, OPERATIONS, SOFTWARE_ENGINEERING, PRODUCT_DESIGN, PRODUCT_MANAGEMENT]

  /** A text calls for a specialist when its rule matches the trimmed text; a blank text calls for none; three have no rule. */
  predicate CallsFor(k: Classifier, text: Text, s: Specialization) {
    Trim(text) != [] && s !in {MANAGEMENT, UX_DESIGN, PRODUCT} && k.calls(Trim(text), s)
  }

  predicate Wanted(k: Classifier, input: Input, s: Specialization) {
    CallsFor(k, input.objective, s) || CallsFor(k, Join(input.pendingTitles, Lit(" ")), s)
  }

  lemma RulesAre(s: Specialization)
    ensures s in RULE_ORDER <==> s !in {MANAGEMENT, UX_DESIGN, PRODUCT}
    ensures s in LAUNCH_ORDER <==> s !in {MANAGEMENT, UX_DESIGN, PRODUCT, AUTOMATION}
  {
    match s
    case MANAGEMENT =>
    case SOFTWARE_ENGINEERING =>
    case PRODUCT_DESIGN =>
    case PRODUCT_MANAGEMENT =>
    case AUTOMATION =>
    case FINANCE =>
    case LEGAL =>
    case MARKETING =>
    case OPERATIONS =>
    case UX_DESIGN =>
    case PRODUCT =>
  }

  method MatchAllSpecializations(k: Classifier, text: Text) returns (matched: seq<Specialization>)
    ensures forall s :: s in matched <==> CallsFor(k, text, s)
  {
    hide RULE_ORDER, Trim;
    var trimmed := Trim(text);
    matched := [];
    if trimmed == [] {
      return;
    }
    for i := 0 to |RULE_ORDER|
      invariant forall s :: s in matched <==> s in RULE_ORDER[..i] && k.calls(trimmed, s)
    {
      assert RULE_ORDER[..i + 1] == RULE_ORDER[..i] + [RULE_ORDER[i]];
      if k.calls(trimmed, RULE_ORDER[i]) {
        matched := matched + [RULE_ORDER[i]];
      }
    }
    assert RULE_ORDER[..|RULE_ORDER|] == RULE_ORDER;
    forall s ensures s in matched <==> CallsFor(k, text, s) {
      RulesAre(s);
    }
  }

  /** A set as the source keeps it: in order of insertion. */
  method AddAll(found: seq<Specialization>, more: seq<Specialization>) returns (r: seq<Specialization>)
    requires NoRepeats(found)
    ensures NoRepeats(r) && forall s :: s in r <==> s in found || s in more
  {
    r := found;
    for i := 0 to |more|
      invariant NoRepeats(r) && forall s :: s in r <==> s in found || s in more[..i]
    {
      assert more[..i + 1] == more[..i] + [more[i]];
      if more[i] !in r {
        r := r + [more[i]];
      }
    }
    assert more[..|more|] == more;
  }

  lemma PlanRankInjective(s: Specialization, t: Specialization)
    requires s in RULE_ORDER && t in RULE_ORDER && PlanRank(s) == PlanRank(t)
    ensures s == t
  {
    PlanRanks();
    hide PlanRank;
  }

  lemma FoundDiffer(found: seq<Specialization>)
    requires NoRepeats(found) && forall s | s in found :: s in RULE_ORDER
    ensures RanksDiffer(PlanRank, found)
  {
    hide PlanRank;
    forall i, j | 0 <= i < j < |found| ensures PlanRank(found[i]) != PlanRank(found[j]) {
      assert found[i] in RULE_ORDER && found[j] in RULE_ORDER;
      if PlanRank(found[i]) == PlanRank(found[j]) {
        PlanRankInjective(found[i], found[j]);
      }
    }
  }

  /** Every specialist the objective or the pending titles call for, once, in the order of the launch list. */
  predicate Resolves(k: Classifier, input: Input, specs: seq<Specialization>) {
    && StrictlyAscending(PlanRank, specs)
    && forall s :: s in specs <==>
         if k.launches(Trim(input.objective)) then s !in {MANAGEMENT, UX_DESIGN, PRODUCT, AUTOMATION}
         else Wanted(k, input, s) || (s == SOFTWARE_ENGINEERING && forall t :: !Wanted(k, input, t))
  }

  method ResolveAllRequiredSpecializations(k: Classifier, input: Input) returns (specs: seq<Specialization>)
    ensures Resolves(k, input, specs) && specs != []
  {
    hide PlanRank, Trim, Join;
    if k.launches(Trim(input.objective)) {
      LaunchIsStrict();
      forall s ensures s in LAUNCH_ORDER <==> s !in {MANAGEMENT, UX_DESIGN, PRODUCT, AUTOMATION} {
        RulesAre(s);
      }
      return LAUNCH_ORDER;
    }
    var fromObjective := MatchAllSpecializations(k, input.objective);
    var found := AddAll([], fromObjective);
    var fromPending := MatchAllSpecializations(k, Join(input.pendingTitles, Lit(" ")));
    found := AddAll(found, fromPending);
    if found == [] {
      return [SOFTWARE_ENGINEERING];
    }
    assert Wanted(k, input, found[0]);
    forall s | s in found ensures s in RULE_ORDER {
      RulesAre(s);
    }
    FoundDiffer(found);
    SortStrict(PlanRank, found);
    specs := SortBy(PlanRank, found);
    assert found[0] in specs;
  }

  lemma LaunchIsStrict()
    ensures StrictlyAscending(PlanRank, LAUNCH_ORDER)
  {
    PlanRanks();
    hide PlanRank;
  }

  /** What the objective resolves to is determined by what is wanted. */
  lemma ResolutionIsUnique(k: Classifier, input: Input, a: seq<Specialization>, b: seq<Specialization>)
    requires Resolves(k, input, a) && Resolves(k, input, b)
    ensures a == b
  {
    hide Wanted, PlanRank;
    StrictUnique(PlanRank, a, b);
  }

  // ------------------------------------------------------------ the plan

  function WithoutSaturated(specs: seq<Specialization>, saturated: set<Specialization>): seq<Specialization> {
    if specs == [] then []
    else
      var n := |specs| - 1;
      WithoutSaturated(specs[..n], saturated) + if specs[n] in saturated then [] else [specs[n]]
  }

  /** Saturated specialists are left out, unless that would leave none. */
  function Available(specs: seq<Specialization>, saturated: set<Specialization>): seq<Specialization> {
    if saturated != {} && WithoutSaturated(specs, saturated) != [] then WithoutSaturated(specs, saturated) else specs
  }

  function Cap(input: Input): int {
    if input.maxDelegations.Some? then input.maxDelegations.value else 8
  }

  /**
   * Who is available: of those resolved the ones with capacity, or all of them when none has any, in the same order;
   * of those as many as asked for, eight unless said, are planned.
   */
  lemma PlannedIff(input: Input, resolved: seq<Specialization>)
    requires StrictlyAscending(PlanRank, resolved)
    ensures var available := Available(resolved, input.saturated);
            var specs, max := Slice(available, Cap(input)), if input.maxDelegations.Some? then input.maxDelegations.value else 8;
            && StrictlyAscending(PlanRank, available)
            && (forall s :: s in available <==> s in resolved && (s !in input.saturated || forall t | t in resolved :: t in input.saturated))
            && specs <= available && (0 <= max ==> |specs| == if max <= |available| then max else |available|)
  {
    WithoutSaturatedKeeps(resolved, input.saturated);
    hide PlanRank;
    var kept := WithoutSaturated(resolved, input.saturated);
    assert kept != [] ==> kept[0] in kept;
    if t :| t in resolved && t !in input.saturated {
      assert t in kept;
    }
  }

  method BuildStrategicPlan(k: Classifier, input: Input) returns (plan: Plan, ghost resolved: seq<Specialization>)
    ensures Resolves(k, input, resolved)
    ensures plan.specializations == Slice(Available(resolved, input.saturated), Cap(input))
    ensures plan.edges == EdgesAmong(plan.specializations)
  {
    var specializations := ResolveAllRequiredSpecializations(k, input);
    resolved := specializations;
    if input.saturated != {} {
      var filtered := WithoutSaturated(specializations, input.saturated);
      if filtered != [] {
        specializations := filtered;
      }
    }
    var max := if input.maxDelegations.Some? then input.maxDelegations.value else 8;
    specializations := Slice(specializations, max);
    var edges := InferDefaultEdges(specializations);
    plan := Plan(specializations, edges);
  }

  lemma {:induction false} WithoutSaturatedMembers(specs: seq<Specialization>, saturated: set<Specialization>)
    ensures forall s :: s in WithoutSaturated(specs, saturated) <==> s in specs && s !in saturated
  {
    if specs != [] {
      var n := |specs| - 1;
      WithoutSaturatedMembers(specs[..n], saturated);
      assert specs == specs[..n] + [specs[n]];
    }
  }

  lemma {:induction false} WithoutSaturatedKeeps(specs: seq<Specialization>, saturated: set<Specialization>)
    requires StrictlyAscending(PlanRank, specs)
    ensures StrictlyAscending(PlanRank, WithoutSaturated(specs, saturated))
    ensures forall s :: s in WithoutSaturated(specs, saturated) <==> s in specs && s !in saturated
  {
    hide PlanRank;
    WithoutSaturatedMembers(specs, saturated);
    if specs != [] {
      var n := |specs| - 1;
      WithoutSaturatedKeeps(specs[..n], saturated);
      var before := WithoutSaturated(specs[..n], saturated);
      forall i | 0 <= i < |before| ensures PlanRank(before[i]) < PlanRank(specs[n]) {
        assert before[i] in before;
        LaterRanksHigher(specs, before[i]);
      }
    }
  }

  lemma LaterRanksHigher(specs: seq<Specialization>, s: Specialization)
    requires StrictlyAscending(PlanRank, specs) && specs != [] && s in specs[..|specs| - 1]
    ensures PlanRank(s) < PlanRank(specs[|specs| - 1])
  {
    hide PlanRank;
    var k :| 0 <= k < |specs| - 1 && specs[..|specs| - 1][k] == s;
    assert specs[k] == s;
  }

  lemma AvailableIsStrict(specs: seq<Specialization>, saturated: set<Specialization>)
    requires StrictlyAscending(PlanRank, specs)
    ensures StrictlyAscending(PlanRank, Available(specs, saturated)) && NoRepeats(Available(specs, saturated))
  {
    hide PlanRank;
    WithoutSaturatedKeeps(specs, saturated);
    var available := Available(specs, saturated);
    forall i, j | 0 <= i < j < |available| ensures available[i] != available[j] {
      assert PlanRank(available[i]) < PlanRank(available[j]);
    }
  }

  /**
   * A plan names no specialist twice and in an order of their dependencies, and cutting it to size never
   * drops what a kept specialist depends on.
   */
  lemma PlanKeepsPrerequisites(k: Classifier, input: Input, resolved: seq<Specialization>, e: Edge)
    requires Resolves(k, input, resolved)
    ensures var available := Available(resolved, input.saturated);
            var specs := Slice(available, Cap(input));
            && NoRepeats(specs) && Topological(specs)
            && (e in EdgesAmong(available) && e.next in specs ==> e.prior in specs && e in EdgesAmong(specs))
  {
    var available := Available(resolved, input.saturated);
    var specs := Slice(available, Cap(input));
    AvailableIsStrict(resolved, input.saturated);
    hide Available, EdgesAmong, PlanRank, Topological, Wanted;
    assert specs == available[..|specs|];
    assert StrictlyAscending(PlanRank, specs) by {
      assert forall i | 0 <= i < |specs| :: specs[i] == available[i];
    }
    AscendingIsTopological(PlanRank, specs);
    AscendingIsTopological(PlanRank, available);
    if e in EdgesAmong(available) && e.next in specs {
      CutKeepsPrerequisites(available, |specs|, e);
    }
  }

  /** Nobody saturated is planned, unless everybody wanted is. */
  lemma PlanAvoidsSaturated(k: Classifier, input: Input, resolved: seq<Specialization>, s: Specialization)
    requires Resolves(k, input, resolved) && s in Slice(Available(resolved, input.saturated), Cap(input)) && s in input.saturated
    ensures forall t | t in resolved :: t in input.saturated
  {
    hide Wanted, PlanRank;
    WithoutSaturatedKeeps(resolved, input.saturated);
    var available := Available(resolved, input.saturated);
    assert s in available;
    forall t | t in resolved ensures t in input.saturated {
      assert t !in input.saturated ==> t in WithoutSaturated(resolved, input.saturated);
    }
  }
}
