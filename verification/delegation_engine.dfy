/**
 * From affected files to recommended specialists
 * (packages/agents/src/operaia-ceo/delegation-engine.ts, delegation-matrix.ts).
 */
module Delegation {
  import opened Texts
  import opened Specializations

  datatype Rule = Rule(id: Text, patterns: seq<Text>, specializations: seq<Specialization>, ignore: bool)

  /** The rules, and the pattern matcher, of which nothing is assumed. */
  datatype Matrix = Matrix(rules: seq<Rule>, matches: (Text, Text) -> bool)

  datatype Context = Context(
    objective: Text, workspaceId: Option<Text>, repository: Option<Text>, affectedFiles: seq<Text>,
    changeFields: seq<Text>, changeReason: Option<Text>)

  datatype Recommendation = Recommendation(
    specialization: Specialization, reason: Text, task: Text, matchedRules: seq<Text>, matchedFiles: seq<Text>)

  /** The delegations of the source repeat specialization, reason and task of each recommendation. */
  datatype Outcome = Outcome(
    ignored: bool, ignoreReason: Option<Text>, recommendations: seq<Recommendation>, edges: seq<Edge>,
    specializations: seq<Specialization>)

  // ------------------------------------------------------------ matching

  predicate Hits(m: Matrix, rule: Rule, file: Text) {
    exists p | 0 <= p < |rule.patterns| :: m.matches(file, rule.patterns[p])
  }

  predicate Ignored(m: Matrix, file: Text) {
    exists r | 0 <= r < |m.rules| :: m.rules[r].ignore && Hits(m, m.rules[r], file)
  }

  predicate Technical(m: Matrix, file: Text) {
    exists r | 0 <= r < |m.rules| :: !m.rules[r].ignore && m.rules[r].specializations != [] && Hits(m, m.rules[r], file)
  }

  /** Documentation only: an ignore rule takes the file and no rule with specialists does. */
  predicate PureIgnore(m: Matrix, file: Text) {
    Ignored(m, file) && !Technical(m, file)
  }

  function Actionable(m: Matrix, files: seq<Text>): seq<Text> {
    if files == [] then []
    else (if PureIgnore(m, files[0]) then [] else [files[0]]) + Actionable(m, files[1..])
  }

  /** Rule r sends this file to this specialist. */
  predicate Sends(m: Matrix, r: nat, file: Text, spec: Specialization)
    requires r < |m.rules|
  {
    !m.rules[r].ignore && Hits(m, m.rules[r], file) && spec in m.rules[r].specializations
  }

  /** Some rule sends this file to this specialist. */
  predicate Needs(m: Matrix, file: Text, spec: Specialization) {
    exists r | 0 <= r < |m.rules| :: Sends(m, r, file, spec)
  }

  predicate Needed(m: Matrix, files: seq<Text>, spec: Specialization) {
    exists f | 0 <= f < |files| :: Needs(m, files[f], spec)
  }

  predicate RuleApplies(m: Matrix, files: seq<Text>, spec: Specialization, id: Text) {
    exists f, r | 0 <= f < |files| && 0 <= r < |m.rules| :: Sends(m, r, files[f], spec) && m.rules[r].id == id
  }

  // ------------------------------------------------------------ the grouping loop

  /** An entry of the source's map, which keeps insertion order, as do its two sets. */
  datatype Group = Group(spec: Specialization, rules: seq<Text>, files: seq<Text>)

  function Added<T(==)>(items: seq<T>, x: T): seq<T> {
    if x in items then items else items + [x]
  }

  function GroupIndex(groups: seq<Group>, spec: Specialization): (k: nat)
    ensures k <= |groups| && (k < |groups| ==> groups[k].spec == spec)
    ensures forall j | 0 <= j < k :: groups[j].spec != spec
  {
    if groups == [] || groups[0].spec == spec then 0 else GroupIndex(groups[1..], spec) + 1
  }

  /** One pass of the innermost loop: a rule sends a file to a specialist. */
  datatype Visit = Visit(file: Text, rule: Text, spec: Specialization)

  /** `bySpec.set(spec, entry)` after adding a rule and a file to the entry. */
  function Touch(groups: seq<Group>, v: Visit): seq<Group> {
    var k := GroupIndex(groups, v.spec);
    if k == |groups| then groups + [Group(v.spec, [v.rule], [v.file])]
    else groups[k := Group(v.spec, Added(groups[k].rules, v.rule), Added(groups[k].files, v.file))]
  }

  function GroupsOf(visits: seq<Visit>): seq<Group> {
    if visits == [] then []
    else
      var n := |visits| - 1;
      Touch(GroupsOf(visits[..n]), visits[n])
  }

  lemma GroupsOfMore(visits: seq<Visit>, v: Visit)
    ensures GroupsOf(visits + [v]) == Touch(GroupsOf(visits), v)
  {
    assert (visits + [v])[..|visits|] == visits;
  }

  function VisitsOfRule(rule: Rule, file: Text, n: nat): seq<Visit>
    requires n <= |rule.specializations|
  {
    if n == 0 then [] else VisitsOfRule(rule, file, n - 1) + [Visit(file, rule.id, rule.specializations[n - 1])]
  }

  function RuleVisits(m: Matrix, rule: Rule, file: Text): seq<Visit> {
    if !rule.ignore && Hits(m, rule, file) then VisitsOfRule(rule, file, |rule.specializations|) else []
  }

  function FileVisits(m: Matrix, file: Text, n: nat): seq<Visit>
    requires n <= |m.rules|
  {
    if n == 0 then [] else FileVisits(m, file, n - 1) + RuleVisits(m, m.rules[n - 1], file)
  }

  function Visits(m: Matrix, files: seq<Text>): seq<Visit> {
    if files == [] then []
    else
      var n := |files| - 1;
      Visits(m, files[..n]) + FileVisits(m, files[n], |m.rules|)
  }

  /** The three nested loops. */
  method GroupFiles(m: Matrix, files: seq<Text>) returns (groups: seq<Group>)
    ensures groups == GroupsOf(Visits(m, files))
  {
    hide FileVisits, RuleVisits, GroupsOf;
    NoVisits(m);
    groups := [];
    for f := 0 to |files|
      invariant groups == GroupsOf(Visits(m, files[..f]))
    {
      ghost var before := Visits(m, files[..f]);
      assert before + [] == before;
      NoFileVisits(m, files[f]);
      for r := 0 to |m.rules|
        invariant groups == GroupsOf(before + FileVisits(m, files[f], r))
      {
        groups := GroupRule(m, m.rules[r], files[f], groups, before + FileVisits(m, files[f], r));
        OneMoreRule(m, files[f], r, before);
      }
      assert files[..f + 1][..f] == files[..f];
    }
    assert files[..|files|] == files;
  }

  lemma NoVisits(m: Matrix)
    ensures GroupsOf(Visits(m, [])) == []
  {
  }

  lemma NoFileVisits(m: Matrix, file: Text)
    ensures FileVisits(m, file, 0) == []
  {
  }

  lemma OneMoreRule(m: Matrix, file: Text, r: nat, before: seq<Visit>)
    requires r < |m.rules|
    ensures before + FileVisits(m, file, r + 1) == before + FileVisits(m, file, r) + RuleVisits(m, m.rules[r], file)
  {
    hide RuleVisits;
  }

  /** The body of the second loop: one rule, one file. */
  method GroupRule(m: Matrix, rule: Rule, file: Text, before: seq<Group>, ghost visits: seq<Visit>) returns (groups: seq<Group>)
    requires before == GroupsOf(visits)
    ensures groups == GroupsOf(visits + RuleVisits(m, rule, file))
  {
    hide Touch, GroupsOf, Hits, VisitsOfRule;
    groups := before;
    assert visits + [] == visits;
    NoVisitsOfRule(rule, file);
    if rule.ignore || !Hits(m, rule, file) {
      return;
    }
    for s := 0 to |rule.specializations|
      invariant groups == GroupsOf(visits + VisitsOfRule(rule, file, s))
    {
      ghost var v := Visit(file, rule.id, rule.specializations[s]);
      GroupsOfMore(visits + VisitsOfRule(rule, file, s), v);
      OneMoreSpec(rule, file, s, visits);
      groups := Touch(groups, Visit(file, rule.id, rule.specializations[s]));
    }
  }

  lemma NoVisitsOfRule(rule: Rule, file: Text)
    ensures VisitsOfRule(rule, file, 0) == []
  {
  }

  lemma OneMoreSpec(rule: Rule, file: Text, s: nat, visits: seq<Visit>)
    requires s < |rule.specializations|
    ensures visits + VisitsOfRule(rule, file, s) + [Visit(file, rule.id, rule.specializations[s])]
         == visits + VisitsOfRule(rule, file, s + 1)
  {
  }

  // ------------------------------------------------------------ what is visited

  lemma {:induction false} VisitOfRule(rule: Rule, file: Text, n: nat, v: Visit)
    requires n <= |rule.specializations|
    ensures v in VisitsOfRule(rule, file, n) <==> v.file == file && v.rule == rule.id && v.spec in rule.specializations[..n]
  {
    if n > 0 {
      VisitOfRule(rule, file, n - 1, v);
      assert rule.specializations[..n] == rule.specializations[..n - 1] + [rule.specializations[n - 1]];
    }
  }

  lemma {:induction false} VisitOfFile(m: Matrix, file: Text, n: nat, v: Visit)
    requires n <= |m.rules|
    ensures v in FileVisits(m, file, n) <==>
            v.file == file && exists r | 0 <= r < n :: Sends(m, r, file, v.spec) && m.rules[r].id == v.rule
  {
    if n > 0 {
      VisitOfFile(m, file, n - 1, v);
      var rule := m.rules[n - 1];
      VisitOfRule(rule, file, |rule.specializations|, v);
      assert rule.specializations[..|rule.specializations|] == rule.specializations;
      assert v in RuleVisits(m, rule, file) <==> v.file == file && v.rule == rule.id && Sends(m, n - 1, file, v.spec);
    }
  }

  lemma {:induction false} VisitIff(m: Matrix, files: seq<Text>, v: Visit)
    ensures v in Visits(m, files) <==>
            v.file in files && exists r | 0 <= r < |m.rules| :: Sends(m, r, v.file, v.spec) && m.rules[r].id == v.rule
  {
    hide Sends, FileVisits;
    if files != [] {
      var n := |files| - 1;
      VisitIff(m, files[..n], v);
      VisitOfFile(m, files[n], |m.rules|, v);
      assert files == files[..n] + [files[n]];
    }
  }

  // ------------------------------------------------------------ what a group holds

  predicate RuleVisited(visits: seq<Visit>, id: Text, spec: Specialization) {
    exists i | 0 <= i < |visits| :: visits[i].rule == id && visits[i].spec == spec
  }

  predicate FileVisited(visits: seq<Visit>, file: Text, spec: Specialization) {
    exists i | 0 <= i < |visits| :: visits[i].file == file && visits[i].spec == spec
  }

  predicate SpecVisited(visits: seq<Visit>, spec: Specialization) {
    exists i | 0 <= i < |visits| :: visits[i].spec == spec
  }

  /** A group holds, each once, the rules and the files visited for its specialist. */
  ghost predicate GroupHolds(g: Group, visits: seq<Visit>) {
    && SpecVisited(visits, g.spec) && NoRepeats(g.rules) && NoRepeats(g.files)
    && (forall id :: id in g.rules <==> RuleVisited(visits, id, g.spec))
    && (forall file :: file in g.files <==> FileVisited(visits, file, g.spec))
  }

  ghost predicate Grouped(groups: seq<Group>, visits: seq<Visit>) {
    && (forall i, j | 0 <= i < j < |groups| :: groups[i].spec != groups[j].spec)
    && (forall k | 0 <= k < |groups| :: GroupHolds(groups[k], visits))
    && (forall spec | SpecVisited(visits, spec) :: GroupIndex(groups, spec) < |groups|)
  }

  lemma VisitedMore(visits: seq<Visit>, v: Visit, text: Text, spec: Specialization)
    ensures RuleVisited(visits + [v], text, spec) <==> RuleVisited(visits, text, spec) || (v.rule == text && v.spec == spec)
    ensures FileVisited(visits + [v], text, spec) <==> FileVisited(visits, text, spec) || (v.file == text && v.spec == spec)
  {
    var more := visits + [v];
    assert more[|visits|] == v;
    assert forall i | 0 <= i < |visits| :: more[i] == visits[i];
  }

  lemma SpecVisitedMore(visits: seq<Visit>, v: Visit, spec: Specialization)
    ensures SpecVisited(visits + [v], spec) <==> SpecVisited(visits, spec) || v.spec == spec
  {
    var more := visits + [v];
    assert more[|visits|] == v;
    assert forall i | 0 <= i < |visits| :: more[i] == visits[i];
  }

  lemma GroupUntouched(g: Group, visits: seq<Visit>, v: Visit)
    requires GroupHolds(g, visits) && v.spec != g.spec
    ensures GroupHolds(g, visits + [v])
  {
    hide RuleVisited, FileVisited, SpecVisited;
    SpecVisitedMore(visits, v, g.spec);
    forall text ensures (text in g.rules <==> RuleVisited(visits + [v], text, g.spec))
                     && (text in g.files <==> FileVisited(visits + [v], text, g.spec)) {
      VisitedMore(visits, v, text, g.spec);
    }
  }

  lemma GroupTouched(g: Group, visits: seq<Visit>, v: Visit)
    requires GroupHolds(g, visits) && v.spec == g.spec
    ensures GroupHolds(Group(g.spec, Added(g.rules, v.rule), Added(g.files, v.file)), visits + [v])
  {
    hide RuleVisited, FileVisited, SpecVisited;
    SpecVisitedMore(visits, v, g.spec);
    var h := Group(g.spec, Added(g.rules, v.rule), Added(g.files, v.file));
    forall text ensures (text in h.rules <==> RuleVisited(visits + [v], text, g.spec))
                     && (text in h.files <==> FileVisited(visits + [v], text, g.spec)) {
      VisitedMore(visits, v, text, g.spec);
    }
  }

  lemma GroupNew(visits: seq<Visit>, v: Visit)
    requires !SpecVisited(visits, v.spec)
    ensures GroupHolds(Group(v.spec, [v.rule], [v.file]), visits + [v])
  {
    SpecVisitedMore(visits, v, v.spec);
    forall text ensures (text in [v.rule] <==> RuleVisited(visits + [v], text, v.spec))
                     && (text in [v.file] <==> FileVisited(visits + [v], text, v.spec)) {
      VisitedMore(visits, v, text, v.spec);
    }
  }

  lemma TouchKeepsGrouped(groups: seq<Group>, visits: seq<Visit>, v: Visit)
    requires Grouped(groups, visits)
    ensures Grouped(Touch(groups, v), visits + [v])
  {
    hide GroupHolds, SpecVisited, Added;
    var k, after := GroupIndex(groups, v.spec), Touch(groups, v);
    forall i | 0 <= i < |groups| && i != k ensures GroupHolds(after[i], visits + [v]) {
      OtherGroup(groups, v.spec, i);
      GroupUntouched(groups[i], visits, v);
    }
    if k < |groups| {
      GroupTouched(groups[k], visits, v);
    } else {
      GroupNew(visits, v);
    }
    assert after[k].spec == v.spec && forall i | 0 <= i < |groups| :: after[i].spec == groups[i].spec;
    forall spec | SpecVisited(visits + [v], spec) ensures GroupIndex(after, spec) < |after| {
      SpecVisitedMore(visits, v, spec);
      IndexIffHas(groups, spec);
      IndexIffHas(after, spec);
      if spec == v.spec {
        assert after[k].spec == spec;
      } else {
        var i :| 0 <= i < |groups| && groups[i].spec == spec;
        assert after[i].spec == spec;
      }
    }
  }

  lemma OtherGroup(groups: seq<Group>, spec: Specialization, i: nat)
    requires forall i, j | 0 <= i < j < |groups| :: groups[i].spec != groups[j].spec
    requires i < |groups| && i != GroupIndex(groups, spec)
    ensures groups[i].spec != spec
  {
    var k := GroupIndex(groups, spec);
    if k < i { assert groups[k].spec != groups[i].spec; }
  }

  lemma IndexIffHas(groups: seq<Group>, spec: Specialization)
    ensures GroupIndex(groups, spec) < |groups| <==> exists i | 0 <= i < |groups| :: groups[i].spec == spec
  {
  }

  lemma {:induction false} GroupsAreGrouped(visits: seq<Visit>)
    ensures Grouped(GroupsOf(visits), visits)
  {
    if visits != [] {
      hide Grouped, Touch;
      var n := |visits| - 1;
      GroupsAreGrouped(visits[..n]);
      TouchKeepsGrouped(GroupsOf(visits[..n]), visits[..n], visits[n]);
      assert visits == visits[..n] + [visits[n]];
    }
  }

  // ------------------------------------------------------------ recommendations

  function SpecName(s: Specialization): Text {
    match s
    case MANAGEMENT => Lit("MANAGEMENT")
    case SOFTWARE_ENGINEERING => Lit("SOFTWARE_ENGINEERING")
    case PRODUCT_DESIGN => Lit("PRODUCT_DESIGN")
    case PRODUCT_MANAGEMENT => Lit("PRODUCT_MANAGEMENT")
    case AUTOMATION => Lit("AUTOMATION")
    case FINANCE => Lit("FINANCE")
    case LEGAL => Lit("LEGAL")
    case MARKETING => Lit("MARKETING")
    case OPERATIONS => Lit("OPERATIONS")
    case UX_DESIGN => Lit("UX_DESIGN")
    case PRODUCT => Lit("PRODUCT")
  }

  function Task(spec: Specialization, c: Context, files: seq<Text>): Text {
    Lit("Analisar e executar como ") + SpecName(spec) + Lit(" no workspace")
    + (if c.workspaceId.Some? && c.workspaceId.value != [] then Lit(" ") + c.workspaceId.value else [])
    + (if c.repository.Some? && c.repository.value != [] then Lit(" repo=") + c.repository.value else [])
    + (if files != [] then Lit(" arquivos=") + Join(Slice(files, 8), Lit(", ")) else [])
    + Lit(". Objetivo: ") + Slice(c.objective, 240)
  }

  function RankOf(r: Recommendation): int {
    FileRank(r.specialization)
  }

  function SpecsOf(recommendations: seq<Recommendation>): (specs: seq<Specialization>)
    ensures |specs| == |recommendations| && forall i | 0 <= i < |specs| :: specs[i] == recommendations[i].specialization
  {
    seq(|recommendations|, i requires 0 <= i < |recommendations| => recommendations[i].specialization)
  }

  function Empty(reason: Option<Text>): Outcome {
    Outcome(true, reason, [], [], [])
  }

  function Single(spec: Specialization, reason: Text, c: Context, ruleId: Text, files: seq<Text>): Outcome {
    Outcome(false, None, [Recommendation(spec, reason, Task(spec, c, files), [ruleId], files)], [], [spec])
  }

  function RecommendationOf(c: Context, g: Group): Recommendation {
    Recommendation(g.spec, Lit("Matriz de delegacao: regras ") + Join(g.rules, Lit(", ")) + Lit("."), Task(g.spec, c, g.files),
                   g.rules, g.files)
  }

  function RecommendationsOf(c: Context, groups: seq<Group>): (r: seq<Recommendation>)
    ensures |r| == |groups| && forall i | 0 <= i < |r| :: r[i] == RecommendationOf(c, groups[i])
  {
    seq(|groups|, i requires 0 <= i < |groups| => RecommendationOf(c, groups[i]))
  }

  function Of(recommendations: seq<Recommendation>): Outcome {
    Outcome(false, None, recommendations, EdgesAmong(SpecsOf(recommendations)), SpecsOf(recommendations))
  }

  function FromGroups(m: Matrix, c: Context, files: seq<Text>, groups: seq<Group>): Outcome {
    if groups != [] then Of(SortBy(RankOf, RecommendationsOf(c, groups)))
    else if exists f | 0 <= f < |files| :: !PureIgnore(m, files[f]) then
      Single(SOFTWARE_ENGINEERING, Lit("Arquivo tecnico fora da matriz explicita."), c, Lit("fallback-technical"), files)
    else Empty(Some(Lit("no_matrix_match")))
  }

  function TechnicalReasons(): set<Text> {
    {Lit("technical_file_change"), Lit("pr_open_delta"), Lit("critical_issue")}
  }

  function OperationalFields(): set<Text> {
    {Lit("lastCommitSha"), Lit("openPullRequestsCount"), Lit("openIssuesCount")}
  }

  /** Without files the reason for the change, then the fields that changed, may still call for engineering. */
  function WithoutFiles(c: Context): Outcome {
    if c.changeReason.Some? && c.changeReason.value in TechnicalReasons() then
      Single(SOFTWARE_ENGINEERING, Lit("Motivo operacional: ") + c.changeReason.value, c, Lit("change-reason"), [])
    else if exists i | 0 <= i < |c.changeFields| :: c.changeFields[i] in OperationalFields() then
      Single(SOFTWARE_ENGINEERING, Lit("Mudanca operacional GitHub sem lista de arquivos."), c, Lit("change-fields"), [])
    else Empty(None)
  }

  function Recommended(m: Matrix, c: Context): Outcome {
    if c.affectedFiles == [] then WithoutFiles(c)
    else
      var files := Actionable(m, c.affectedFiles);
      if files == [] then Empty(Some(Lit("readme_or_docs_only")))
      else FromGroups(m, c, files, GroupsOf(Visits(m, files)))
  }

  method Recommend(m: Matrix, c: Context) returns (r: Outcome)
    ensures r == Recommended(m, c)
  {
    hide GroupsOf, Visits, FromGroups;
    if c.affectedFiles == [] {
      return WithoutFiles(c);
    }
    var files := Actionable(m, c.affectedFiles);
    if files == [] {
      return Empty(Some(Lit("readme_or_docs_only")));
    }
    var groups := GroupFiles(m, files);
    r := FromGroups(m, c, files, groups);
  }

  // ------------------------------------------------------------ who is recommended

  predicate HasGroup(groups: seq<Group>, spec: Specialization) {
    exists k | 0 <= k < |groups| :: groups[k].spec == spec
  }

  lemma GroupSpecs(m: Matrix, files: seq<Text>, spec: Specialization)
    ensures HasGroup(GroupsOf(Visits(m, files)), spec) <==> Needed(m, files, spec)
  {
    var visits := Visits(m, files);
    GroupsAreGrouped(visits);
    hide GroupHolds, Visits, GroupsOf;
    var groups := GroupsOf(visits);
    if k :| 0 <= k < |groups| && groups[k].spec == spec {
      SpecIsVisited(groups[k], visits);
      var i :| 0 <= i < |visits| && visits[i].spec == spec;
      VisitIff(m, files, visits[i]);
      var f :| 0 <= f < |files| && files[f] == visits[i].file;
      assert Needs(m, files[f], spec);
    }
    if Needed(m, files, spec) {
      var f :| 0 <= f < |files| && Needs(m, files[f], spec);
      var r :| 0 <= r < |m.rules| && Sends(m, r, files[f], spec);
      var v := Visit(files[f], m.rules[r].id, spec);
      VisitIff(m, files, v);
      assert SpecVisited(visits, spec);
      assert groups[GroupIndex(groups, spec)].spec == spec;
    }
  }

  lemma SpecIsVisited(g: Group, visits: seq<Visit>)
    requires GroupHolds(g, visits)
    ensures SpecVisited(visits, g.spec)
  {
  }

  /** The rules of the matrix name ranked specialists only. */
  predicate RankedMatrix(m: Matrix) {
    forall r, s | 0 <= r < |m.rules| && s in m.rules[r].specializations :: s in Ranked()
  }

  lemma RankInjective(s: Specialization, t: Specialization)
    requires s in Ranked() && t in Ranked() && FileRank(s) == FileRank(t)
    ensures s == t
  {
    Ranks();
    hide FileRank;
  }

  lemma MembersGiveSpecs(a: seq<Recommendation>, b: seq<Recommendation>, spec: Specialization)
    requires forall r | r in a :: r in b
    requires spec in SpecsOf(a)
    ensures spec in SpecsOf(b)
  {
    var i :| 0 <= i < |a| && SpecsOf(a)[i] == spec;
    assert a[i] in b;
    var j :| 0 <= j < |b| && b[j] == a[i];
    assert SpecsOf(b)[j] == spec;
  }

  lemma NeededIsRanked(m: Matrix, files: seq<Text>, spec: Specialization)
    requires RankedMatrix(m) && Needed(m, files, spec)
    ensures spec in Ranked()
  {
    var f :| 0 <= f < |files| && Needs(m, files[f], spec);
    var r :| 0 <= r < |m.rules| && Sends(m, r, files[f], spec);
  }

  lemma GroupsDiffer(m: Matrix, c: Context, files: seq<Text>)
    requires RankedMatrix(m)
    ensures RanksDiffer(RankOf, RecommendationsOf(c, GroupsOf(Visits(m, files))))
  {
    var groups := GroupsOf(Visits(m, files));
    var recommendations := RecommendationsOf(c, groups);
    GroupsAreGrouped(Visits(m, files));
    hide GroupsOf, Visits, GroupHolds, Ranked, FileRank;
    forall i, j | 0 <= i < j < |groups| ensures RankOf(recommendations[i]) != RankOf(recommendations[j]) {
      assert HasGroup(groups, groups[i].spec) && HasGroup(groups, groups[j].spec);
      GroupSpecs(m, files, groups[i].spec);
      GroupSpecs(m, files, groups[j].spec);
      NeededIsRanked(m, files, groups[i].spec);
      NeededIsRanked(m, files, groups[j].spec);
      if FileRank(groups[i].spec) == FileRank(groups[j].spec) {
        RankInjective(groups[i].spec, groups[j].spec);
      }
    }
  }

  function SortedOf(m: Matrix, c: Context, files: seq<Text>): seq<Recommendation> {
    SortBy(RankOf, RecommendationsOf(c, GroupsOf(Visits(m, files))))
  }

  lemma SortedIsStrict(m: Matrix, c: Context, files: seq<Text>)
    requires RankedMatrix(m)
    ensures StrictlyAscending(FileRank, SpecsOf(SortedOf(m, c, files)))
    ensures forall r :: r in SortedOf(m, c, files) <==> r in RecommendationsOf(c, GroupsOf(Visits(m, files)))
  {
    var sorted := SortedOf(m, c, files);
    GroupsDiffer(m, c, files);
    SortStrict(RankOf, RecommendationsOf(c, GroupsOf(Visits(m, files))));
    hide GroupsOf, Visits, SortBy, FileRank, RankedMatrix, SortedOf;
    forall i, j | 0 <= i < j < |sorted| ensures FileRank(SpecsOf(sorted)[i]) < FileRank(SpecsOf(sorted)[j]) {
      assert RankOf(sorted[i]) < RankOf(sorted[j]);
    }
  }

  /** With files to act on, exactly the needed specialists are recommended, in strict order of rank. */
  lemma FromFilesSpecs(m: Matrix, c: Context, files: seq<Text>)
    requires RankedMatrix(m)
    ensures var specs := SpecsOf(SortedOf(m, c, files));
            && StrictlyAscending(FileRank, specs)
            && (forall spec :: spec in specs <==> Needed(m, files, spec))
            && (GroupsOf(Visits(m, files)) == [] <==> specs == [])
  {
    var groups, sorted := GroupsOf(Visits(m, files)), SortedOf(m, c, files);
    var recommendations := RecommendationsOf(c, groups);
    SortedIsStrict(m, c, files);
    hide GroupsOf, Visits, SortedOf, Needed, FileRank, RankedMatrix, HasGroup;
    forall spec ensures spec in SpecsOf(sorted) <==> Needed(m, files, spec) {
      GroupSpecs(m, files, spec);
      GroupRecommended(c, groups, spec);
      if spec in SpecsOf(sorted) { MembersGiveSpecs(sorted, recommendations, spec); }
      if spec in SpecsOf(recommendations) { MembersGiveSpecs(recommendations, sorted, spec); }
    }
    assert recommendations != [] ==> recommendations[0] in sorted;
    assert sorted != [] ==> sorted[0] in recommendations;
  }

  lemma GroupRecommended(c: Context, groups: seq<Group>, spec: Specialization)
    ensures HasGroup(groups, spec) <==> spec in SpecsOf(RecommendationsOf(c, groups))
  {
    var specs := SpecsOf(RecommendationsOf(c, groups));
    assert forall k | 0 <= k < |groups| :: specs[k] == groups[k].spec;
  }

  /** Every member of an actionable list is not documentation only, so the fallback always finds one. */
  lemma {:induction false} ActionableMembers(m: Matrix, files: seq<Text>)
    ensures forall file :: file in Actionable(m, files) <==> file in files && !PureIgnore(m, file)
  {
    if files != [] {
      hide PureIgnore;
      ActionableMembers(m, files[1..]);
      assert files == [files[0]] + files[1..];
    }
  }

  predicate RecommendsFrom(m: Matrix, c: Context) {
    Actionable(m, c.affectedFiles) != []
  }

  /**
   * The specialists recommended for a list with something to act on: those some file needs, or engineering
   * when no file needs any; each once, in order of rank, which is an order of their dependencies.
   */
  lemma RecommendedSpecs(m: Matrix, c: Context)
    requires RankedMatrix(m) && RecommendsFrom(m, c)
    ensures var r := Recommended(m, c);
            && !r.ignored
            && (forall spec :: spec in r.specializations <==> Called(m, Actionable(m, c.affectedFiles), spec))
            && StrictlyAscending(FileRank, r.specializations) && Topological(r.specializations)
            && r.edges == EdgesAmong(r.specializations)
            && r.specializations == SpecsOf(r.recommendations)
  {
    RecommendedShape(m, c);
    ListIsCalled(m, c, Actionable(m, c.affectedFiles));
    hide GroupsOf, Visits, SortedOf, Called, Actionable, RankedMatrix, FileRank, EdgesFrom, Recommended;
    AscendingIsTopological(FileRank, Recommended(m, c).specializations);
  }

  lemma ListIsCalled(m: Matrix, c: Context, files: seq<Text>)
    requires RankedMatrix(m)
    ensures var specs := if GroupsOf(Visits(m, files)) == [] then [SOFTWARE_ENGINEERING] else SpecsOf(SortedOf(m, c, files));
            StrictlyAscending(FileRank, specs) && forall spec :: spec in specs <==> Called(m, files, spec)
  {
    FromFilesSpecs(m, c, files);
    hide GroupsOf, Visits, SortedOf, Needed, RankedMatrix, FileRank;
    var sorted := SpecsOf(SortedOf(m, c, files));
    assert sorted != [] ==> sorted[0] in sorted;
    assert sorted == [] ==> forall spec :: !Needed(m, files, spec);
  }

  /** Some file needs the specialist, or no file needs any and engineering stands in. */
  predicate Called(m: Matrix, files: seq<Text>, spec: Specialization) {
    Needed(m, files, spec) || (spec == SOFTWARE_ENGINEERING && forall other :: !Needed(m, files, other))
  }

  lemma RecommendedShape(m: Matrix, c: Context)
    requires RecommendsFrom(m, c)
    ensures var r, files := Recommended(m, c), Actionable(m, c.affectedFiles);
            && !r.ignored && r.edges == EdgesAmong(r.specializations) && r.specializations == SpecsOf(r.recommendations)
            && r.specializations == if GroupsOf(Visits(m, files)) == [] then [SOFTWARE_ENGINEERING] else SpecsOf(SortedOf(m, c, files))
  {
    var files := Actionable(m, c.affectedFiles);
    ActionableMembers(m, c.affectedFiles);
    assert files[0] in files;
    NoEdges(SOFTWARE_ENGINEERING);
    assert c.affectedFiles != [] by { assert files[0] in c.affectedFiles; }
    hide GroupsOf, Visits, SortBy, PureIgnore, Actionable, EdgesAmong, Task;
  }

  lemma NoEdges(spec: Specialization)
    ensures EdgesAmong([spec]) == [] && EdgesAmong([]) == []
  {
    NoEdgesFrom([spec], DefaultEdges());
    NoEdgesFrom([], DefaultEdges());
  }

  lemma {:induction false} NoEdgesFrom(specs: seq<Specialization>, links: seq<Edge>)
    requires forall i | 0 <= i < |links| :: !Linked(specs, links[i])
    ensures EdgesFrom(specs, links) == []
  {
    if links != [] {
      NoEdgesFrom(specs, links[..|links| - 1]);
    }
  }

  /** The specialists, and so their dependencies, depend on the set of files only. */
  lemma SetOfFilesDecides(m: Matrix, c: Context, d: Context)
    requires RankedMatrix(m) && RecommendsFrom(m, c)
    requires forall file :: file in c.affectedFiles <==> file in d.affectedFiles
    ensures RecommendsFrom(m, d)
    ensures Recommended(m, c).specializations == Recommended(m, d).specializations
    ensures Recommended(m, c).edges == Recommended(m, d).edges
  {
    ActionableMembers(m, c.affectedFiles);
    ActionableMembers(m, d.affectedFiles);
    var files, others := Actionable(m, c.affectedFiles), Actionable(m, d.affectedFiles);
    assert files[0] in others;
    RecommendedSpecs(m, c);
    RecommendedSpecs(m, d);
    hide Actionable, PureIgnore, Recommended, RankedMatrix, FileRank, Topological, Called, StrictlyAscending;
    forall spec ensures Called(m, files, spec) <==> Called(m, others, spec) {
      CalledByMembers(m, files, others, spec);
    }
    StrictUnique(FileRank, Recommended(m, c).specializations, Recommended(m, d).specializations);
  }

  lemma CalledByMembers(m: Matrix, files: seq<Text>, others: seq<Text>, spec: Specialization)
    requires forall file :: file in files <==> file in others
    ensures Called(m, files, spec) <==> Called(m, others, spec)
  {
    forall any ensures Needed(m, files, any) <==> Needed(m, others, any) {
      if Needed(m, files, any) { NeededByMembers(m, files, others, any); }
      if Needed(m, others, any) { NeededByMembers(m, others, files, any); }
    }
    hide Needed;
  }

  lemma NeededByMembers(m: Matrix, files: seq<Text>, others: seq<Text>, spec: Specialization)
    requires Needed(m, files, spec) && forall file | file in files :: file in others
    ensures Needed(m, others, spec)
  {
    var f :| 0 <= f < |files| && Needs(m, files[f], spec);
    assert files[f] in others;
    var g :| 0 <= g < |others| && others[g] == files[f];
    assert Needs(m, others[g], spec);
  }

  /** Adding a documentation-only file to a list with something to act on changes nothing at all. */
  lemma DocumentationIsIrrelevant(m: Matrix, c: Context, file: Text, k: nat)
    requires PureIgnore(m, file) && k <= |c.affectedFiles| && RecommendsFrom(m, c)
    ensures var more := c.affectedFiles[..k] + [file] + c.affectedFiles[k..];
            Recommended(m, c.(affectedFiles := more)) == Recommended(m, c)
  {
    var files := c.affectedFiles;
    var more := files[..k] + [file] + files[k..];
    ActionableConcat(m, files[..k], [file] + files[k..]);
    ActionableConcat(m, [file], files[k..]);
    ActionableConcat(m, files[..k], files[k..]);
    assert files[..k] + ([file] + files[k..]) == more && files[..k] + files[k..] == files;
    assert Actionable(m, [file]) == [] by { assert [file][1..] == []; }
    assert Actionable(m, more) == Actionable(m, files);
    FromGroupsIgnoresFiles(m, c, c.(affectedFiles := more), Actionable(m, files));
  }

  lemma {:induction false} ActionableConcat(m: Matrix, a: seq<Text>, b: seq<Text>)
    ensures Actionable(m, a + b) == Actionable(m, a) + Actionable(m, b)
  {
    hide PureIgnore;
    if a == [] {
      assert a + b == b;
    } else {
      assert (a + b)[1..] == a[1..] + b;
      ActionableConcat(m, a[1..], b);
    }
  }

  /** Of the context, a recommendation uses only what is not the list of files. */
  lemma FromGroupsIgnoresFiles(m: Matrix, c: Context, d: Context, files: seq<Text>)
    requires d == c.(affectedFiles := d.affectedFiles)
    ensures FromGroups(m, c, files, GroupsOf(Visits(m, files))) == FromGroups(m, d, files, GroupsOf(Visits(m, files)))
  {
    var groups := GroupsOf(Visits(m, files));
    hide GroupsOf, Visits, SortBy;
    forall i | 0 <= i < |groups| ensures RecommendationOf(c, groups[i]) == RecommendationOf(d, groups[i]) {
      assert Task(groups[i].spec, c, groups[i].files) == Task(groups[i].spec, d, groups[i].files);
    }
    assert RecommendationsOf(c, groups) == RecommendationsOf(d, groups);
    assert Task(SOFTWARE_ENGINEERING, c, files) == Task(SOFTWARE_ENGINEERING, d, files);
  }

  /**
   * A group names, each once, exactly the files that need its specialist and exactly the rules that send
   * one of them there.
   */
  lemma GroupNames(m: Matrix, files: seq<Text>, g: Group)
    requires g in GroupsOf(Visits(m, files))
    ensures NoRepeats(g.files) && NoRepeats(g.rules)
    ensures forall file :: file in g.files <==> file in files && Needs(m, file, g.spec)
    ensures forall id :: id in g.rules <==> RuleApplies(m, files, g.spec, id)
  {
    var visits := Visits(m, files);
    GroupsAreGrouped(visits);
    assert GroupHolds(g, visits);
    hide Visits, GroupsOf;
    forall file ensures file in g.files <==> file in files && Needs(m, file, g.spec) {
      FileVisitedIff(m, files, file, g.spec);
    }
    forall id ensures id in g.rules <==> RuleApplies(m, files, g.spec, id) {
      RuleVisitedIff(m, files, id, g.spec);
    }
  }

  lemma FileVisitedIff(m: Matrix, files: seq<Text>, file: Text, spec: Specialization)
    ensures FileVisited(Visits(m, files), file, spec) <==> file in files && Needs(m, file, spec)
  {
    var visits := Visits(m, files);
    hide Visits, Sends;
    if i :| 0 <= i < |visits| && visits[i].file == file && visits[i].spec == spec {
      VisitIff(m, files, visits[i]);
    }
    if file in files && Needs(m, file, spec) {
      var r :| 0 <= r < |m.rules| && Sends(m, r, file, spec);
      VisitIff(m, files, Visit(file, m.rules[r].id, spec));
    }
  }

  lemma RuleVisitedIff(m: Matrix, files: seq<Text>, id: Text, spec: Specialization)
    ensures RuleVisited(Visits(m, files), id, spec) <==> RuleApplies(m, files, spec, id)
  {
    var visits := Visits(m, files);
    hide Visits, Sends;
    if i :| 0 <= i < |visits| && visits[i].rule == id && visits[i].spec == spec {
      VisitIff(m, files, visits[i]);
      var f :| 0 <= f < |files| && files[f] == visits[i].file;
      var r :| 0 <= r < |m.rules| && Sends(m, r, files[f], spec) && m.rules[r].id == id;
    }
    if RuleApplies(m, files, spec, id) {
      var f, r :| 0 <= f < |files| && 0 <= r < |m.rules| && Sends(m, r, files[f], spec) && m.rules[r].id == id;
      VisitIff(m, files, Visit(files[f], id, spec));
    }
  }

  // ------------------------------------------------------------ validation

  /** Specialists with no capacity left, and how many delegations are wanted, eight unless said. */
  datatype Options = Options(saturated: set<Specialization>, maxDelegations: Option<int>)

  function Limit(o: Options): int {
    if o.maxDelegations.Some? then o.maxDelegations.value else 8
  }

  /** Whether an item passes, given those before it. */
  predicate Passes(o: Options, items: seq<Recommendation>, i: nat)
    requires i < |items|
  {
    && items[i].specialization != MANAGEMENT && items[i].specialization !in o.saturated
    && forall j | 0 <= j < i :: items[j].specialization != items[i].specialization
  }

  /** The items that pass, in order. */
  function Passing(o: Options, items: seq<Recommendation>): seq<Recommendation> {
    if items == [] then []
    else
      var n := |items| - 1;
      Passing(o, items[..n]) + if Passes(o, items, n) then [items[n]] else []
  }

  /** The loop stops after the item that reaches the limit, so one item is kept whatever the limit. */
  function Within(o: Options, items: seq<Recommendation>): seq<Recommendation> {
    Slice(items, if Limit(o) > 1 then Limit(o) else 1)
  }

  function Validated(o: Options, r: Outcome): Outcome {
    if r.ignored || r.recommendations == [] then r
    else
      var kept := Within(o, Passing(o, r.recommendations));
      if kept == [] then Empty(Some(Lit("filtered_by_validation"))) else Of(kept)
  }

  lemma {:induction false} PassingMembers(o: Options, items: seq<Recommendation>)
    ensures forall s :: s in SpecsOf(Passing(o, items)) <==> s in SpecsOf(items) && s != MANAGEMENT && s !in o.saturated
    ensures NoRepeats(SpecsOf(Passing(o, items)))
  {
    if items != [] {
      var n := |items| - 1;
      PassingMembers(o, items[..n]);
      PassesIffNew(o, items);
      hide Passes, SpecsOf;
      SpecsOfMore(items[..n], items[n]);
      assert items == items[..n] + [items[n]];
      if Passes(o, items, n) {
        SpecsOfMore(Passing(o, items[..n]), items[n]);
      } else {
        assert Passing(o, items) == Passing(o, items[..n]);
      }
    }
  }

  lemma SpecsOfMore(items: seq<Recommendation>, x: Recommendation)
    ensures SpecsOf(items + [x]) == SpecsOf(items) + [x.specialization]
  {
  }

  lemma PassesIffNew(o: Options, items: seq<Recommendation>)
    requires items != []
    ensures var n := |items| - 1;
            var s := items[n].specialization;
            Passes(o, items, n) <==> s != MANAGEMENT && s !in o.saturated && s !in SpecsOf(items[..n])
  {
    var n := |items| - 1;
    var specs := SpecsOf(items[..n]);
    assert forall j | 0 <= j < n :: specs[j] == items[j].specialization;
  }

  method Validate(o: Options, r: Outcome) returns (v: Outcome)
    ensures v == Validated(o, r)
  {
    if r.ignored || r.recommendations == [] {
      return r;
    }
    var items := r.recommendations;
    var max := if o.maxDelegations.Some? then o.maxDelegations.value else 8;
    var seen: set<Specialization> := {};
    var kept: seq<Recommendation> := [];
    var i := 0;
    var full := false;
    hide Passes, SpecsOf;
    assert items[..0] == [];
    NoSpecs();
    while i < |items| && !full
      invariant 0 <= i <= |items| && kept == Passing(o, items[..i])
      invariant full <==> kept != [] && |kept| >= max
      invariant |kept| <= if max > 1 then max else 1
      invariant !full ==> forall s :: s in seen <==> s in SpecsOf(kept)
      decreases |items| - i
    {
      var item := items[i];
      ghost var before := kept;
      assert items[..i + 1][..i] == items[..i] && items[..i + 1][i] == item;
      PassesIffNew(o, items[..i + 1]);
      PassingMembers(o, items[..i]);
      if item.specialization != MANAGEMENT && item.specialization !in o.saturated && item.specialization !in seen {
        seen := seen + {item.specialization};
        kept := kept + [item];
        full := |kept| >= max;
        SpecsOfMore(before, item);
      }
      i := i + 1;
    }
    PassingPrefix(o, items, i);
    assert kept == Within(o, Passing(o, items)) by {
      assert items[..|items|] == items;
    }
    if kept == [] {
      return Empty(Some(Lit("filtered_by_validation")));
    }
    var specializations := SpecsOf(kept);
    var edges := InferDefaultEdges(specializations);
    v := Outcome(false, None, kept, edges, specializations);
  }

  lemma NoSpecs()
    ensures SpecsOf([]) == []
  {
  }

  lemma {:induction false} PassingPrefix(o: Options, items: seq<Recommendation>, i: nat)
    requires i <= |items|
    ensures Passing(o, items[..i]) <= Passing(o, items)
    decreases |items| - i
  {
    if i < |items| {
      PassingPrefix(o, items, i + 1);
      assert items[..i + 1][..i] == items[..i];
    } else {
      assert items[..i] == items;
    }
  }

  /**
   * What validation keeps: of an outcome with something in it, the first items, up to the limit but at least
   * one, of those that are neither management nor saturated nor repeated; nothing only if none is left.
   */
  lemma ValidationKeeps(o: Options, r: Outcome)
    requires !r.ignored && r.recommendations != []
    ensures var v, passing := Validated(o, r), Passing(o, r.recommendations);
            && v.recommendations <= passing
            && var max := if o.maxDelegations.Some? then o.maxDelegations.value else 8;
            && |v.recommendations| == (if max <= 1 then (if passing == [] then 0 else 1)
                                       else if max <= |passing| then max else |passing|)
            && (v.ignored <==> passing == [])
            && v.specializations == SpecsOf(v.recommendations) && v.edges == EdgesAmong(v.specializations)
            && NoRepeats(v.specializations)
            && (forall s | s in v.specializations :: s in SpecsOf(r.recommendations) && s != MANAGEMENT && s !in o.saturated)
  {
    var passing := Passing(o, r.recommendations);
    PassingMembers(o, r.recommendations);
    var v := Validated(o, r);
    hide Passing, EdgesFrom;
    NoEdges(MANAGEMENT);
    assert |v.recommendations| <= |passing| && forall i | 0 <= i < |v.recommendations| :: v.recommendations[i] == passing[i];
    forall i | 0 <= i < |v.specializations| ensures v.specializations[i] == SpecsOf(passing)[i] {
    }
    forall s | s in v.specializations ensures s in SpecsOf(passing) {
    }
  }

  lemma {:induction false} AllPass(o: Options, items: seq<Recommendation>)
    requires NoRepeats(SpecsOf(items)) && MANAGEMENT !in SpecsOf(items) && forall s | s in SpecsOf(items) :: s !in o.saturated
    ensures Passing(o, items) == items
  {
    if items != [] {
      var n := |items| - 1;
      assert items == items[..n] + [items[n]];
      SpecsOfMore(items[..n], items[n]);
      AllPass(o, items[..n]);
      PassesIffNew(o, items);
      hide Passes;
      assert SpecsOf(items)[n] == items[n].specialization;
      assert forall j | 0 <= j < n :: SpecsOf(items[..n])[j] == SpecsOf(items)[j];
    }
  }

  /** Validating twice with the same options changes nothing more. */
  lemma ValidateIdempotent(o: Options, r: Outcome)
    ensures Validated(o, Validated(o, r)) == Validated(o, r)
  {
    if !r.ignored && r.recommendations != [] {
      ValidationKeeps(o, r);
      var v := Validated(o, r);
      hide Passing, EdgesFrom;
      if v.recommendations != [] {
        AllPass(o, v.recommendations);
      }
    }
  }

  /**
   * Validation of a recommendation keeps the order of dependencies, and drops what a kept specialist
   * depends on only when that has no capacity left.
   */
  lemma ValidationKeepsPrerequisites(m: Matrix, c: Context, o: Options, e: Edge)
    requires RankedMatrix(m) && RecommendsFrom(m, c)
    ensures Topological(Validated(o, Recommended(m, c)).specializations)
    ensures var r, v := Recommended(m, c), Validated(o, Recommended(m, c));
            e in r.edges && e.next in v.specializations ==> e.prior in v.specializations || e.prior in o.saturated
  {
    var r, v := Recommended(m, c), Validated(o, Recommended(m, c));
    RecommendedSpecs(m, c);
    RecommendedSome(m, c);
    hide Recommended, RankedMatrix, RecommendsFrom, Called, EdgesAmong, FileRank, Topological, Validated;
    ValidatedIsPrefix(o, r);
    if e in r.edges && e.next in v.specializations && e.prior !in o.saturated {
      PrerequisiteKept(o, r, e);
    }
  }

  /** The specializations of a validated outcome are a start of those that pass, still in strict order. */
  lemma ValidatedIsPrefix(o: Options, r: Outcome)
    requires !r.ignored && r.recommendations != [] && StrictlyAscending(FileRank, SpecsOf(r.recommendations))
    ensures var passing, v := SpecsOf(Passing(o, r.recommendations)), Validated(o, r).specializations;
            && v <= passing && StrictlyAscending(FileRank, passing) && Topological(passing) && Topological(v)
  {
    var passing, v := SpecsOf(Passing(o, r.recommendations)), Validated(o, r).specializations;
    ValidationKeeps(o, r);
    PassingStrict(o, r.recommendations);
    hide EdgesAmong, FileRank, Passing, Topological, Validated;
    assert forall i | 0 <= i < |v| :: v[i] == passing[i];
    AscendingIsTopological(FileRank, passing);
    AscendingIsTopological(FileRank, v);
  }

  lemma PrerequisiteKept(o: Options, r: Outcome, e: Edge)
    requires !r.ignored && r.recommendations != [] && StrictlyAscending(FileRank, SpecsOf(r.recommendations))
    requires e in EdgesAmong(SpecsOf(r.recommendations)) && e.next in Validated(o, r).specializations && e.prior !in o.saturated
    ensures e.prior in Validated(o, r).specializations
  {
    var passing, v := SpecsOf(Passing(o, r.recommendations)), Validated(o, r).specializations;
    ValidatedIsPrefix(o, r);
    assert v <= passing && passing[..|v|] == v;
    hide FileRank, Passing, Topological, Validated, EdgesAmong;
    EdgePasses(o, r.recommendations, e);
    StrictNoRepeats(passing);
    CutKeepsPrerequisites(passing, |v|, e);
  }

  /** A dependency among the items, of an end that passes and a start with capacity, is one among those that pass. */
  lemma EdgePasses(o: Options, items: seq<Recommendation>, e: Edge)
    requires e in EdgesAmong(SpecsOf(items)) && e.next in SpecsOf(Passing(o, items)) && e.prior !in o.saturated
    ensures e in EdgesAmong(SpecsOf(Passing(o, items)))
  {
    PassingMembers(o, items);
    EdgesFromIff(SpecsOf(items), DefaultEdges());
    EdgesFromIff(SpecsOf(Passing(o, items)), DefaultEdges());
    hide EdgesFrom, Passing, SpecsOf;
  }

  lemma RecommendedSome(m: Matrix, c: Context)
    requires RankedMatrix(m) && RecommendsFrom(m, c)
    ensures Recommended(m, c).recommendations != []
  {
    RecommendedShape(m, c);
    FromFilesSpecs(m, c, Actionable(m, c.affectedFiles));
    hide GroupsOf, Visits, SortedOf, Needed, Actionable, RankedMatrix, FileRank, Recommended;
  }

  lemma StrictNoRepeats(specs: seq<Specialization>)
    requires StrictlyAscending(FileRank, specs)
    ensures NoRepeats(specs)
  {
    forall i, j | 0 <= i < j < |specs| ensures specs[i] != specs[j] {
      assert FileRank(specs[i]) < FileRank(specs[j]);
    }
  }

  lemma {:induction false} PassingStrict(o: Options, items: seq<Recommendation>)
    requires StrictlyAscending(FileRank, SpecsOf(items))
    ensures StrictlyAscending(FileRank, SpecsOf(Passing(o, items)))
  {
    if items != [] {
      var n := |items| - 1;
      hide FileRank, Passes, SpecsOf;
      assert items == items[..n] + [items[n]];
      SpecsOfMore(items[..n], items[n]);
      FrontStrict(SpecsOf(items[..n]), items[n].specialization);
      PassingStrict(o, items[..n]);
      PassingMembers(o, items[..n]);
      SpecsOfMore(Passing(o, items[..n]), items[n]);
      var before := SpecsOf(Passing(o, items[..n]));
      forall i | 0 <= i < |before| ensures FileRank(before[i]) < FileRank(items[n].specialization) {
        assert before[i] in before;
        RanksBelow(SpecsOf(items[..n]), items[n].specialization, before[i]);
      }
    }
  }

  lemma FrontStrict(front: seq<Specialization>, last: Specialization)
    requires StrictlyAscending(FileRank, front + [last])
    ensures StrictlyAscending(FileRank, front)
  {
    hide FileRank;
    assert forall i | 0 <= i < |front| :: (front + [last])[i] == front[i];
  }

  lemma RanksBelow(front: seq<Specialization>, last: Specialization, s: Specialization)
    requires StrictlyAscending(FileRank, front + [last]) && s in front
    ensures FileRank(s) < FileRank(last)
  {
    hide FileRank;
    var k :| 0 <= k < |front| && front[k] == s;
    assert (front + [last])[k] == s && (front + [last])[|front|] == last;
  }

  // ------------------------------------------------------------ the default matrix

  function Specialists(id: string, patterns: seq<Text>, specializations: seq<Specialization>): Rule {
    Rule(Lit(id), patterns, specializations, false)
  }

  function DefaultRules(): seq<Rule> {
    [Rule(Lit("docs-readme"), [Lit("README"), Lit("README.*"), Lit("docs/**"), Lit("doc/**")], [], true),
     Specialists("backend-api-packages", [Lit("apps/api/**"), Lit("packages/**"), Lit("*.ts"), Lit("*.tsx")], [SOFTWARE_ENGINEERING]),
     Specialists("frontend-web", [Lit("apps/web/**"), Lit("*.vue"), Lit("*.css"), Lit("*.scss")], [PRODUCT_DESIGN, SOFTWARE_ENGINEERING]),
     Specialists("infra", [Lit("infra/**"), Lit("Dockerfile"), Lit("Dockerfile.*"), Lit("docker-compose*"), Lit("*.yaml"), Lit("*.yml")],
                 [AUTOMATION]),
     Specialists("legal", [Lit("legal/**"), Lit("contracts/**"), Lit("privacy/**")], [LEGAL]),
     Specialists("marketing", [Lit("marketing/**"), Lit("landing/**")], [MARKETING]),
     Specialists("finance", [Lit("finance/**"), Lit("billing/**")], [FINANCE]),
     Specialists("product", [Lit("product/**"), Lit("roadmap/**")], [PRODUCT_MANAGEMENT]),
     Specialists("operations", [Lit("operations/**")], [OPERATIONS]),
     Specialists("migrations", [Lit("**/migrations/**"), Lit("prisma/migrations/**")], [SOFTWARE_ENGINEERING]),
     Specialists("package-json", [Lit("package.json"), Lit("**/package.json")], [SOFTWARE_ENGINEERING])]
  }

  lemma DefaultMatrixIsRanked(matches: (Text, Text) -> bool)
    ensures RankedMatrix(Matrix(DefaultRules(), matches))
  {
    hide Lit;
  }
}
