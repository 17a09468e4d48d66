/**
 * What the delegation engine answers, said about the context and the patterns of the rules themselves
 * (packages/agents/src/operaia-ceo/delegation-engine.ts:61-105, 163-228, 262-283).
 */
module DelegationOutcomes {
  import opened Texts
  import opened TextMeaning
  import opened Specializations
  import opened Delegation

  // ------------------------------------------------------------ what a task says

  function NameOf(spec: Specialization): string {
    match spec
    case MANAGEMENT => "MANAGEMENT"
    case SOFTWARE_ENGINEERING => "SOFTWARE_ENGINEERING"
    case PRODUCT_DESIGN => "PRODUCT_DESIGN"
    case PRODUCT_MANAGEMENT => "PRODUCT_MANAGEMENT"
    case AUTOMATION => "AUTOMATION"
    case FINANCE => "FINANCE"
    case LEGAL => "LEGAL"
    case MARKETING => "MARKETING"
    case OPERATIONS => "OPERATIONS"
    case UX_DESIGN => "UX_DESIGN"
    case PRODUCT => "PRODUCT"
  }

  /** A part of the task that is there when a text is given and not empty. */
  function Named(intro: string, given: Option<Text>): Text {
    if given.None? || given == Some([]) then [] else Lit(intro) + given.value
  }

  /** The first eight files, with commas between them. */
  function FirstFiles(files: seq<Text>): Text {
    if files == [] then []
    else Lit(" arquivos=") + Chain(if |files| > 8 then files[..8] else files, Lit(", "))
  }

  /** Specialist, workspace, repository, files and the first 240 units of the objective. */
  function TaskText(spec: Specialization, c: Context, files: seq<Text>): Text {
    Lit("Analisar e executar como ") + Lit(NameOf(spec)) + Lit(" no workspace")
    + Named(" ", c.workspaceId) + Named(" repo=", c.repository) + FirstFiles(files)
    + Lit(". Objetivo: ") + if |c.objective| > 240 then c.objective[..240] else c.objective
  }

  lemma NameIs(spec: Specialization)
    ensures SpecName(spec) == Lit(NameOf(spec))
  {
    hide Lit;
  }

  lemma FilesSaid(files: seq<Text>)
    ensures (if files != [] then Lit(" arquivos=") + Join(Slice(files, 8), Lit(", ")) else []) == FirstFiles(files)
  {
    JoinIsChain(Slice(files, 8), Lit(", "));
    hide Lit, Chain, Join;
    assert Slice(files, 8) == if |files| > 8 then files[..8] else files;
  }

  lemma ObjectiveSaid(objective: Text)
    ensures Slice(objective, 240) == if |objective| > 240 then objective[..240] else objective
  {
  }

  lemma TaskSays(spec: Specialization, c: Context, files: seq<Text>)
    ensures Task(spec, c, files) == TaskText(spec, c, files)
  {
    NameIs(spec);
    FilesSaid(files);
    ObjectiveSaid(c.objective);
    hide Lit, Join, SpecName, NameOf, Slice, FirstFiles;
  }

  // ------------------------------------------------------------ without files

  /** The reason for the change is one of the three technical ones. */
  predicate TechnicalReason(c: Context) {
    c.changeReason == Some(Lit("technical_file_change")) || c.changeReason == Some(Lit("pr_open_delta"))
    || c.changeReason == Some(Lit("critical_issue"))
  }

  /** Some field that changed is one of the three operational ones. */
  predicate OperationalField(c: Context) {
    exists i | 0 <= i < |c.changeFields| ::
      c.changeFields[i] == Lit("lastCommitSha") || c.changeFields[i] == Lit("openPullRequestsCount")
      || c.changeFields[i] == Lit("openIssuesCount")
  }

  /** Engineering alone, without files or dependencies, for this reason and under this rule. */
  predicate EngineeringAlone(c: Context, r: Outcome, reason: Text, rule: Text) {
    r == Outcome(false, None, [Recommendation(SOFTWARE_ENGINEERING, reason, TaskText(SOFTWARE_ENGINEERING, c, []), [rule], [])], [],
                 [SOFTWARE_ENGINEERING])
  }

  /**
   * Without files something is recommended exactly for a technical reason or an operational field: then it is
   * engineering alone, under the rule of the reason before that of the fields.
   */
  lemma WithoutFilesIff(m: Matrix, c: Context)
    requires c.affectedFiles == []
    ensures var r := Recommended(m, c);
            if TechnicalReason(c) then
              EngineeringAlone(c, r, Lit("Motivo operacional: ") + c.changeReason.value, Lit("change-reason"))
            else if OperationalField(c) then
              EngineeringAlone(c, r, Lit("Mudanca operacional GitHub sem lista de arquivos."), Lit("change-fields"))
            else r == Outcome(true, None, [], [], [])
  {
    TaskSays(SOFTWARE_ENGINEERING, c, []);
    hide Lit, Task, TaskText;
  }

  // ------------------------------------------------------------ what the patterns take

  /** A rule that is not an ignore rule names the specialist, and one of its patterns matches the file. */
  predicate Asks(m: Matrix, file: Text, spec: Specialization) {
    exists r, p | 0 <= r < |m.rules| && 0 <= p < |m.rules[r].patterns| ::
      !m.rules[r].ignore && spec in m.rules[r].specializations && m.matches(file, m.rules[r].patterns[p])
  }

  /** A pattern of an ignore rule matches the file, and the file asks for no specialist. */
  predicate DocumentationOnly(m: Matrix, file: Text) {
    && (exists r, p | 0 <= r < |m.rules| && 0 <= p < |m.rules[r].patterns| ::
          m.rules[r].ignore && m.matches(file, m.rules[r].patterns[p]))
    && forall spec :: !Asks(m, file, spec)
  }

  lemma NeedsAsks(m: Matrix, file: Text, spec: Specialization)
    ensures Needs(m, file, spec) <==> Asks(m, file, spec)
  {
    if Needs(m, file, spec) {
      var r :| 0 <= r < |m.rules| && Sends(m, r, file, spec);
      var p :| 0 <= p < |m.rules[r].patterns| && m.matches(file, m.rules[r].patterns[p]);
      assert !m.rules[r].ignore && spec in m.rules[r].specializations;
    }
    if Asks(m, file, spec) {
      var r, p :| 0 <= r < |m.rules| && 0 <= p < |m.rules[r].patterns|
        && !m.rules[r].ignore && spec in m.rules[r].specializations && m.matches(file, m.rules[r].patterns[p]);
      assert Hits(m, m.rules[r], file);
      assert Sends(m, r, file, spec);
    }
  }

  lemma TechnicalAsks(m: Matrix, file: Text)
    ensures Technical(m, file) <==> exists spec :: Asks(m, file, spec)
  {
    if Technical(m, file) {
      var r :| 0 <= r < |m.rules| && !m.rules[r].ignore && m.rules[r].specializations != [] && Hits(m, m.rules[r], file);
      var spec := m.rules[r].specializations[0];
      assert Sends(m, r, file, spec);
      NeedsAsks(m, file, spec);
    }
    if spec :| Asks(m, file, spec) {
      NeedsAsks(m, file, spec);
      var r :| 0 <= r < |m.rules| && Sends(m, r, file, spec);
      assert m.rules[r].specializations != [];
    }
  }

  lemma IgnoredIff(m: Matrix, file: Text)
    ensures Ignored(m, file) <==> exists r, p | 0 <= r < |m.rules| && 0 <= p < |m.rules[r].patterns| ::
                                    m.rules[r].ignore && m.matches(file, m.rules[r].patterns[p])
  {
    if Ignored(m, file) {
      var r :| 0 <= r < |m.rules| && m.rules[r].ignore && Hits(m, m.rules[r], file);
      var p :| 0 <= p < |m.rules[r].patterns| && m.matches(file, m.rules[r].patterns[p]);
      assert m.rules[r].ignore;
    }
    if r, p :| 0 <= r < |m.rules| && 0 <= p < |m.rules[r].patterns| && m.rules[r].ignore && m.matches(file, m.rules[r].patterns[p]) {
      assert Hits(m, m.rules[r], file);
    }
  }

  lemma PureIgnoreIff(m: Matrix, file: Text)
    ensures PureIgnore(m, file) <==> DocumentationOnly(m, file)
  {
    IgnoredIff(m, file);
    TechnicalAsks(m, file);
    hide Ignored, Technical, Asks;
  }

  // ------------------------------------------------------------ with files

  /** A list of files is ignored exactly when each of them is documentation only, and then for that reason. */
  lemma DocumentationIff(m: Matrix, c: Context)
    requires RankedMatrix(m) && c.affectedFiles != []
    ensures var r := Recommended(m, c);
            && (r.ignored <==> forall f | 0 <= f < |c.affectedFiles| :: DocumentationOnly(m, c.affectedFiles[f]))
            && (r.ignored ==> r == Outcome(true, Some(Lit("readme_or_docs_only")), [], [], []))
  {
    var files := Actionable(m, c.affectedFiles);
    ActionableMembers(m, c.affectedFiles);
    forall file ensures PureIgnore(m, file) <==> DocumentationOnly(m, file) {
      PureIgnoreIff(m, file);
    }
    hide PureIgnore, DocumentationOnly, FromGroups, Actionable, RankedMatrix, Lit;
    if files == [] {
      forall f | 0 <= f < |c.affectedFiles| ensures DocumentationOnly(m, c.affectedFiles[f]) {
        assert c.affectedFiles[f] in c.affectedFiles;
      }
    } else {
      assert files[0] in files;
      var f :| 0 <= f < |c.affectedFiles| && c.affectedFiles[f] == files[0];
      assert !DocumentationOnly(m, c.affectedFiles[f]);
      RecommendedSpecs(m, c);
    }
  }

  /** Some file of the list asks for the specialist. */
  predicate Asked(m: Matrix, files: seq<Text>, spec: Specialization) {
    exists f | 0 <= f < |files| :: Asks(m, files[f], spec)
  }

  lemma AskedIffNeeded(m: Matrix, files: seq<Text>, spec: Specialization)
    ensures Asked(m, files, spec) <==> Needed(m, Actionable(m, files), spec)
  {
    var kept := Actionable(m, files);
    ActionableMembers(m, files);
    hide Asks, Actionable, Needs, PureIgnore;
    if Asked(m, files, spec) {
      var f :| 0 <= f < |files| && Asks(m, files[f], spec);
      NeedsAsks(m, files[f], spec);
      PureIgnoreIff(m, files[f]);
      assert files[f] in kept;
      var g :| 0 <= g < |kept| && kept[g] == files[f];
      assert Needs(m, kept[g], spec);
    }
    if Needed(m, kept, spec) {
      var g :| 0 <= g < |kept| && Needs(m, kept[g], spec);
      NeedsAsks(m, kept[g], spec);
      assert kept[g] in files;
    }
  }

  /**
   * Of a list that is not ignored, a specialist is recommended exactly when some file asks for it, or it is
   * engineering and no file asks for anyone.
   */
  lemma RecommendedIff(m: Matrix, c: Context)
    requires RankedMatrix(m) && c.affectedFiles != [] && !Recommended(m, c).ignored
    ensures forall spec :: spec in Recommended(m, c).specializations <==>
              Asked(m, c.affectedFiles, spec)
              || (spec == SOFTWARE_ENGINEERING && forall other :: !Asked(m, c.affectedFiles, other))
  {
    var files := Actionable(m, c.affectedFiles);
    assert RecommendsFrom(m, c);
    RecommendedSpecs(m, c);
    forall spec ensures Asked(m, c.affectedFiles, spec) <==> Needed(m, files, spec) {
      AskedIffNeeded(m, c.affectedFiles, spec);
    }
    hide Recommended, Actionable, Needed, Asked, RankedMatrix, RecommendsFrom;
  }

  // ------------------------------------------------------------ what a recommendation names

  /** The reason lists the rules and the task the files. */
  predicate ListsWhatItNames(c: Context, r: Recommendation) {
    && r.reason == Lit("Matriz de delegacao: regras ") + Chain(r.matchedRules, Lit(", ")) + Lit(".")
    && r.task == TaskText(r.specialization, c, r.matchedFiles)
  }

  lemma GroupLists(c: Context, g: Group)
    ensures ListsWhatItNames(c, RecommendationOf(c, g))
  {
    TaskSays(g.spec, c, g.files);
    JoinIsChain(g.rules, Lit(", "));
    hide Lit, Chain, Join, Task, TaskText;
  }

  /**
   * The recommendation names, each once, the files that ask for its specialist and the rules that match one of them;
   * its reason lists the rules and its task the files.
   */
  ghost predicate NamesWhatAsks(m: Matrix, c: Context, r: Recommendation) {
    var files := c.affectedFiles;
    && ListsWhatItNames(c, r)
    && NoRepeats(r.matchedFiles) && NoRepeats(r.matchedRules)
    && (forall file :: file in r.matchedFiles <==> file in files && Asks(m, file, r.specialization))
    && (forall id :: id in r.matchedRules <==> RuleAsks(m, files, r.specialization, id))
  }

  /** A rule of this id, not an ignore rule, names the specialist and has a pattern that matches one of the files. */
  predicate RuleAsks(m: Matrix, files: seq<Text>, spec: Specialization, id: Text) {
    exists f, r, p | 0 <= f < |files| && 0 <= r < |m.rules| && 0 <= p < |m.rules[r].patterns| ::
      && m.rules[r].id == id && !m.rules[r].ignore && spec in m.rules[r].specializations
      && m.matches(files[f], m.rules[r].patterns[p])
  }

  lemma RuleAppliesIff(m: Matrix, files: seq<Text>, spec: Specialization, id: Text)
    ensures RuleApplies(m, Actionable(m, files), spec, id) <==> RuleAsks(m, files, spec, id)
  {
    var kept := Actionable(m, files);
    ActionableMembers(m, files);
    hide Actionable, PureIgnore;
    if RuleApplies(m, kept, spec, id) {
      var g, r :| 0 <= g < |kept| && 0 <= r < |m.rules| && Sends(m, r, kept[g], spec) && m.rules[r].id == id;
      assert kept[g] in files;
      var f :| 0 <= f < |files| && files[f] == kept[g];
      var p :| 0 <= p < |m.rules[r].patterns| && m.matches(files[f], m.rules[r].patterns[p]);
      assert m.rules[r].id == id;
    }
    if RuleAsks(m, files, spec, id) {
      var f, r, p :| 0 <= f < |files| && 0 <= r < |m.rules| && 0 <= p < |m.rules[r].patterns|
        && m.rules[r].id == id && !m.rules[r].ignore && spec in m.rules[r].specializations
        && m.matches(files[f], m.rules[r].patterns[p]);
      RuleSends(m, r, p, files[f], spec);
      assert files[f] in kept;
      var g :| 0 <= g < |kept| && kept[g] == files[f];
      assert Sends(m, r, kept[g], spec);
    }
  }

  lemma RuleSends(m: Matrix, r: nat, p: nat, file: Text, spec: Specialization)
    requires r < |m.rules| && p < |m.rules[r].patterns| && m.matches(file, m.rules[r].patterns[p])
    requires !m.rules[r].ignore && spec in m.rules[r].specializations
    ensures Sends(m, r, file, spec) && !PureIgnore(m, file)
  {
    assert Hits(m, m.rules[r], file);
  }

  lemma GroupNamesWhatAsks(m: Matrix, c: Context, g: Group)
    requires g in GroupsOf(Visits(m, Actionable(m, c.affectedFiles)))
    ensures NamesWhatAsks(m, c, RecommendationOf(c, g))
  {
    var files := c.affectedFiles;
    var kept := Actionable(m, files);
    GroupLists(c, g);
    GroupNames(m, kept, g);
    ActionableMembers(m, files);
    hide GroupsOf, Visits, Actionable, Needs, Asks, RuleApplies, RuleAsks, PureIgnore, Task, ListsWhatItNames;
    forall file ensures file in g.files <==> file in files && Asks(m, file, g.spec) {
      NeedsAsks(m, file, g.spec);
      PureIgnoreIff(m, file);
    }
    forall id ensures id in g.rules <==> RuleAsks(m, files, g.spec, id) {
      RuleAppliesIff(m, files, g.spec, id);
    }
  }

  /**
   * What the recommendations of a list that is not ignored name: the files and the rules that ask for their
   * specialist, or, when no file asks for anyone, every file that is not documentation only, under the fallback rule.
   */
  lemma RecommendationsName(m: Matrix, c: Context)
    requires RankedMatrix(m) && c.affectedFiles != [] && !Recommended(m, c).ignored
    ensures var r, files := Recommended(m, c), c.affectedFiles;
            if exists spec :: Asked(m, files, spec) then
              forall k | 0 <= k < |r.recommendations| :: NamesWhatAsks(m, c, r.recommendations[k])
            else
              && |r.recommendations| == 1 && r.recommendations[0].matchedRules == [Lit("fallback-technical")]
              && r.recommendations[0].reason == Lit("Arquivo tecnico fora da matriz explicita.")
              && r.recommendations[0].task == TaskText(SOFTWARE_ENGINEERING, c, r.recommendations[0].matchedFiles)
              && forall file :: file in r.recommendations[0].matchedFiles <==> file in files && !DocumentationOnly(m, file)
  {
    var r, kept := Recommended(m, c), Actionable(m, c.affectedFiles);
    FromFilesSpecs(m, c, kept);
    AskedIffSome(m, c);
    var groups := GroupsOf(Visits(m, kept));
    if groups != [] {
      NamedByGroups(m, c);
    } else {
      ActionableMembers(m, c.affectedFiles);
      TaskSays(SOFTWARE_ENGINEERING, c, kept);
      hide GroupsOf, Visits, Actionable, PureIgnore, DocumentationOnly, Task, TaskText, Lit, SortedOf, Asked, Needed, RankedMatrix;
      forall file ensures PureIgnore(m, file) <==> DocumentationOnly(m, file) {
        PureIgnoreIff(m, file);
      }
      assert kept[0] in kept;
    }
  }

  lemma AskedIffSome(m: Matrix, c: Context)
    requires RankedMatrix(m)
    ensures (exists spec :: Asked(m, c.affectedFiles, spec)) <==> GroupsOf(Visits(m, Actionable(m, c.affectedFiles))) != []
  {
    var kept := Actionable(m, c.affectedFiles);
    var specs := SpecsOf(SortedOf(m, c, kept));
    FromFilesSpecs(m, c, kept);
    hide GroupsOf, Visits, Actionable, SortedOf, Asked, Needed, RankedMatrix, FileRank;
    if spec :| Asked(m, c.affectedFiles, spec) {
      AskedIffNeeded(m, c.affectedFiles, spec);
      assert spec in specs;
    }
    if specs != [] {
      assert specs[0] in specs;
      AskedIffNeeded(m, c.affectedFiles, specs[0]);
    }
  }

  lemma NamedByGroups(m: Matrix, c: Context)
    requires RankedMatrix(m) && GroupsOf(Visits(m, Actionable(m, c.affectedFiles))) != []
    requires c.affectedFiles != [] && !Recommended(m, c).ignored
    ensures var r := Recommended(m, c);
            forall k | 0 <= k < |r.recommendations| :: NamesWhatAsks(m, c, r.recommendations[k])
  {
    var kept := Actionable(m, c.affectedFiles);
    var groups := GroupsOf(Visits(m, kept));
    var all, sorted := RecommendationsOf(c, groups), SortedOf(m, c, kept);
    assert Recommended(m, c).recommendations == sorted by {
      hide GroupsOf, Visits, Actionable, Task, Lit, SortBy, EdgesAmong;
    }
    SortedIsStrict(m, c, kept);
    hide GroupsOf, Visits, Actionable, SortedOf, NamesWhatAsks, RankedMatrix, Recommended, Task;
    forall k | 0 <= k < |sorted| ensures NamesWhatAsks(m, c, sorted[k]) {
      assert sorted[k] in all;
      var i :| 0 <= i < |all| && all[i] == sorted[k];
      assert groups[i] in groups;
      GroupNamesWhatAsks(m, c, groups[i]);
    }
  }

  // ------------------------------------------------------------ the default matrix

  predicate MatchesSome(matches: (Text, Text) -> bool, file: Text, patterns: seq<Text>) {
    exists p | 0 <= p < |patterns| :: matches(file, patterns[p])
  }

  /** The patterns under which the default matrix sends a file to a specialist. */
  function DefaultPatterns(spec: Specialization): seq<Text> {
    match spec
    case SOFTWARE_ENGINEERING =>
      [Lit("apps/api/**"), Lit("packages/**"), Lit("*.ts"), Lit("*.tsx")]
      + [Lit("apps/web/**"), Lit("*.vue"), Lit("*.css"), Lit("*.scss")]
      + [Lit("**/migrations/**"), Lit("prisma/migrations/**")] + [Lit("package.json"), Lit("**/package.json")]
    case PRODUCT_DESIGN => [Lit("apps/web/**"), Lit("*.vue"), Lit("*.css"), Lit("*.scss")]
    case AUTOMATION =>
      [Lit("infra/**"), Lit("Dockerfile"), Lit("Dockerfile.*"), Lit("docker-compose*"), Lit("*.yaml"), Lit("*.yml")]
    case LEGAL => [Lit("legal/**"), Lit("contracts/**"), Lit("privacy/**")]
    case MARKETING => [Lit("marketing/**"), Lit("landing/**")]
    case FINANCE => [Lit("finance/**"), Lit("billing/**")]
    case PRODUCT_MANAGEMENT => [Lit("product/**"), Lit("roadmap/**")]
    case OPERATIONS => [Lit("operations/**")]
    case _ => []
  }

  /** The rule is not an ignore rule, names the specialist and matches the file. */
  predicate RuleTakes(rule: Rule, matches: (Text, Text) -> bool, file: Text, spec: Specialization) {
    !rule.ignore && spec in rule.specializations && MatchesSome(matches, file, rule.patterns)
  }

  lemma AsksByRule(m: Matrix, file: Text, spec: Specialization)
    ensures Asks(m, file, spec) <==> exists r | 0 <= r < |m.rules| :: RuleTakes(m.rules[r], m.matches, file, spec)
  {
    if Asks(m, file, spec) {
      var r, p :| 0 <= r < |m.rules| && 0 <= p < |m.rules[r].patterns|
        && !m.rules[r].ignore && spec in m.rules[r].specializations && m.matches(file, m.rules[r].patterns[p]);
      assert RuleTakes(m.rules[r], m.matches, file, spec);
    }
    if r :| 0 <= r < |m.rules| && RuleTakes(m.rules[r], m.matches, file, spec) {
      var p :| 0 <= p < |m.rules[r].patterns| && m.matches(file, m.rules[r].patterns[p]);
      assert spec in m.rules[r].specializations;
    }
  }

  lemma MatchesEither(matches: (Text, Text) -> bool, file: Text, a: seq<Text>, b: seq<Text>)
    ensures MatchesSome(matches, file, a + b) <==> MatchesSome(matches, file, a) || MatchesSome(matches, file, b)
  {
    assert forall i | 0 <= i < |a| :: (a + b)[i] == a[i];
    assert forall i | 0 <= i < |b| :: (a + b)[|a| + i] == b[i];
  }

  lemma DefaultByRule(matches: (Text, Text) -> bool, file: Text, spec: Specialization)
    ensures var rules := DefaultRules();
            && |rules| == 11
            && (Asks(Matrix(rules, matches), file, spec) <==>
                || RuleTakes(rules[0], matches, file, spec) || RuleTakes(rules[1], matches, file, spec)
                || RuleTakes(rules[2], matches, file, spec) || RuleTakes(rules[3], matches, file, spec)
                || RuleTakes(rules[4], matches, file, spec) || RuleTakes(rules[5], matches, file, spec)
                || RuleTakes(rules[6], matches, file, spec) || RuleTakes(rules[7], matches, file, spec)
                || RuleTakes(rules[8], matches, file, spec) || RuleTakes(rules[9], matches, file, spec)
                || RuleTakes(rules[10], matches, file, spec))
  {
    AsksByRule(Matrix(DefaultRules(), matches), file, spec);
    assert |DefaultRules()| == 11 by { hide Lit; }
    hide Lit, Asks, RuleTakes, DefaultRules;
  }

  lemma EngineeringPatterns(matches: (Text, Text) -> bool, file: Text)
    ensures var rules := DefaultRules();
            MatchesSome(matches, file, DefaultPatterns(SOFTWARE_ENGINEERING)) <==>
              || MatchesSome(matches, file, rules[1].patterns) || MatchesSome(matches, file, rules[2].patterns)
              || MatchesSome(matches, file, rules[9].patterns) || MatchesSome(matches, file, rules[10].patterns)
  {
    hide Lit, MatchesSome;
    var rules := DefaultRules();
    var code, web, migrations, json := rules[1].patterns, rules[2].patterns, rules[9].patterns, rules[10].patterns;
    MatchesEither(matches, file, code + web + migrations, json);
    MatchesEither(matches, file, code + web, migrations);
    MatchesEither(matches, file, code, web);
  }

  /** Of the default matrix a file asks for a specialist exactly when it matches one of those patterns. */
  lemma DefaultAsks(matches: (Text, Text) -> bool, file: Text, spec: Specialization)
    ensures Asks(Matrix(DefaultRules(), matches), file, spec) <==> MatchesSome(matches, file, DefaultPatterns(spec))
  {
    hide Lit, Asks, MatchesSome;
    DefaultByRule(matches, file, spec);
    NothingMatches(matches, file);
    if spec == SOFTWARE_ENGINEERING {
      EngineeringPatterns(matches, file);
    }
  }

  lemma NothingMatches(matches: (Text, Text) -> bool, file: Text)
    ensures !MatchesSome(matches, file, [])
  {
  }
}
