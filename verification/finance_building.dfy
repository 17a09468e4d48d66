/**
 * When the evidence of a probe is built, exactly: what of a tool's answer can block it
 * (packages/employees/specialist-kit/src/finance-evidence.ts:157-385).
 */
module FinanceBuilding {
  import opened Texts
  import opened JsonValues
  import opened JsonPaths
  import opened Patterns
  import opened EvidenceText
  import opened EvidenceSanitizer
  import opened FinanceInspection
  import Frontmatter
  import opened FinanceValidation
  import opened FinanceAgreement
  import opened FinanceOverview

  // ------------------------------------------------------------ every key is kept

  lemma NamesStorable()
    ensures Storable(Lit("workspaceId")) && Storable(Lit("repository"))
  {
    hide Storable;
    KeyStorable("workspaceId", "workspaceid");
    KeyStorable("repository", "repository");
  }

  lemma SearchKeysStorable()
    ensures Storable(Lit("query")) && Storable(Lit("hitCount"))
  {
    hide Storable;
    KeyStorable("query", "query");
    KeyStorable("hitCount", "hitcount");
  }

  lemma EvidenceStorable(workspaceId: Text, probe: Probe, raw: seq<Field>, parsed: Parsed)
    ensures forall f | f in EvidenceData(workspaceId, probe, raw, parsed) :: Storable(f.key)
  {
    hide Storable, Summary, Repository, Excerpt, Get, Lit, Decimal, Count;
    EvidenceKeysStorable();
    OverviewKeysStorable();
    NamesStorable();
    SearchKeysStorable();
  }

  /** Evidence is built exactly when workspace and repository are named and no field holds a number to redact. */
  lemma BuiltIff(workspaceId: Text, probe: Probe, answer: Answer)
    ensures Built(workspaceId, probe, answer)
       <==> answer.Returns? && !Blank(workspaceId) && !Blank(Repository(answer.raw))
            && forall f | f in EvidenceData(workspaceId, probe, answer.raw, answer.parsed) :: !HoldsPii(f.value)
  {
    hide EvidenceData, Keep, Storable, Repository, Blank, HoldsPii, Lit;
    if answer.Returns? {
      var data := EvidenceData(workspaceId, probe, answer.raw, answer.parsed);
      EvidenceStorable(workspaceId, probe, answer.raw, answer.parsed);
      assert forall i | 0 <= i < |data| :: data[i] in data;
      KeptAll(data, Storable);
      FieldsHoldPiiIff(data);
    }
  }

  lemma FieldsHoldPiiIff(fields: seq<Field>)
    ensures HoldsPii(Obj(fields)) <==> exists f | f in fields :: HoldsPii(f.value)
  {
    if f :| f in fields && HoldsPii(f.value) {
      var i :| 0 <= i < |fields| && fields[i] == f;
    }
  }

  /** Why evidence is not built: no workspace, no repository, or else a number to redact. */
  lemma RefusedFor(workspaceId: Text, probe: Probe, raw: seq<Field>, parsed: Parsed)
    ensures var built := Build(workspaceId, probe, raw, parsed);
            built.Err? ==>
              built.error.code == if Blank(workspaceId) then Lit("WORKSPACE_ID_ABSENT")
                                  else if Blank(Repository(raw)) then Lit("REPOSITORY_ABSENT")
                                  else Lit("EVIDENCE_PII_BLOCKED")
  {
    hide Lit, Blank, Repository, EvidenceData, HoldsPii, Keep, Storable;
  }

  /** At this place of the value stands a text with a number to redact. */
  predicate PiiAt(v: Json, path: seq<JsonPaths.Step>) {
    var found := At(v, path);
    found.Some? && found.value.Str? && ResidualFinancePii(found.value.text)
  }

  lemma PiiStep(v: Json, step: JsonPaths.Step, path: seq<JsonPaths.Step>)
    ensures PiiAt(v, [step] + path) <==> Into(v, step).Some? && PiiAt(Into(v, step).value, path)
  {
    assert ([step] + path)[1..] == path;
    hide ResidualFinancePii;
  }

  lemma {:induction false} PiiPlace(v: Json) returns (path: seq<JsonPaths.Step>)
    requires WellFormed(v) && HoldsPii(v)
    ensures PiiAt(v, path)
    decreases v
  {
    hide ResidualFinancePii, PiiAt;
    path := [];
    match v
    case Arr(items) =>
      var i :| 0 <= i < |items| && HoldsPii(items[i]);
      var rest := PiiPlace(items[i]);
      PiiStep(v, Item(i), rest);
      path := [Item(i)] + rest;
    case Obj(fields) =>
      var i :| 0 <= i < |fields| && HoldsPii(fields[i].value);
      var rest := PiiPlace(fields[i].value);
      GetFound(fields, i);
      PiiStep(v, Key(fields[i].key), rest);
      path := [Key(fields[i].key)] + rest;
    case Str(text) =>
      PiiHere(v);
    case _ =>
  }

  lemma PiiHere(v: Json)
    requires v.Str?
    ensures PiiAt(v, []) <==> ResidualFinancePii(v.text)
  {
  }

  lemma {:induction false} PiiIsHeld(v: Json, path: seq<JsonPaths.Step>)
    requires PiiAt(v, path)
    ensures HoldsPii(v)
    decreases |path|
  {
    hide ResidualFinancePii;
    if path != [] {
      var step, rest := path[0], path[1..];
      assert path == [step] + rest;
      PiiStep(v, step, rest);
      PiiIsHeld(Into(v, step).value, rest);
      HeldBelow(v, step);
    }
  }

  lemma HeldBelow(v: Json, step: JsonPaths.Step)
    requires Into(v, step).Some? && HoldsPii(Into(v, step).value)
    ensures HoldsPii(v)
  {
    hide ResidualFinancePii, Get;
    if v.Obj? {
      var i :| 0 <= i < |v.fields| && v.fields[i] == Field(step.key, Into(v, step).value);
    }
  }

  /** A value holds a number to redact exactly when one of its texts, at whatever place, does. */
  lemma HeldSomewhereIff(v: Json)
    requires WellFormed(v)
    ensures HoldsPii(v) <==> exists path :: PiiAt(v, path)
  {
    hide PiiAt, HoldsPii;
    if HoldsPii(v) {
      var path := PiiPlace(v);
    }
    if path :| PiiAt(v, path) {
      PiiIsHeld(v, path);
    }
  }

  // ------------------------------------------------------------ names and paths

  lemma DigitFreeClean(text: Text)
    requires forall i | 0 <= i < |text| :: !In(Digit, text[i])
    ensures !ResidualFinancePii(text)
  {
    NumberFree(Cpf(), text);
    NumberFree(Cnpj(), text);
    NumberFree(Card(), text);
  }

  lemma WordsClean(words: string)
    requires forall i | 0 <= i < |words| :: !('0' <= words[i] <= '9') && words[i] <= 'z'
    ensures !ResidualFinancePii(Lit(words)) && forall i | 0 <= i < |words| :: !In(Digit, Lit(words)[i])
  {
    hide ResidualFinancePii;
    DigitFreeClean(Lit(words));
  }

  // ------------------------------------------------------------ a number in a summary

  lemma {:induction false} ShadowPast(classes: set<Class>, t: Text, c: Unit, rest: Text)
    requires Barrier(classes, c)
    ensures Shadows(classes, t + [c] + rest, t)
  {
    if t != [] {
      assert (t + [c] + rest)[1..] == t[1..] + [c] + rest;
      ShadowPast(classes, t[1..], c, rest);
    }
  }

  /** No match reaches over a unit that no class takes. */
  lemma {:induction false} TestBeside(classes: set<Class>, p: Pattern, t: Text, c: Unit, rest: Text)
    requires Within(p, classes) && p.One? && Barrier(classes, c) && Test(p, t + [c] + rest)
    ensures Test(p, t) || Test(p, rest)
  {
    hide Within, Barrier, Shadows;
    var s := t + [c] + rest;
    if Match(p, s).Some? {
      ShadowPast(classes, t, c, rest);
      ShadowMatch(classes, p, s, t);
    } else if t == [] {
      assert s[1..] == rest;
    } else {
      assert s[1..] == t[1..] + [c] + rest;
      TestBeside(classes, p, t[1..], c, rest);
    }
  }

  /** A runway in the summary is seen by a pattern exactly when the pattern sees it alone. */
  lemma RunwaySeen(p: Pattern, t: Text)
    requires Within(p, DigitClasses()) && p.One? && p.cls == Digit
    ensures Test(p, Lit("overview ") + t + Lit("m runway")) <==> Test(p, t)
  {
    var before, after := Lit("overview "), Lit(" runway");
    assert Lit("m runway") == ['m' as int] + after && Barrier(DigitClasses(), 'm' as int);
    assert NoStart(p, before);
    NumberFree(p, after);
    hide Lit, NoStart, Test, Within, Barrier, DigitClasses;
    var inner := t + ['m' as int] + after;
    assert before + t + Lit("m runway") == before + inner && inner == t + (['m' as int] + after);
    if Test(p, before + inner) {
      TestAfter(p, before, inner);
      TestBeside(DigitClasses(), p, t, 'm' as int, after);
    }
    if Test(p, t) {
      TestLonger(p, t, ['m' as int] + after);
      assert (before + inner)[|before|..] == inner;
      TestSuffix(p, before + inner, |before|);
    }
  }

  lemma RunwaySummary(t: Text)
    ensures ResidualFinancePii(Lit("overview ") + t + Lit("m runway")) <==> ResidualFinancePii(t)
  {
    hide Test, Cpf, Cnpj, Card, Within, DigitClasses, Lit;
    NumbersWithin();
    RunwaySeen(Cpf(), t);
    RunwaySeen(Cnpj(), t);
    RunwaySeen(Card(), t);
  }

  // ------------------------------------------------------------ files

  /** A runway that would put a number to redact into the summary. */
  predicate RunwayBlocks(structured: Option<seq<Field>>) {
    structured.Some? &&
    var runway := Get(structured.value, Lit("runwayMonths"));
    runway.Some? && ResidualFinancePii(Printed(runway.value))
  }

  lemma FileSummaryClean(probe: Probe, structured: Option<seq<Field>>, raw: seq<Field>)
    requires Sane(probe) && probe.tool.ReadFile? && (structured.Some? ==> CleanRecord(structured.value))
    ensures ResidualFinancePii(Summary(probe, if structured.Some? then structured.value else [], raw)) <==> RunwayBlocks(structured)
  {
    hide Lit, Get, CleanRecord, ResidualFinancePii, Printed, AllowedPath, In;
    var record := if structured.Some? then structured.value else [];
    var runway := Get(record, Lit("runwayMonths"));
    NoRecordGets();
    WordsClean("monthly cost overview");
    WordsClean("monthly revenue overview");
    WordsClean("billing aggregate summary");
    WordsClean(" finance artifact");
    DigitFreeClean(probe.path + Lit(" finance artifact"));
    if runway.Some? {
      CleanGet(record, Lit("runwayMonths"));
      RunwaySummary(Printed(runway.value));
    }
  }

  /** The fields a file yields hold no number to redact as text: a record is clean, an excerpt redacted. */
  lemma FileFieldsClean(structured: Option<seq<Field>>, body: Text)
    requires structured.Some? ==> CleanRecord(structured.value)
    ensures structured.Some? ==> !HoldsPii(Obj(structured.value))
    ensures !ResidualFinancePii(Excerpt(body))
  {
    hide ResidualFinancePii, Excerpt, WellFormed;
    ExcerptKept(body);
    if structured.Some? {
      FieldsHoldPiiIff(structured.value);
    }
  }

  lemma ParsedBuiltIff(workspaceId: Text, probe: Probe, raw: seq<Field>, parsed: Parsed)
    requires Sane(probe) && probe.tool.ReadFile? && (parsed.structured.Some? ==> CleanRecord(parsed.structured.value))
    ensures Built(workspaceId, probe, Returns(raw, parsed))
       <==> !Blank(workspaceId) && !Blank(Repository(raw))
            && !ResidualFinancePii(workspaceId) && !ResidualFinancePii(Repository(raw)) && !RunwayBlocks(parsed.structured)
  {
    hide Lit, Get, CleanRecord, ResidualFinancePii, Blank, Repository, Summary, Excerpt, Built, RunwayBlocks, AllowedPath;
    BuiltIff(workspaceId, probe, Returns(raw, parsed));
    FileSummaryClean(probe, parsed.structured, raw);
    FileFieldsClean(parsed.structured, parsed.body);
    WordsClean("finance_artifacts");
    DigitFreeClean(probe.path);
    FileDataPii(workspaceId, probe, raw, parsed);
  }

  /**
   * The evidence of a file is built exactly when workspace and repository are named, neither holds a number to
   * redact, and the runway, printed in the summary, is none. Nothing else a file says can block it.
   */
  lemma FileBuiltIff(workspaceId: Text, probe: Probe, number: Text -> Number, raw: seq<Field>)
    requires Sane(probe) && probe.tool.ReadFile? && Frontmatter.Numeric(number)
    ensures Built(workspaceId, probe, Read(number, probe, ToolData(raw)))
       <==> !Blank(workspaceId) && !Blank(Repository(raw))
            && !ResidualFinancePii(workspaceId) && !ResidualFinancePii(Repository(raw))
            && !RunwayBlocks(Frontmatter.Structured(number, ContentOf(raw)))
  {
    hide Lit, Get, CleanRecord, ResidualFinancePii, Blank, Repository, Built, RunwayBlocks, AllowedPath,
         Frontmatter.Structured, Frontmatter.Body, Frontmatter.CleanField;
    var structured := Frontmatter.Structured(number, ContentOf(raw));
    Frontmatter.StructuredClean(number, ContentOf(raw));
    if structured.Some? {
      PartsOfRecord(structured.value);
    }
    ParsedBuiltIff(workspaceId, probe, raw, Parsed(structured, Frontmatter.Body(ContentOf(raw))));
  }

  lemma TextsHoldPii()
    ensures forall text :: HoldsPii(Str(text)) <==> ResidualFinancePii(text)
  {
  }

  lemma FileDataPii(workspaceId: Text, probe: Probe, raw: seq<Field>, parsed: Parsed)
    requires probe.tool.ReadFile?
    ensures (forall f | f in EvidenceData(workspaceId, probe, raw, parsed) :: !HoldsPii(f.value))
       <==> !ResidualFinancePii(DOMAIN) && !ResidualFinancePii(workspaceId) && !ResidualFinancePii(Repository(raw))
            && !ResidualFinancePii(probe.path)
            && !ResidualFinancePii(Summary(probe, if parsed.structured.Some? then parsed.structured.value else [], raw))
            && (if parsed.structured.Some? then !HoldsPii(Obj(parsed.structured.value))
                else Excerpt(parsed.body) == [] || !ResidualFinancePii(Excerpt(parsed.body)))
  {
    hide Lit, ResidualFinancePii, Repository, Summary, Excerpt, HoldsPii;
    TextsHoldPii();
    var data := EvidenceData(workspaceId, probe, raw, parsed);
    assert data[0] in data && data[1] in data && data[2] in data && data[3] in data && data[4] in data;
    assert |data| > 5 ==> data[5] in data;
  }

  // ------------------------------------------------------------ what the evidence says

  lemma NamesGet(workspaceId: Text, probe: Probe, raw: seq<Field>, parsed: Parsed)
    ensures var data := EvidenceData(workspaceId, probe, raw, parsed);
            && Get(data, Lit("workspaceId")) == Some(Str(workspaceId)) && Get(data, Lit("repository")) == Some(Str(Repository(raw)))
  {
    var data := EvidenceData(workspaceId, probe, raw, parsed);
    DataKeys(workspaceId, probe, raw, parsed);
    hide Summary, Repository, Excerpt, Get, Lit, Decimal, Count;
    GetFound(data, 1);
    GetFound(data, 2);
  }

  /**
   * Built evidence is of the finance domain and says its workspace, the repository the tool answered and its own
   * place, the two names cleaned as any text is.
   */
  lemma EvidenceSays(workspaceId: Text, probe: Probe, answer: Answer)
    requires Sane(probe) && Built(workspaceId, probe, answer)
    ensures exists repository ::
              && Get(answer.raw, Lit("repository")) == Some(Str(repository)) && !Blank(repository)
              && var data := BuiltData(workspaceId, probe, answer);
                 && Get(data, Lit("domain")) == Some(Str(Lit("finance_artifacts")))
                 && Get(data, Lit("workspaceId")) == Some(Str(CleanText(Finance, workspaceId)))
                 && Get(data, Lit("repository")) == Some(Str(CleanText(Finance, repository)))
                 && Get(data, Lit("artifactPath")) == Some(Str(probe.path))
  {
    BuiltIff(workspaceId, probe, answer);
    BuiltGets(workspaceId, probe, answer);
    NamesStorable();
    NamesGet(workspaceId, probe, answer.raw, answer.parsed);
    RepositoryIs(answer.raw);
    hide EvidenceData, Build, Storable, Get, SafeData, CleanText, Lit, Repository, Blank, AllowedPath;
    StoredGet(workspaceId, probe, answer.raw, answer.parsed, Lit("workspaceId"));
    StoredGet(workspaceId, probe, answer.raw, answer.parsed, Lit("repository"));
    assert Get(answer.raw, Lit("repository")) == Some(Str(Repository(answer.raw)));
  }

  /** A search's evidence says what was searched for, cleaned, and how many hits there were. */
  lemma SearchSays(workspaceId: Text, probe: Probe, answer: Answer)
    requires probe.tool.SearchFiles? && Built(workspaceId, probe, answer)
    ensures var data := BuiltData(workspaceId, probe, answer);
            && Get(data, Lit("query")) == Some(match Get(answer.raw, Lit("query"))
                                               case Some(query) => Sanitize(Finance, query)
                                               case None => Undefined)
            && Get(data, Lit("hitCount")) == Some(Num(Finite(Decimal(match Get(answer.raw, Lit("hits"))
                                                                     case Some(Arr(items)) => |items|
                                                                     case _ => 0))))
  {
    SearchKeysStorable();
    SearchGets(workspaceId, probe, answer.raw, answer.parsed);
    hide EvidenceData, Build, Storable, Get, SafeData, CleanText, Lit, Decimal;
    StoredGet(workspaceId, probe, answer.raw, answer.parsed, Lit("query"));
    StoredGet(workspaceId, probe, answer.raw, answer.parsed, Lit("hitCount"));
  }

  /** The number a text of digits denotes. */
  function Denoted(digits: Text): int {
    if digits == [] then 0
    else
      var n := |digits| - 1;
      Denoted(digits[..n]) * 10 + digits[n] - '0' as int
  }

  lemma DenotedMore(t: Text, c: Unit)
    ensures Denoted(t + [c]) == Denoted(t) * 10 + c - '0' as int
  {
    assert (t + [c])[..|t|] == t;
  }

  lemma LastDigit(n: nat)
    ensures Decimal(n) == (if n < 10 then [] else Decimal(n / 10)) + ['0' as int + n % 10]
    ensures n == n / 10 * 10 + n % 10 && (n >= 10 ==> 0 < n / 10 < n) && (n < 10 ==> n / 10 == 0)
  {
  }

  /** A count is printed in decimal: digits, none in front that could be left out, that denote it. */
  lemma {:induction false} CountPrinted(n: nat)
    ensures Frontmatter.AllDigits(Decimal(n)) && Denoted(Decimal(n)) == n
    ensures n > 0 ==> Decimal(n)[0] != '0' as int
  {
    hide Decimal, Denoted;
    LastDigit(n);
    NothingDenoted();
    var front: Text := if n < 10 then [] else Decimal(n / 10);
    DenotedMore(front, '0' as int + n % 10);
    if n >= 10 {
      CountPrinted(n / 10);
    }
  }

  lemma NothingDenoted()
    ensures Denoted([]) == 0
  {
  }

  lemma SearchGets(workspaceId: Text, probe: Probe, raw: seq<Field>, parsed: Parsed)
    requires probe.tool.SearchFiles?
    ensures var data, query := EvidenceData(workspaceId, probe, raw, parsed), Get(raw, Lit("query"));
            && Get(data, Lit("query")) == Some(if query.Some? then query.value else Undefined)
            && Get(data, Lit("hitCount")) == Some(Num(Finite(Decimal(Count(Get(raw, Lit("hits")))))))
  {
    var data := EvidenceData(workspaceId, probe, raw, parsed);
    DataKeys(workspaceId, probe, raw, parsed);
    hide Summary, Repository, Excerpt, Get, Lit, Decimal, Count;
    GetFound(data, 5);
    GetFound(data, 6);
  }

  lemma RepositoryIs(raw: seq<Field>)
    requires !Blank(Repository(raw))
    ensures Get(raw, Lit("repository")) == Some(Str(Repository(raw)))
  {
    hide Get, Lit;
  }

  // ------------------------------------------------------------ card numbers written as numbers

  /** Sixteen digits in a row are a card number, and a decimal. */
  lemma SixteenDigits(t: Text)
    requires Frontmatter.AllDigits(t) && |t| >= 16
    ensures Frontmatter.IsDecimal(t) && ResidualFinancePii(t)
  {
    var w := t[..16];
    assert w[4..][4..][4..][4..] == [];
    assert FourGroups(1, w[4..][4..][4..]);
    assert FourGroups(2, w[4..][4..]);
    assert FourGroups(3, w[4..]);
    assert FourGroups(4, w);
    CardDenotes(w);
    hide FourGroups, Denotes, Card;
    DenotedMatches(Card(), t, 16);
    assert Frontmatter.IndexOfUnit(t, '.' as int) == |t|;
  }

  /**
   * A card number written as a number passes redaction in every field; as a runway it is printed in the summary,
   * and then the evidence of the file is never built.
   */
  lemma RunwayOfDigitsBlocks(workspaceId: Text, probe: Probe, number: Text -> Number, raw: seq<Field>, digits: Text)
    requires Sane(probe) && probe.tool.ReadFile? && Frontmatter.Numeric(number)
    requires Frontmatter.AllDigits(digits) && |digits| >= 16
    requires var structured := Frontmatter.Structured(number, ContentOf(raw));
             structured.Some? && Get(structured.value, Lit("runwayMonths")) == Some(Num(Finite(digits)))
    ensures !Built(workspaceId, probe, Read(number, probe, ToolData(raw)))
  {
    hide Frontmatter.Structured, Lit, Get, ResidualFinancePii, Frontmatter.AllDigits, RunwayBlocks, Built, Blank, Repository,
         AllowedPath, Sane, Read;
    DigitsBlock(Frontmatter.Structured(number, ContentOf(raw)), digits);
    FileBuiltIff(workspaceId, probe, number, raw);
  }

  lemma DigitsBlock(structured: Option<seq<Field>>, digits: Text)
    requires Frontmatter.AllDigits(digits) && |digits| >= 16
    requires structured.Some? && Get(structured.value, Lit("runwayMonths")) == Some(Num(Finite(digits)))
    ensures RunwayBlocks(structured)
  {
    hide Lit, Get, ResidualFinancePii, Frontmatter.AllDigits;
    SixteenDigits(digits);
  }

  // ------------------------------------------------------------ some inspection is accepted

  const SOME_RAW: seq<Field> := [Field(Lit("repository"), Str(Lit("repo")))]

  const SOME_RECORD: seq<Field> := [Field(Lit("monthlyBurn"), Num(Finite(Lit("1"))))]

  function SomeAnswers(): (r: seq<Answer>)
    ensures |r| == 7
  {
    var missing := Fails(Failure(NOT_FOUND, []));
    [Returns(SOME_RAW, Parsed(None, [])), Returns(SOME_RAW, Parsed(Some(SOME_RECORD), [])),
     missing, missing, missing, missing, missing]
  }

  /** The conditions of the agreement can be met: a listing and an overview with a burn, the rest missing. */
  lemma SomeInspectionAccepted()
    ensures var e := Inspect(Lit("w"), SomeAnswers()); ValidDelivery(Some(Deliver(e)), Some(e.executions))
  {
    hide Indicates, Lit, Built, BuiltData, Probes, Inspect, ValidDelivery, Structured, AllGood;
    ToolsOfMandatory();
    NamesOf();
    SomeGood();
    StructuredOverviewIndicates(Lit("w"), Probes()[1], SomeAnswers()[1]);
    GoodIsAccepted(Lit("w"), SomeAnswers());
  }

  lemma SomeGood()
    ensures AllGood(Lit("w"), SomeAnswers()) && Built(Lit("w"), Probes()[1], SomeAnswers()[1])
  {
    ListingBuilt();
    OverviewBuilt();
    hide Lit, Built, Build;
    forall k | 0 <= k < 7 ensures Good(Lit("w"), Probes()[k], SomeAnswers()[k]) {
    }
  }

  lemma NamesOf()
    ensures !Blank(Lit("w")) && !Blank(Repository(SOME_RAW)) && Repository(SOME_RAW) == Lit("repo")
    ensures Structured(SOME_RECORD) && Get(SOME_RECORD, Lit("riskLevel")).None? && Get(SOME_RECORD, Lit("runwayMonths")).None?
    ensures Count(Get(SOME_RAW, Lit("entries"))) == 0
  {
    assert !IsSpace(Lit("w")[0]) && !IsSpace(Lit("repo")[0]);
  }

  lemma RecordClean()
    ensures CleanRecord(SOME_RECORD)
  {
    assert SOME_RECORD[0].key in Frontmatter.StructuredKeys();
  }

  lemma OverviewBuilt()
    ensures Built(Lit("w"), Probes()[1], SomeAnswers()[1])
  {
    hide Lit, Repository, ResidualFinancePii, Blank, Built, CleanRecord, Sane, Get;
    ToolsOfMandatory();
    ProbesSane();
    NamesOf();
    RecordClean();
    WordsClean("w");
    WordsClean("repo");
    ParsedBuiltIff(Lit("w"), Probes()[1], SOME_RAW, Parsed(Some(SOME_RECORD), []));
  }

  /** A text with one digit holds no number to redact. */
  lemma OneDigitClean(p: Pattern, a: Text, digit: Unit, b: Text)
    requires p.One? && p.cls == Digit && p.rest.One? && p.rest.cls == Digit
    requires (forall i | 0 <= i < |a| :: !In(Digit, a[i])) && (forall i | 0 <= i < |b| :: !In(Digit, b[i]))
    ensures !Test(p, a + ([digit] + b))
  {
    var s := [digit] + b;
    assert s[1..] == b;
    NumberFree(p, b);
    assert Match(p, s).Some? ==> Match(p.rest, b).Some?;
    if Test(p, a + s) {
      TestAfter(p, a, s);
    }
  }

  lemma StartWithTwoDigits()
    ensures Cpf().rest.One? && Cpf().rest.cls == Digit && Cnpj().rest.One? && Cnpj().rest.cls == Digit
    ensures Card().rest.One? && Card().rest.cls == Digit
  {
    var afterCpf := One(DOT, Digits(3, One(DOT, Digits(3, One(DASH, Digits(2, End))))));
    assert Cpf().rest == Digits(2, afterCpf);
    var afterCnpj := One(DOT, Digits(3, One(DOT, Digits(3, One(SLASH, Digits(4, One(DASH, Digits(2, End))))))));
    assert Cnpj().rest == Digits(1, afterCnpj);
    var afterCard := Maybe(Gap, Digits(4, Maybe(Gap, Digits(4, Maybe(Gap, Digits(4, End))))));
    assert Card().rest == Digits(3, afterCard);
  }

  lemma ListingSummary(probe: Probe)
    requires probe.tool.ListDirectory? && probe.path == FINANCE_DIR
    ensures !ResidualFinancePii(Summary(probe, [], SOME_RAW))
  {
    hide Test, Cpf, Cnpj, Card, Count, Get, Lit;
    StartWithTwoDigits();
    WordsClean("finance");
    WordsClean(" directory ");
    WordsClean(" entries");
    NamesOf();
    NoRecordGets();
    FinanceIsNotBilling();
    var a, b := FINANCE_DIR + Lit(" directory "), Lit(" entries");
    OneDigitClean(Cpf(), a, '0' as int, b);
    OneDigitClean(Cnpj(), a, '0' as int, b);
    OneDigitClean(Card(), a, '0' as int, b);
    assert Summary(probe, [], SOME_RAW) == a + (['0' as int] + b);
  }

  lemma FinanceIsNotBilling()
    ensures !(Lit("billing/") <= FINANCE_DIR)
  {
    assert |FINANCE_DIR| < |Lit("billing/")|;
  }

  lemma ListingBuilt()
    ensures Built(Lit("w"), Probes()[0], SomeAnswers()[0])
  {
    hide Lit, Repository, ResidualFinancePii, Blank, Built, Summary, Probes, Get;
    ToolsOfMandatory();
    NamesOf();
    WordsClean("w");
    WordsClean("repo");
    WordsClean("finance");
    WordsClean("finance_artifacts");
    ListingSummary(Probes()[0]);
    BuiltIff(Lit("w"), Probes()[0], SomeAnswers()[0]);
  }
}
