/**
 * The finance inspection: seven probes in a fixed order, and the evidence they leave
 * (packages/employees/specialist-kit/src/specialist-brain.ts, finance-evidence.ts).
 */
module FinanceInspection {
  import opened Texts
  import opened JsonValues
  import opened EvidenceText
  import opened EvidenceSanitizer
  import Frontmatter

  datatype Tool = ListDirectory | ReadFile | SearchFiles | OtherTool(name: Text)

  datatype Execution = Execution(tool: Tool, success: bool, outcome: Text)

  datatype Evidence = Evidence(source: Tool, data: seq<Field>)

  datatype Failure = Failure(code: Text, message: Text)

  /** A tool fails (a refused permission and a missing method included), or returns its data. */
  datatype ToolAnswer = ToolError(failure: Failure) | ToolData(raw: seq<Field>)

  /** What a file's content is read as: structured fields, or none and then a body. */
  datatype Parsed = Parsed(structured: Option<seq<Field>>, body: Text)

  /** A tool's answer with its content read. */
  datatype Answer = Fails(failure: Failure) | Returns(raw: seq<Field>, parsed: Parsed)

  function ContentOf(raw: seq<Field>): Text {
    var content := Get(raw, Lit("content"));
    if content.Some? && content.value.Str? then content.value.text else []
  }

  /** Only files are read; `number` is what the language makes of a decimal. */
  function Read(number: Text -> Number, probe: Probe, a: ToolAnswer): Answer {
    match a
    case ToolError(failure) => Fails(failure)
    case ToolData(raw) =>
      Returns(raw, if probe.tool.ReadFile?
                   then Parsed(Frontmatter.Structured(number, ContentOf(raw)), Frontmatter.Body(ContentOf(raw)))
                   else Parsed(None, []))
  }

  function ReadAll(number: Text -> Number, answers: seq<ToolAnswer>): (r: seq<Answer>)
    requires |answers| == 7
    ensures |r| == 7 && forall k | 0 <= k < 7 :: r[k] == Read(number, Probes()[k], answers[k])
  {
    seq(7, k requires 0 <= k < 7 => Read(number, Probes()[k], answers[k]))
  }

  datatype Probe = Probe(tool: Tool, path: Text, mandatory: bool)

  const FINANCE_DIR: Text := Lit("finance")
  const OVERVIEW: Text := Lit("finance/overview.md")
  const NOT_FOUND: Text := Lit("NOT_FOUND")
  const DOMAIN: Text := Lit("finance_artifacts")

  function Probes(): (p: seq<Probe>)
    ensures |p| == 7
  {
    [Probe(ListDirectory, FINANCE_DIR, true),
     Probe(ReadFile, OVERVIEW, true),
     Probe(ReadFile, Lit("finance/budget.md"), false),
     Probe(ReadFile, Lit("finance/costs.md"), false),
     Probe(ReadFile, Lit("billing/summary.md"), false),
     Probe(SearchFiles, Lit("finance/"), false),
     Probe(ListDirectory, Lit("billing"), false)]
  }

  // ------------------------------------------------------------ evidence of one probe

  function Present(v: Option<Json>): bool {
    v.Some? && v.value != Undefined && v.value != Null
  }

  /** `String(value)`. */
  function Printed(v: Json): Text {
    match v
    case Undefined => Lit("undefined")
    case Null => Lit("null")
    case Bool(b) => if b then Lit("true") else Lit("false")
    case Num(number) => if number.NotFinite? then Lit("NaN") else number.lexeme
    case Str(text) => text
    case Arr(items) => Join(seq(|items|, i requires 0 <= i < |items| =>
                              if items[i] == Undefined || items[i] == Null then [] else Printed(items[i])), Lit(","))
    case Obj(_) => Lit("[object Object]")
  }

  function Decimal(n: nat): Text {
    (if n < 10 then [] else Decimal(n / 10)) + ['0' as int + n % 10]
  }

  function Count(v: Option<Json>): nat {
    if v.Some? && v.value.Arr? then |v.value.items| else 0
  }

  function Summary(probe: Probe, structured: seq<Field>, raw: seq<Field>): Text {
    var runway := Get(structured, Lit("runwayMonths"));
    if Present(runway) then Lit("overview ") + Printed(runway.value) + Lit("m runway")
    else if Present(Get(structured, Lit("monthlyBurn"))) then Lit("monthly cost overview")
    else if Present(Get(structured, Lit("monthlyRevenue"))) then Lit("monthly revenue overview")
    else if Lit("billing/") <= probe.path then Lit("billing aggregate summary")
    else if probe.tool.ListDirectory? then
      probe.path + Lit(" directory ") + Decimal(Count(Get(raw, Lit("entries")))) + Lit(" entries")
    else if probe.tool.SearchFiles? then Lit("finance search ") + Decimal(Count(Get(raw, Lit("hits")))) + Lit(" hits")
    else probe.path + Lit(" finance artifact")
  }

  function Repository(raw: seq<Field>): Text {
    var r := Get(raw, Lit("repository"));
    if r.Some? && r.value.Str? then r.value.text else []
  }

  function Excerpt(body: Text): Text {
    var redacted := RedactFinancePii(body);
    if |redacted| > MAX_EXCERPT then redacted[..MAX_EXCERPT] else redacted
  }

  function EvidenceData(workspaceId: Text, probe: Probe, raw: seq<Field>, parsed: Parsed): seq<Field> {
    var structured := if probe.tool.ReadFile? && parsed.structured.Some? then parsed.structured.value else [];
    [Field(Lit("domain"), Str(DOMAIN)),
     Field(Lit("workspaceId"), Str(workspaceId)),
     Field(Lit("repository"), Str(Repository(raw))),
     Field(Lit("artifactPath"), Str(probe.path)),
     Field(Lit("summary"), Str(Summary(probe, structured, raw)))]
    + OptionalData(probe, raw, parsed)
  }

  function OptionalData(probe: Probe, raw: seq<Field>, parsed: Parsed): seq<Field> {
    match probe.tool
    case ReadFile =>
      if parsed.structured.Some? then [Field(Lit("structured"), Obj(parsed.structured.value))]
      else if Excerpt(parsed.body) != [] then [Field(Lit("contentExcerpt"), Str(Excerpt(parsed.body)))]
      else []
    case SearchFiles =>
      var query := Get(raw, Lit("query"));
      [Field(Lit("query"), if query.Some? then query.value else Undefined),
       Field(Lit("hitCount"), Num(Finite(Decimal(Count(Get(raw, Lit("hits")))))))]
    case _ => []
  }

  predicate Storable(key: Text) {
    !Forbidden(key) && !Denied(Finance, key)
  }

  /** Some text anywhere in the value holds a number to redact. */
  predicate HoldsPii(v: Json) {
    match v
    case Str(text) => ResidualFinancePii(text)
    case Arr(items) => exists i | 0 <= i < |items| :: HoldsPii(items[i])
    case Obj(fields) => exists i | 0 <= i < |fields| :: HoldsPii(fields[i].value)
    case _ => false
  }

  function Build(workspaceId: Text, probe: Probe, raw: seq<Field>, parsed: Parsed): Result<seq<Field>, Failure> {
    if Blank(workspaceId) then Err(Failure(Lit("WORKSPACE_ID_ABSENT"), Lit("workspaceId ausente no ToolContext.")))
    else if Blank(Repository(raw)) then Err(Failure(Lit("REPOSITORY_ABSENT"), Lit("repository ausente no resultado da tool.")))
    else
      var sanitized := Keep(EvidenceData(workspaceId, probe, raw, parsed), Storable);
      if HoldsPii(Obj(sanitized)) then
        Err(Failure(Lit("EVIDENCE_PII_BLOCKED"), Lit("PII proibida detectada apos sanitizacao financeira.")))
      else Ok(sanitized)
  }

  // ------------------------------------------------------------ the inspection, as a fold

  /** What one probe adds. */
  datatype Effect = Effect(executions: seq<Execution>, evidence: seq<Evidence>, ok: bool, called: nat)

  function Outcome(failure: Failure): Text {
    failure.code + Lit(": ") + failure.message
  }

  function FailureData(failure: Failure): seq<Field> {
    [Field(Lit("error"), Str(failure.code)), Field(Lit("message"), Str(failure.message))]
  }

  function EffectOf(workspaceId: Text, probe: Probe, answer: Answer): Effect {
    match answer
    case Fails(failure) =>
      if probe.tool.ReadFile? && !probe.mandatory && failure.code == NOT_FOUND then Effect([], [], true, 0)
      else Effect([Execution(probe.tool, false, Outcome(failure))], [Evidence(probe.tool, FailureData(failure))],
                  !probe.mandatory, 1)
    case Returns(raw, parsed) =>
      match Build(workspaceId, probe, raw, parsed)
      case Err(failure) =>
        Effect([Execution(probe.tool, false, Outcome(failure))],
               if probe.mandatory then [Evidence(probe.tool, FailureData(failure))] else [], !probe.mandatory, 1)
      case Ok(data) =>
        Effect([Execution(probe.tool, true, [])], [Evidence(probe.tool, SafeData(data))], true, 1)
  }

  function SafeData(data: seq<Field>): seq<Field> {
    Allowed(SanitizeFields(Finance, data))
  }

  function EffectOfFirst(workspaceId: Text, probes: seq<Probe>, answers: seq<Answer>, n: nat): Effect
    requires n <= |probes| == |answers|
  {
    if n == 0 then Effect([], [], true, 0)
    else
      var before := EffectOfFirst(workspaceId, probes, answers, n - 1);
      var step := EffectOf(workspaceId, probes[n - 1], answers[n - 1]);
      Effect(before.executions + step.executions, before.evidence + step.evidence, before.ok && step.ok,
             before.called + step.called)
  }

  function Inspect(workspaceId: Text, answers: seq<Answer>): Effect
    requires |answers| == 7
  {
    EffectOfFirst(workspaceId, Probes(), answers, 7)
  }

  // ------------------------------------------------------------ the source's closures over mutable state

  class Inspection {
    const workspaceId: Text
    const number: Text -> Number
    var executions: seq<Execution>
    var evidence: seq<Evidence>
    var mandatoryOk: bool
    var called: nat

    constructor (workspaceId: Text, number: Text -> Number)
      ensures this.workspaceId == workspaceId && this.number == number && State() == Effect([], [], true, 0)
    {
      this.workspaceId, this.number := workspaceId, number;
      executions, evidence, mandatoryOk, called := [], [], true, 0;
    }

    ghost function State(): Effect
      reads this
    {
      Effect(executions, evidence, mandatoryOk, called)
    }

    /** The state with one more effect. */
    ghost function Adding(step: Effect): Effect
      reads this
    {
      Effect(executions + step.executions, evidence + step.evidence, mandatoryOk && step.ok, called + step.called)
    }

    method RecordSuccess(probe: Probe, raw: seq<Field>)
      requires WellFormed(Obj(raw)) && Frontmatter.Numeric(number)
      modifies this
      ensures State() == old(Adding(EffectOf(workspaceId, probe, Read(number, probe, ToolData(raw)))))
    {
      hide EffectOf, Sound;
      var parsed := Parsed(None, []);
      if probe.tool.ReadFile? {
        var structured := Frontmatter.ParseFinanceFrontmatter(number, ContentOf(raw));
        parsed := Parsed(structured, Frontmatter.Body(ContentOf(raw)));
      }
      ReadIsSound(number, probe, raw);
      RecordRead(probe, raw, parsed);
    }

    /** Evidence is built of what was read, sanitized and recorded. */
    method RecordRead(probe: Probe, raw: seq<Field>, parsed: Parsed)
      requires Sound(Returns(raw, parsed))
      modifies this
      ensures State() == old(Adding(EffectOf(workspaceId, probe, Returns(raw, parsed))))
    {
      hide Build, SafeData, Sound;
      var built := Build(workspaceId, probe, raw, parsed);
      called := called + 1;
      match built
      case Err(failure) =>
        executions := executions + [Execution(probe.tool, false, Outcome(failure))];
        if probe.mandatory {
          mandatoryOk := false;
          evidence := evidence + [Evidence(probe.tool, FailureData(failure))];
        }
      case Ok(data) =>
        BuiltWellFormed(workspaceId, probe, raw, parsed);
        var safe := SanitizeJson(Finance, Obj(data));
        executions := executions + [Execution(probe.tool, true, [])];
        evidence := evidence + [Evidence(probe.tool, safe.fields)];
        assert safe.fields == SafeData(data) by { SafeDataIs(data); }
    }

    method RecordFailure(probe: Probe, failure: Failure)
      modifies this
      ensures State() == old(Adding(Effect([Execution(probe.tool, false, Outcome(failure))],
                                           [Evidence(probe.tool, FailureData(failure))], !probe.mandatory, 1)))
    {
      called := called + 1;
      if probe.mandatory {
        mandatoryOk := false;
      }
      executions := executions + [Execution(probe.tool, false, Outcome(failure))];
      evidence := evidence + [Evidence(probe.tool, FailureData(failure))];
    }

    method Invoke(probe: Probe, answer: ToolAnswer)
      requires Genuine(answer) && Frontmatter.Numeric(number)
      modifies this
      ensures State() == old(Adding(EffectOf(workspaceId, probe, Read(number, probe, answer))))
    {
      hide Build, SafeData, EffectOf;
      match answer
      case ToolData(raw) => RecordSuccess(probe, raw);
      case ToolError(failure) =>
        FailureEffect(workspaceId, probe, failure);
        if probe.tool.ReadFile? && !probe.mandatory && failure.code == NOT_FOUND {
          assert executions + [] == executions && evidence + [] == evidence;
          return;
        }
        RecordFailure(probe, failure);
    }

    /** The seven probes, in order. */
    method InspectFinanceArtifacts(answers: seq<ToolAnswer>) returns (allSucceeded: bool)
      requires |answers| == 7 && (forall k | 0 <= k < 7 :: Genuine(answers[k])) && Frontmatter.Numeric(number)
      requires State() == Effect([], [], true, 0)
      modifies this
      ensures State() == Inspect(workspaceId, ReadAll(number, answers))
      ensures allSucceeded == Inspect(workspaceId, ReadAll(number, answers)).ok && called > 0
    {
      hide EffectOf, Genuine, Read;
      for k := 0 to 7
        invariant State() == EffectOfFirst(workspaceId, Probes(), ReadAll(number, answers), k)
        invariant k > 0 ==> called > 0
      {
        Invoke(Probes()[k], answers[k]);
        FirstIsRecorded(workspaceId, ReadAll(number, answers)[k]);
      }
      // The first probe always counts, so the source's branch for an inspection without any call is never taken.
      allSucceeded := mandatoryOk && called > 0;
    }
  }

  lemma FailureEffect(workspaceId: Text, probe: Probe, failure: Failure)
    ensures EffectOf(workspaceId, probe, Fails(failure)) ==
            if probe.tool.ReadFile? && !probe.mandatory && failure.code == NOT_FOUND then Effect([], [], true, 0)
            else Effect([Execution(probe.tool, false, Outcome(failure))], [Evidence(probe.tool, FailureData(failure))],
                        !probe.mandatory, 1)
  {
  }

  /** What every object of the language satisfies: its keys are distinct, its numbers print as lexemes. */
  predicate Genuine(answer: ToolAnswer) {
    answer.ToolData? ==> WellFormed(Obj(answer.raw))
  }

  lemma ReadIsSound(number: Text -> Number, probe: Probe, raw: seq<Field>)
    requires WellFormed(Obj(raw)) && Frontmatter.Numeric(number)
    ensures Sound(Read(number, probe, ToolData(raw)))
  {
    Frontmatter.StructuredClean(number, ContentOf(raw));
  }

  lemma FirstIsRecorded(workspaceId: Text, answer: Answer)
    ensures EffectOf(workspaceId, Probes()[0], answer).called == 1
  {
    hide Build, SafeData;
  }

  // ------------------------------------------------------------ well-formedness

  predicate Sound(answer: Answer) {
    answer.Returns? ==>
      && WellFormed(Obj(answer.raw))
      && (answer.parsed.structured.Some? ==> WellFormed(Obj(answer.parsed.structured.value)))
  }

  lemma {:induction false} DecimalLexeme(n: nat)
    ensures IsLexeme(Decimal(n))
  {
    if n >= 10 {
      DecimalLexeme(n / 10);
    }
  }

  lemma KeptWellFormed(fields: seq<Field>, keep: Text -> bool)
    requires WellFormed(Obj(fields))
    ensures WellFormed(Obj(Keep(fields, keep)))
  {
    if fields != [] {
      var n := |fields| - 1;
      KeptWellFormed(fields[..n], keep);
      Kept(fields[..n], keep);
      var kept := Keep(fields[..n], keep);
      forall i | 0 <= i < |kept| ensures kept[i].key != fields[n].key {
        assert kept[i] in kept;
      }
    }
  }

  lemma StoredWellFormed(workspaceId: Text, probe: Probe, raw: seq<Field>, parsed: Parsed)
    requires Sound(Returns(raw, parsed))
    ensures WellFormed(Obj(Keep(EvidenceData(workspaceId, probe, raw, parsed), Storable)))
  {
    DataKeys(workspaceId, probe, raw, parsed);
    DataValues(workspaceId, probe, raw, parsed);
    hide EvidenceData, Keep, Storable, DistinctKeys;
    assert WellFormed(Obj(EvidenceData(workspaceId, probe, raw, parsed)));
    KeptWellFormed(EvidenceData(workspaceId, probe, raw, parsed), Storable);
  }

  lemma BuiltWellFormed(workspaceId: Text, probe: Probe, raw: seq<Field>, parsed: Parsed)
    requires Sound(Returns(raw, parsed))
    ensures var built := Build(workspaceId, probe, raw, parsed); built.Ok? ==> WellFormed(Obj(built.value))
  {
    StoredWellFormed(workspaceId, probe, raw, parsed);
    hide EvidenceData, HoldsPii, Repository, Keep, Storable, Lit, Blank, WellFormed;
  }

  lemma DataValues(workspaceId: Text, probe: Probe, raw: seq<Field>, parsed: Parsed)
    requires Sound(Returns(raw, parsed))
    ensures forall f | f in EvidenceData(workspaceId, probe, raw, parsed) :: WellFormed(f.value)
  {
    hide Summary, Repository, Excerpt, Lit, Count, Decimal, Get, Trim, IsLexeme, DistinctKeys;
    DecimalLexeme(Count(Get(raw, Lit("hits"))));
    ValueWellFormed(raw, Lit("query"));
  }

  lemma ValueWellFormed(raw: seq<Field>, key: Text)
    requires WellFormed(Obj(raw))
    ensures Get(raw, key).Some? ==> WellFormed(Get(raw, key).value)
  {
    var v := Get(raw, key);
    if v.Some? {
      var i :| 0 <= i < |raw| && raw[i] == Field(key, v.value);
    }
  }

  /** The keys of evidence, by their first units and lengths, are distinct and never "error" or "path". */
  lemma DataKeys(workspaceId: Text, probe: Probe, raw: seq<Field>, parsed: Parsed)
    ensures DistinctKeys(EvidenceData(workspaceId, probe, raw, parsed))
    ensures forall f | f in EvidenceData(workspaceId, probe, raw, parsed) ::
              |f.key| > 4 && !(f.key[0] == 'e' as int) && !(f.key[0] == 'p' as int)
  {
    hide Summary, Repository, Excerpt, Get, Decimal, Count, Lit;
    KeyShapes();
  }

  lemma KeyShapes()
    ensures |Lit("domain")| == 6 && |Lit("workspaceId")| == 11 && |Lit("repository")| == 10 && |Lit("artifactPath")| == 12
    ensures |Lit("summary")| == 7 && |Lit("structured")| == 10 && |Lit("contentExcerpt")| == 14 && |Lit("query")| == 5
    ensures |Lit("hitCount")| == 8
    ensures Lit("domain")[0] == 'd' as int && Lit("workspaceId")[0] == 'w' as int && Lit("repository")[0] == 'r' as int
    ensures Lit("artifactPath")[0] == 'a' as int && Lit("summary")[0] == 's' as int && Lit("structured")[0] == 's' as int
    ensures Lit("contentExcerpt")[0] == 'c' as int && Lit("query")[0] == 'q' as int && Lit("hitCount")[0] == 'h' as int
  {
  }

  lemma SafeDataIs(data: seq<Field>)
    ensures Sanitize(Finance, Obj(data)) == Obj(SafeData(data))
  {
  }
}
