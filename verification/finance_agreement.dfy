/** The validator accepts what the inspection delivers, exactly when the inspection found what it must. */
module FinanceAgreement {
  import opened Texts
  import opened JsonValues
  import opened Patterns
  import opened EvidenceText
  import opened EvidenceSanitizer
  import opened FinanceInspection
  import Frontmatter
  import opened FinanceValidation

  // ------------------------------------------------------------ keys of the evidence are kept

  /** The first three letters of some denied fragment. */
  predicate Opens(a: char, b: char, c: char) {
    match a
    case 'p' => b == 'a' && c == 's'
    case 's' => b == 'e' && c == 'c'
    case 't' => b == 'o' && c == 'k'
    case 'a' => (b == 'p' && c == 'i') || (b == 'c' && c == 'c') || (b == 'u' && c == 't')
    case 'i' => b == 'b' && c == 'a'
    case 'c' => (b == 'p' && c == 'f') || (b == 'n' && c == 'p') || (b == 'r' && c == 'e')
                || (b == 'v' && c == 'v') || (b == 'l' && c == 'i')
    case 'b' => b == 'a' && c == 'n'
    case 'r' => b == 'o' && c == 'u'
    case _ => false
  }

  predicate LowerCase(s: string) {
    forall i | 0 <= i < |s| :: 'a' <= s[i] <= 'z'
  }

  /** No denied fragment can start at i or later. */
  predicate ClearFrom(s: string, i: nat)
    decreases |s| - i
  {
    i + 2 >= |s| || (!Opens(s[i], s[i + 1], s[i + 2]) && ClearFrom(s, i + 1))
  }

  predicate Lowered(key: string, lower: string) {
    |key| == |lower|
    && forall i | 0 <= i < |key| :: 'a' <= lower[i] <= 'z' && (key[i] == lower[i] || key[i] as int + 32 == lower[i] as int)
  }

  lemma LitFirst(s: string)
    requires s != "" && s[0] <= 'z'
    ensures Lit(s) != [] && Lit(s)[0] == s[0] as int && Lit(s)[1..] == Lit(s[1..])
    ensures Lit(s) == [s[0] as int] + Lit(s[1..])
  {
  }

  lemma FirstLowered(key: string, lower: string)
    requires Lowered(key, lower) && key != ""
    ensures key[0] <= 'z' && 'a' <= lower[0] <= 'z' && LowerUnit(key[0] as int) == [lower[0] as int]
  {
  }

  lemma {:induction false} LowerOfKey(key: string, lower: string)
    requires Lowered(key, lower)
    ensures NormalizeKey(Lower(Lit(key))) == Lit(lower) && Lower(Lit(key)) == Lit(lower)
  {
    if key != "" {
      LowerOfKey(key[1..], lower[1..]);
      FirstLowered(key, lower);
      LitFirst(key);
      LitFirst(lower);
      hide Lit, Lowered, LowerUnit;
    } else {
      assert Lit(key) == [] && Lit(lower) == [];
    }
  }

  predicate OpensText(f: Text) {
    |f| >= 3 && f[0] < 128 && f[1] < 128 && f[2] < 128 && Opens(f[0] as char, f[1] as char, f[2] as char)
  }

  lemma LitOpens(w: string)
    requires |w| >= 3 && w[0] <= 'z' && w[1] <= 'z' && w[2] <= 'z' && Opens(w[0], w[1], w[2])
    ensures OpensText(Lit(w))
  {
  }

  lemma FragmentsOpen()
    ensures forall f | f in DenyFragments(Finance) :: OpensText(f)
  {
    hide Lit, OpensText;
    LitOpens("password");
    LitOpens("secret");
    LitOpens("token");
    LitOpens("apikey");
    LitOpens("accountnumber");
    LitOpens("iban");
    LitOpens("cpf");
    LitOpens("cnpj");
    LitOpens("creditcard");
    LitOpens("cvv");
    LitOpens("bankaccount");
    LitOpens("routingnumber");
    LitOpens("clientsecret");
    LitOpens("authorization");
  }

  lemma OpensWhereItStarts(s: string, i: nat, fragment: Text)
    requires LowerCase(s) && i <= |s| && OpensText(fragment) && fragment <= Lit(s)[i..]
    ensures i + 2 < |s| && Opens(s[i], s[i + 1], s[i + 2])
  {
    var rest := Lit(s)[i..];
    assert rest[0] == fragment[0] && rest[1] == fragment[1] && rest[2] == fragment[2];
    assert s[i] == fragment[0] as char && s[i + 1] == fragment[1] as char && s[i + 2] == fragment[2] as char;
  }

  lemma {:induction false} ClearOfFragments(s: string, i: nat, fragment: Text)
    requires LowerCase(s) && i <= |s| && ClearFrom(s, i) && OpensText(fragment)
    ensures !Includes(Lit(s)[i..], fragment)
    decreases |s| - i
  {
    hide Opens, OpensText;
    if fragment <= Lit(s)[i..] {
      OpensWhereItStarts(s, i, fragment);
    }
    if i < |s| {
      ClearOfEnd(s, i);
      ClearOfFragments(s, i + 1, fragment);
      assert Lit(s)[i..][1..] == Lit(s)[i + 1..];
    }
  }

  lemma ClearOfEnd(s: string, i: nat)
    requires i < |s| && ClearFrom(s, i)
    ensures ClearFrom(s, i + 1)
  {
  }

  predicate Plainly(lower: string) {
    LowerCase(lower) && ClearFrom(lower, 0) && lower !in {"content", "body", "rawcontent", "fullcontent"}
  }

  lemma KeyNotDenied(key: string, lower: string)
    requires Lowered(key, lower) && Plainly(lower)
    ensures !Denied(Finance, Lit(key))
  {
    LowerOfKey(key, lower);
    FragmentsOpen();
    hide Opens, OpensText, DenyFragments, Includes, Lower, NormalizeKey, Lit;
    forall fragment | fragment in DenyFragments(Finance) ensures !Includes(NormalizeKey(Lower(Lit(key))), fragment) {
      assert Lit(lower)[0..] == Lit(lower);
      ClearOfFragments(lower, 0, fragment);
    }
  }

  lemma KeyStorable(key: string, lower: string)
    requires Lowered(key, lower) && Plainly(lower)
    ensures Storable(Lit(key))
  {
    hide Denied, ClearFrom, Lit, Lower, NormalizeKey, Lowered;
    KeyNotDenied(key, lower);
    LowerOfKey(key, lower);
    LitInjective(lower, "content");
    LitInjective(lower, "body");
    LitInjective(lower, "rawcontent");
    LitInjective(lower, "fullcontent");
  }

  lemma LitInjective(s: string, t: string)
    requires LowerCase(s) && LowerCase(t) && s != t
    ensures Lit(s) != Lit(t)
  {
    if |s| == |t| {
      var i :| 0 <= i < |s| && s[i] != t[i];
      assert Lit(s)[i] != Lit(t)[i];
    }
  }

  lemma EvidenceKeysStorable()
    ensures Storable(Lit("domain")) && Storable(Lit("artifactPath")) && Storable(Lit("structured"))
  {
    hide Storable;
    KeyStorable("domain", "domain");
    KeyStorable("artifactPath", "artifactpath");
    KeyStorable("structured", "structured");
  }

  lemma RunwayAndBurnStorable()
    ensures Storable(Lit("runwayMonths")) && Storable(Lit("monthlyBurn"))
  {
    hide Storable;
    KeyStorable("runwayMonths", "runwaymonths");
    KeyStorable("monthlyBurn", "monthlyburn");
  }

  lemma RevenueAndRiskStorable()
    ensures Storable(Lit("monthlyRevenue")) && Storable(Lit("riskLevel"))
  {
    hide Storable;
    KeyStorable("monthlyRevenue", "monthlyrevenue");
    KeyStorable("riskLevel", "risklevel");
  }

  // ------------------------------------------------------------ what sanitizing keeps

  lemma PlainTextKept(text: Text)
    requires |text| <= MAX_EXCERPT && forall i | 0 <= i < |text| :: !In(Digit, text[i])
    ensures CleanText(Finance, text) == text
  {
    NumberFree(Cpf(), text);
    NumberFree(Cnpj(), text);
    NumberFree(Card(), text);
    hide Test, Cpf, Cnpj, Card;
    FinanceTextFixedIff(text);
  }

  lemma NumberFree(p: Pattern, text: Text)
    requires p.One? && p.cls == Digit && forall i | 0 <= i < |text| :: !In(Digit, text[i])
    ensures !Test(p, text)
  {
    if Test(p, text) {
      assert text + [] == text;
      TestAfter(p, text, []);
    }
  }

  lemma {:induction false} GetSanitized(kit: Kit, fields: seq<Field>, key: Text)
    ensures Get(fields, key).None? ==> Get(SanitizeFields(kit, fields), key).None?
    ensures Get(fields, key).Some? ==>
              Get(SanitizeFields(kit, fields), key) == Some(SanitizeField(kit, Field(key, Get(fields, key).value)).value)
  {
    hide Denied, Sanitize, SanitizeFields, SanitizeField;
    if fields == [] {
      NothingSanitized(kit, key);
    } else {
      GetSanitized(kit, fields[1..], key);
      FirstSanitized(kit, fields);
    }
  }

  lemma NothingSanitized(kit: Kit, key: Text)
    ensures Get(SanitizeFields(kit, []), key).None?
  {
  }

  lemma FirstSanitized(kit: Kit, fields: seq<Field>)
    requires fields != []
    ensures var r := SanitizeFields(kit, fields);
            r[0] == SanitizeField(kit, fields[0]) && r[0].key == fields[0].key && r[1..] == SanitizeFields(kit, fields[1..])
  {
    hide Denied, Sanitize;
  }

  lemma SafeGet(data: seq<Field>, key: Text)
    ensures Get(data, key).None? ==> Get(SafeData(data), key).None?
    ensures Storable(key) && Get(data, key).Some? ==> Get(SafeData(data), key) == Some(Sanitize(Finance, Get(data, key).value))
  {
    hide Denied, Forbidden, Sanitize, Get, Keep;
    GetSanitized(Finance, data, key);
    GetKept(SanitizeFields(Finance, data), Shown, key);
  }

  /** A storable key of the evidence reads, after sanitizing, as its sanitized value. */
  lemma StoredGet(workspaceId: Text, probe: Probe, raw: seq<Field>, parsed: Parsed, key: Text)
    requires Build(workspaceId, probe, raw, parsed).Ok?
    ensures var data := EvidenceData(workspaceId, probe, raw, parsed);
            var safe := SafeData(Build(workspaceId, probe, raw, parsed).value);
            && (Get(data, key).None? ==> Get(safe, key).None?)
            && (Storable(key) && Get(data, key).Some? ==> Get(safe, key) == Some(Sanitize(Finance, Get(data, key).value)))
  {
    hide EvidenceData, HoldsPii, Repository, Blank, Storable, Sanitize, Get, Keep, SafeData;
    var data := EvidenceData(workspaceId, probe, raw, parsed);
    GetKept(data, Storable, key);
    SafeGet(Keep(data, Storable), key);
  }

  lemma EvidenceGets(workspaceId: Text, probe: Probe, raw: seq<Field>, parsed: Parsed)
    ensures var data := EvidenceData(workspaceId, probe, raw, parsed);
            && Get(data, Lit("domain")) == Some(Str(DOMAIN)) && Get(data, Lit("artifactPath")) == Some(Str(probe.path))
            && Get(data, Lit("error")).None? && Get(data, Lit("path")).None?
            && (probe.tool.ReadFile? && parsed.structured.Some? ==>
                  Get(data, Lit("structured")) == Some(Obj(parsed.structured.value)))
  {
    var data := EvidenceData(workspaceId, probe, raw, parsed);
    DataKeys(workspaceId, probe, raw, parsed);
    hide Summary, Repository, Excerpt, Decimal, Count, Get;
    GetFound(data, 0);
    GetFound(data, 3);
    if probe.tool.ReadFile? && parsed.structured.Some? {
      GetFound(data, 5);
    }
    NotAKey(data, Lit("error"));
    NotAKey(data, Lit("path"));
  }

  lemma NotAKey(data: seq<Field>, key: Text)
    requires forall f | f in data :: f.key != key
    ensures Get(data, key).None?
  {
  }

  // ------------------------------------------------------------ one probe

  predicate Sane(probe: Probe) {
    && !probe.tool.OtherTool? && AllowedPath(probe.path)
    && |probe.path| <= MAX_EXCERPT && forall i | 0 <= i < |probe.path| :: !In(Digit, probe.path[i])
  }

  lemma DirectoriesSane()
    ensures Sane(Probe(ListDirectory, Lit("finance"), true)) && Sane(Probe(ListDirectory, Lit("billing"), false))
  {
  }

  lemma SaneBelow(tool: Tool, root: string, path: string, mandatory: bool)
    requires !tool.OtherTool? && root in {"finance/", "billing/"} && root <= path && |path| < 30
    requires forall i | 0 <= i < |path| :: !('0' <= path[i] <= '9') && path[i] <= 'z'
    ensures Sane(Probe(tool, Lit(path), mandatory))
  {
    assert Lit(root) <= Lit(path);
  }

  lemma FinanceFilesSane()
    ensures Sane(Probe(ReadFile, Lit("finance/overview.md"), true)) && Sane(Probe(ReadFile, Lit("finance/budget.md"), false))
  {
    hide Sane, Lit;
    SaneBelow(ReadFile, "finance/", "finance/overview.md", true);
    SaneBelow(ReadFile, "finance/", "finance/budget.md", false);
  }

  lemma OtherFilesSane()
    ensures Sane(Probe(ReadFile, Lit("finance/costs.md"), false)) && Sane(Probe(ReadFile, Lit("billing/summary.md"), false))
    ensures Sane(Probe(SearchFiles, Lit("finance/"), false))
  {
    hide Sane, Lit;
    SaneBelow(ReadFile, "finance/", "finance/costs.md", false);
    SaneBelow(ReadFile, "billing/", "billing/summary.md", false);
    SaneBelow(SearchFiles, "finance/", "finance/", false);
  }

  lemma ProbesSane()
    ensures forall k | 0 <= k < 7 :: Sane(Probes()[k])
  {
    DirectoriesSane();
    FinanceFilesSane();
    OtherFilesSane();
    hide Sane, Lit;
  }

  predicate Built(workspaceId: Text, probe: Probe, answer: Answer) {
    answer.Returns? && Build(workspaceId, probe, answer.raw, answer.parsed).Ok?
  }

  function BuiltData(workspaceId: Text, probe: Probe, answer: Answer): seq<Field>
    requires Built(workspaceId, probe, answer)
  {
    SafeData(Build(workspaceId, probe, answer.raw, answer.parsed).value)
  }

  /** A probe that found what it must: evidence, or nothing at an optional place. */
  predicate Good(workspaceId: Text, probe: Probe, answer: Answer) {
    Built(workspaceId, probe, answer) || (!probe.mandatory && answer.Fails? && answer.failure.code == NOT_FOUND)
  }

  lemma BuiltGets(workspaceId: Text, probe: Probe, answer: Answer)
    requires Sane(probe) && Built(workspaceId, probe, answer)
    ensures var data := BuiltData(workspaceId, probe, answer);
            && Get(data, Lit("domain")) == Some(Str(DOMAIN)) && Get(data, Lit("artifactPath")) == Some(Str(probe.path))
            && Get(data, Lit("error")).None? && !Unsafe(Finance, Obj(data))
  {
    var raw, parsed := answer.raw, answer.parsed;
    var data := Build(workspaceId, probe, raw, parsed).value;
    EvidenceKeysStorable();
    EvidenceGets(workspaceId, probe, raw, parsed);
    StoredGet(workspaceId, probe, raw, parsed, Lit("domain"));
    StoredGet(workspaceId, probe, raw, parsed, Lit("artifactPath"));
    StoredGet(workspaceId, probe, raw, parsed, Lit("error"));
    SanitizedPlain(probe.path);
    SanitizedDomain();
    SafeDataIs(data);
    FinanceSanitizedPassesScan(Obj(data));
    hide EvidenceData, Build, Unsafe, Storable, Get, SafeData, CleanText, Sanitize, Lit, AllowedPath;
  }

  lemma BuiltItem(workspaceId: Text, probe: Probe, answer: Answer)
    requires Sane(probe) && Built(workspaceId, probe, answer)
    ensures var item := Evidence(probe.tool, BuiltData(workspaceId, probe, answer));
            && ValidItem(item) && Get(item.data, Lit("artifactPath")) == Some(Str(probe.path))
            && PathOf(item) == Some(Str(probe.path))
            && EffectOf(workspaceId, probe, answer) == Effect([Execution(probe.tool, true, [])], [item], true, 1)
  {
    BuiltGets(workspaceId, probe, answer);
    hide Build, Unsafe, Get, SafeData, Lit, AllowedPath;
  }

  lemma SanitizedPlain(text: Text)
    requires |text| <= MAX_EXCERPT && forall i | 0 <= i < |text| :: !In(Digit, text[i])
    ensures Sanitize(Finance, Str(text)) == Str(text)
  {
    PlainTextKept(text);
  }

  lemma SanitizedDomain()
    ensures Sanitize(Finance, Str(DOMAIN)) == Str(DOMAIN)
  {
    PlainTextKept(DOMAIN);
  }

  // ------------------------------------------------------------ outcomes and their codes

  predicate CodeLike(code: Text) {
    code != [] && !IsSpace(code[0]) && !IsSpace(code[|code| - 1]) && forall i | 0 <= i < |code| :: code[i] != ':' as int
  }

  lemma {:induction false} CodeBeforeColon(code: Text, rest: Text)
    requires forall i | 0 <= i < |code| :: code[i] != ':' as int
    requires rest != [] && rest[0] == ':' as int
    ensures UpToColon(code + rest) == code
  {
    if code == [] {
      assert code + rest == rest;
    } else {
      assert (code + rest)[1..] == code[1..] + rest;
      CodeBeforeColon(code[1..], rest);
    }
  }

  lemma CodeParsed(failure: Failure)
    requires CodeLike(failure.code)
    ensures ErrorCode(Outcome(failure)) == Some(failure.code)
  {
    var code, rest := failure.code, Lit(": ") + failure.message;
    assert Outcome(failure) == code + rest;
    CodeBeforeColon(code, rest);
    assert !IsSpace(Outcome(failure)[0]);
    assert Trim(code) == code;
  }

  lemma LitCode(code: string)
    requires code != "" && forall i | 0 <= i < |code| :: 'A' <= code[i] <= 'Z' || code[i] == '_'
    ensures CodeLike(Lit(code))
  {
  }

  lemma CodesLike()
    ensures CodeLike(NOT_FOUND) && CodeLike(Lit("WORKSPACE_ID_ABSENT")) && CodeLike(Lit("REPOSITORY_ABSENT"))
    ensures CodeLike(Lit("EVIDENCE_PII_BLOCKED"))
  {
    hide Lit, CodeLike;
    LitCode("NOT_FOUND");
    LitCode("WORKSPACE_ID_ABSENT");
    LitCode("REPOSITORY_ABSENT");
    LitCode("EVIDENCE_PII_BLOCKED");
  }

  /** Evidence that cannot be built fails with a code of its own, never with NOT_FOUND. */
  lemma UnbuiltCode(workspaceId: Text, probe: Probe, raw: seq<Field>, parsed: Parsed)
    requires Build(workspaceId, probe, raw, parsed).Err?
    ensures ErrorCode(Outcome(Build(workspaceId, probe, raw, parsed).error)) != Some(NOT_FOUND)
  {
    CodesLike();
    hide EvidenceData, HoldsPii, Repository, Blank, Keep, CodeLike, ErrorCode, Outcome;
    CodeParsed(Build(workspaceId, probe, raw, parsed).error);
  }

  // ------------------------------------------------------------ all the probes

  function Step(workspaceId: Text, answers: seq<Answer>, k: nat): Effect
    requires k < 7 == |answers|
  {
    EffectOf(workspaceId, Probes()[k], answers[k])
  }

  function Total(workspaceId: Text, answers: seq<Answer>, n: nat): Effect
    requires n <= 7 == |answers|
  {
    EffectOfFirst(workspaceId, Probes(), answers, n)
  }

  lemma {:induction false} PartIncluded(workspaceId: Text, answers: seq<Answer>, n: nat, k: nat)
    requires k < n <= 7 == |answers|
    ensures var all, step := Total(workspaceId, answers, n), Step(workspaceId, answers, k);
            && (all.ok ==> step.ok)
            && (forall x | x in step.executions :: x in all.executions)
            && (forall x | x in step.evidence :: x in all.evidence)
  {
    hide EffectOf, Probes;
    if k < n - 1 {
      PartIncluded(workspaceId, answers, n - 1, k);
    }
  }

  lemma {:induction false} TotalOk(workspaceId: Text, answers: seq<Answer>, n: nat)
    requires n <= 7 == |answers| && forall k | 0 <= k < n :: Step(workspaceId, answers, k).ok
    ensures Total(workspaceId, answers, n).ok
  {
    hide EffectOf, Probes;
    if n > 0 {
      TotalOk(workspaceId, answers, n - 1);
      assert Step(workspaceId, answers, n - 1).ok;
    }
  }

  lemma {:induction false} TotalCalled(workspaceId: Text, answers: seq<Answer>, n: nat)
    requires 0 < n <= 7 == |answers|
    ensures Total(workspaceId, answers, n).called > 0
  {
    FirstIsRecorded(workspaceId, answers[0]);
    hide EffectOf, Probes;
    if n > 1 {
      TotalCalled(workspaceId, answers, n - 1);
    }
  }

  lemma {:induction false} EvidenceOrigin(workspaceId: Text, answers: seq<Answer>, n: nat, x: Evidence) returns (k: nat)
    requires n <= 7 == |answers| && x in Total(workspaceId, answers, n).evidence
    ensures k < n && x in Step(workspaceId, answers, k).evidence
  {
    hide EffectOf, Probes;
    if x in Step(workspaceId, answers, n - 1).evidence {
      k := n - 1;
    } else {
      k := EvidenceOrigin(workspaceId, answers, n - 1, x);
    }
  }

  lemma {:induction false} ExecutionOrigin(workspaceId: Text, answers: seq<Answer>, n: nat, x: Execution) returns (k: nat)
    requires n <= 7 == |answers| && x in Total(workspaceId, answers, n).executions
    ensures k < n && x in Step(workspaceId, answers, k).executions
  {
    hide EffectOf, Probes;
    if x in Step(workspaceId, answers, n - 1).executions {
      k := n - 1;
    } else {
      k := ExecutionOrigin(workspaceId, answers, n - 1, x);
    }
  }

  /** When the mandatory probes built evidence, they come first. */
  lemma {:induction false} TotalStarts(workspaceId: Text, answers: seq<Answer>, n: nat)
    requires 2 <= n <= 7 == |answers|
    ensures var all := Total(workspaceId, answers, n);
            var a, b := Step(workspaceId, answers, 0), Step(workspaceId, answers, 1);
            && a.executions + b.executions <= all.executions && a.evidence + b.evidence <= all.evidence
  {
    hide EffectOf, Probes;
    var before, step := Total(workspaceId, answers, n - 1), Step(workspaceId, answers, n - 1);
    assert Total(workspaceId, answers, n).executions == before.executions + step.executions;
    assert Total(workspaceId, answers, n).evidence == before.evidence + step.evidence;
    if n > 2 {
      TotalStarts(workspaceId, answers, n - 1);
    } else {
      TotalOfOne(workspaceId, answers);
    }
  }

  lemma TotalOfOne(workspaceId: Text, answers: seq<Answer>)
    requires |answers| == 7
    ensures Total(workspaceId, answers, 1).executions == Step(workspaceId, answers, 0).executions
    ensures Total(workspaceId, answers, 1).evidence == Step(workspaceId, answers, 0).evidence
  {
    hide EffectOf, Probes;
    assert Total(workspaceId, answers, 0) == Effect([], [], true, 0);
  }

  function Deliver(e: Effect): Delivery {
    Delivery(FINANCIAL_ANALYSIS, if e.ok && e.called > 0 then DELIVERED else Lit("FAILED"), AURORA, Some(e.evidence))
  }

  predicate AllGood(workspaceId: Text, answers: seq<Answer>)
    requires |answers| == 7
  {
    forall k | 0 <= k < 7 :: Good(workspaceId, Probes()[k], answers[k])
  }

  predicate Forgiven(x: Execution) {
    !x.tool.OtherTool? && (x.success || (ErrorCode(x.outcome) == Some(NOT_FOUND) && !x.tool.ReadFile?))
  }

  predicate Unforgivable(x: Execution) {
    !x.success && ErrorCode(x.outcome) != Some(NOT_FOUND)
  }

  lemma FailureGets(failure: Failure)
    ensures Get(FailureData(failure), Lit("error")) == Some(Str(failure.code))
    ensures Get(FailureData(failure), Lit("message")) == Some(Str(failure.message))
    ensures Get(FailureData(failure), Lit("artifactPath")).None? && Get(FailureData(failure), Lit("path")).None?
  {
    var data := FailureData(failure);
    assert Get(data[1..], Lit("artifactPath")).None? && Get(data[1..], Lit("path")).None?;
  }

  /** A failure is accepted as evidence exactly when it is a NOT_FOUND, and only of a listing or a search. */
  lemma FailureAcceptedIff(tool: Tool, failure: Failure, listed: bool)
    requires !tool.OtherTool?
    ensures AcceptsItem(Evidence(tool, FailureData(failure)), listed)
       <==> failure.code == Lit("NOT_FOUND") && (tool.SearchFiles? || (tool.ListDirectory? && listed))
  {
    FailureGets(failure);
    hide FailureData, Get, Lit, Unsafe;
  }

  lemma GoodStep(workspaceId: Text, probe: Probe, answer: Answer)
    requires Sane(probe) && Good(workspaceId, probe, answer)
    ensures var e := EffectOf(workspaceId, probe, answer);
            && e.ok
            && (forall x | x in e.evidence :: AcceptsItem(x, true))
            && (forall x | x in e.executions :: Forgiven(x))
  {
    if Built(workspaceId, probe, answer) {
      hide EffectOf, ValidItem, BuiltData, Lit;
      BuiltItem(workspaceId, probe, answer);
      BuiltAccepted(workspaceId, probe, answer);
    } else {
      hide FailureData, ErrorCode, Outcome, AcceptsItem, Lit, Build;
      FailureAcceptedIff(probe.tool, answer.failure, true);
      CodesLike();
      CodeParsed(answer.failure);
    }
  }

  lemma BuiltAccepted(workspaceId: Text, probe: Probe, answer: Answer)
    requires Sane(probe) && Built(workspaceId, probe, answer)
    ensures AcceptsItem(Evidence(probe.tool, BuiltData(workspaceId, probe, answer)), true)
  {
    BuiltItem(workspaceId, probe, answer);
    hide BuiltData, Lit, Unsafe, AllowedPath, Failed, PathOf, EffectOf;
  }

  /** A probe that is not good spoils the delivery: its status, its evidence or its executions. */
  lemma BadStep(workspaceId: Text, probe: Probe, answer: Answer)
    requires Sane(probe) && !Good(workspaceId, probe, answer)
    ensures var e := EffectOf(workspaceId, probe, answer);
            || !e.ok
            || (exists x | x in e.evidence :: !AcceptsItem(x, true) && !AcceptsItem(x, false))
            || (exists x | x in e.executions :: Unforgivable(x))
  {
    var e := EffectOf(workspaceId, probe, answer);
    if !probe.mandatory {
      match answer
      case Fails(failure) =>
        hide FailureData, AcceptsItem, Lit;
        FailureAcceptedIff(probe.tool, failure, true);
        FailureAcceptedIff(probe.tool, failure, false);
        assert Evidence(probe.tool, FailureData(failure)) in e.evidence;
      case Returns(raw, parsed) =>
        hide Build, AcceptsItem, ErrorCode, Outcome, Lit;
        UnbuiltCode(workspaceId, probe, raw, parsed);
        var failure := Build(workspaceId, probe, raw, parsed).error;
        assert Execution(probe.tool, false, Outcome(failure)) in e.executions;
    }
  }

  lemma ForgivenExecutions(executions: seq<Execution>)
    requires forall x | x in executions :: Forgiven(x)
    requires executions != [] && executions[0].success && executions[0].tool == ListDirectory
    ensures ValidExecutions(executions)
  {
    forall k | 0 <= k < |executions| ensures ForgivenAt(executions, k) {
      assert Forgiven(executions[k]);
      assert executions[0].tool == ListDirectory;
    }
  }

  lemma UnforgivenExecutions(executions: seq<Execution>, x: Execution)
    requires x in executions && Unforgivable(x)
    ensures !ValidExecutions(executions)
  {
    var k :| 0 <= k < |executions| && executions[k] == x;
    assert !ForgivenAt(executions, k);
  }

  lemma TwoValid(evidence: seq<Evidence>)
    requires |evidence| >= 2 && ValidItem(evidence[0]) && ValidItem(evidence[1])
    ensures CountValid(evidence) >= 2
  {
    hide ValidItem;
    if |evidence| > 2 {
      TwoValid(evidence[..|evidence| - 1]);
    } else {
      assert CountValid(evidence[..1]) == CountValid([]) + 1 by { assert evidence[..1][..0] == []; }
    }
  }

  /** What the first two probes leave when they are good. */
  lemma Mandatory(workspaceId: Text, answers: seq<Answer>)
    requires |answers| == 7 && AllGood(workspaceId, answers)
    ensures Built(workspaceId, Probes()[0], answers[0]) && Built(workspaceId, Probes()[1], answers[1])
  {
    hide Built;
    assert Good(workspaceId, Probes()[0], answers[0]) && Good(workspaceId, Probes()[1], answers[1]);
  }

  lemma ToolsOfMandatory()
    ensures Probes()[0].tool == ListDirectory && Probes()[0].path == FINANCE_DIR
    ensures Probes()[1].tool == ReadFile && Probes()[1].path == OVERVIEW
  {
  }

  lemma FirstTwo(workspaceId: Text, answers: seq<Answer>)
    requires |answers| == 7 && Built(workspaceId, Probes()[0], answers[0]) && Built(workspaceId, Probes()[1], answers[1])
    ensures var all := Inspect(workspaceId, answers);
            && |all.executions| >= 2 && all.executions[0] == Execution(ListDirectory, true, [])
            && |all.evidence| >= 2
            && ValidItem(all.evidence[0]) && FinanceListed(all.evidence[0])
            && all.evidence[1] == Evidence(ReadFile, BuiltData(workspaceId, Probes()[1], answers[1]))
            && ValidItem(all.evidence[1]) && Get(all.evidence[1].data, Lit("artifactPath")) == Some(Str(OVERVIEW))
  {
    hide Built, BuiltData, EffectOf, ValidItem, Lit, Sane, EffectOfFirst, Failed, Get, Probes, PathOf;
    ProbesSane();
    ToolsOfMandatory();
    BuiltItem(workspaceId, Probes()[0], answers[0]);
    BuiltItem(workspaceId, Probes()[1], answers[1]);
    TotalStarts(workspaceId, answers, 7);
    ValidNotFailed(Evidence(ListDirectory, BuiltData(workspaceId, Probes()[0], answers[0])));
    assert Inspect(workspaceId, answers) == Total(workspaceId, answers, 7);
  }

  /** Good probes are accepted, given an overview with an indicator. */
  lemma GoodIsAccepted(workspaceId: Text, answers: seq<Answer>)
    requires |answers| == 7 && AllGood(workspaceId, answers)
    requires Built(workspaceId, Probes()[1], answers[1]) && Indicates(BuiltData(workspaceId, Probes()[1], answers[1]))
    ensures var e := Inspect(workspaceId, answers); ValidDelivery(Some(Deliver(e)), Some(e.executions))
  {
    var e := Inspect(workspaceId, answers);
    GoodTotals(workspaceId, answers);
    Mandatory(workspaceId, answers);
    FirstTwo(workspaceId, answers);
    hide Good, Built, BuiltData, ValidItem, Lit, EffectOfFirst, AcceptsItem, Forgiven, Indicates, ValidExecutions,
         CountValid, Failed, Get, Probes, AllGood, FinanceListed, Inspect;
    ForgivenExecutions(e.executions);
    TwoValid(e.evidence);
    ValidNotFailed(e.evidence[1]);
    assert OverviewRead(e.evidence[1]);
    hide OverviewRead, ValidEvidence;
    EvidenceAccepted(e.evidence);
  }

  lemma EvidenceAccepted(evidence: seq<Evidence>)
    requires |evidence| >= 2 && CountValid(evidence) >= 2 && FinanceListed(evidence[0]) && OverviewRead(evidence[1])
    requires forall x | x in evidence :: AcceptsItem(x, true)
    ensures ValidEvidence(evidence)
  {
    hide AcceptsItem, CountValid, FinanceListed, OverviewRead;
    assert SomeListed(evidence);
  }

  lemma GoodTotals(workspaceId: Text, answers: seq<Answer>)
    requires |answers| == 7 && AllGood(workspaceId, answers)
    ensures var e := Inspect(workspaceId, answers);
            && e.ok && e.called > 0
            && (forall x | x in e.executions :: Forgiven(x)) && (forall x | x in e.evidence :: AcceptsItem(x, true))
  {
    var e := Inspect(workspaceId, answers);
    ProbesSane();
    hide Good, EffectOf, Lit, Sane, EffectOfFirst, AcceptsItem, Forgiven, Probes;
    forall k | 0 <= k < 7 { GoodStep(workspaceId, Probes()[k], answers[k]); }
    TotalOk(workspaceId, answers, 7);
    TotalCalled(workspaceId, answers, 7);
    assert e == Total(workspaceId, answers, 7);
    forall x | x in e.executions ensures Forgiven(x) {
      var k := ExecutionOrigin(workspaceId, answers, 7, x);
    }
    forall x | x in e.evidence ensures AcceptsItem(x, true) {
      var k := EvidenceOrigin(workspaceId, answers, 7, x);
    }
  }

  lemma ValidNotFailed(item: Evidence)
    requires ValidItem(item)
    ensures !Failed(item)
  {
  }

  /** What is accepted comes from good probes. */
  lemma AcceptedIsGood(workspaceId: Text, answers: seq<Answer>, k: nat)
    requires |answers| == 7 && k < 7
    requires var e := Inspect(workspaceId, answers); ValidDelivery(Some(Deliver(e)), Some(e.executions))
    ensures Good(workspaceId, Probes()[k], answers[k])
  {
    var e := Inspect(workspaceId, answers);
    hide Good, EffectOf, Lit, Sane, EffectOfFirst, AcceptsItem, Unforgivable, ValidExecutions, OverviewRead, CountValid;
    ProbesSane();
    DeliveredOk(e);
    PartIncluded(workspaceId, answers, 7, k);
    if !Good(workspaceId, Probes()[k], answers[k]) {
      BadStep(workspaceId, Probes()[k], answers[k]);
      var step := Step(workspaceId, answers, k);
      if x :| x in step.executions && Unforgivable(x) {
        UnforgivenExecutions(e.executions, x);
      }
    }
  }

  lemma DeliveredOk(e: Effect)
    requires Deliver(e).status == DELIVERED
    ensures e.ok
  {
  }

  /** Accepted evidence holds an overview with an indicator, which can only be the one the second probe read. */
  lemma AcceptedIndicates(workspaceId: Text, answers: seq<Answer>)
    requires |answers| == 7 && AllGood(workspaceId, answers)
    requires Built(workspaceId, Probes()[1], answers[1])
    requires exists x | x in Inspect(workspaceId, answers).evidence :: OverviewRead(x)
    ensures Indicates(BuiltData(workspaceId, Probes()[1], answers[1]))
  {
    var x :| x in Inspect(workspaceId, answers).evidence && OverviewRead(x);
    var k := EvidenceOrigin(workspaceId, answers, 7, x);
    ProbesSane();
    assert Good(workspaceId, Probes()[k], answers[k]);
    OverviewIsSecond(workspaceId, answers, k, x);
  }

  lemma OverviewIsSecond(workspaceId: Text, answers: seq<Answer>, k: nat, x: Evidence)
    requires |answers| == 7 && k < 7 && Sane(Probes()[k]) && Good(workspaceId, Probes()[k], answers[k])
    requires x in Step(workspaceId, answers, k).evidence && OverviewRead(x)
    ensures k == 1 && x.data == BuiltData(workspaceId, Probes()[1], answers[1])
  {
    ReadIsBuilt(workspaceId, Probes()[k], answers[k], x);
    BuiltItem(workspaceId, Probes()[k], answers[k]);
    hide BuiltData, EffectOf, ValidItem, Sane, Indicates, Failed;
    OnlyOverview(k);
  }

  lemma ReadIsBuilt(workspaceId: Text, probe: Probe, answer: Answer, x: Evidence)
    requires Good(workspaceId, probe, answer) && x in EffectOf(workspaceId, probe, answer).evidence && x.source.ReadFile?
    ensures Built(workspaceId, probe, answer)
  {
  }

  lemma OnlyOverview(k: nat)
    requires k < 7 && Probes()[k].path == OVERVIEW
    ensures k == 1
  {
  }

  /**
   * The validator accepts the delivery and the tool log of an inspection exactly when the mandatory probes
   * built evidence, every optional one did or answered NOT_FOUND, and the overview carries an indicator.
   */
  lemma AcceptedIff(workspaceId: Text, answers: seq<Answer>)
    requires |answers| == 7
    ensures var e := Inspect(workspaceId, answers);
            ValidDelivery(Some(Deliver(e)), Some(e.executions))
            <==> AllGood(workspaceId, answers) && Built(workspaceId, Probes()[1], answers[1])
                 && Indicates(BuiltData(workspaceId, Probes()[1], answers[1]))
  {
    var e := Inspect(workspaceId, answers);
    if ValidDelivery(Some(Deliver(e)), Some(e.executions)) {
      forall k | 0 <= k < 7 ensures Good(workspaceId, Probes()[k], answers[k]) {
        AcceptedIsGood(workspaceId, answers, k);
      }
      hide EffectOfFirst, EffectOf, Good, AcceptsItem, ValidExecutions, OverviewRead, Indicates, Built, BuiltData, Lit;
      Mandatory(workspaceId, answers);
      AcceptedIndicates(workspaceId, answers);
    } else {
      hide EffectOfFirst, EffectOf, Good, ValidDelivery, Indicates, Built, BuiltData, Lit;
      if AllGood(workspaceId, answers) && Built(workspaceId, Probes()[1], answers[1])
         && Indicates(BuiltData(workspaceId, Probes()[1], answers[1])) {
        GoodIsAccepted(workspaceId, answers);
      }
    }
  }

  // ------------------------------------------------------------ a structured overview is enough

  lemma TrimBlank(s: Text)
    ensures Trim(s) == [] <==> Blank(s)
  {
    TrimStartBlank(s);
    TrimEndBlank(TrimStart(s));
  }

  lemma TrimStartBlank(s: Text)
    ensures Blank(TrimStart(s)) <==> Blank(s)
    ensures TrimStart(s) == [] <==> Blank(s)
  {
    if s != [] && IsSpace(s[0]) {
      TrimStartBlank(s[1..]);
    }
  }

  lemma TrimEndBlank(s: Text)
    ensures TrimEnd(s) == [] <==> Blank(s)
  {
    if s != [] && IsSpace(s[|s| - 1]) {
      TrimEndBlank(s[..|s| - 1]);
      assert Blank(s) <==> Blank(s[..|s| - 1]) by { assert s == s[..|s| - 1] + [s[|s| - 1]]; }
    }
  }

  /** A tag takes the place of a match, so a text with something in it keeps something. */
  lemma {:induction false} ReplaceKeepsSomething(p: Pattern, s: Text)
    requires p.One? && !Blank(s)
    ensures !Blank(Replace(p, Tag(), s))
    decreases |s|
  {
    if Match(p, s).Some? {
      assert Replace(p, Tag(), s)[0] == Tag()[0];
    } else {
      hide Match;
      assert Replace(p, Tag(), s)[0] == s[0];
      if IsSpace(s[0]) {
        ReplaceKeepsSomething(p, s[1..]);
        var rest := Replace(p, Tag(), s[1..]);
        var i :| 0 <= i < |rest| && !IsSpace(rest[i]);
        assert Replace(p, Tag(), s)[i + 1] == rest[i];
      }
    }
  }

  lemma CleanKeepsSomething(text: Text)
    requires !Blank(text)
    ensures !Blank(CleanText(Finance, text))
  {
    hide Replace, Cpf, Cnpj, Card;
    WholeTextNeverReplaced(text);
    ReplaceKeepsSomething(Cpf(), text);
    ReplaceKeepsSomething(Cnpj(), Replace(Cpf(), Tag(), text));
    ReplaceKeepsSomething(Card(), Replace(Cnpj(), Tag(), Replace(Cpf(), Tag(), text)));
    var redacted := RedactFinancePii(text);
    if |redacted| > MAX_EXCERPT {
      assert (redacted[..MAX_EXCERPT] + [ELLIPSIS])[MAX_EXCERPT] == ELLIPSIS;
    }
  }

  /** What the frontmatter parser yields for a key: a number or a text. */
  predicate Scalar(v: Json) {
    v.Num? || v.Str?
  }

  lemma StructuredKept(record: seq<Field>)
    requires Structured(record)
    requires Get(record, Lit("riskLevel")).Some? ==> Scalar(Get(record, Lit("riskLevel")).value)
    ensures Structured(SafeData(record))
  {
    RunwayAndBurnStorable();
    RevenueAndRiskStorable();
    SafeGet(record, Lit("runwayMonths"));
    SafeGet(record, Lit("monthlyBurn"));
    SafeGet(record, Lit("monthlyRevenue"));
    SafeGet(record, Lit("riskLevel"));
    hide Lit, Get, SafeData, CleanText, Storable, Trim;
    var risk := Get(record, Lit("riskLevel"));
    if risk.Some? && risk.value.Str? {
      TrimBlank(risk.value.text);
      TrimBlank(CleanText(Finance, risk.value.text));
      if !Blank(risk.value.text) {
        CleanKeepsSomething(risk.value.text);
      }
    }
  }

  /** An overview whose frontmatter gives a runway, a burn, a revenue or a risk level passes the validator's test. */
  lemma StructuredOverviewIndicates(workspaceId: Text, probe: Probe, answer: Answer)
    requires probe.tool.ReadFile? && Built(workspaceId, probe, answer) && answer.parsed.structured.Some?
    requires var record := answer.parsed.structured.value;
             && Structured(record)
             && (Get(record, Lit("riskLevel")).Some? ==> Scalar(Get(record, Lit("riskLevel")).value))
    ensures Indicates(BuiltData(workspaceId, probe, answer))
  {
    var record := answer.parsed.structured.value;
    EvidenceKeysStorable();
    EvidenceGets(workspaceId, probe, answer.raw, answer.parsed);
    StoredGet(workspaceId, probe, answer.raw, answer.parsed, Lit("structured"));
    StructuredKept(record);
    SafeDataIs(record);
    hide Structured, Lit, Get, SafeData, Storable, Sanitize, EvidenceData, Build, Squashed, Lower, Includes, Printed;
  }

  /**
   * The agreement in terms of what the tools answer: good probes and an overview file whose frontmatter
   * gives a runway, a burn, a revenue or a risk level are accepted.
   */
  lemma StructuredInspectionAccepted(workspaceId: Text, number: Text -> Number, tools: seq<ToolAnswer>)
    requires |tools| == 7 && Frontmatter.Numeric(number)
    requires AllGood(workspaceId, ReadAll(number, tools))
    requires tools[1].ToolData? ==>
               var structured := Frontmatter.Structured(number, ContentOf(tools[1].raw));
               structured.Some? && Structured(structured.value)
    ensures var e := Inspect(workspaceId, ReadAll(number, tools)); ValidDelivery(Some(Deliver(e)), Some(e.executions))
  {
    var answers := ReadAll(number, tools);
    Mandatory(workspaceId, answers);
    ToolsOfMandatory();
    hide Good, AllGood, Structured, Indicates, ValidDelivery, Lit, Build, BuiltData, Probes;
    assert answers[1] == Read(number, Probes()[1], tools[1]);
    var structured := Frontmatter.Structured(number, ContentOf(tools[1].raw));
    Frontmatter.StructuredClean(number, ContentOf(tools[1].raw));
    CleanRecordScalar(structured.value);
    StructuredOverviewIndicates(workspaceId, Probes()[1], answers[1]);
    GoodIsAccepted(workspaceId, answers);
  }

  lemma CleanRecordScalar(record: seq<Field>)
    requires forall f | f in record :: Frontmatter.CleanField(f)
    ensures Get(record, Lit("riskLevel")).Some? ==> Scalar(Get(record, Lit("riskLevel")).value)
  {
    hide Lit;
    var risk := Get(record, Lit("riskLevel"));
    assert risk.Some? ==> Frontmatter.CleanField(Field(Lit("riskLevel"), risk.value));
  }
}
