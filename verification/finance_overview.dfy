/**
 * The validator's acceptance of an inspection, in terms of what the tools answer
 * (packages/employees/specialist-kit/src/specialist-brain.ts, finance-delivery-validation.ts, finance-evidence.ts).
 */
module FinanceOverview {
  import opened Texts
  import opened JsonValues
  import opened EvidenceText
  import opened EvidenceSanitizer
  import opened FinanceInspection
  import Frontmatter
  import opened FinanceValidation
  import opened FinanceAgreement

  // ------------------------------------------------------------ texts, squashed

  function Blob(text: Text): Text {
    Squashed(Lower(text))
  }

  lemma {:induction false} LowerConcat(a: Text, b: Text)
    ensures Lower(a + b) == Lower(a) + Lower(b)
  {
    hide Lower, LowerUnit;
    if a == [] {
      assert a + b == b;
      NothingLowered();
    } else {
      LowerConcat(a[1..], b);
      LowerStep(a[0], a[1..]);
      LowerStep(a[0], a[1..] + b);
      assert a == [a[0]] + a[1..] && a + b == [a[0]] + (a[1..] + b);
    }
  }

  lemma LowerStep(c: Unit, t: Text)
    ensures Lower([c] + t) == LowerUnit(c) + Lower(t)
  {
    hide LowerUnit;
    assert ([c] + t)[1..] == t;
  }

  lemma NothingLowered()
    ensures Lower([]) == []
  {
  }

  function SquashedUnit(c: Unit): Text {
    if WordUnit(c) then [c] else []
  }

  lemma SquashedStep(c: Unit, t: Text)
    ensures Squashed([c] + t) == SquashedUnit(c) + Squashed(t)
  {
    hide WordUnit;
    assert ([c] + t)[1..] == t;
  }

  lemma {:induction false} SquashedConcat(a: Text, b: Text)
    ensures Squashed(a + b) == Squashed(a) + Squashed(b)
  {
    hide Squashed, SquashedUnit;
    if a == [] {
      assert a + b == b;
      NothingSquashed();
    } else {
      SquashedConcat(a[1..], b);
      SquashedStep(a[0], a[1..]);
      SquashedStep(a[0], a[1..] + b);
      assert a == [a[0]] + a[1..] && a + b == [a[0]] + (a[1..] + b);
    }
  }

  lemma NothingSquashed()
    ensures Squashed([]) == []
  {
  }

  lemma BlobConcat(a: Text, b: Text)
    ensures Blob(a + b) == Blob(a) + Blob(b)
  {
    hide Lower, Squashed;
    LowerConcat(a, b);
    SquashedConcat(Lower(a), Lower(b));
  }

  lemma {:induction false} SquashedLetters(t: Text)
    requires forall i | 0 <= i < |t| :: 'a' as int <= t[i] <= 'z' as int
    ensures Squashed(t) == t
  {
    if t != [] {
      SquashedLetters(t[1..]);
    }
  }

  lemma LettersOf(word: string)
    requires LowerCase(word)
    ensures Lowered(word, word) && forall i | 0 <= i < |word| :: 'a' as int <= Lit(word)[i] <= 'z' as int
  {
  }

  lemma BlobOfWord(word: string)
    requires LowerCase(word)
    ensures Blob(Lit(word)) == Lit(word)
  {
    hide Lower, Squashed, Lowered, LowerCase, Lit, NormalizeKey;
    LettersOf(word);
    LowerOfKey(word, word);
    SquashedLetters(Lit(word));
  }

  lemma BlobOfMark(mark: Unit)
    requires !WordUnit(mark) && LowerUnit(mark) == [mark]
    ensures Blob([mark]) == []
  {
    hide WordUnit, LowerUnit;
    var rest: Text := [];
    assert [mark][1..] == rest;
    assert Lower([mark]) == [mark] + Lower(rest) && Lower(rest) == rest;
    assert Squashed([mark]) == Squashed(rest);
  }

  // ------------------------------------------------------------ what comes before cannot tell of a risk

  /** No `ri` begins in the text, nor could one at its end. */
  predicate NoRi(t: Text) {
    forall i | 0 <= i < |t| && t[i] == 'r' as int :: i + 1 < |t| && t[i + 1] != 'i' as int
  }

  lemma NoRiConcat(a: Text, b: Text)
    requires NoRi(a) && NoRi(b)
    ensures NoRi(a + b)
  {
    forall i | 0 <= i < |a + b| && (a + b)[i] == 'r' as int ensures i + 1 < |a + b| && (a + b)[i + 1] != 'i' as int {
      if i < |a| {
        assert a[i] == 'r' as int;
      } else {
        assert b[i - |a|] == 'r' as int;
      }
    }
  }

  lemma NotAtStart(before: Text, t: Text, word: Text)
    requires before != [] && NoRi(before) && |word| >= 2 && word[0] == 'r' as int && word[1] == 'i' as int
    ensures NoRi(before[1..]) && !(word <= before + t)
  {
    var s := before + t;
    assert s[0] == before[0] && (|before| > 1 ==> s[1] == before[1]);
    assert before[0] == 'r' as int ==> |before| > 1 && before[1] != 'i' as int;
    forall i | 0 <= i < |before[1..]| && before[1..][i] == 'r' as int
      ensures i + 1 < |before[1..]| && before[1..][i + 1] != 'i' as int
    {
      assert before[i + 1] == 'r' as int;
    }
  }

  lemma {:induction false} IncludesAfter(before: Text, t: Text, word: Text)
    requires NoRi(before) && |word| >= 2 && word[0] == 'r' as int && word[1] == 'i' as int
    ensures Includes(before + t, word) <==> Includes(t, word)
  {
    hide NoRi;
    if before == [] {
      assert before + t == t;
    } else {
      NotAtStart(before, t, word);
      assert (before + t)[1..] == before[1..] + t;
      IncludesAfter(before[1..], t, word);
    }
  }

  /** What an overview's evidence says besides the excerpt, when its frontmatter does not change the summary. */
  function PlainSummary(): Text {
    OVERVIEW + Lit(" finance artifact")
  }

  function PlainBlob(): Text {
    Lit("finance") + Lit("overview") + Lit("md") + Lit("finance") + Lit("artifact")
  }

  lemma LitConcat(s: string, t: string)
    ensures Lit(s + t) == Lit(s) + Lit(t)
  {
  }

  lemma MarksOf()
    ensures Lit("/") == ['/' as int] && Lit(".") == ['.' as int] && Lit(" ") == [' ' as int]
  {
  }

  lemma OverviewSplit()
    ensures OVERVIEW == Lit("finance") + ['/' as int] + Lit("overview") + ['.' as int] + Lit("md")
  {
    hide Lit;
    MarksOf();
    LitConcat("finance", "/");
    LitConcat("finance/", "overview");
    LitConcat("finance/overview", ".");
    LitConcat("finance/overview.", "md");
    assert "finance" + "/" == "finance/" && "finance/" + "overview" == "finance/overview";
    assert "finance/overview" + "." == "finance/overview." && "finance/overview." + "md" == "finance/overview.md";
  }

  lemma ArtifactSplit()
    ensures Lit(" finance artifact") == [' ' as int] + Lit("finance") + [' ' as int] + Lit("artifact")
  {
    hide Lit;
    MarksOf();
    LitConcat(" ", "finance");
    LitConcat(" finance", " ");
    LitConcat(" finance ", "artifact");
    assert " " + "finance" == " finance" && " finance" + " " == " finance " && " finance " + "artifact" == " finance artifact";
  }

  lemma WordsBlob()
    ensures Blob(Lit("finance")) == Lit("finance") && Blob(Lit("overview")) == Lit("overview") && Blob(Lit("md")) == Lit("md")
    ensures Blob(Lit("artifact")) == Lit("artifact")
    ensures Blob(['/' as int]) == [] && Blob(['.' as int]) == [] && Blob([' ' as int]) == []
  {
    hide Blob, Lit;
    BlobOfWord("finance");
    BlobOfWord("overview");
    BlobOfWord("md");
    BlobOfWord("artifact");
    BlobOfMark('/' as int);
    BlobOfMark('.' as int);
    BlobOfMark(' ' as int);
  }

  lemma FiveBlobs(a: Text, b: Text, c: Text, d: Text, e: Text)
    ensures Blob(a + b + c + d + e) == Blob(a) + Blob(b) + Blob(c) + Blob(d) + Blob(e)
  {
    hide Blob;
    BlobConcat(a, b);
    BlobConcat(a + b, c);
    BlobConcat(a + b + c, d);
    BlobConcat(a + b + c + d, e);
  }

  lemma PlainSummaryBlob()
    ensures Blob(PlainSummary() + Lit(" ")) == PlainBlob()
  {
    hide Blob, Lit;
    OverviewSplit();
    ArtifactSplit();
    MarksOf();
    WordsBlob();
    var finance, artifact := Lit("finance"), Lit("artifact");
    FiveBlobs(finance, ['/' as int], Lit("overview"), ['.' as int], Lit("md"));
    FiveBlobs([' ' as int], finance, [' ' as int], artifact, [' ' as int]);
    BlobConcat(OVERVIEW, [' ' as int] + finance + [' ' as int] + artifact + [' ' as int]);
    assert PlainSummary() + Lit(" ") == OVERVIEW + ([' ' as int] + finance + [' ' as int] + artifact + [' ' as int]);
  }

  lemma PlainBlobNoRi()
    ensures NoRi(PlainBlob()) && |PlainBlob()| > 7
  {
    var a, b, c, d := Lit("finance"), Lit("overview"), Lit("md"), Lit("artifact");
    assert NoRi(a) && NoRi(b) && NoRi(c) && NoRi(d);
    hide NoRi, Lit;
    NoRiConcat(a, b);
    NoRiConcat(a + b, c);
    NoRiConcat(a + b + c, a);
    NoRiConcat(a + b + c + a, d);
  }

  predicate RiskNamed(blob: Text) {
    Includes(blob, Lit("risklevel")) || Includes(blob, Lit("risk_level"))
  }

  /** The second half of the indicator: the summary and the excerpt, squashed. */
  predicate BlobTells(blob: Text) {
    blob == Lit("runway") || blob == Lit("burn") || blob == Lit("revenue") || RiskNamed(blob)
  }

  /** Behind a plain summary, only an excerpt that names a risk level tells anything. */
  lemma PlainSummaryTells(excerpt: Text)
    ensures BlobTells(Blob(PlainSummary() + Lit(" ") + excerpt)) <==> RiskNamed(Blob(excerpt))
  {
    BlobConcat(PlainSummary() + Lit(" "), excerpt);
    PlainSummaryBlob();
    PlainBlobNoRi();
    hide Blob, PlainBlob, NoRi, PlainSummary, Includes;
    IncludesAfter(PlainBlob(), Blob(excerpt), Lit("risklevel"));
    IncludesAfter(PlainBlob(), Blob(excerpt), Lit("risk_level"));
  }

  // ------------------------------------------------------------ the frontmatter

  /**
   * A runway, a burn, a revenue, or a risk level that shows: a number, a text with something in it, or a text so
   * long that the sanitizer puts an ellipsis at its cut.
   */
  predicate RecordTells(record: seq<Field>) {
    var risk := Get(record, Lit("riskLevel"));
    || Get(record, Lit("runwayMonths")).Some? || Get(record, Lit("monthlyBurn")).Some?
    || Get(record, Lit("monthlyRevenue")).Some?
    || (risk.Some? && (risk.value.Str? ==> !Blank(risk.value.text) || |risk.value.text| > MAX_EXCERPT))
  }

  /** What the parser yields, key by key. */
  predicate CleanRecord(record: seq<Field>) {
    forall f | f in record :: Frontmatter.CleanField(f) && WellFormed(f.value)
  }

  lemma CleanGet(record: seq<Field>, key: Text)
    requires CleanRecord(record) && Get(record, key).Some?
    ensures var v := Get(record, key).value; (v.Num? || v.Str?) && WellFormed(v)
  {
    assert Frontmatter.CleanField(Field(key, Get(record, key).value));
  }

  lemma NumberShows(number: Number)
    requires WellFormed(Num(number))
    ensures Trim(Printed(Num(number))) != []
  {
    hide Trim;
    var t := Printed(Num(number));
    TrimBlank(t);
    assert !IsSpace(t[0]);
  }

  /** A text is shown after cleaning exactly when it shows something before, or is long. */
  lemma TextShows(text: Text)
    ensures Trim(CleanText(Finance, text)) != [] <==> !Blank(text) || |text| > MAX_EXCERPT
  {
    hide Trim, CleanText;
    TrimBlank(CleanText(Finance, text));
    if Blank(text) {
      BlankCleaned(text);
    } else {
      CleanKeepsSomething(text);
    }
  }

  lemma BlankCleaned(text: Text)
    requires Blank(text)
    ensures Blank(CleanText(Finance, text)) <==> |text| <= MAX_EXCERPT
  {
    hide Patterns.Test, Cpf, Cnpj, Card, RedactFinancePii;
    assert forall i | 0 <= i < |text| :: IsSpace(text[i]);
    NumberFree(Cpf(), text);
    NumberFree(Cnpj(), text);
    NumberFree(Card(), text);
    FinanceRedactionIdentityIff(text);
    WholeTextNeverReplaced(text);
    if |text| > MAX_EXCERPT {
      assert CleanText(Finance, text)[MAX_EXCERPT] == ELLIPSIS;
    }
  }

  /** The sanitized record has an indicator exactly when the parsed one tells something. */
  lemma RecordTellsIff(record: seq<Field>)
    requires CleanRecord(record)
    ensures Structured(SafeData(record)) <==> RecordTells(record)
  {
    hide Lit, Get, SafeData, CleanText, Storable, Trim, CleanRecord, Printed, Blank, WellFormed;
    RunwayAndBurnStorable();
    RevenueAndRiskStorable();
    KeyTells(record, Lit("runwayMonths"));
    KeyTells(record, Lit("monthlyBurn"));
    KeyTells(record, Lit("monthlyRevenue"));
    RiskTells(record, Lit("riskLevel"));
  }

  lemma KeyTells(record: seq<Field>, key: Text)
    requires CleanRecord(record) && Storable(key)
    ensures Present(Get(SafeData(record), key)) <==> Get(record, key).Some?
  {
    hide Get, SafeData, CleanText, Storable, CleanRecord, WellFormed;
    SafeGet(record, key);
    if Get(record, key).Some? {
      CleanGet(record, key);
    }
  }

  lemma RiskTells(record: seq<Field>, key: Text)
    requires CleanRecord(record) && Storable(key)
    ensures var risk, safe := Get(record, key), Get(SafeData(record), key);
            (Present(safe) && Trim(Printed(safe.value)) != [])
            <==> risk.Some? && (risk.value.Str? ==> !Blank(risk.value.text) || |risk.value.text| > MAX_EXCERPT)
  {
    hide Get, SafeData, CleanText, Storable, CleanRecord, Trim, Blank, WellFormed;
    SafeGet(record, key);
    KeyTells(record, key);
    var risk := Get(record, key);
    if risk.Some? {
      CleanGet(record, key);
      if risk.value.Str? {
        TextShows(risk.value.text);
      } else {
        NumberShows(risk.value.number);
      }
    }
  }

  // ------------------------------------------------------------ what the overview's evidence reads as

  lemma OverviewKeysStorable()
    ensures Storable(Lit("summary")) && Storable(Lit("contentExcerpt")) && Storable(Lit("structured"))
  {
    hide Storable;
    EvidenceKeysStorable();
    KeyStorable("summary", "summary");
    KeyStorable("contentExcerpt", "contentexcerpt");
  }

  /** The texts of a file's evidence. */
  lemma FileGets(workspaceId: Text, probe: Probe, raw: seq<Field>, parsed: Parsed)
    requires probe.tool.ReadFile?
    ensures var data, structured := EvidenceData(workspaceId, probe, raw, parsed), parsed.structured;
            && Get(data, Lit("summary"))
               == Some(Str(Summary(probe, if structured.Some? then structured.value else [], raw)))
            && Get(data, Lit("structured")) == (if structured.Some? then Some(Obj(structured.value)) else None)
            && Get(data, Lit("contentExcerpt"))
               == (if structured.Some? || Excerpt(parsed.body) == [] then None else Some(Str(Excerpt(parsed.body))))
  {
    var data := EvidenceData(workspaceId, probe, raw, parsed);
    DataKeys(workspaceId, probe, raw, parsed);
    FileKeys();
    hide Summary, Repository, Excerpt, Get, Lit;
    GetFound(data, 4);
    if |data| > 5 {
      GetFound(data, 5);
    }
    if parsed.structured.None? {
      NotAKey(data, Lit("structured"));
    }
    if parsed.structured.Some? || Excerpt(parsed.body) == [] {
      NotAKey(data, Lit("contentExcerpt"));
    }
  }

  lemma FileKeys()
    ensures Lit("structured") !in {Lit("domain"), Lit("workspaceId"), Lit("repository"), Lit("artifactPath"), Lit("summary"),
                                   Lit("contentExcerpt")}
    ensures Lit("contentExcerpt") !in {Lit("domain"), Lit("workspaceId"), Lit("repository"), Lit("artifactPath"), Lit("summary")}
  {
    assert Lit("structured")[1] == 't' as int && |Lit("structured")| == 10;
    assert Lit("contentExcerpt")[0] == 'c' as int;
  }

  lemma TestLonger(p: Patterns.Pattern, a: Text, b: Text)
    requires Patterns.Test(p, a)
    ensures Patterns.Test(p, a + b)
  {
    Patterns.TestSomewhere(p, a);
    Patterns.TestSomewhere(p, a + b);
    var k, n :| 0 <= k <= n <= |a| && Patterns.Denotes(p, a[k..n]);
    assert (a + b)[k..n] == a[k..n];
  }

  lemma CleanCut(text: Text, n: nat)
    requires n <= |text| && !ResidualFinancePii(text)
    ensures !ResidualFinancePii(text[..n])
  {
    hide Patterns.Test, Cpf, Cnpj, Card;
    var cut, rest := text[..n], text[n..];
    assert text == cut + rest;
    if Patterns.Test(Cpf(), cut) { TestLonger(Cpf(), cut, rest); }
    if Patterns.Test(Cnpj(), cut) { TestLonger(Cnpj(), cut, rest); }
    if Patterns.Test(Card(), cut) { TestLonger(Card(), cut, rest); }
  }

  /** An excerpt is redacted and cut, and the sanitizer leaves it as it is. */
  lemma ExcerptKept(body: Text)
    ensures !ResidualFinancePii(Excerpt(body)) && CleanText(Finance, Excerpt(body)) == Excerpt(body)
  {
    hide ResidualFinancePii, RedactFinancePii, CleanText;
    var redacted := RedactFinancePii(body);
    FinanceRedactionComplete(body);
    FinanceTextFixedIff(Excerpt(body));
    if |redacted| > MAX_EXCERPT {
      CleanCut(redacted, MAX_EXCERPT);
    }
  }

  /** The test of an overview, on what the tool answered. */
  predicate OverviewTells(number: Text -> Number, raw: seq<Field>) {
    var content := ContentOf(raw);
    match Frontmatter.Structured(number, content)
    case Some(record) => RecordTells(record)
    case None => RiskNamed(Blob(Excerpt(Frontmatter.Body(content))))
  }

  lemma PlainSummaryKept()
    ensures CleanText(Finance, PlainSummary()) == PlainSummary()
  {
    hide CleanText, Lit, Probes;
    ProbesSane();
    ToolsOfMandatory();
    NoDigitInArtifact();
    PlainTextKept(PlainSummary());
  }

  lemma NoDigitInArtifact()
    ensures var t := Lit(" finance artifact"); |t| < 30 && forall i | 0 <= i < |t| :: !Patterns.In(Patterns.Digit, t[i])
    ensures |OVERVIEW| < 30
  {
  }

  /** Without runway, burn and revenue the summary is the plain one. */
  lemma SummaryIsPlain(record: seq<Field>, raw: seq<Field>)
    requires Get(record, Lit("runwayMonths")).None? && Get(record, Lit("monthlyBurn")).None?
    requires Get(record, Lit("monthlyRevenue")).None?
    ensures Summary(Probes()[1], record, raw) == PlainSummary()
  {
    hide Get;
    assert OVERVIEW[0] == 'f' as int && Lit("billing/")[0] == 'b' as int;
  }

  lemma NoRecordGets()
    ensures forall key :: Get([], key).None?
  {
  }

  /** The data of a built overview, as the indicator reads it. */
  lemma OverviewReads(workspaceId: Text, answer: Answer)
    requires Built(workspaceId, Probes()[1], answer)
    ensures var data, structured := BuiltData(workspaceId, Probes()[1], answer), answer.parsed.structured;
            var summary := Summary(Probes()[1], if structured.Some? then structured.value else [], answer.raw);
            && Get(data, Lit("structured")) == (if structured.Some? then Some(Obj(SafeData(structured.value))) else None)
            && Get(data, Lit("summary")) == Some(Str(CleanText(Finance, summary)))
            && TextOf(Get(data, Lit("contentExcerpt"))) == (if structured.Some? then [] else Excerpt(answer.parsed.body))
  {
    hide Lit, Get, SafeData, Storable, EvidenceData, Build, CleanText, Excerpt, Summary;
    var raw, parsed := answer.raw, answer.parsed;
    ToolsOfMandatory();
    OverviewKeysStorable();
    FileGets(workspaceId, Probes()[1], raw, parsed);
    StoredGet(workspaceId, Probes()[1], raw, parsed, Lit("structured"));
    StoredGet(workspaceId, Probes()[1], raw, parsed, Lit("summary"));
    StoredGet(workspaceId, Probes()[1], raw, parsed, Lit("contentExcerpt"));
    ExcerptKept(parsed.body);
    if parsed.structured.Some? {
      SafeDataIs(parsed.structured.value);
    }
  }

  /** A built overview carries an indicator exactly when the file tells something. */
  lemma OverviewIndicatesIff(workspaceId: Text, number: Text -> Number, raw: seq<Field>)
    requires Frontmatter.Numeric(number)
    requires Built(workspaceId, Probes()[1], Read(number, Probes()[1], ToolData(raw)))
    ensures Indicates(BuiltData(workspaceId, Probes()[1], Read(number, Probes()[1], ToolData(raw))))
       <==> OverviewTells(number, raw)
  {
    hide Lit, Get, SafeData, Built, BuiltData, CleanText, Excerpt, Summary, Structured, RecordTells, CleanRecord, BlobTells, Blob,
         Frontmatter.Structured, Frontmatter.CleanField, Includes;
    ToolsOfMandatory();
    var answer, content := Read(number, Probes()[1], ToolData(raw)), ContentOf(raw);
    OverviewReads(workspaceId, answer);
    Frontmatter.StructuredClean(number, content);
    var data := BuiltData(workspaceId, Probes()[1], answer);
    if answer.parsed.structured.Some? {
      PartsOfRecord(answer.parsed.structured.value);
      RecordIndicatesIff(data, answer.parsed.structured.value, raw);
    } else {
      ExcerptIndicatesIff(data, answer.parsed.body, raw);
    }
  }

  lemma IndicatesParts(data: seq<Field>)
    ensures Indicates(data)
       <==> var structured := Get(data, Lit("structured"));
            || (structured.Some? && structured.value.Obj? && Structured(structured.value.fields))
            || BlobTells(Blob(TextOf(Get(data, Lit("summary"))) + Lit(" ") + TextOf(Get(data, Lit("contentExcerpt")))))
  {
    hide Get, Structured, Squashed, Lower, Includes, Lit;
  }

  lemma RecordIndicatesIff(data: seq<Field>, record: seq<Field>, raw: seq<Field>)
    requires CleanRecord(record)
    requires Get(data, Lit("structured")) == Some(Obj(SafeData(record)))
    requires Get(data, Lit("summary")) == Some(Str(CleanText(Finance, Summary(Probes()[1], record, raw))))
    requires TextOf(Get(data, Lit("contentExcerpt"))) == []
    ensures Indicates(data) <==> RecordTells(record)
  {
    hide Lit, Get, SafeData, CleanText, Summary, Structured, Blank, Indicates, BlobTells, Blob, PlainSummary, RiskNamed, CleanRecord,
         Probes;
    RecordTellsIff(record);
    IndicatesParts(data);
    if !RecordTells(record) {
      SummaryIsPlain(record, raw);
      PlainSummaryKept();
      PlainSummaryTells([]);
      NothingNamed();
    }
  }

  lemma PartsOfRecord(record: seq<Field>)
    requires WellFormed(Obj(record)) && forall f | f in record :: Frontmatter.CleanField(f)
    ensures CleanRecord(record)
  {
    hide Frontmatter.CleanField;
  }

  lemma NothingNamed()
    ensures !RiskNamed(Blob([]))
  {
  }

  lemma ExcerptIndicatesIff(data: seq<Field>, body: Text, raw: seq<Field>)
    requires Get(data, Lit("structured")).None?
    requires Get(data, Lit("summary")) == Some(Str(CleanText(Finance, Summary(Probes()[1], [], raw))))
    requires TextOf(Get(data, Lit("contentExcerpt"))) == Excerpt(body)
    ensures Indicates(data) <==> RiskNamed(Blob(Excerpt(body)))
  {
    hide Lit, Get, CleanText, Summary, Excerpt, Structured, Indicates, BlobTells, Blob, PlainSummary, RiskNamed, Probes;
    IndicatesParts(data);
    NoRecordGets();
    SummaryIsPlain([], raw);
    PlainSummaryKept();
    PlainSummaryTells(Excerpt(body));
  }

  /**
   * The agreement in terms of what the tools answer: the validator accepts the delivery and the tool log of an
   * inspection exactly when every probe is good and the overview file tells something: a runway, a burn, a
   * revenue or a risk level in its frontmatter, or, without frontmatter, a risk level named in its excerpt.
   */
  lemma InspectionAcceptedIff(workspaceId: Text, number: Text -> Number, tools: seq<ToolAnswer>)
    requires |tools| == 7 && Frontmatter.Numeric(number)
    ensures var answers := ReadAll(number, tools);
            var e := Inspect(workspaceId, answers);
            ValidDelivery(Some(Deliver(e)), Some(e.executions))
            <==> AllGood(workspaceId, answers) && tools[1].ToolData? && OverviewTells(number, tools[1].raw)
  {
    hide Good, AllGood, Indicates, ValidDelivery, Lit, Build, BuiltData, Probes, Inspect, OverviewTells;
    var answers := ReadAll(number, tools);
    AcceptedIff(workspaceId, answers);
    assert answers[1] == Read(number, Probes()[1], tools[1]);
    if AllGood(workspaceId, answers) {
      Mandatory(workspaceId, answers);
      OverviewIndicatesIff(workspaceId, number, tools[1].raw);
    }
  }
}
