/**
 * When the validator accepts an inspection, in terms of what the seven tools answer and of what the overview file
 * says, line by line (packages/employees/specialist-kit/src/specialist-brain.ts, finance-evidence.ts,
 * finance-delivery-validation.ts).
 */
module FinanceTerms {
  import opened Texts
  import opened TextMeaning
  import opened Folding
  import opened JsonValues
  import opened Patterns
  import opened EvidenceText
  import opened EvidenceSanitizer
  import opened SanitizedPlaces
  import opened FinanceInspection
  import opened FinanceValidation
  import opened FinanceAgreement
  import opened FinanceOverview
  import opened FrontmatterTerms
  import Frontmatter

  // ------------------------------------------------------------ a risk level named in an excerpt

  /** Units the indicator does not see: no letter, digit or underscore, nor a unit whose lower case is a letter. */
  predicate Unseen(c: Unit) {
    Passed(c) && c != '_' as int
  }

  /** The text is the word in whatever case, with unseen units strewn in. */
  predicate TellsLoosely(t: Text, word: Text) {
    if t == [] then word == []
    else
      || (Unseen(t[0]) && TellsLoosely(t[1..], word))
      || (word != [] && LetterSpells(t[0], word[0]) && TellsLoosely(t[1..], word[1..]))
  }

  predicate Names(text: Text, word: Text) {
    exists i, j | 0 <= i <= j <= |text| :: TellsLoosely(text[i..j], word)
  }

  /** The excerpt names a risk level. */
  predicate NamesRisk(text: Text) {
    Names(text, Lit("risklevel")) || Names(text, Lit("risk_level"))
  }

  predicate Seeable(word: Text) {
    forall i | 0 <= i < |word| :: 'a' as int <= word[i] <= 'z' as int || word[i] == '_' as int
  }

  lemma BlobUnit(c: Unit)
    ensures Blob([c]) == [] <==> Unseen(c)
    ensures |Blob([c])| <= 1
    ensures forall letter: Unit | Seeable([letter]) :: Blob([c]) == [letter] <==> LetterSpells(c, letter)
  {
    var none: Text := [];
    assert [c][1..] == none && Lower([c]) == LowerUnit(c) + Lower(none);
    assert Squashed(none) == none;
    if c == 0x0130 {
      assert Lower([c]) == ['i' as int, 0x0307] && Lower([c])[1..] == [0x0307] && [0x0307][1..] == none;
      assert Squashed([0x0307]) == none;
      assert Blob([c]) == ['i' as int];
    } else {
      var d := LowerUnit(c)[0];
      assert Lower([c]) == [d] && [d][1..] == none;
      assert Squashed([d]) == (if WordUnit(d) then [d] else []) + none;
    }
    forall letter: Unit | Seeable([letter]) ensures Blob([c]) == [letter] <==> LetterSpells(c, letter) {
      assert [letter][0] == letter;
    }
  }

  lemma BlobStep(t: Text)
    ensures t == [] ==> Blob(t) == []
    ensures t != [] ==> Blob(t) == Blob([t[0]]) + Blob(t[1..])
  {
    hide Blob;
    if t == [] {
      NothingBlob();
    } else {
      BlobConcat([t[0]], t[1..]);
      assert t == [t[0]] + t[1..];
    }
  }

  lemma NothingBlob()
    ensures Blob([]) == []
  {
  }

  lemma {:induction false} LooselyBlob(t: Text, word: Text)
    requires Seeable(word)
    ensures TellsLoosely(t, word) <==> Blob(t) == word
  {
    hide Blob, Unseen, LetterSpells;
    BlobStep(t);
    if t != [] {
      BlobUnit(t[0]);
      LooselyBlob(t[1..], word);
      if word != [] {
        LooselyBlob(t[1..], word[1..]);
        assert word == [word[0]] + word[1..] && Seeable([word[0]]);
      }
    }
  }

  /** Every start of the squashed text comes from a start of the text. */
  lemma {:induction false} BlobStart(t: Text, n: nat) returns (i: nat)
    requires n <= |Blob(t)|
    ensures i <= |t| && Blob(t[..i]) == Blob(t)[..n] && Blob(t[i..]) == Blob(t)[n..]
  {
    hide Blob;
    if n == 0 {
      i := 0;
      BlobStep(t[..0]);
      assert t[0..] == t;
    } else {
      BlobStep(t);
      BlobUnit(t[0]);
      var j := BlobStart(t[1..], n - |Blob([t[0]])|);
      i := j + 1;
      assert t[..i][1..] == t[1..][..j] && t[i..] == t[1..][j..] && t[..i][0] == t[0];
      BlobStep(t[..i]);
    }
  }

  lemma NamesIff(text: Text, word: Text)
    requires Seeable(word)
    ensures Includes(Blob(text), word) <==> Names(text, word)
  {
    hide Blob, TellsLoosely, Includes, Seeable;
    if Includes(Blob(text), word) {
      var k := IncludedAt(Blob(text), word);
      var i := BlobStart(text, k);
      var m := BlobStart(text[i..], |word|);
      assert text[i..][..m] == text[i..i + m];
      assert Blob(text)[k..][..|word|] == Blob(text)[k..k + |word|];
      LooselyBlob(text[i..i + m], word);
    }
    if Names(text, word) {
      var i, j :| 0 <= i <= j <= |text| && TellsLoosely(text[i..j], word);
      LooselyBlob(text[i..j], word);
      assert text == text[..i] + (text[i..j] + text[j..]);
      BlobConcat(text[i..j], text[j..]);
      BlobConcat(text[..i], text[i..j] + text[j..]);
      var n := |Blob(text[..i])|;
      assert Blob(text)[n..n + |word|] == word;
      IncludesAt(Blob(text), word, n);
    }
  }

  lemma RiskWords()
    ensures Seeable(Lit("risklevel")) && Seeable(Lit("risk_level"))
  {
    hide Lit, Seeable;
    WordSeeable("risklevel");
    WordSeeable("risk_level");
  }

  lemma WordSeeable(word: string)
    requires forall i | 0 <= i < |word| :: 'a' <= word[i] <= 'z' || word[i] == '_'
    ensures Seeable(Lit(word))
  {
  }

  lemma RiskNamedIff(text: Text)
    ensures RiskNamed(Blob(text)) <==> NamesRisk(text)
  {
    hide Lit, Seeable, Names, Blob, Includes;
    RiskWords();
    NamesIff(text, Lit("risklevel"));
    NamesIff(text, Lit("risk_level"));
  }

  // ------------------------------------------------------------ what the overview says

  /** The last line for the risk level says something that shows, or something very long. */
  ghost predicate RiskShown(block: Text) {
    exists raw, k: nat :: SaidLast(block, Lit("riskLevel"), raw, k) && (!AllWhite(raw) || |raw| > 500)
  }

  predicate AllWhite(t: Text) {
    forall i | 0 <= i < |t| :: White(t[i])
  }

  /** The block gives a runway, a burn or a revenue, whatever it is, or a risk level that shows. */
  ghost predicate BlockTells(block: Text) {
    || !SaysNothing(block, Lit("runwayMonths")) || !SaysNothing(block, Lit("monthlyBurn"))
    || !SaysNothing(block, Lit("monthlyRevenue")) || RiskShown(block)
  }

  lemma RedactedShows(raw: Text)
    ensures !Blank(RedactFinancePii(raw)) || |RedactFinancePii(raw)| > 500 <==> !AllWhite(raw) || |raw| > 500
  {
    BlankIff(raw);
    hide White;
    if Blank(raw) {
      SpacesKept(raw);
    } else {
      hide Patterns.Replace, Cpf, Cnpj, Card, Blank;
      ReplaceKeepsSomething(Cpf(), raw);
      ReplaceKeepsSomething(Cnpj(), Patterns.Replace(Cpf(), Tag(), raw));
      ReplaceKeepsSomething(Card(), Patterns.Replace(Cnpj(), Tag(), Patterns.Replace(Cpf(), Tag(), raw)));
    }
  }

  lemma SpacesKept(raw: Text)
    requires Blank(raw)
    ensures RedactFinancePii(raw) == raw
  {
    hide Patterns.Test, Cpf, Cnpj, Card, RedactFinancePii;
    assert forall i | 0 <= i < |raw| :: IsSpace(raw[i]);
    NumberFree(Cpf(), raw);
    NumberFree(Cnpj(), raw);
    NumberFree(Card(), raw);
    FinanceRedactionIdentityIff(raw);
  }

  lemma DecimalShows(raw: Text)
    requires Frontmatter.IsDecimal(raw)
    ensures !AllWhite(raw)
  {
    DecimalIff(raw);
    var a: nat, b: nat :| WrittenDecimal(raw, a, b);
    assert !White(raw[a]);
  }

  lemma RiskTold(number: Text -> Number, block: Text)
    ensures var risk := Get(Frontmatter.LineFields(number, Frontmatter.Lines(block)), Lit("riskLevel"));
            RiskShown(block) <==> risk.Some? && (risk.value.Str? ==> !Blank(risk.value.text) || |risk.value.text| > 500)
  {
    hide Get, Frontmatter.LineFields, Frontmatter.Lines, Lit, Frontmatter.IsDecimal, RedactFinancePii, Blank, AllWhite, SaidLast,
         SaysNothing;
    var key := Lit("riskLevel");
    var raw, k := SaidOrNothing(block, key);
    if SaysNothing(block, key) {
      NeverSaid(number, block, key);
      NothingLast(block, key);
    } else {
      LastSaid(number, block, key, raw, k);
      RedactedShows(raw);
      if Frontmatter.IsDecimal(raw) {
        DecimalShows(raw);
      }
      forall other, j: nat | SaidLast(block, key, other, j) ensures other == raw {
        LastOnce(block, key, raw, k, other, j);
      }
    }
  }

  lemma NothingLast(block: Text, key: Text)
    requires SaysNothing(block, key)
    ensures forall raw, k: nat :: !SaidLast(block, key, raw, k)
  {
    hide Says;
  }

  lemma LastOnce(block: Text, key: Text, raw: Text, k: nat, other: Text, j: nat)
    requires SaidLast(block, key, raw, k) && SaidLast(block, key, other, j)
    ensures k == j && raw == other
  {
    hide Says;
    if k == j {
      SaysOnce(Frontmatter.Lines(block)[k], key, raw, key, other);
    }
  }

  lemma KeySaid(number: Text -> Number, block: Text, key: Text)
    requires FinanceKey(key)
    ensures Get(Frontmatter.LineFields(number, Frontmatter.Lines(block)), key).Some? <==> !SaysNothing(block, key)
  {
    hide Get, Frontmatter.LineFields, Frontmatter.Lines, FinanceKey, SaysNothing, SaidLast;
    var raw, k := SaidOrNothing(block, key);
    if SaysNothing(block, key) {
      NeverSaid(number, block, key);
    } else {
      LastSaid(number, block, key, raw, k);
    }
  }

  lemma BlockTellsIff(number: Text -> Number, block: Text)
    ensures RecordTells(Frontmatter.LineFields(number, Frontmatter.Lines(block))) <==> BlockTells(block)
  {
    hide Get, Frontmatter.LineFields, Frontmatter.Lines, Lit, SaysNothing, RiskShown, Blank;
    KeySaid(number, block, Lit("runwayMonths"));
    KeySaid(number, block, Lit("monthlyBurn"));
    KeySaid(number, block, Lit("monthlyRevenue"));
    RiskTold(number, block);
  }

  /** The first five hundred units of the trimmed and redacted text name a risk level. */
  predicate ExcerptTells(text: Text) {
    var redacted := RedactFinancePii(Trim(text));
    NamesRisk(if |redacted| > 500 then redacted[..500] else redacted)
  }

  /** The block tells, or, when it sets no key or there is none, the text behind it or the whole. */
  ghost predicate FramedTells(content: Text, i: nat, k: nat, n: nat) {
    Framed(content, i, k, n) &&
    if SaysSome(content[i..k]) then BlockTells(content[i..k]) else ExcerptTells(PastLineEnd(content[k + n..]))
  }

  ghost predicate FileTells(content: Text) {
    || (exists i: nat, k: nat, n: nat :: FramedTells(content, i, k, n))
    || ((forall i: nat, k: nat, n: nat :: !Framed(content, i, k, n)) && ExcerptTells(content))
  }

  /** The content an answer carries. */
  function Content(raw: seq<Field>): Text {
    match Get(raw, Lit("content"))
    case Some(Str(text)) => text
    case _ => []
  }

  /** The test of an overview, on its content. */
  predicate ContentTells(number: Text -> Number, content: Text) {
    match Frontmatter.Structured(number, content)
    case Some(record) => RecordTells(record)
    case None => RiskNamed(Blob(Excerpt(Frontmatter.Body(content))))
  }

  lemma ExcerptTellsIff(text: Text)
    ensures RiskNamed(Blob(Excerpt(Trim(text)))) <==> ExcerptTells(text)
  {
    RiskNamedIff(Excerpt(Trim(text)));
    hide RiskNamed, Blob, NamesRisk, RedactFinancePii, Trim;
  }

  lemma FramedTellsIff(number: Text -> Number, content: Text, i: nat, k: nat, n: nat)
    requires Framed(content, i, k, n)
    ensures FramedTells(content, i, k, n) <==> ContentTells(number, content)
  {
    TheBlock(content, i, k, n);
    WithinContent(content, i, k, n);
    RecordIff(number, content[i..k]);
    BlockTellsIff(number, content[i..k]);
    ExcerptTellsIff(PastLineEnd(content[k + n..]));
    hide Framed, RecordTells, BlockTells, RiskNamed, Blob, Excerpt, Trim, Frontmatter.Split, Frontmatter.LineFields, Frontmatter.Lines,
         PastLineEnd, SaysSome, ExcerptTells;
  }

  lemma WithinContent(content: Text, i: nat, k: nat, n: nat)
    requires Framed(content, i, k, n)
    ensures i <= k <= k + n <= |content|
  {
    hide Clear;
  }

  lemma UnframedTells(number: Text -> Number, content: Text)
    requires Frontmatter.Split(content).None?
    ensures ContentTells(number, content) <==> ExcerptTells(content)
  {
    ExcerptTellsIff(content);
    hide RecordTells, RiskNamed, Blob, Excerpt, Trim, Frontmatter.Split, ExcerptTells;
  }

  /** The overview tells something exactly when its content does, read line by line. */
  lemma FileTellsIff(number: Text -> Number, content: Text)
    ensures ContentTells(number, content) <==> FileTells(content)
  {
    BlockIff(content);
    hide Framed, ExcerptTells, ContentTells, Frontmatter.Split;
    if Frontmatter.Split(content).None? {
      UnframedTells(number, content);
    } else {
      var i: nat, k: nat, n: nat :| Framed(content, i, k, n);
      FramedTellsIff(number, content, i, k, n);
      forall j: nat, l: nat, m: nat | FramedTells(content, j, l, m) ensures ContentTells(number, content) {
        FramedTellsIff(number, content, j, l, m);
      }
    }
  }

  lemma OverviewTellsIff(number: Text -> Number, raw: seq<Field>)
    ensures OverviewTells(number, raw) <==> FileTells(Content(raw))
  {
    assert ContentOf(raw) == Content(raw) by { hide Get, Lit; }
    FileTellsIff(number, Content(raw));
    hide FileTells, Content, ContentOf, RecordTells, RiskNamed, Frontmatter.Structured, Frontmatter.Body, Excerpt, Blob;
  }

  // ------------------------------------------------------------ the seven tools

  /** The answer of a tool is made into evidence for its place. */
  predicate Found(workspaceId: Text, number: Text -> Number, tool: Tool, path: Text, mandatory: bool, a: ToolAnswer) {
    Built(workspaceId, Probe(tool, path, mandatory), Read(number, Probe(tool, path, mandatory), a))
  }

  predicate Absent(a: ToolAnswer) {
    a.ToolError? && a.failure.code == Lit("NOT_FOUND")
  }

  /** Directory, overview, two more files, the billing file, a search and the billing directory; the first two must be there. */
  predicate AllFound(workspaceId: Text, number: Text -> Number, tools: seq<ToolAnswer>)
    requires |tools| == 7
  {
    && Found(workspaceId, number, ListDirectory, Lit("finance"), true, tools[0])
    && Found(workspaceId, number, ReadFile, Lit("finance/overview.md"), true, tools[1])
    && (Absent(tools[2]) || Found(workspaceId, number, ReadFile, Lit("finance/budget.md"), false, tools[2]))
    && (Absent(tools[3]) || Found(workspaceId, number, ReadFile, Lit("finance/costs.md"), false, tools[3]))
    && (Absent(tools[4]) || Found(workspaceId, number, ReadFile, Lit("billing/summary.md"), false, tools[4]))
    && (Absent(tools[5]) || Found(workspaceId, number, SearchFiles, Lit("finance/"), false, tools[5]))
    && (Absent(tools[6]) || Found(workspaceId, number, ListDirectory, Lit("billing"), false, tools[6]))
  }

  lemma ReadGood(workspaceId: Text, number: Text -> Number, probe: Probe, a: ToolAnswer)
    ensures Good(workspaceId, probe, Read(number, probe, a)) <==>
              Found(workspaceId, number, probe.tool, probe.path, probe.mandatory, a) || (!probe.mandatory && Absent(a))
  {
    hide Lit, Build, Frontmatter.Structured, Frontmatter.Body, ContentOf;
  }

  lemma AllFoundIff(workspaceId: Text, number: Text -> Number, tools: seq<ToolAnswer>)
    requires |tools| == 7
    ensures AllGood(workspaceId, ReadAll(number, tools)) <==> AllFound(workspaceId, number, tools)
  {
    hide Lit, Good, Found, Absent, Read;
    var answers, probes := ReadAll(number, tools), Probes();
    forall k | 0 <= k < 7
      ensures Good(workspaceId, probes[k], answers[k]) <==>
                Found(workspaceId, number, probes[k].tool, probes[k].path, probes[k].mandatory, tools[k])
                || (!probes[k].mandatory && Absent(tools[k]))
    {
      ReadGood(workspaceId, number, probes[k], tools[k]);
    }
    assert AllGood(workspaceId, answers) <==>
             Good(workspaceId, probes[0], answers[0]) && Good(workspaceId, probes[1], answers[1]) && Good(workspaceId, probes[2], answers[2])
             && Good(workspaceId, probes[3], answers[3]) && Good(workspaceId, probes[4], answers[4])
             && Good(workspaceId, probes[5], answers[5]) && Good(workspaceId, probes[6], answers[6]);
  }

  /**
   * The validator accepts the delivery and the tool log of an inspection exactly when the finance directory and the
   * overview are found, each of the other five places is found or answers NOT_FOUND, and the overview file says,
   * line by line, a runway, a burn, a revenue or a risk level, or names a risk level where no line sets a key.
   */
  lemma AcceptedInTerms(workspaceId: Text, number: Text -> Number, tools: seq<ToolAnswer>)
    requires |tools| == 7 && Frontmatter.Numeric(number)
    ensures var e := Inspect(workspaceId, ReadAll(number, tools));
            ValidDelivery(Some(Deliver(e)), Some(e.executions))
            <==> AllFound(workspaceId, number, tools) && tools[1].ToolData? && FileTells(Content(tools[1].raw))
  {
    InspectionAcceptedIff(workspaceId, number, tools);
    AllFoundIff(workspaceId, number, tools);
    if tools[1].ToolData? {
      OverviewTellsIff(number, tools[1].raw);
    }
    hide AllGood, ValidDelivery, Inspect, OverviewTells, FileTells;
  }

  // ------------------------------------------------------------ the indicator on any data

  /** What a field adds to the text that is searched: nothing when it is missing, undefined or null. */
  function SaidBy(data: seq<Field>, key: string): Text {
    match Get(data, Lit(key))
    case None => []
    case Some(Undefined) => []
    case Some(Null) => []
    case Some(v) => Printed(v)
  }

  /** The record has something under the key. */
  predicate Gives(record: seq<Field>, key: string) {
    Get(record, Lit(key)) !in {None, Some(Undefined), Some(Null)}
  }

  /** The validator's indicator, on data of any origin. */
  lemma IndicatorIff(data: seq<Field>)
    ensures Indicates(data) <==>
              || (exists record ::
                    && Get(data, Lit("structured")) == Some(Obj(record))
                    && (Gives(record, "runwayMonths") || Gives(record, "monthlyBurn") || Gives(record, "monthlyRevenue")
                        || (Gives(record, "riskLevel") && !AllWhite(SaidBy(record, "riskLevel")))))
              || var blob := Blob(SaidBy(data, "summary") + [0x20] + SaidBy(data, "contentExcerpt"));
                 blob == Lit("runway") || blob == Lit("burn") || blob == Lit("revenue")
                 || NamesRisk(SaidBy(data, "summary") + [0x20] + SaidBy(data, "contentExcerpt"))
  {
    var structured := Get(data, Lit("structured"));
    if structured.Some? && structured.value.Obj? {
      StructuredIff(structured.value.fields);
    }
    SaidIs(data, "summary");
    SaidIs(data, "contentExcerpt");
    OneSpace();
    IndicatesParts(data);
    RiskNamedIff(SaidBy(data, "summary") + [0x20] + SaidBy(data, "contentExcerpt"));
    hide Get, Lit, Structured, Gives, AllWhite, Blob, NamesRisk, RiskNamed, TextOf, SaidBy, Indicates;
  }

  lemma OneSpace()
    ensures Lit(" ") == [0x20]
  {
  }

  lemma SaidIs(data: seq<Field>, key: string)
    ensures TextOf(Get(data, Lit(key))) == SaidBy(data, key)
    ensures Present(Get(data, Lit(key))) <==> Gives(data, key)
    ensures Gives(data, key) ==> SaidBy(data, key) == Printed(Get(data, Lit(key)).value)
  {
    hide Get, Lit, Printed;
  }

  lemma StructuredIff(record: seq<Field>)
    ensures Structured(record) <==>
              Gives(record, "runwayMonths") || Gives(record, "monthlyBurn") || Gives(record, "monthlyRevenue")
              || (Gives(record, "riskLevel") && !AllWhite(SaidBy(record, "riskLevel")))
  {
    SaidIs(record, "runwayMonths");
    SaidIs(record, "monthlyBurn");
    SaidIs(record, "monthlyRevenue");
    SaidIs(record, "riskLevel");
    BlankIff(SaidBy(record, "riskLevel"));
    hide Get, Lit, Printed, Gives, SaidBy, White, Trim;
  }

  /** A list prints its items with commas between them, null and undefined ones as nothing. */
  lemma ListPrinted(items: seq<Json>)
    ensures exists texts: seq<Text> ::
              && |texts| == |items| && Printed(Arr(items)) == Chain(texts, [0x2C])
              && forall i | 0 <= i < |items| :: texts[i] == if items[i] == Undefined || items[i] == Null then [] else Printed(items[i])
  {
    var texts: seq<Text> := seq(|items|, i requires 0 <= i < |items| =>
                                if items[i] == Undefined || items[i] == Null then [] else Printed(items[i]));
    JoinIsChain(texts, [0x2C]);
    OneComma();
    hide Chain, Join, Lit;
  }

  lemma OneComma()
    ensures Lit(",") == [0x2C]
  {
  }

  // ------------------------------------------------------------ one item, one outcome

  /** finance or billing, or something below one of them. */
  ghost predicate FinancePlace(path: Text) {
    || path == Lit("finance") || path == Lit("billing")
    || (exists rest :: path == Lit("finance/") + rest) || exists rest :: path == Lit("billing/") + rest
  }

  lemma PrefixIff(prefix: Text, t: Text)
    ensures prefix <= t <==> exists rest :: t == prefix + rest
  {
    if prefix <= t {
      assert t == prefix + t[|prefix|..];
    }
  }

  /** An item counts exactly when it is no error, of a finance tool, about a finance place, and shows nothing it must not. */
  lemma ValidItemIff(item: Evidence)
    ensures ValidItem(item) <==>
              && Get(item.data, Lit("error")) == None
              && (item.source.ListDirectory? || item.source.ReadFile? || item.source.SearchFiles?)
              && (exists path :: Get(item.data, Lit("artifactPath")) == Some(Str(path)) && FinancePlace(path))
              && Get(item.data, Lit("domain")) == Some(Str(Lit("finance_artifacts")))
              && !Unsafe(Finance, Obj(item.data))
  {
    forall path ensures AllowedPath(path) <==> FinancePlace(path) {
      PrefixIff(Lit("finance/"), path);
      PrefixIff(Lit("billing/"), path);
      assert Lit("finance/") + [] == Lit("finance/") && Lit("billing/") + [] == Lit("billing/");
      hide Lit;
    }
    hide Lit, Get, Unsafe, AllowedPath, FinancePlace;
  }

  /** The place an item is about: its artifact path, or without one its path. */
  predicate About(item: Evidence, place: Text) {
    match Get(item.data, Lit("artifactPath"))
    case Some(Str(t)) => t == place
    case Some(Null) => Get(item.data, Lit("path")) == Some(Str(place))
    case Some(Undefined) => Get(item.data, Lit("path")) == Some(Str(place))
    case None => Get(item.data, Lit("path")) == Some(Str(place))
    case _ => false
  }

  /**
   * An item that does not count is let pass exactly when it is a NOT_FOUND of a search, of a listing once finance was
   * listed, or of a read of one of the three optional files.
   */
  lemma IgnorableIff(item: Evidence, listed: bool)
    ensures Ignorable(item, listed) <==>
              && Get(item.data, Lit("error")) == Some(Str(Lit("NOT_FOUND")))
              && (|| item.source.SearchFiles?
                  || (item.source.ListDirectory? && listed)
                  || (item.source.ReadFile? && (About(item, Lit("finance/budget.md")) || About(item, Lit("finance/costs.md"))
                                                || About(item, Lit("billing/summary.md")))))
  {
    forall place ensures About(item, place) <==> PathOf(item) == Some(Str(place)) {
      hide Get, Lit;
    }
    hide Get, Lit, About, PathOf;
  }

  /** The item is the listing of the finance directory, and no error. */
  predicate ListsFinance(item: Evidence) {
    item.source.ListDirectory? && Get(item.data, Lit("artifactPath")) == Some(Str(Lit("finance")))
    && Get(item.data, Lit("error")) == None
  }

  /** The item is the overview file, no error, and has an indicator. */
  predicate ReadsOverview(item: Evidence) {
    item.source.ReadFile? && Get(item.data, Lit("artifactPath")) == Some(Str(Lit("finance/overview.md")))
    && Get(item.data, Lit("error")) == None && Indicates(item.data)
  }

  lemma {:induction false} CountsTwo(evidence: seq<Evidence>)
    ensures CountValid(evidence) >= 1 <==> exists i | 0 <= i < |evidence| :: ValidItem(evidence[i])
    ensures CountValid(evidence) >= 2 <==> exists i, j | 0 <= i < j < |evidence| :: ValidItem(evidence[i]) && ValidItem(evidence[j])
  {
    hide ValidItem;
    if evidence != [] {
      var n := |evidence| - 1;
      var front := evidence[..n];
      CountsTwo(front);
      assert forall i | 0 <= i < n :: front[i] == evidence[i];
      if i, j :| 0 <= i < j < |evidence| && ValidItem(evidence[i]) && ValidItem(evidence[j]) && j == n {
        assert ValidItem(front[i]);
      }
    }
  }

  /**
   * Evidence is valid exactly when the finance directory was listed, the overview read with an indicator, two items
   * count, and every other item is let pass.
   */
  lemma ValidEvidenceIff(evidence: seq<Evidence>)
    ensures ValidEvidence(evidence) <==>
              && (exists i | 0 <= i < |evidence| :: ListsFinance(evidence[i]))
              && (exists i | 0 <= i < |evidence| :: ReadsOverview(evidence[i]))
              && (exists i, j | 0 <= i < j < |evidence| :: ValidItem(evidence[i]) && ValidItem(evidence[j]))
              && forall i | 0 <= i < |evidence| :: AcceptsItem(evidence[i], true)
  {
    hide FinanceListed, ListsFinance, OverviewRead, ReadsOverview, ValidItem, AcceptsItem, CountValid;
    CountsTwo(evidence);
    forall i | 0 <= i < |evidence|
      ensures (FinanceListed(evidence[i]) <==> ListsFinance(evidence[i])) && (OverviewRead(evidence[i]) <==> ReadsOverview(evidence[i]))
    {
      ItemIs(evidence[i]);
    }
    assert SomeListed(evidence) <==> exists i | 0 <= i < |evidence| :: ListsFinance(evidence[i]);
    hide SomeListed;
  }

  lemma ItemIs(item: Evidence)
    ensures FinanceListed(item) <==> ListsFinance(item)
    ensures OverviewRead(item) <==> ReadsOverview(item)
  {
    hide Get, Lit, Indicates;
  }

  /** The code of an outcome is what stands before its first colon, or all of it, without white space around it. */
  lemma ErrorCodeIff(outcome: Text, c: nat)
    requires c <= |outcome| && (forall i | 0 <= i < c :: outcome[i] != ':' as int) && (c < |outcome| ==> outcome[c] == ':' as int)
    ensures ErrorCode(outcome) == if AllWhite(outcome[..c]) then None else Some(Trim(outcome[..c]))
  {
    BeforeColon(outcome, c);
    BlankIff(outcome);
    BlankIff(outcome[..c]);
    hide White, Blank, Trim, UpToColon;
    assert forall i | 0 <= i < c :: outcome[..c][i] == outcome[i];
  }

  lemma {:induction false} BeforeColon(outcome: Text, c: nat)
    requires c <= |outcome| && (forall i | 0 <= i < c :: outcome[i] != ':' as int) && (c < |outcome| ==> outcome[c] == ':' as int)
    ensures UpToColon(outcome) == outcome[..c]
  {
    if c > 0 {
      BeforeColon(outcome[1..], c - 1);
      assert outcome[..c] == [outcome[0]] + outcome[1..][..c - 1];
    }
  }
}
