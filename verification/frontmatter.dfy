/**
 * The frontmatter of a finance file: which fields a file's content yields
 * (packages/employees/specialist-kit/src/finance-evidence.ts).
 */
module Frontmatter {
  import opened Texts
  import opened JsonValues
  import opened EvidenceText
  import opened EvidenceSanitizer

  const LF: Unit := 10
  const CR: Unit := 13

  function StructuredKeys(): set<Text> {
    {Lit("schemaVersion"), Lit("period"), Lit("currency"), Lit("runwayMonths"), Lit("monthlyBurn"), Lit("monthlyRevenue"),
     Lit("riskLevel"), Lit("notes")}
  }

  // ------------------------------------------------------------ splitting the content

  /** What follows `---`, an optional carriage return and a line feed. */
  function AfterFence(s: Text): Option<Text> {
    if !(Lit("---") <= s) then None
    else if |s| > 3 && s[3] == LF then Some(s[4..])
    else if |s| > 4 && s[3] == CR && s[4] == LF then Some(s[5..])
    else None
  }

  /** How many units a line end and `---` take at the start of s, or zero. */
  function ClosingAt(s: Text): (n: nat)
    ensures n <= |s|
  {
    if s != [] && s[0] == LF && Lit("---") <= s[1..] then 4
    else if |s| > 1 && s[0] == CR && s[1] == LF && Lit("---") <= s[2..] then 5
    else 0
  }

  /** The first position a closing fence starts at, or the length. */
  function Closing(s: Text): (k: nat)
    ensures k <= |s| && (k < |s| ==> ClosingAt(s[k..]) > 0)
    ensures forall j | 0 <= j < k :: ClosingAt(s[j..]) == 0
  {
    if s == [] || ClosingAt(s) > 0 then assert s[0..] == s; 0
    else
      var k := Closing(s[1..]) + 1;
      assert forall j | 1 <= j <= |s| :: s[1..][j - 1..] == s[j..];
      assert s[0..] == s;
      k
  }

  /** A line end at the start: a carriage return and a line feed, each optional. */
  function SkipLineEnd(s: Text): Text {
    var t := if s != [] && s[0] == CR then s[1..] else s;
    if t != [] && t[0] == LF then t[1..] else t
  }

  datatype Parts = Parts(block: Text, body: Text)

  /** The block between the fences, as short as it can be, and the rest. */
  function Split(content: Text): Option<Parts> {
    var rest := AfterFence(content);
    if rest.None? then None
    else
      var k := Closing(rest.value);
      if k == |rest.value| then None
      else
        var tail := rest.value[k..];
        Some(Parts(rest.value[..k], SkipLineEnd(tail[ClosingAt(tail)..])))
  }

  function Lines(s: Text): seq<Text> {
    var k := IndexOfUnit(s, LF);
    if k == |s| then [s] else [s[..k]] + Lines(s[k + 1..])
  }

  /** The first position of a unit, or the length. */
  function IndexOfUnit(s: Text, c: Unit): (k: nat)
    ensures k <= |s| && (k < |s| ==> s[k] == c) && c !in s[..k]
  {
    if s == [] || s[0] == c then 0 else 1 + IndexOfUnit(s[1..], c)
  }

  // ------------------------------------------------------------ one line

  predicate AllDigits(s: Text) {
    s != [] && forall i | 0 <= i < |s| :: IsDigit(s[i])
  }

  /** /^-?\d+(\.\d+)?$/ */
  predicate IsDecimal(raw: Text) {
    var s := if raw != [] && raw[0] == '-' as int then raw[1..] else raw;
    var dot := IndexOfUnit(s, '.' as int);
    AllDigits(s[..dot]) && (dot == |s| || AllDigits(s[dot + 1..]))
  }

  predicate Quoted(raw: Text, quote: Unit) {
    raw != [] && raw[0] == quote && raw[|raw| - 1] == quote
  }

  /** `slice(1, -1)` of a text in quotes; a lone quote is both its start and its end. */
  function Unquoted(raw: Text): Text {
    if !Quoted(raw, 0x22) && !Quoted(raw, 0x27) then raw
    else if |raw| == 1 then []
    else raw[1..|raw| - 1]
  }

  /** What `Number` makes of a decimal, of which only this is used: it prints as a lexeme or is not finite. */
  ghost predicate Numeric(number: Text -> Number) {
    forall t :: WellFormed(Num(number(t)))
  }

  /** The text behind the separator of a line. */
  function RawOf(line: Text): Text {
    var trimmed := Trim(line);
    var sep := IndexOfUnit(trimmed, ':' as int);
    if sep == |trimmed| then [] else Unquoted(Trim(trimmed[sep + 1..]))
  }

  /** What a line contributes: nothing, or a value for one of the known keys. */
  function LineField(number: Text -> Number, line: Text): Option<Field> {
    var trimmed := Trim(line);
    var sep := IndexOfUnit(trimmed, ':' as int);
    if trimmed == [] || trimmed[0] == '#' as int || sep == 0 || sep == |trimmed| then None
    else
      var key := Trim(trimmed[..sep]);
      if key !in StructuredKeys() then None
      else
        var raw := RawOf(line);
        Some(Field(key,
                   if IsDecimal(raw) then Num(number(raw))
                   else if Denied(Finance, key) then Str(Tag())
                   else Str(RedactFinancePii(raw))))
  }

  /** All lines, in order; a later line for a key replaces an earlier one. */
  function LineFields(number: Text -> Number, lines: seq<Text>): seq<Field> {
    if lines == [] then []
    else
      var n := |lines| - 1;
      var before := LineFields(number, lines[..n]);
      var f := LineField(number, lines[n]);
      if f.None? then before else Put(before, f.value.key, f.value.value)
  }

  function Structured(number: Text -> Number, content: Text): Option<seq<Field>> {
    var parts := Split(content);
    if parts.None? then None
    else
      var fields := LineFields(number, Lines(parts.value.block));
      if fields == [] then None else Some(fields)
  }

  function Body(content: Text): Text {
    var parts := Split(content);
    Trim(if parts.Some? then parts.value.body else content)
  }

  method ParseFinanceFrontmatter(number: Text -> Number, content: Text) returns (structured: Option<seq<Field>>)
    ensures structured == Structured(number, content)
  {
    hide LineField, Split, Lines;
    var parts := Split(content);
    if parts.None? {
      return None;
    }
    var lines := Lines(parts.value.block);
    var fields: seq<Field> := [];
    for i := 0 to |lines|
      invariant fields == LineFields(number, lines[..i])
    {
      assert lines[..i + 1][..i] == lines[..i];
      var f := LineField(number, lines[i]);
      if f.None? {
        continue;
      }
      fields := Put(fields, f.value.key, f.value.value);
    }
    assert lines[..|lines|] == lines;
    structured := if fields == [] then None else Some(fields);
  }

  // ------------------------------------------------------------ what a file yields

  lemma {:induction false} PutGet(fields: seq<Field>, key: Text, value: Json, other: Text)
    ensures Get(Put(fields, key, value), other) == if other == key then Some(value) else Get(fields, other)
  {
    if fields != [] && fields[0].key != key {
      PutGet(fields[1..], key, value, other);
    }
  }

  lemma {:induction false} PutFields(fields: seq<Field>, key: Text, value: Json)
    requires DistinctKeys(fields)
    ensures DistinctKeys(Put(fields, key, value))
    ensures forall f | f in Put(fields, key, value) :: f == Field(key, value) || (f in fields && f.key != key)
  {
    if fields != [] {
      var rest := fields[1..];
      assert fields == [fields[0]] + rest;
      if fields[0].key == key {
        assert forall i | 0 <= i < |rest| :: rest[i] == fields[i + 1];
      } else {
        PutFields(rest, key, value);
        var put := Put(rest, key, value);
        forall i | 0 <= i < |put| ensures put[i].key != fields[0].key {
          var f := put[i];
          assert f in put;
          if f != Field(key, value) {
            var k :| 0 <= k < |rest| && rest[k] == f;
            assert fields[k + 1] == f;
          }
        }
      }
    }
  }

  /** A field the parser may yield: of a known key, a number or a text without numbers to redact. */
  predicate CleanField(f: Field) {
    f.key in StructuredKeys() && (f.value.Num? || (f.value.Str? && !ResidualFinancePii(f.value.text)))
  }

  lemma LineFieldClean(number: Text -> Number, line: Text)
    requires Numeric(number)
    ensures var f := LineField(number, line); f.Some? ==> CleanField(f.value) && WellFormed(f.value.value)
  {
    hide Trim, IsDecimal, Denied, RedactFinancePii, ResidualFinancePii, StructuredKeys, Tag, RawOf, Lit;
    FinanceRedactionComplete(RawOf(line));
    TagClean(Finance);
  }

  /**
   * Only a text is redacted: what a line says reaches the evidence as a number, digits and all, exactly when it
   * is a decimal, and then neither the sanitizer nor the validator's scan looks at it.
   */
  lemma NumbersPassIff(number: Text -> Number, line: Text)
    requires Numeric(number) && LineField(number, line).Some?
    ensures var v := LineField(number, line).value.value;
            && (v == Num(number(RawOf(line))) <==> IsDecimal(RawOf(line)))
            && (v.Num? ==> Sanitize(Finance, v) == v && !Unsafe(Finance, v))
            && (!v.Num? ==> v.Str? && !ResidualFinancePii(v.text))
  {
    hide Trim, IsDecimal, Denied, RedactFinancePii, ResidualFinancePii, StructuredKeys, Tag, RawOf, Lit;
    FinanceRedactionComplete(RawOf(line));
    TagClean(Finance);
  }

  lemma {:induction false} LineFieldsClean(number: Text -> Number, lines: seq<Text>)
    requires Numeric(number)
    ensures var fields := LineFields(number, lines);
            DistinctKeys(fields) && forall f | f in fields :: CleanField(f) && WellFormed(f.value)
  {
    if lines != [] {
      hide LineField, CleanField, DistinctKeys, Put;
      var n := |lines| - 1;
      LineFieldsClean(number, lines[..n]);
      LineFieldClean(number, lines[n]);
      var f := LineField(number, lines[n]);
      if f.Some? {
        PutFields(LineFields(number, lines[..n]), f.value.key, f.value.value);
      }
    } else {
      assert LineFields(number, lines) == [];
    }
  }

  /** Whatever a file holds, its structured fields are distinct known keys with numbers or redacted texts. */
  lemma StructuredClean(number: Text -> Number, content: Text)
    requires Numeric(number)
    ensures var s := Structured(number, content);
            s.Some? ==> s.value != [] && WellFormed(Obj(s.value)) && forall f | f in s.value :: CleanField(f)
  {
    hide LineFields, CleanField, Split, Lines;
    var parts := Split(content);
    if parts.Some? {
      LineFieldsClean(number, Lines(parts.value.block));
    }
  }

  lemma OneLineMore(number: Text -> Number, lines: seq<Text>, line: Text, key: Text)
    ensures Get(LineFields(number, lines + [line]), key)
         == if Yields(number, line, key) then Some(LineField(number, line).value.value) else Get(LineFields(number, lines), key)
  {
    hide LineField;
    assert (lines + [line])[..|lines|] == lines;
    var f := LineField(number, line);
    if f.Some? {
      PutGet(LineFields(number, lines), f.value.key, f.value.value, key);
    }
  }

  predicate Yields(number: Text -> Number, line: Text, key: Text) {
    LineField(number, line).Some? && LineField(number, line).value.key == key
  }

  /** The last line that yields a field for a key decides its value; without one the key is absent. */
  lemma {:induction false} LastLineDecides(number: Text -> Number, lines: seq<Text>, k: nat, key: Text)
    requires k < |lines| ==> Yields(number, lines[k], key)
    requires forall j | 0 <= j < |lines| && (j > k || k >= |lines|) :: !Yields(number, lines[j], key)
    ensures Get(LineFields(number, lines), key)
         == if k < |lines| then Some(LineField(number, lines[k]).value.value) else None
    decreases |lines|
  {
    hide LineField, LineFields, Yields, Get;
    if lines == [] {
      NoLines(number, key);
    } else {
      var n := |lines| - 1;
      assert lines == lines[..n] + [lines[n]];
      OneLineMore(number, lines[..n], lines[n], key);
      if k != n {
        LastLineDecides(number, lines[..n], k, key);
      }
    }
  }

  lemma NoLines(number: Text -> Number, key: Text)
    ensures Get(LineFields(number, []), key) == None
  {
  }
}
