/**
 * What a finance file says, said about the units of its content: where its block stands, what its lines are and
 * what one of them gives to a key (packages/employees/specialist-kit/src/finance-evidence.ts:106-155, 284-292).
 */
module FrontmatterTerms {
  import opened Texts
  import opened TextMeaning
  import opened JsonValues
  import opened EvidenceText
  import opened EvidenceSanitizer
  import opened Frontmatter
  import FinanceAgreement

  // ------------------------------------------------------------ where the block stands

  /** Three dashes and a line end, a line feed or a carriage return and a line feed, take so many units. */
  predicate Opens(s: Text, n: nat) {
    && n <= |s| && (n == 4 || n == 5) && s[0] == 0x2D && s[1] == 0x2D && s[2] == 0x2D
    && (if n == 4 then s[3] == 0x0A else s[3] == 0x0D && s[4] == 0x0A)
  }

  /** At k a line end and three dashes take so many units. */
  predicate Closes(s: Text, k: nat, n: nat) {
    && k + n <= |s| && (n == 4 || n == 5)
    && (if n == 4 then s[k] == 0x0A else s[k] == 0x0D && s[k + 1] == 0x0A)
    && s[k + n - 3] == 0x2D && s[k + n - 2] == 0x2D && s[k + n - 1] == 0x2D
  }

  /** No closing mark from i up to k. */
  ghost predicate Clear(s: Text, i: nat, k: nat) {
    forall j: nat, m: nat | i <= j < k :: !Closes(s, j, m)
  }

  /** The block stands from i to k, between the opening and the first closing mark behind it. */
  ghost predicate Framed(s: Text, i: nat, k: nat, n: nat) {
    Opens(s, i) && i <= k && Closes(s, k, n) && Clear(s, i, k)
  }

  /** The text without one line end at its start, either half of which may be missing. */
  function PastLineEnd(t: Text): Text {
    if |t| > 1 && t[0] == 0x0D && t[1] == 0x0A then t[2..]
    else if t != [] && (t[0] == 0x0D || t[0] == 0x0A) then t[1..]
    else t
  }

  lemma DashesAt(s: Text, k: nat)
    requires k <= |s|
    ensures Lit("---") <= s[k..] <==> k + 3 <= |s| && s[k] == 0x2D && s[k + 1] == 0x2D && s[k + 2] == 0x2D
  {
    var dashes := Lit("---");
    assert |dashes| == 3 && dashes[0] == 0x2D && dashes[1] == 0x2D && dashes[2] == 0x2D;
    hide Lit;
    if k + 3 <= |s| {
      assert s[k..][0] == s[k] && s[k..][1] == s[k + 1] && s[k..][2] == s[k + 2];
      if s[k] == 0x2D && s[k + 1] == 0x2D && s[k + 2] == 0x2D {
        assert dashes == s[k..][..3];
      }
    }
  }

  lemma FenceIff(s: Text)
    ensures AfterFence(s).Some? <==> exists i: nat :: Opens(s, i)
    ensures forall i: nat | Opens(s, i) :: AfterFence(s) == Some(s[i..])
  {
    DashesAt(s, 0);
    assert s[0..] == s;
    hide Lit;
    if AfterFence(s).Some? {
      assert Opens(s, 4) || Opens(s, 5);
    }
  }

  lemma ClosingIff(s: Text, k: nat)
    requires k <= |s|
    ensures forall n: nat :: Closes(s, k, n) <==> n > 0 && ClosingAt(s[k..]) == n
  {
    var t := s[k..];
    if |t| > 1 {
      DashesAt(s, k + 1);
      assert t[1..] == s[k + 1..] && t[0] == s[k] && t[1] == s[k + 1];
      DashesAt(s, k + 2);
      assert t[2..] == s[k + 2..];
    } else if |t| == 1 {
      DashesAt(s, k + 1);
      assert t[1..] == s[k + 1..];
    }
    hide Lit;
  }

  lemma NoCloseBefore(s: Text, i: nat, j: nat)
    requires i <= |s| && i <= j < i + Closing(s[i..])
    ensures forall m: nat :: !Closes(s, j, m)
  {
    hide Closes, ClosingAt, Closing;
    assert s[i..][j - i..] == s[j..];
    ClosingIff(s, j);
  }

  /** Where the search for the closing mark stops, one closes, or the text ends. */
  lemma CloseAtStop(s: Text, i: nat)
    requires i <= |s|
    ensures var at := i + Closing(s[i..]); at <= |s| && (at < |s| ==> Closes(s, at, ClosingAt(s[at..])))
  {
    hide Closes, ClosingAt, Closing;
    var k := Closing(s[i..]);
    assert s[i..][k..] == s[i + k..];
    ClosingIff(s, i + k);
  }

  lemma CloseIs(s: Text, k: nat, n: nat)
    requires k <= |s| && Closes(s, k, n)
    ensures k < |s| && ClosingAt(s[k..]) == n
  {
    ClosingIff(s, k);
    hide ClosingAt;
  }

  lemma ClearAt(s: Text, i: nat, k: nat, j: nat, m: nat)
    requires Clear(s, i, k) && i <= j < k
    ensures !Closes(s, j, m)
  {
  }

  lemma CloseIsFirst(s: Text, i: nat, k: nat, n: nat)
    requires i <= k < |s| && Closes(s, k, n) && Clear(s, i, k)
    ensures Closing(s[i..]) == k - i && ClosingAt(s[k..]) == n
  {
    hide Clear, ClosingAt, Closes;
    var at := i + Closing(s[i..]);
    CloseAtStop(s, i);
    CloseIs(s, k, n);
    if k < at {
      NoCloseBefore(s, i, k);
    } else if at < k {
      ClearAt(s, i, k, at, ClosingAt(s[at..]));
    }
  }

  lemma TheBlock(s: Text, i: nat, k: nat, n: nat)
    requires Framed(s, i, k, n)
    ensures Split(s) == Some(Parts(s[i..k], PastLineEnd(s[k + n..])))
  {
    FramedOpens(s, i, k, n);
    CloseIsFirst(s, i, k, n);
    hide AfterFence, SkipLineEnd, PastLineEnd, ClosingAt, Closing, Closes, Opens, Framed, Clear;
    Slices(s, i, k, n);
    SkippedIs(s[k + n..]);
  }

  lemma Slices(s: Text, i: nat, k: nat, n: nat)
    requires i <= k && k + n <= |s|
    ensures s[i..][..k - i] == s[i..k] && s[i..][k - i..] == s[k..] && s[k..][n..] == s[k + n..]
  {
  }

  lemma FramedOpens(s: Text, i: nat, k: nat, n: nat)
    requires Framed(s, i, k, n)
    ensures AfterFence(s) == Some(s[i..]) && i <= |s| && k + n <= |s| && n > 0
  {
    FenceIff(s);
    hide AfterFence, Clear;
  }

  lemma SkippedIs(t: Text)
    ensures SkipLineEnd(t) == PastLineEnd(t)
  {
  }

  lemma SplitIsFramed(s: Text) returns (i: nat, k: nat, n: nat)
    requires Split(s).Some?
    ensures Framed(s, i, k, n)
  {
    FenceIff(s);
    hide AfterFence, SkipLineEnd, ClosingAt, Lit, Closes, Opens;
    i :| Opens(s, i);
    OpensWithin(s, i);
    k := i + Closing(s[i..]);
    CloseAtStop(s, i);
    n := ClosingAt(s[k..]);
    assert AfterFence(s) == Some(s[i..]);
    assert Closes(s, k, n);
    forall j: nat, m: nat | i <= j < k ensures !Closes(s, j, m) {
      NoCloseBefore(s, i, j);
    }
  }

  /** The content has a block exactly when there is a frame. */
  lemma BlockIff(s: Text)
    ensures Split(s).Some? <==> exists i: nat, k: nat, n: nat :: Framed(s, i, k, n)
  {
    hide Framed, Split;
    if i: nat, k: nat, n: nat :| Framed(s, i, k, n) {
      TheBlock(s, i, k, n);
    }
    if Split(s).Some? {
      var i, k, n := SplitIsFramed(s);
    }
  }

  lemma OpensWithin(s: Text, i: nat)
    requires Opens(s, i)
    ensures i <= |s|
  {
  }

  // ------------------------------------------------------------ the lines

  /** The lines, joined by line feeds, are the block, and none holds a line feed: nothing else is its lines. */
  lemma {:induction false} LinesAre(block: Text)
    ensures Lines(block) != [] && Join(Lines(block), [0x0A]) == block
    ensures forall i | 0 <= i < |Lines(block)| :: 0x0A !in Lines(block)[i]
  {
    var k := IndexOfUnit(block, LF);
    if k < |block| {
      LinesAre(block[k + 1..]);
      assert block == block[..k] + [0x0A] + block[k + 1..];
      assert Lines(block)[1..] == Lines(block[k + 1..]);
    }
  }

  // ------------------------------------------------------------ one line

  /** The text in quotes of one kind without them; a lone quote is nothing. */
  predicate Bare(t: Text, raw: Text) {
    var quoted := t != [] && ((t[0] == 0x22 && t[|t| - 1] == 0x22) || (t[0] == 0x27 && t[|t| - 1] == 0x27));
    if !quoted then raw == t else if |t| == 1 then raw == [] else t == [t[0]] + raw + [t[0]]
  }

  /**
   * Between the white space at both its ends the line has a first colon at c, not at its start, which is no hash
   * sign; the key stands before it and the value behind, white space and quotes apart.
   */
  predicate SaysAt(line: Text, key: Text, raw: Text, i: nat, j: nat, c: nat) {
    && Core(line, i, j) && i < c < j && line[c] == ':' as int && line[i] != '#' as int
    && (forall b | i <= b < c :: line[b] != ':' as int)
    && Trim(line[i..c]) == key && Bare(Trim(line[c + 1..j]), raw)
  }

  ghost predicate Says(line: Text, key: Text, raw: Text) {
    exists i: nat, j: nat, c: nat :: SaysAt(line, key, raw, i, j, c)
  }

  /** The eight keys a finance file may set. */
  predicate FinanceKey(key: Text) {
    || key == Lit("schemaVersion") || key == Lit("period") || key == Lit("currency") || key == Lit("runwayMonths")
    || key == Lit("monthlyBurn") || key == Lit("monthlyRevenue") || key == Lit("riskLevel") || key == Lit("notes")
  }

  /** An optional minus, digits, and perhaps a point with digits behind it. */
  predicate WrittenDecimal(raw: Text, a: nat, b: nat) {
    && (a == 0 || (a == 1 && raw != [] && raw[0] == '-' as int)) && a < b <= |raw|
    && (forall i | a <= i < b :: '0' as int <= raw[i] <= '9' as int)
    && (b == |raw| || (raw[b] == '.' as int && b + 1 < |raw| && forall i | b < i < |raw| :: '0' as int <= raw[i] <= '9' as int))
  }

  lemma DecimalIff(raw: Text)
    ensures IsDecimal(raw) <==> exists a: nat, b: nat :: WrittenDecimal(raw, a, b)
  {
    var a := if raw != [] && raw[0] == '-' as int then 1 else 0;
    var dot := IndexOfUnit(raw[a..], '.' as int);
    hide IsDecimal, WrittenDecimal;
    if IsDecimal(raw) {
      DecimalWritten(raw, a, dot);
    }
    if c: nat, b: nat :| WrittenDecimal(raw, c, b) {
      WrittenIsDecimal(raw, c, b);
    }
  }

  lemma WrittenIsDecimal(raw: Text, a: nat, b: nat)
    requires WrittenDecimal(raw, a, b)
    ensures IsDecimal(raw)
  {
    var s := raw[a..];
    assert s == if raw != [] && raw[0] == '-' as int then raw[1..] else raw;
    forall i | 0 <= i < b - a ensures s[i] != '.' as int {
      assert s[i] == raw[a + i];
    }
    FirstPoint(s, b - a);
    assert AllDigits(s[..b - a]);
    if b < |raw| {
      assert s[b - a + 1..] == raw[b + 1..];
      assert AllDigits(raw[b + 1..]);
    }
  }

  lemma NotBefore(s: Text, c: Unit)
    ensures forall k | 0 <= k < IndexOfUnit(s, c) :: s[k] != c
  {
    var at := IndexOfUnit(s, c);
    assert forall k | 0 <= k < at :: s[..at][k] == s[k];
  }

  lemma FirstPoint(s: Text, n: nat)
    requires n <= |s| && (forall i | 0 <= i < n :: s[i] != '.' as int) && (n < |s| ==> s[n] == '.' as int)
    ensures IndexOfUnit(s, '.' as int) == n
  {
    NotBefore(s, '.' as int);
  }

  lemma DecimalWritten(raw: Text, a: nat, dot: nat)
    requires a == (if raw != [] && raw[0] == '-' as int then 1 else 0)
    requires dot == IndexOfUnit(raw[a..], '.' as int) && IsDecimal(raw)
    ensures WrittenDecimal(raw, a, a + dot)
  {
    var s := raw[a..];
    assert s == if raw != [] && raw[0] == '-' as int then raw[1..] else raw;
    assert AllDigits(s[..dot]) && (dot == |s| || AllDigits(s[dot + 1..]));
    forall i | a <= i < a + dot ensures '0' as int <= raw[i] <= '9' as int {
      assert raw[i] == s[..dot][i - a];
    }
    forall i | a + dot < i < |raw| ensures '0' as int <= raw[i] <= '9' as int {
      assert raw[i] == s[dot + 1..][i - a - dot - 1];
    }
  }

  lemma BareIs(t: Text, raw: Text)
    ensures Bare(t, raw) <==> raw == Unquoted(t)
  {
    if |t| > 1 {
      assert t == [t[0]] + t[1..|t| - 1] + [t[|t| - 1]];
    }
  }

  lemma FirstColon(t: Text, c: nat)
    ensures c == IndexOfUnit(t, ':' as int) && c < |t| <==>
            c < |t| && t[c] == ':' as int && forall b | 0 <= b < c :: t[b] != ':' as int
  {
    var at := IndexOfUnit(t, ':' as int);
    assert forall b | 0 <= b < at :: t[b] in t[..at];
  }

  /** The same, of the trimmed line. */
  predicate Stated(t: Text, key: Text, raw: Text) {
    var c := IndexOfUnit(t, ':' as int);
    0 < c < |t| && t[0] != '#' as int && key == Trim(t[..c]) && raw == Unquoted(Trim(t[c + 1..]))
  }

  lemma SaidIsStated(line: Text, key: Text, raw: Text, i: nat, j: nat, c: nat)
    requires SaysAt(line, key, raw, i, j, c)
    ensures Stated(Trim(line), key, raw)
  {
    hide Trim, Unquoted, Core, White, Bare;
    CoreIsTrim(line, i, j);
    CoreBounds(line, i, j);
    CutCore(line, i, j, c);
    FirstColon(Trim(line), c - i);
    BareIs(Trim(line[c + 1..j]), raw);
  }

  lemma StatedIsSaid(line: Text, key: Text, raw: Text)
    requires Stated(Trim(line), key, raw)
    ensures Says(line, key, raw)
  {
    hide Trim, Unquoted, White, Bare, Core, Says;
    var i, j := TrimIsCore(line);
    var c := IndexOfUnit(Trim(line), ':' as int);
    CoreBounds(line, i, j);
    CutCore(line, i, j, i + c);
    FirstColon(Trim(line), c);
    BareIs(Trim(line[i + c + 1..j]), raw);
    SaidAt(line, key, raw, i, j, i + c);
  }

  lemma SaidAt(line: Text, key: Text, raw: Text, i: nat, j: nat, c: nat)
    requires SaysAt(line, key, raw, i, j, c)
    ensures Says(line, key, raw)
  {
    hide SaysAt;
  }

  /** What a line says in terms of its trimmed text. */
  lemma SaysTrimmed(line: Text, key: Text, raw: Text)
    ensures Says(line, key, raw) <==> Stated(Trim(line), key, raw)
  {
    hide Stated, SaysAt, Trim;
    if i: nat, j: nat, c: nat :| SaysAt(line, key, raw, i, j, c) {
      SaidIsStated(line, key, raw, i, j, c);
    }
    if Stated(Trim(line), key, raw) {
      StatedIsSaid(line, key, raw);
    }
  }

  lemma CoreBounds(line: Text, i: nat, j: nat)
    requires Core(line, i, j)
    ensures i <= j <= |line|
  {
  }

  lemma CutCore(line: Text, i: nat, j: nat, c: nat)
    requires i <= c < j <= |line|
    ensures line[i..j][..c - i] == line[i..c] && line[i..j][c - i + 1..] == line[c + 1..j]
    ensures forall b | i <= b < j :: line[i..j][b - i] == line[b]
  {
  }

  lemma RecordKeysOpen()
    ensures !Denied(Finance, Lit("runwayMonths")) && !Denied(Finance, Lit("monthlyBurn"))
    ensures !Denied(Finance, Lit("monthlyRevenue")) && !Denied(Finance, Lit("riskLevel"))
  {
    FinanceAgreement.RunwayAndBurnStorable();
    FinanceAgreement.RevenueAndRiskStorable();
    hide Lit, Denied;
  }

  lemma SchemaOpen()
    ensures !Denied(Finance, Lit("schemaVersion"))
  {
    hide Denied;
    FinanceAgreement.KeyNotDenied("schemaVersion", "schemaversion");
  }

  lemma PeriodAndNotesOpen()
    ensures !Denied(Finance, Lit("period")) && !Denied(Finance, Lit("notes"))
  {
    hide Denied;
    FinanceAgreement.KeyNotDenied("period", "period");
    FinanceAgreement.KeyNotDenied("notes", "notes");
  }

  lemma CurrencyOpen()
    ensures !Denied(Finance, Lit("currency"))
  {
    hide Denied;
    FinanceAgreement.KeyNotDenied("currency", "currency");
  }

  /** None of the eight keys is denied, so a text is always redacted and never tagged for its key. */
  lemma FinanceKeysOpen(key: Text)
    ensures FinanceKey(key) <==> key in StructuredKeys()
    ensures FinanceKey(key) ==> !Denied(Finance, key)
  {
    hide Lit, Denied;
    RecordKeysOpen();
    SchemaOpen();
    PeriodAndNotesOpen();
    CurrencyOpen();
  }

  /** A decimal passes as a number, any other text is redacted. */
  function ValueOf(number: Text -> Number, raw: Text): Json {
    if IsDecimal(raw) then Num(number(raw)) else Str(RedactFinancePii(raw))
  }

  /** A line yields a value for a key exactly when it says the key and the key is one of the eight. */
  lemma LineYields(number: Text -> Number, line: Text, key: Text, raw: Text)
    requires Says(line, key, raw)
    ensures LineField(number, line) == if FinanceKey(key) then Some(Field(key, ValueOf(number, raw))) else None
  {
    SaysTrimmed(line, key, raw);
    FinanceKeysOpen(key);
    hide Says, Trim, Unquoted, FinanceKey, StructuredKeys, Denied, IsDecimal, RedactFinancePii, Tag;
  }

  lemma YieldIsSaid(number: Text -> Number, line: Text) returns (key: Text, raw: Text)
    requires LineField(number, line).Some?
    ensures Says(line, key, raw) && FinanceKey(key)
  {
    hide Says, Trim, Unquoted, FinanceKey, StructuredKeys, Denied, IsDecimal, RedactFinancePii, Tag;
    var t := Trim(line);
    var c := IndexOfUnit(t, ':' as int);
    key, raw := Trim(t[..c]), Unquoted(Trim(t[c + 1..]));
    SaysTrimmed(line, key, raw);
    FinanceKeysOpen(key);
  }

  /** A line says at most one thing. */
  lemma SaysOnce(line: Text, key: Text, raw: Text, other: Text, value: Text)
    requires Says(line, key, raw) && Says(line, other, value)
    ensures key == other && raw == value
  {
    SaysTrimmed(line, key, raw);
    SaysTrimmed(line, other, value);
    hide Says, Trim, Unquoted;
  }

  // ------------------------------------------------------------ the lines of a block

  /** The k-th line of the block is the last to say anything for the key, and this is what it says. */
  ghost predicate SaidLast(block: Text, key: Text, raw: Text, k: nat) {
    && k < |Lines(block)| && Says(Lines(block)[k], key, raw)
    && forall j: nat, value: Text | k < j < |Lines(block)| :: !Says(Lines(block)[j], key, value)
  }

  ghost predicate SaysNothing(block: Text, key: Text) {
    forall j: nat, value: Text | j < |Lines(block)| :: !Says(Lines(block)[j], key, value)
  }

  lemma YieldsIff(number: Text -> Number, line: Text, key: Text)
    requires FinanceKey(key)
    ensures Yields(number, line, key) <==> exists raw :: Says(line, key, raw)
  {
    hide Says, FinanceKey, LineField;
    if raw :| Says(line, key, raw) {
      LineYields(number, line, key, raw);
    }
    if Yields(number, line, key) {
      var said, raw := YieldIsSaid(number, line);
      LineYields(number, line, said, raw);
    }
  }

  /** The last line that says a key gives it its value. */
  lemma LastSaid(number: Text -> Number, block: Text, key: Text, raw: Text, k: nat)
    requires FinanceKey(key) && SaidLast(block, key, raw, k)
    ensures Get(LineFields(number, Lines(block)), key) == Some(ValueOf(number, raw))
  {
    hide Says, FinanceKey, LineField, Lines, LineFields, Get, ValueOf, Yields;
    var lines := Lines(block);
    YieldsIff(number, lines[k], key);
    LineYields(number, lines[k], key, raw);
    forall j | 0 <= j < |lines| && j > k ensures !Yields(number, lines[j], key) {
      YieldsIff(number, lines[j], key);
    }
    LastLineDecides(number, lines, k, key);
  }

  lemma NeverSaid(number: Text -> Number, block: Text, key: Text)
    requires FinanceKey(key) && SaysNothing(block, key)
    ensures Get(LineFields(number, Lines(block)), key) == None
  {
    hide Says, FinanceKey, LineField, Lines, LineFields, Get, Yields;
    var lines := Lines(block);
    forall j | 0 <= j < |lines| ensures !Yields(number, lines[j], key) {
      YieldsIff(number, lines[j], key);
    }
    LastLineDecides(number, lines, |lines|, key);
  }

  lemma SaidOrNothing(block: Text, key: Text) returns (raw: Text, k: nat)
    ensures SaysNothing(block, key) || SaidLast(block, key, raw, k)
  {
    hide Says, Lines;
    var lines := Lines(block);
    raw, k := [], |lines|;
    while k > 0
      invariant k <= |lines|
      invariant forall j: nat, value: Text | k <= j < |lines| :: !Says(lines[j], key, value)
    {
      k := k - 1;
      if value :| Says(lines[k], key, value) {
        raw := value;
        return;
      }
    }
  }

  /** Some line of the block says one of the eight keys. */
  ghost predicate SaysSome(block: Text) {
    exists key :: FinanceKey(key) && !SaysNothing(block, key)
  }

  /** The block yields a record exactly when some line says one of the eight keys. */
  lemma RecordIff(number: Text -> Number, block: Text)
    ensures LineFields(number, Lines(block)) != [] <==> SaysSome(block)
  {
    hide Says, FinanceKey, LineField, Lines, LineFields, Get, SaysNothing, SaidLast, ValueOf;
    var fields := LineFields(number, Lines(block));
    if fields != [] {
      GetSome(fields);
      var key := fields[0].key;
      KeysAreFinance(number, Lines(block));
      if SaysNothing(block, key) {
        NeverSaid(number, block, key);
      }
    }
    if SaysSome(block) {
      var key :| FinanceKey(key) && !SaysNothing(block, key);
      var raw, k := SaidOrNothing(block, key);
      LastSaid(number, block, key, raw, k);
      NothingToGet(key);
    }
  }

  lemma GetSome(fields: seq<Field>)
    requires fields != []
    ensures Get(fields, fields[0].key).Some?
  {
  }

  lemma NothingToGet(key: Text)
    ensures Get([], key) == None
  {
  }

  lemma {:induction false} KeysAreFinance(number: Text -> Number, lines: seq<Text>)
    ensures forall f | f in LineFields(number, lines) :: FinanceKey(f.key)
  {
    hide Says, FinanceKey, LineField, Put;
    if lines != [] {
      var n := |lines| - 1;
      KeysAreFinance(number, lines[..n]);
      var f := LineField(number, lines[n]);
      if f.Some? {
        var key, raw := YieldIsSaid(number, lines[n]);
        LineYields(number, lines[n], key, raw);
        PutKeys(LineFields(number, lines[..n]), f.value.key, f.value.value);
      }
    }
  }

  lemma {:induction false} PutKeys(fields: seq<Field>, key: Text, value: Json)
    ensures forall f | f in Put(fields, key, value) :: f.key == key || f in fields
  {
    if fields != [] {
      PutKeys(fields[1..], key, value);
      assert fields == [fields[0]] + fields[1..];
    }
  }
}
