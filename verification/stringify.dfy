/**
 * stableStringify (packages/domain-signals/src/signal-hash.ts:29-41), a parser for what it prints,
 * and the theorem that it is a canonical form.
 */
module StableStringify {
  import opened Texts
  import opened JsonValues

  // ------------------------------------------------------------ string escapes

  const QUOTE: Unit := 0x22
  const BACKSLASH: Unit := 0x5C
  const COMMA: Unit := 0x2C
  const COLON: Unit := 0x3A
  const OPEN_ARRAY: Unit := 0x5B
  const CLOSE_ARRAY: Unit := 0x5D
  const OPEN_OBJECT: Unit := 0x7B
  const CLOSE_OBJECT: Unit := 0x7D

  predicate IsHigh(c: Unit) { 0xD800 <= c <= 0xDBFF }

  predicate IsLow(c: Unit) { 0xDC00 <= c <= 0xDFFF }

  function HexDigit(n: nat): (c: Unit)
    requires n < 16
  {
    if n < 10 then 0x30 + n else 0x61 + n - 10
  }

  function HexValue(c: Unit): Option<nat> {
    if 0x30 <= c <= 0x39 then Some(c - 0x30)
    else if 0x61 <= c <= 0x66 then Some(c - 0x61 + 10)
    else None
  }

  function Hex4(c: Unit): Text {
    var a := c / 16;
    var b := a / 16;
    [HexDigit(b / 16), HexDigit(b % 16), HexDigit(a % 16), HexDigit(c % 16)]
  }

  function FromHex4(t: Text): (r: Option<Unit>)
    requires |t| == 4
  {
    var a, b, c, d := HexValue(t[0]), HexValue(t[1]), HexValue(t[2]), HexValue(t[3]);
    if a.Some? && b.Some? && c.Some? && d.Some? && a.value < 16 && b.value < 16 && c.value < 16 && d.value < 16
    then Some(((a.value * 16 + b.value) * 16 + c.value) * 16 + d.value)
    else None
  }

  lemma HexDigitRoundTrip(n: nat)
    requires n < 16
    ensures HexValue(HexDigit(n)) == Some(n)
  {
  }

  lemma HexRoundTrip(c: Unit)
    ensures FromHex4(Hex4(c)) == Some(c)
  {
    HexDigitRoundTrip(c / 16 / 16 / 16);
    HexDigitRoundTrip(c / 16 / 16 % 16);
    HexDigitRoundTrip(c / 16 % 16);
    HexDigitRoundTrip(c % 16);
  }

  /** The two-unit escapes of section 7 of RFC 8259, as the letter after the backslash. */
  function ShortEscape(c: Unit): Option<Unit> {
    if c == QUOTE then Some(QUOTE)
    else if c == BACKSLASH then Some(BACKSLASH)
    else if c == 8 then Some('b' as int)
    else if c == 9 then Some('t' as int)
    else if c == 10 then Some('n' as int)
    else if c == 12 then Some('f' as int)
    else if c == 13 then Some('r' as int)
    else None
  }

  function FromShortEscape(e: Unit): Option<Unit> {
    if e == QUOTE then Some(QUOTE)
    else if e == BACKSLASH then Some(BACKSLASH)
    else if e == 'b' as int then Some(8)
    else if e == 't' as int then Some(9)
    else if e == 'n' as int then Some(10)
    else if e == 'f' as int then Some(12)
    else if e == 'r' as int then Some(13)
    else None
  }

  function EscapeUnit(c: Unit): Text {
    if ShortEscape(c).Some? then [BACKSLASH, ShortEscape(c).value]
    else if c < 0x20 || IsHigh(c) || IsLow(c) then [BACKSLASH, 'u' as int] + Hex4(c)
    else [c]
  }

  /** A surrogate pair is printed as it stands, a lone surrogate as an escape. */
  function Escape(s: Text): Text {
    if s == [] then []
    else if |s| > 1 && IsHigh(s[0]) && IsLow(s[1]) then s[..2] + Escape(s[2..])
    else EscapeUnit(s[0]) + Escape(s[1..])
  }

  function Quote(s: Text): Text {
    [QUOTE] + Escape(s) + [QUOTE]
  }

  // ------------------------------------------------------------ the printer

  function InsertField(f: Field, fields: seq<Field>): seq<Field> {
    if fields == [] || LexLeq(f.key, fields[0].key) then [f] + fields
    else [fields[0]] + InsertField(f, fields[1..])
  }

  /** `Object.keys(obj).sort()`, with each key's value beside it. */
  function SortFields(fields: seq<Field>): (r: seq<Field>)
    ensures multiset(r) == multiset(fields)
  {
    if fields == [] then []
    else
      assert fields == [fields[0]] + fields[1..];
      InsertMultiset(fields[0], SortFields(fields[1..]));
      InsertField(fields[0], SortFields(fields[1..]))
  }

  lemma InsertMultiset(f: Field, fields: seq<Field>)
    ensures multiset(InsertField(f, fields)) == multiset([f] + fields)
  {
    if !(fields == [] || LexLeq(f.key, fields[0].key)) {
      InsertMultiset(f, fields[1..]);
      assert fields == [fields[0]] + fields[1..];
    }
  }

  /** What `${...}` makes of the result; JSON.stringify prints NaN and the infinities as null. */
  function Stringify(v: Json): Text
    decreases v, 0
  {
    match v
    case Undefined => Lit("undefined")
    case Null => Lit("null")
    case Bool(b) => if b then Lit("true") else Lit("false")
    case Num(NotFinite) => Lit("null")
    case Num(Finite(lexeme)) => lexeme
    case Str(text) => Quote(text)
    case Arr(items) => [OPEN_ARRAY] + JoinItems(items) + [CLOSE_ARRAY]
    case Obj(fields) => [OPEN_OBJECT] + JoinFields(v, SortFields(fields)) + [CLOSE_OBJECT]
  }

  /** `join(",")` prints an undefined item as nothing at all. */
  function JoinItems(items: seq<Json>): Text
    decreases items
  {
    if items == [] then []
    else
      var first := if items[0].Undefined? then [] else Stringify(items[0]);
      if |items| == 1 then first else first + [COMMA] + JoinItems(items[1..])
  }

  function JoinFields(parent: Json, fields: seq<Field>): Text
    requires parent.Obj? && multiset(fields) <= multiset(parent.fields)
    decreases parent, 0, |fields|
  {
    if fields == [] then []
    else
      assert fields[0] in multiset(fields);
      assert fields[0] in parent.fields;
      assert fields == [fields[0]] + fields[1..];
      var first := Quote(fields[0].key) + [COLON] + Stringify(fields[0].value);
      if |fields| == 1 then first else first + [COMMA] + JoinFields(parent, fields[1..])
  }

  // ------------------------------------------------------------ the parser

  type Parsed<T> = Option<(T, Text)>

  /** Reads the inside of a string literal up to and including its closing quote. */
  function ParseChars(s: Text): (r: Parsed<Text>)
    ensures r.Some? ==> |r.value.1| < |s|
  {
    if s == [] then None
    else if s[0] == QUOTE then Some(([], s[1..]))
    else if s[0] != BACKSLASH then
      if s[0] < 0x20 then None else PrependUnit(s[0], ParseChars(s[1..]))
    else if |s| >= 2 && FromShortEscape(s[1]).Some? then
      PrependUnit(FromShortEscape(s[1]).value, ParseChars(s[2..]))
    else if |s| >= 6 && s[1] == 'u' as int && FromHex4(s[2..6]).Some? then
      PrependUnit(FromHex4(s[2..6]).value, ParseChars(s[6..]))
    else None
  }

  function PrependUnit(c: Unit, r: Parsed<Text>): Parsed<Text> {
    if r.None? then None else Some(([c] + r.value.0, r.value.1))
  }

  function NumberLength(s: Text): (n: nat)
    ensures n <= |s| && forall i | 0 <= i < n :: IsNumberUnit(s[i])
    ensures n < |s| ==> !IsNumberUnit(s[n])
  {
    if s == [] || !IsNumberUnit(s[0]) then 0 else 1 + NumberLength(s[1..])
  }

  function ParseNumber(s: Text): (r: Parsed<Json>)
    ensures r.Some? ==> |r.value.1| < |s|
  {
    var n := NumberLength(s);
    if n > 0 && IsLexeme(s[..n]) then Some((Num(Finite(s[..n])), s[n..])) else None
  }

  function Keyword(s: Text, word: Text, v: Json): (r: Parsed<Json>)
    requires word != []
    ensures r.Some? ==> |r.value.1| < |s|
  {
    if word <= s then Some((v, s[|word|..])) else None
  }

  function ParseValue(s: Text): (r: Parsed<Json>)
    ensures r.Some? ==> |r.value.1| < |s|
    decreases |s|, 0
  {
    if s == [] then None
    else if s[0] == 'u' as int then Keyword(s, Lit("undefined"), Undefined)
    else if s[0] == 'n' as int then Keyword(s, Lit("null"), Null)
    else if s[0] == 't' as int then Keyword(s, Lit("true"), Bool(true))
    else if s[0] == 'f' as int then Keyword(s, Lit("false"), Bool(false))
    else if s[0] == QUOTE then
      var r := ParseChars(s[1..]);
      if r.None? then None else Some((Str(r.value.0), r.value.1))
    else if s[0] == OPEN_ARRAY then
      if |s| > 1 && s[1] == CLOSE_ARRAY then Some((Arr([]), s[2..]))
      else
        var r := ParseItems(s[1..]);
        if r.None? then None else Some((Arr(r.value.0), r.value.1))
    else if s[0] == OPEN_OBJECT then
      if |s| > 1 && s[1] == CLOSE_OBJECT then Some((Obj([]), s[2..]))
      else
        var r := ParseFields(s[1..]);
        if r.None? then None else Some((Obj(r.value.0), r.value.1))
    else ParseNumber(s)
  }

  /** Reads `item,item,...]`; an item that is not there is an undefined one. */
  function ParseItems(s: Text): (r: Parsed<seq<Json>>)
    ensures r.Some? ==> |r.value.1| < |s|
    decreases |s|, 1
  {
    if s == [] then None
    else
      var first := if s[0] == COMMA || s[0] == CLOSE_ARRAY then Some((Undefined, s)) else ParseValue(s);
      if first.None? || first.value.1 == [] then None
      else
        var (v, rest) := first.value;
        if rest[0] == CLOSE_ARRAY then Some(([v], rest[1..]))
        else if rest[0] == COMMA then
          var more := ParseItems(rest[1..]);
          if more.None? then None else Some(([v] + more.value.0, more.value.1))
        else None
  }

  /** Reads `"key":value,...}`. */
  function ParseFields(s: Text): (r: Parsed<seq<Field>>)
    ensures r.Some? ==> |r.value.1| < |s|
    decreases |s|, 1
  {
    if s == [] || s[0] != QUOTE then None
    else
      var key := ParseChars(s[1..]);
      if key.None? || key.value.1 == [] || key.value.1[0] != COLON then None
      else
        var value := ParseValue(key.value.1[1..]);
        if value.None? || value.value.1 == [] then None
        else
          var (f, rest) := (Field(key.value.0, value.value.0), value.value.1);
          if rest[0] == CLOSE_OBJECT then Some(([f], rest[1..]))
          else if rest[0] == COMMA then
            var more := ParseFields(rest[1..]);
            if more.None? then None else Some(([f] + more.value.0, more.value.1))
          else None
  }

  // ------------------------------------------------------------ canonical values

  predicate StrictlySorted(fields: seq<Field>) {
    forall i, j | 0 <= i < j < |fields| :: LexLess(fields[i].key, fields[j].key)
  }

  /** The values no two of which print alike. */
  predicate Canon(v: Json) {
    match v
    case Num(number) => number.Finite? && IsLexeme(number.lexeme)
    case Arr(items) => items != [Undefined] && forall i | 0 <= i < |items| :: Canon(items[i])
    case Obj(fields) => StrictlySorted(fields) && forall i | 0 <= i < |fields| :: Canon(fields[i].value)
    case _ => true
  }

  /** Sorted keys, null for a number JSON has no lexeme for, [] for [undefined]. */
  function Canonical(v: Json): Json
    decreases v, 0
  {
    match v
    case Num(NotFinite) => Null
    case Arr(items) =>
      var c := seq(|items|, i requires 0 <= i < |items| => Canonical(items[i]));
      if c == [Undefined] then Arr([]) else Arr(c)
    case Obj(fields) => Obj(SortFields(CanonicalFields(fields)))
    case _ => v
  }

  function CanonicalFields(fields: seq<Field>): (r: seq<Field>)
    ensures |r| == |fields|
    ensures forall i | 0 <= i < |fields| :: r[i] == Field(fields[i].key, Canonical(fields[i].value))
    decreases fields, 1
  {
    seq(|fields|, i requires 0 <= i < |fields| => Field(fields[i].key, Canonical(fields[i].value)))
  }

  // ------------------------------------------------------------ round trip

  lemma {:induction false} EscapeRoundTrip(s: Text, rest: Text)
    ensures ParseChars(Escape(s) + [QUOTE] + rest) == Some((s, rest))
  {
    hide ParseChars, EscapeUnit, IsHigh, IsLow;
    if s == [] {
      EndOfString(rest);
      assert Escape(s) + [QUOTE] + rest == [QUOTE] + rest;
    } else if |s| > 1 && IsHigh(s[0]) && IsLow(s[1]) {
      EscapeRoundTrip(s[2..], rest);
      PairRoundTrip(s[0], s[1], Escape(s[2..]) + [QUOTE] + rest, s[2..], rest);
      Glue([s[0], s[1]], Escape(s[2..]), rest);
      assert s == s[..2] + s[2..] && s[..2] == [s[0], s[1]];
    } else {
      EscapeRoundTrip(s[1..], rest);
      EscapeUnitRoundTrip(s[0], Escape(s[1..]) + [QUOTE] + rest, s[1..], rest);
      Glue(EscapeUnit(s[0]), Escape(s[1..]), rest);
      assert s == [s[0]] + s[1..];
    }
  }

  lemma Glue(head: Text, escaped: Text, rest: Text)
    ensures head + escaped + [QUOTE] + rest == head + (escaped + [QUOTE] + rest)
  {
  }

  lemma EndOfString(rest: Text)
    ensures ParseChars([QUOTE] + rest) == Some(([], rest))
  {
    assert ([QUOTE] + rest)[1..] == rest;
  }

  lemma RawUnitRoundTrip(c: Unit, tail: Text, s: Text, rest: Text)
    requires c >= 0x20 && c != QUOTE && c != BACKSLASH
    requires ParseChars(tail) == Some((s, rest))
    ensures ParseChars([c] + tail) == Some(([c] + s, rest))
  {
    assert ([c] + tail)[1..] == tail;
  }

  lemma PairRoundTrip(high: Unit, low: Unit, tail: Text, s: Text, rest: Text)
    requires IsHigh(high) && IsLow(low)
    requires ParseChars(tail) == Some((s, rest))
    ensures ParseChars([high, low] + tail) == Some(([high, low] + s, rest))
  {
    RawUnitRoundTrip(low, tail, s, rest);
    RawUnitRoundTrip(high, [low] + tail, [low] + s, rest);
    assert [high, low] + tail == [high] + ([low] + tail);
    assert [high, low] + s == [high] + ([low] + s);
  }

  lemma EscapeUnitRoundTrip(c: Unit, tail: Text, s: Text, rest: Text)
    requires ParseChars(tail) == Some((s, rest))
    ensures ParseChars(EscapeUnit(c) + tail) == Some(([c] + s, rest))
  {
    var whole := EscapeUnit(c) + tail;
    if ShortEscape(c).Some? {
      assert whole[2..] == tail;
    } else if c < 0x20 || IsHigh(c) || IsLow(c) {
      HexRoundTrip(c);
      assert whole[2..6] == Hex4(c) && whole[6..] == tail;
    } else {
      RawUnitRoundTrip(c, tail, s, rest);
    }
  }

  /** A continuation that does not prolong a number. */
  predicate Ends(rest: Text) {
    rest == [] || !IsNumberUnit(rest[0])
  }

  lemma NumberRoundTrip(lexeme: Text, rest: Text)
    requires IsLexeme(lexeme) && Ends(rest)
    ensures ParseNumber(lexeme + rest) == Some((Num(Finite(lexeme)), rest))
  {
    var s := lexeme + rest;
    var n := NumberLength(s);
    assert forall i | 0 <= i < |lexeme| :: s[i] == lexeme[i];
    assert rest != [] ==> s[|lexeme|] == rest[0];
    assert s[..n] == lexeme && s[n..] == rest;
  }

  lemma {:induction false} SortKeepsSorted(fields: seq<Field>)
    requires StrictlySorted(fields)
    ensures SortFields(fields) == fields
  {
    if |fields| > 0 {
      SortKeepsSorted(fields[1..]);
      assert fields == [fields[0]] + fields[1..];
    }
  }

  /** Parsing what a canonical value prints gives it back, whatever follows; a number only must not be prolonged. */
  lemma {:induction false} RoundTrip(v: Json, rest: Text)
    requires Canon(v) && (v.Num? ==> Ends(rest))
    ensures ParseValue(Stringify(v) + rest) == Some((v, rest))
    decreases v, 1
  {
    match v
    case Arr(items) => ArrRoundTrip(items, rest);
    case Obj(fields) => ObjRoundTrip(v, rest);
    case _ => LeafRoundTrip(v, rest);
  }

  lemma LeafRoundTrip(v: Json, rest: Text)
    requires Canon(v) && !v.Arr? && !v.Obj? && (v.Num? ==> Ends(rest))
    ensures ParseValue(Stringify(v) + rest) == Some((v, rest))
  {
    match v
    case Undefined => KeywordRoundTrip(Lit("undefined"), v, rest);
    case Null => KeywordRoundTrip(Lit("null"), v, rest);
    case Bool(b) => KeywordRoundTrip(if b then Lit("true") else Lit("false"), v, rest);
    case Num(number) => NumberRoundTrip(number.lexeme, rest);
    case Str(text) => StrRoundTrip(text, rest);
  }

  lemma StrRoundTrip(text: Text, rest: Text)
    ensures ParseValue(Quote(text) + rest) == Some((Str(text), rest))
  {
    hide ParseChars, Escape;
    EscapeRoundTrip(text, rest);
    assert (Quote(text) + rest)[1..] == Escape(text) + [QUOTE] + rest;
  }

  lemma KeywordRoundTrip(word: Text, v: Json, rest: Text)
    requires (word, v) in {(Lit("undefined"), Undefined), (Lit("null"), Null),
                           (Lit("true"), Bool(true)), (Lit("false"), Bool(false))}
    ensures ParseValue(word + rest) == Some((v, rest))
  {
    hide Keyword, Lit, ParseItems, ParseFields, ParseChars, ParseNumber;
    KeywordStarts();
    KeywordParsed(word, v, rest);
    assert (word + rest)[0] == word[0];
  }

  lemma KeywordStarts()
    ensures |Lit("undefined")| > 0 && |Lit("null")| > 0 && |Lit("true")| > 0 && |Lit("false")| > 0
    ensures Lit("undefined")[0] == 'u' as int && Lit("null")[0] == 'n' as int
    ensures Lit("true")[0] == 't' as int && Lit("false")[0] == 'f' as int
  {
  }

  lemma KeywordParsed(word: Text, v: Json, rest: Text)
    requires word != []
    ensures Keyword(word + rest, word, v) == Some((v, rest))
  {
    assert (word + rest)[|word|..] == rest;
  }

  lemma {:induction false} ArrRoundTrip(items: seq<Json>, rest: Text)
    requires Canon(Arr(items))
    ensures ParseValue(Stringify(Arr(items)) + rest) == Some((Arr(items), rest))
    decreases Arr(items), 0
  {
    hide ParseValue, ParseItems;
    var inner := JoinItems(items) + [CLOSE_ARRAY] + rest;
    assert Stringify(Arr(items)) + rest == [OPEN_ARRAY] + inner;
    if items == [] {
      assert inner == [CLOSE_ARRAY] + rest;
    } else {
      ItemsRoundTrip(items, rest);
      JoinItemsStart(items);
    }
    ArrStep(items, inner, rest);
  }

  lemma ArrStep(items: seq<Json>, inner: Text, rest: Text)
    requires items == [] ==> inner == [CLOSE_ARRAY] + rest
    requires items != [] ==> inner != [] && inner[0] != CLOSE_ARRAY && ParseItems(inner) == Some((items, rest))
    ensures ParseValue([OPEN_ARRAY] + inner) == Some((Arr(items), rest))
  {
    hide ParseItems;
    assert ([OPEN_ARRAY] + inner)[1..] == inner;
    if items == [] {
      assert ([OPEN_ARRAY] + inner)[2..] == rest;
    }
  }

  lemma {:induction false} ObjRoundTrip(v: Json, rest: Text)
    requires v.Obj? && Canon(v)
    ensures ParseValue(Stringify(v) + rest) == Some((v, rest))
    decreases v, 0
  {
    SortKeepsSorted(v.fields);
    var inner := JoinFields(v, v.fields) + [CLOSE_OBJECT] + rest;
    assert Stringify(v) + rest == [OPEN_OBJECT] + inner;
    if v.fields == [] {
      assert inner == [CLOSE_OBJECT] + rest;
    } else {
      FieldsRoundTrip(v, v.fields, rest);
    }
    ObjStep(v.fields, inner, rest);
  }

  lemma ObjStep(fields: seq<Field>, inner: Text, rest: Text)
    requires fields == [] ==> inner == [CLOSE_OBJECT] + rest
    requires fields != [] ==> inner != [] && inner[0] == QUOTE && ParseFields(inner) == Some((fields, rest))
    ensures ParseValue([OPEN_OBJECT] + inner) == Some((Obj(fields), rest))
  {
    assert ([OPEN_OBJECT] + inner)[1..] == inner;
    if fields == [] {
      assert ([OPEN_OBJECT] + inner)[2..] == rest;
    }
  }

  lemma StringifyStart(v: Json)
    requires Canon(v)
    ensures Stringify(v) != [] && Stringify(v)[0] != COMMA && Stringify(v)[0] != CLOSE_ARRAY
  {
  }

  lemma JoinItemsStart(items: seq<Json>)
    requires items != [] && items != [Undefined] && forall i | 0 <= i < |items| :: Canon(items[i])
    ensures JoinItems(items) != [] && JoinItems(items)[0] != CLOSE_ARRAY
  {
    if !items[0].Undefined? {
      StringifyStart(items[0]);
    }
  }

  lemma {:induction false} ItemsRoundTrip(items: seq<Json>, rest: Text)
    requires items != [] && forall i | 0 <= i < |items| :: Canon(items[i])
    ensures ParseItems(JoinItems(items) + [CLOSE_ARRAY] + rest) == Some((items, rest))
    decreases items, 2
  {
    hide ParseItems, ParseValue, Stringify, Canon;
    var first := if items[0].Undefined? then [] else Stringify(items[0]);
    var after := if |items| == 1 then [CLOSE_ARRAY] + rest
                 else [COMMA] + (JoinItems(items[1..]) + [CLOSE_ARRAY] + rest);
    assert JoinItems(items) + [CLOSE_ARRAY] + rest == first + after;
    if !items[0].Undefined? {
      StringifyStart(items[0]);
      RoundTrip(items[0], after);
    }
    if |items| > 1 {
      ItemsRoundTrip(items[1..], rest);
    }
    ItemsStep(items[0], items[1..], first, after, rest);
    assert items == [items[0]] + items[1..];
  }

  lemma ItemsStep(v: Json, more: seq<Json>, first: Text, after: Text, rest: Text)
    requires v.Undefined? ==> first == []
    requires !v.Undefined? ==> first != [] && first[0] != COMMA && first[0] != CLOSE_ARRAY
                               && ParseValue(first + after) == Some((v, after))
    requires after != []
    requires more == [] ==> after == [CLOSE_ARRAY] + rest
    requires more != [] ==> after[0] == COMMA && ParseItems(after[1..]) == Some((more, rest))
    ensures ParseItems(first + after) == Some(([v] + more, rest))
  {
    if v.Undefined? {
      assert first + after == after;
    }
    if more == [] {
      assert after[1..] == rest;
      assert [v] + more == [v];
    }
  }

  /** What ParseFields does after the key and the colon. */
  lemma FieldStep(key: Text, value: Text)
    ensures var s := Quote(key) + [COLON] + value;
            s != [] && s[0] == QUOTE && ParseChars(s[1..]) == Some((key, [COLON] + value))
  {
    var s := Quote(key) + [COLON] + value;
    assert s[1..] == Escape(key) + [QUOTE] + ([COLON] + value);
    EscapeRoundTrip(key, [COLON] + value);
  }

  lemma {:induction false} FieldsRoundTrip(parent: Json, fields: seq<Field>, rest: Text)
    requires parent.Obj? && multiset(fields) <= multiset(parent.fields)
    requires fields != [] && forall i | 0 <= i < |fields| :: Canon(fields[i].value)
    ensures JoinFields(parent, fields) != [] && JoinFields(parent, fields)[0] == QUOTE
    ensures ParseFields(JoinFields(parent, fields) + [CLOSE_OBJECT] + rest) == Some((fields, rest))
    decreases parent, 0, |fields|
  {
    hide ParseFields, ParseValue, ParseChars, Stringify, Escape;
    var f := fields[0];
    assert f in multiset(fields) && f in parent.fields;
    assert fields == [f] + fields[1..];
    var after := if |fields| == 1 then [CLOSE_OBJECT] + rest
                 else [COMMA] + (JoinFields(parent, fields[1..]) + [CLOSE_OBJECT] + rest);
    var value := Stringify(f.value) + after;
    FieldsText(parent, fields, rest);
    RoundTrip(f.value, after);
    if |fields| > 1 {
      FieldsRoundTrip(parent, fields[1..], rest);
    }
    FieldsStep(f, fields[1..], value, after, rest);
  }

  /** The printed fields and what follows, as the first field and what follows it. */
  lemma FieldsText(parent: Json, fields: seq<Field>, rest: Text)
    requires parent.Obj? && multiset(fields) <= multiset(parent.fields) && fields != []
    requires multiset(fields[1..]) <= multiset(parent.fields)
    ensures JoinFields(parent, fields) != [] && JoinFields(parent, fields)[0] == QUOTE
    ensures var after := if |fields| == 1 then [CLOSE_OBJECT] + rest
                         else [COMMA] + (JoinFields(parent, fields[1..]) + [CLOSE_OBJECT] + rest);
            JoinFields(parent, fields) + [CLOSE_OBJECT] + rest
            == Quote(fields[0].key) + [COLON] + (Stringify(fields[0].value) + after)
  {
    hide Stringify, Escape;
    RegroupField(Quote(fields[0].key), Stringify(fields[0].value), if |fields| == 1 then [] else JoinFields(parent, fields[1..]), rest);
  }

  lemma RegroupField(key: Text, value: Text, more: Text, rest: Text)
    ensures key + [COLON] + value + [CLOSE_OBJECT] + rest == key + [COLON] + (value + ([CLOSE_OBJECT] + rest))
    ensures key + [COLON] + value + [COMMA] + more + [CLOSE_OBJECT] + rest
         == key + [COLON] + (value + ([COMMA] + (more + [CLOSE_OBJECT] + rest)))
  {
  }

  lemma FieldsStep(f: Field, more: seq<Field>, value: Text, after: Text, rest: Text)
    requires ParseValue(value) == Some((f.value, after)) && after != []
    requires more == [] ==> after == [CLOSE_OBJECT] + rest
    requires more != [] ==> after[0] == COMMA && ParseFields(after[1..]) == Some((more, rest))
    ensures ParseFields(Quote(f.key) + [COLON] + value) == Some(([f] + more, rest))
  {
    FieldStep(f.key, value);
    assert ([COLON] + value)[1..] == value;
    assert f == Field(f.key, f.value);
    if more == [] {
      assert after[1..] == rest;
      assert [f] + more == [f];
    }
  }

  // ------------------------------------------------------------ sorting gives one order

  lemma {:induction false} InsertStrict(f: Field, fields: seq<Field>)
    requires StrictlySorted(fields) && !HasKey(fields, f.key)
    ensures StrictlySorted(InsertField(f, fields))
  {
    if fields != [] {
      var tail := fields[1..];
      LexTotal(f.key, fields[0].key);
      if LexLeq(f.key, fields[0].key) {
        forall i | 0 < i < |fields| ensures LexLess(f.key, fields[i].key) {
          LexTransitive(f.key, fields[0].key, fields[i].key);
        }
      } else {
        forall i | 0 <= i < |tail| ensures tail[i].key != f.key {
          assert tail[i] == fields[i + 1];
        }
        InsertStrict(f, tail);
        InsertMultiset(f, tail);
        var r := InsertField(f, tail);
        forall j | 0 <= j < |r| ensures LexLess(fields[0].key, r[j].key) {
          assert r[j] in multiset(r) && r[j] in [f] + tail;
        }
      }
    }
  }

  lemma {:induction false} SortStrict(fields: seq<Field>)
    requires DistinctKeys(fields)
    ensures StrictlySorted(SortFields(fields))
  {
    if fields != [] {
      var sorted := SortFields(fields[1..]);
      SortStrict(fields[1..]);
      forall i | 0 <= i < |sorted| ensures sorted[i].key != fields[0].key {
        assert sorted[i] in multiset(fields[1..]) && sorted[i] in fields[1..];
      }
      InsertStrict(fields[0], sorted);
    }
  }

  lemma {:induction false} StrictlySortedUnique(a: seq<Field>, b: seq<Field>)
    requires StrictlySorted(a) && StrictlySorted(b)
    requires forall f :: f in a <==> f in b
    ensures a == b
  {
    if |a| + |b| > 0 {
      var f := if a == [] then b[0] else a[0];
      assert f in a && f in b;
      assert a[0] in b && b[0] in a;
      LexTotal(a[0].key, b[0].key);
      assert a[0] == b[0];
      forall f ensures f in a[1..] <==> f in b[1..] {
        TailMembers(a, f);
        TailMembers(b, f);
      }
      StrictlySortedUnique(a[1..], b[1..]);
    }
  }

  lemma TailMembers(a: seq<Field>, f: Field)
    requires StrictlySorted(a) && a != []
    ensures f in a[1..] <==> f in a && f != a[0]
  {
    if f in a && f != a[0] {
      var i :| 0 <= i < |a| && a[i] == f;
      assert f == a[1..][i - 1];
    }
    if f in a[1..] {
      var i :| 0 <= i < |a[1..]| && a[1..][i] == f;
      assert a[i + 1] == f;
    }
  }

  // ------------------------------------------------------------ the canonical form prints the same

  lemma {:induction false} InsertCommutes(f: Field, fields: seq<Field>)
    ensures CanonicalFields(InsertField(f, fields))
         == InsertField(Field(f.key, Canonical(f.value)), CanonicalFields(fields))
  {
    hide Canonical, CanonicalFields, LexLeq;
    var g := Field(f.key, Canonical(f.value));
    if fields == [] || LexLeq(f.key, fields[0].key) {
      CanonicalCons(f, fields);
    } else {
      InsertCommutes(f, fields[1..]);
      assert fields == [fields[0]] + fields[1..];
      CanonicalCons(fields[0], fields[1..]);
      CanonicalCons(fields[0], InsertField(f, fields[1..]));
    }
  }

  lemma CanonicalCons(f: Field, fields: seq<Field>)
    ensures CanonicalFields([f] + fields) == [Field(f.key, Canonical(f.value))] + CanonicalFields(fields)
    ensures CanonicalFields([f] + fields)[1..] == CanonicalFields(fields)
  {
    hide Canonical, CanonicalFields;
    var whole, first, rest := CanonicalFields([f] + fields), Field(f.key, Canonical(f.value)), CanonicalFields(fields);
    forall i | 0 <= i < |whole| ensures whole[i] == ([first] + rest)[i] {
      assert ([f] + fields)[i] == if i == 0 then f else fields[i - 1];
    }
    assert whole == [first] + rest;
  }

  lemma {:induction false} SortCommutes(fields: seq<Field>)
    ensures SortFields(CanonicalFields(fields)) == CanonicalFields(SortFields(fields))
  {
    if fields != [] {
      SortCommutes(fields[1..]);
      InsertCommutes(fields[0], SortFields(fields[1..]));
      assert CanonicalFields(fields)[1..] == CanonicalFields(fields[1..]);
    }
  }

  lemma {:induction false} CanonicalIsCanon(v: Json)
    requires WellFormed(v)
    ensures Canon(Canonical(v))
    ensures Canonical(v).Undefined? <==> v.Undefined?
  {
    match v
    case Arr(items) =>
      forall i | 0 <= i < |items| ensures Canon(Canonical(items[i])) {
        CanonicalIsCanon(items[i]);
      }
    case Obj(fields) =>
      var c := CanonicalFields(fields);
      var sorted := SortFields(c);
      SortStrict(c);
      forall i | 0 <= i < |sorted| ensures Canon(sorted[i].value) {
        assert sorted[i] in multiset(c) && sorted[i] in c;
        var j :| 0 <= j < |c| && c[j] == sorted[i];
        CanonicalIsCanon(fields[j].value);
      }
    case _ =>
  }

  lemma {:induction false} StringifyCanonical(v: Json)
    requires WellFormed(v)
    ensures Stringify(Canonical(v)) == Stringify(v)
    decreases v
  {
    match v
    case Arr(items) =>
      forall i | 0 <= i < |items| ensures PrintsLike(items[i], Canonical(items[i])) {
        StringifyCanonical(items[i]);
      }
      JoinItemsAlike(items, seq(|items|, i requires 0 <= i < |items| => Canonical(items[i])));
    case Obj(fields) =>
      forall f | f in SortFields(fields) ensures PrintsLike(f.value, Canonical(f.value)) {
        assert f in multiset(SortFields(fields)) && f in fields;
        StringifyCanonical(f.value);
      }
      ObjectCanonical(v);
    case _ =>
  }

  lemma ObjectCanonical(v: Json)
    requires v.Obj? && DistinctKeys(v.fields) && forall f | f in SortFields(v.fields) :: PrintsLike(f.value, Canonical(f.value))
    ensures Stringify(Canonical(v)) == Stringify(v)
  {
    hide PrintsLike;
    var c, sorted := CanonicalFields(v.fields), SortFields(v.fields);
    SortCommutes(v.fields);
    SortStrict(c);
    SortKeepsSorted(SortFields(c));
    JoinFieldsAlike(v, sorted, Obj(SortFields(c)), CanonicalFields(sorted));
    hide JoinFields, SortFields;
  }

  predicate PrintsLike(v: Json, w: Json) {
    Stringify(v) == Stringify(w) && (v.Undefined? <==> w.Undefined?)
  }

  lemma {:induction false} JoinItemsAlike(a: seq<Json>, b: seq<Json>)
    requires |a| == |b| && forall i | 0 <= i < |a| :: PrintsLike(a[i], b[i])
    ensures JoinItems(a) == JoinItems(b)
  {
    hide Stringify;
    if a != [] {
      assert PrintsLike(a[0], b[0]);
      JoinItemsAlike(a[1..], b[1..]);
    }
  }

  lemma {:induction false} JoinFieldsAlike(p: Json, a: seq<Field>, q: Json, b: seq<Field>)
    requires p.Obj? && multiset(a) <= multiset(p.fields)
    requires q.Obj? && multiset(b) <= multiset(q.fields)
    requires b == CanonicalFields(a) && forall f | f in a :: PrintsLike(f.value, Canonical(f.value))
    ensures JoinFields(p, a) == JoinFields(q, b)
    decreases |a|
  {
    hide Stringify, Canonical, Quote, JoinFields;
    JoinFieldsStep(p, a);
    JoinFieldsStep(q, b);
    if a != [] {
      assert b[1..] == CanonicalFields(a[1..]);
      assert a[0] in a && PrintsLike(a[0].value, b[0].value);
      JoinFieldsAlike(p, a[1..], q, b[1..]);
    }
  }

  lemma JoinFieldsStep(p: Json, a: seq<Field>)
    requires p.Obj? && multiset(a) <= multiset(p.fields)
    ensures a == [] ==> JoinFields(p, a) == []
    ensures a != [] ==>
              && multiset(a[1..]) <= multiset(p.fields)
              && var first := Quote(a[0].key) + [COLON] + Stringify(a[0].value);
                 JoinFields(p, a) == if |a| == 1 then first else first + [COMMA] + JoinFields(p, a[1..])
  {
    hide Stringify, Quote;
    if a != [] {
      assert a == [a[0]] + a[1..];
    }
  }

  // ------------------------------------------------------------ main results

  /** The kernel of the printer, for every value: two values print alike iff their canonical forms agree. */
  lemma PrintsAlikeIff(v: Json, w: Json)
    requires WellFormed(v) && WellFormed(w)
    ensures Stringify(v) == Stringify(w) <==> Canonical(v) == Canonical(w)
  {
    StringifyCanonical(v);
    StringifyCanonical(w);
    if Stringify(v) == Stringify(w) {
      CanonicalIsCanon(v);
      CanonicalIsCanon(w);
      RoundTrip(Canonical(v), []);
      RoundTrip(Canonical(w), []);
    }
  }

  lemma {:induction false} SameValueCanonical(v: Json, w: Json)
    requires WellFormed(v) && WellFormed(w) && SameValue(v, w)
    ensures Canonical(v) == Canonical(w)
    decreases v
  {
    hide Canonical;
    match (v, w)
    case (Arr(a), Arr(b)) =>
      forall i | 0 <= i < |a| ensures Canonical(a[i]) == Canonical(b[i]) {
        SameValueCanonical(a[i], b[i]);
      }
      SameItemsCanonical(a, b);
    case (Obj(f), Obj(g)) =>
      forall i | 0 <= i < |f| ensures exists j | 0 <= j < |g| :: CanonicalPair(f[i], g[j]) {
        assert HasSame(f[i], g);
        var j :| 0 <= j < |g| && g[j].key == f[i].key && SameValue(f[i].value, g[j].value);
        SameValueCanonical(f[i].value, g[j].value);
        assert CanonicalPair(f[i], g[j]);
      }
      assert forall j | 0 <= j < |g| :: HasKey(f, g[j].key);
      SameFieldsCanonical(f, g);
    case _ =>
  }

  lemma SameItemsCanonical(a: seq<Json>, b: seq<Json>)
    requires |a| == |b| && forall i | 0 <= i < |a| :: Canonical(a[i]) == Canonical(b[i])
    ensures Canonical(Arr(a)) == Canonical(Arr(b))
  {
    assert seq(|a|, i requires 0 <= i < |a| => Canonical(a[i]))
        == seq(|b|, i requires 0 <= i < |b| => Canonical(b[i]));
  }

  lemma SameFieldsCanonical(f: seq<Field>, g: seq<Field>)
    requires DistinctKeys(f) && DistinctKeys(g) && FieldsPair(f, g)
    ensures Canonical(Obj(f)) == Canonical(Obj(g))
  {
    hide FieldsPair, DistinctKeys, SortFields;
    FieldSetsAgree(f, g);
  }

  predicate CanonicalPair(a: Field, b: Field) {
    a.key == b.key && Canonical(a.value) == Canonical(b.value)
  }

  ghost predicate FieldsPair(f: seq<Field>, g: seq<Field>) {
    && (forall i | 0 <= i < |f| :: exists j | 0 <= j < |g| :: CanonicalPair(f[i], g[j]))
    && (forall j | 0 <= j < |g| :: HasKey(f, g[j].key))
  }

  /** Two objects have one canonical form iff their fields pair up by key and canonical value. */
  lemma FieldSetsAgree(f: seq<Field>, g: seq<Field>)
    requires DistinctKeys(f) && DistinctKeys(g)
    ensures SortFields(CanonicalFields(f)) == SortFields(CanonicalFields(g)) <==> FieldsPair(f, g)
  {
    hide Canonical, SortFields;
    SameSetSortsAlike(CanonicalFields(f), CanonicalFields(g));
    if FieldsPair(f, g) {
      PairedFieldsAgree(f, g);
    }
    if SortFields(CanonicalFields(f)) == SortFields(CanonicalFields(g)) {
      AgreedFieldsPair(f, g);
    }
  }

  lemma PairedFieldsAgree(f: seq<Field>, g: seq<Field>)
    requires DistinctKeys(f) && DistinctKeys(g) && FieldsPair(f, g)
    ensures forall x :: x in CanonicalFields(f) <==> x in CanonicalFields(g)
  {
    hide Canonical;
    var cf, cg := CanonicalFields(f), CanonicalFields(g);
    forall x | x in cf ensures x in cg {
      var i :| 0 <= i < |cf| && cf[i] == x;
      var j :| 0 <= j < |g| && CanonicalPair(f[i], g[j]);
      assert cg[j] == x;
    }
    forall x | x in cg ensures x in cf {
      var j :| 0 <= j < |cg| && cg[j] == x;
      var i :| 0 <= i < |f| && f[i].key == g[j].key;
      var k :| 0 <= k < |g| && CanonicalPair(f[i], g[k]);
      assert g[k].key == g[j].key && cf[i] == x;
    }
  }

  lemma AgreedFieldsPair(f: seq<Field>, g: seq<Field>)
    requires forall x :: x in CanonicalFields(f) <==> x in CanonicalFields(g)
    ensures FieldsPair(f, g)
  {
    hide Canonical;
    var cf, cg := CanonicalFields(f), CanonicalFields(g);
    forall i | 0 <= i < |f| ensures exists j | 0 <= j < |g| :: CanonicalPair(f[i], g[j]) {
      assert cf[i] in cg;
      var j :| 0 <= j < |cg| && cg[j] == cf[i];
      assert CanonicalPair(f[i], g[j]);
    }
    forall j | 0 <= j < |g| ensures HasKey(f, g[j].key) {
      assert cg[j] in cf;
      var i :| 0 <= i < |cf| && cf[i] == cg[j];
      assert f[i].key == g[j].key;
    }
    assert forall i | 0 <= i < |f| :: exists j | 0 <= j < |g| :: CanonicalPair(f[i], g[j]);
    assert forall j | 0 <= j < |g| :: HasKey(f, g[j].key);
  }

  lemma SameSetSortsAlike(a: seq<Field>, b: seq<Field>)
    requires DistinctKeys(a) && DistinctKeys(b)
    ensures SortFields(a) == SortFields(b) <==> forall f :: f in a <==> f in b
  {
    forall f ensures f in SortFields(a) <==> f in a {
      assert f in multiset(SortFields(a)) <==> f in multiset(a);
    }
    forall f ensures f in SortFields(b) <==> f in b {
      assert f in multiset(SortFields(b)) <==> f in multiset(b);
    }
    SortStrict(a);
    SortStrict(b);
    if forall f :: f in a <==> f in b {
      StrictlySortedUnique(SortFields(a), SortFields(b));
    }
  }

  lemma {:induction false} CanonicalSameValue(v: Json, w: Json)
    requires WellFormed(v) && WellFormed(w) && Plain(v) && Plain(w)
    requires Canonical(v) == Canonical(w)
    ensures SameValue(v, w)
    decreases v
  {
    hide Canonical;
    CanonicalShape(v, w);
    match (v, w)
    case (Arr(a), Arr(b)) =>
      CanonicalItems(a, b);
      forall i | 0 <= i < |a| ensures SameValue(a[i], b[i]) {
        CanonicalSameValue(a[i], b[i]);
      }
    case (Obj(f), Obj(g)) =>
      forall i | 0 <= i < |f| ensures HasSame(f[i], g) {
        var j :| 0 <= j < |g| && CanonicalPair(f[i], g[j]);
        assert Canonical(f[i].value) == Canonical(g[j].value);
        CanonicalSameValue(f[i].value, g[j].value);
      }
      assert forall j | 0 <= j < |g| :: HasKey(f, g[j].key);
    case _ =>
  }

  lemma CanonicalShape(v: Json, w: Json)
    requires WellFormed(v) && WellFormed(w) && Plain(v) && Plain(w)
    requires Canonical(v) == Canonical(w)
    ensures (v.Arr? <==> w.Arr?) && (v.Obj? <==> w.Obj?)
    ensures !v.Arr? && !v.Obj? ==> v == w
    ensures v.Obj? && w.Obj? ==> FieldsPair(v.fields, w.fields)
  {
    if v.Obj? && w.Obj? {
      FieldSetsAgree(v.fields, w.fields);
    }
  }

  lemma CanonicalItems(a: seq<Json>, b: seq<Json>)
    requires forall i | 0 <= i < |a| :: WellFormed(a[i]) && Plain(a[i])
    requires forall i | 0 <= i < |b| :: WellFormed(b[i]) && Plain(b[i])
    requires Canonical(Arr(a)) == Canonical(Arr(b))
    ensures |a| == |b| && forall i | 0 <= i < |a| :: Canonical(a[i]) == Canonical(b[i])
  {
    var ca := seq(|a|, i requires 0 <= i < |a| => Canonical(a[i]));
    var cb := seq(|b|, i requires 0 <= i < |b| => Canonical(b[i]));
    if |a| == 1 { CanonicalIsCanon(a[0]); assert ca[0] == Canonical(a[0]); }
    if |b| == 1 { CanonicalIsCanon(b[0]); assert cb[0] == Canonical(b[0]); }
    assert ca != [Undefined] && cb != [Undefined];
    assert ca == cb;
    assert forall i | 0 <= i < |a| :: ca[i] == Canonical(a[i]) && cb[i] == Canonical(b[i]);
  }

  /** On every JSON value the printed text is a canonical form: equal texts iff equal values, objects being maps. */
  lemma CanonicalPrinter(v: Json, w: Json)
    requires WellFormed(v) && WellFormed(w) && Plain(v) && Plain(w)
    ensures Stringify(v) == Stringify(w) <==> SameValue(v, w)
  {
    PrintsAlikeIff(v, w);
    if SameValue(v, w) {
      SameValueCanonical(v, w);
    }
    if Canonical(v) == Canonical(w) {
      CanonicalSameValue(v, w);
    }
  }

  /** Off JSON the printer is not injective: a lone undefined item and a NaN leave no trace. */
  lemma UndefinedAndNaNCollide()
    ensures Stringify(Arr([Undefined])) == Stringify(Arr([])) && !SameValue(Arr([Undefined]), Arr([]))
    ensures Stringify(Num(NotFinite)) == Stringify(Null) && !SameValue(Num(NotFinite), Null)
  {
  }
}
