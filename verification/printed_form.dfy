/**
 * What the canonical printer prints, mark by mark, and the text that is hashed
 * (packages/domain-signals/src/signal-hash.ts:15-41, section 7 of RFC 8259).
 */
module PrintedForm {
  import opened Texts
  import opened TextMeaning
  import opened JsonValues
  import opened PayloadRedaction
  import opened StableStringify
  import opened SignalHash

  // ------------------------------------------------------------ strings

  /** Lower case hexadecimal. */
  predicate HexOf(digit: Unit, n: nat) {
    n < 16 && digit == ['0' as int, '1' as int, '2' as int, '3' as int, '4' as int, '5' as int, '6' as int, '7' as int,
                        '8' as int, '9' as int, 'a' as int, 'b' as int, 'c' as int, 'd' as int, 'e' as int, 'f' as int][n]
  }

  /** The unit is printed behind a backslash: a quote, a backslash, or a control with a letter of its own. */
  predicate Lettered(c: Unit, letter: Unit) {
    || (c == '\"' as int && letter == '\"' as int) || (c == '\\' as int && letter == '\\' as int)
    || (c == 0x08 && letter == 'b' as int) || (c == 0x09 && letter == 't' as int) || (c == 0x0A && letter == 'n' as int)
    || (c == 0x0C && letter == 'f' as int) || (c == 0x0D && letter == 'r' as int)
  }

  predicate Numbered(c: Unit, t: Text) {
    && |t| == 6 && t[0] == '\\' as int && t[1] == 'u' as int
    && HexOf(t[2], c / 4096) && HexOf(t[3], c / 256 % 16) && HexOf(t[4], c / 16 % 16) && HexOf(t[5], c % 16)
  }

  lemma HexDigits(c: Unit)
    ensures |Hex4(c)| == 4
    ensures HexOf(Hex4(c)[0], c / 4096) && HexOf(Hex4(c)[1], c / 256 % 16) && HexOf(Hex4(c)[2], c / 16 % 16) && HexOf(Hex4(c)[3], c % 16)
  {
    hide HexOf;
    Quotients(c);
    DigitIsHex(c / 16 / 16 / 16);
    DigitIsHex(c / 16 / 16 % 16);
    DigitIsHex(c / 16 % 16);
    DigitIsHex(c % 16);
  }

  lemma Quotients(c: Unit)
    ensures c / 16 / 16 / 16 == c / 4096 && c / 16 / 16 == c / 256 && c / 4096 < 16
  {
  }

  lemma DigitIsHex(n: nat)
    requires n < 16
    ensures HexOf(HexDigit(n), n)
  {
  }

  /** A unit on its own is printed with its letter, with its number, or as it stands. */
  lemma UnitPrinted(c: Unit)
    ensures forall letter | Lettered(c, letter) :: EscapeUnit(c) == ['\\' as int, letter]
    ensures (exists letter :: Lettered(c, letter))
            || (if c < 0x20 || 0xD800 <= c <= 0xDFFF then Numbered(c, EscapeUnit(c)) else EscapeUnit(c) == [c])
  {
    HexDigits(c);
    hide Hex4, HexOf;
    if ShortEscape(c).Some? {
      assert Lettered(c, ShortEscape(c).value);
    }
  }

  /** A surrogate pair stands across the place between two texts. */
  predicate PairAcross(a: Text, b: Text) {
    a != [] && b != [] && 0xD800 <= a[|a| - 1] <= 0xDBFF && 0xDC00 <= b[0] <= 0xDFFF
  }

  /** A text is printed piece by piece; a piece is a unit on its own or a surrogate pair, printed as it stands. */
  lemma {:induction false} EscapedApart(a: Text, b: Text)
    requires !PairAcross(a, b)
    ensures Escape(a + b) == Escape(a) + Escape(b)
  {
    hide EscapeUnit;
    if a == [] {
      assert a + b == b;
    } else if |a| > 1 && IsHigh(a[0]) && IsLow(a[1]) {
      assert (a + b)[..2] == a[..2] && (a + b)[2..] == a[2..] + b;
      EscapedApart(a[2..], b);
    } else {
      assert (a + b)[1..] == a[1..] + b;
      EscapedApart(a[1..], b);
    }
  }

  lemma EscapedPieces(c: Unit, d: Unit)
    ensures Escape([]) == [] && Escape([c]) == EscapeUnit(c)
    ensures 0xD800 <= c <= 0xDBFF && 0xDC00 <= d <= 0xDFFF ==> Escape([c, d]) == [c, d]
  {
    assert [c][1..] == [] && [c, d][2..] == [] && [c, d][..2] == [c, d];
    hide EscapeUnit;
  }

  // ------------------------------------------------------------ values

  /** The words and the quotes. */
  lemma LeafPrinted(v: Json)
    ensures v.Undefined? ==> Stringify(v) == Lit("undefined")
    ensures v.Null? || v == Num(NotFinite) ==> Stringify(v) == Lit("null")
    ensures v.Bool? ==> Stringify(v) == if v.b then Lit("true") else Lit("false")
    ensures v.Num? && v.number.Finite? ==> Stringify(v) == v.number.lexeme
    ensures v.Str? ==> Stringify(v) == ['"' as int] + Escape(v.text) + ['"' as int]
  {
    hide Escape, Lit;
  }

  /** An item prints as itself, and undefined as nothing. */
  function ItemText(v: Json): Text {
    if v.Undefined? then [] else Stringify(v)
  }

  function ItemTexts(items: seq<Json>): (r: seq<Text>)
    ensures |r| == |items| && forall i | 0 <= i < |items| :: r[i] == ItemText(items[i])
  {
    seq(|items|, i requires 0 <= i < |items| => ItemText(items[i]))
  }

  /** An array prints its items between brackets, with commas between them. */
  lemma ArrayPrinted(items: seq<Json>)
    ensures Stringify(Arr(items)) == ['[' as int] + Chain(ItemTexts(items), [',' as int]) + [']' as int]
  {
    ItemsJoined(items);
    JoinIsChain(ItemTexts(items), [',' as int]);
    hide JoinItems, Join, Chain, ItemText;
  }

  lemma {:induction false} ItemsJoined(items: seq<Json>)
    ensures JoinItems(items) == Join(ItemTexts(items), [',' as int])
  {
    hide Stringify;
    if |items| > 1 {
      ItemsJoined(items[1..]);
      assert ItemTexts(items)[1..] == ItemTexts(items[1..]);
    }
  }

  function FieldText(f: Field): Text {
    ['"' as int] + Escape(f.key) + ['"' as int] + [':' as int] + Stringify(f.value)
  }

  function FieldTexts(fields: seq<Field>): (r: seq<Text>)
    ensures |r| == |fields| && forall i | 0 <= i < |fields| :: r[i] == FieldText(fields[i])
  {
    seq(|fields|, i requires 0 <= i < |fields| => FieldText(fields[i]))
  }

  lemma {:induction false} FieldsJoined(parent: Json, fields: seq<Field>)
    requires parent.Obj? && multiset(fields) <= multiset(parent.fields)
    ensures JoinFields(parent, fields) == Join(FieldTexts(fields), [',' as int])
  {
    hide Stringify, Escape;
    if fields != [] {
      assert fields == [fields[0]] + fields[1..];
      if |fields| > 1 {
        FieldsJoined(parent, fields[1..]);
        assert FieldTexts(fields)[1..] == FieldTexts(fields[1..]);
      }
    }
  }

  /** An object prints its fields between braces, with commas between them, in strictly ascending order of key. */
  lemma ObjectPrinted(fields: seq<Field>) returns (sorted: seq<Field>)
    requires DistinctKeys(fields)
    ensures multiset(sorted) == multiset(fields)
    ensures forall i, j | 0 <= i < j < |sorted| :: Before(sorted[i].key, sorted[j].key)
    ensures Stringify(Obj(fields)) == ['{' as int] + Chain(FieldTexts(sorted), [',' as int]) + ['}' as int]
  {
    sorted := SortFields(fields);
    StableStringify.SortStrict(fields);
    FieldsJoined(Obj(fields), sorted);
    JoinIsChain(FieldTexts(sorted), [',' as int]);
    hide JoinFields, SortFields, Join, Chain, FieldText, Before, LexLess;
    forall i, j | 0 <= i < j < |sorted| ensures Before(sorted[i].key, sorted[j].key) {
      LexLessIff(sorted[i].key, sorted[j].key);
    }
  }

  // ------------------------------------------------------------ the text that is hashed

  /** The seven keys whose values are hashed, in the order in which they are looked up. */
  lemma HashedKeys(key: Text)
    ensures key in RelevantKeys() <==>
              key == Lit("id") || key == Lit("number") || key == Lit("key") || key == Lit("ref") || key == Lit("url")
              || key == Lit("title") || key == Lit("action")
  {
    hide Lit;
  }

  /** Workspace, kind, source and reference, absent ones empty, and the printed fields, with bars between them. */
  lemma HashedText(a: HashParts, payload: Json)
    ensures var bar: Text := [0x7C];
            var source: Text := if a.sourceId.Some? then a.sourceId.value else [];
            var reference: Text := if a.normalizedKey.Some? then a.normalizedKey.value else [];
            PreHash(a, payload)
            == a.workspaceId + bar + a.kind + bar + source + bar + reference + bar + Stringify(Obj(Relevant(payload)))
  {
    var source, reference := OrEmpty(a.sourceId), OrEmpty(a.normalizedKey);
    var printed := Stringify(Obj(Relevant(payload)));
    hide Stringify, Relevant;
    JoinIsChain([a.workspaceId, a.kind, source, reference, printed], [0x7C]);
    FiveChained(a.workspaceId, a.kind, source, reference, printed, [0x7C]);
  }

  lemma FiveChained(a: Text, b: Text, c: Text, d: Text, e: Text, bar: Text)
    ensures Chain([a, b, c, d, e], bar) == a + bar + b + bar + c + bar + d + bar + e
  {
    ChainMore([a], b, bar);
    ChainMore([a] + [b], c, bar);
    ChainMore([a] + [b] + [c], d, bar);
    ChainMore([a] + [b] + [c] + [d], e, bar);
    assert [a] + [b] + [c] + [d] + [e] == [a, b, c, d, e];
  }
}
