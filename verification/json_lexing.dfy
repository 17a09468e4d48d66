/**
 * Where string literals begin and end in the text stableStringify prints, and why no bar in such a text
 * is followed by another whole object (packages/domain-signals/src/signal-hash.ts:15-41).
 */
module JsonLexing {
  import opened Texts
  import opened JsonValues
  import opened StableStringify

  const BAR: Unit := 0x7C

  datatype Place = Outside | Inside | Escaped

  predicate IsLetter(c: Unit) {
    'a' as int <= c <= 'z' as int
  }

  predicate StartsWithLetter(t: Text) {
    t != [] && IsLetter(t[0])
  }

  /** Read from the given place: literals are closed, bars are in literals, no letter follows a literal. */
  predicate Lexed(at: Place, t: Text)
    decreases |t|
  {
    if t == [] then at == Outside
    else
      match at
      case Outside => if t[0] == QUOTE then Lexed(Inside, t[1..]) else t[0] != BAR && Lexed(Outside, t[1..])
      case Inside =>
        if t[0] == QUOTE then !StartsWithLetter(t[1..]) && Lexed(Outside, t[1..])
        else Lexed(if t[0] == BACKSLASH then Escaped else Inside, t[1..])
      case Escaped => Lexed(Inside, t[1..])
  }

  /** A text that may follow a value. */
  predicate MayFollow(rest: Text) {
    Lexed(Outside, rest) && !StartsWithLetter(rest)
  }

  // ------------------------------------------------------------ what is printed lexes

  lemma {:induction false} PunctuationLexed(t: Text, rest: Text)
    requires Lexed(Outside, rest) && forall i | 0 <= i < |t| :: t[i] != QUOTE && t[i] != BAR
    ensures Lexed(Outside, t + rest)
  {
    if t == [] {
      assert t + rest == rest;
    } else {
      PunctuationLexed(t[1..], rest);
      assert (t + rest)[1..] == t[1..] + rest;
    }
  }

  lemma {:induction false} RawLexed(t: Text, rest: Text)
    requires Lexed(Inside, rest) && forall i | 0 <= i < |t| :: t[i] != QUOTE && t[i] != BACKSLASH
    ensures Lexed(Inside, t + rest)
  {
    if t == [] {
      assert t + rest == rest;
    } else {
      RawLexed(t[1..], rest);
      assert (t + rest)[1..] == t[1..] + rest;
    }
  }

  lemma EscapeUnitLexed(c: Unit, rest: Text)
    requires Lexed(Inside, rest)
    ensures Lexed(Inside, EscapeUnit(c) + rest)
  {
    hide Lexed, Hex4;
    if ShortEscape(c).Some? {
      EscapedLexed(ShortEscape(c).value, rest);
    } else if c < 0x20 || IsHigh(c) || IsLow(c) {
      HexLexed(c, rest);
      EscapedLexed('u' as int, Hex4(c) + rest);
      assert EscapeUnit(c) + rest == [BACKSLASH, 'u' as int] + (Hex4(c) + rest);
    } else {
      RawLexed([c], rest);
    }
  }

  /** An escape takes the unit behind the backslash, whatever it is. */
  lemma EscapedLexed(c: Unit, rest: Text)
    requires Lexed(Inside, rest)
    ensures Lexed(Inside, [BACKSLASH, c] + rest)
  {
    var whole := [BACKSLASH, c] + rest;
    assert whole[1..] == [c] + rest && whole[1..][1..] == rest;
  }

  lemma HexLexed(c: Unit, rest: Text)
    requires Lexed(Inside, rest)
    ensures Lexed(Inside, Hex4(c) + rest)
  {
    hide Lexed;
    RawLexed(Hex4(c), rest);
  }

  lemma {:induction false} EscapeLexed(s: Text, rest: Text)
    requires Lexed(Inside, rest)
    ensures Lexed(Inside, Escape(s) + rest)
  {
    hide Lexed, EscapeUnit;
    if s == [] {
      assert Escape(s) + rest == rest;
    } else if |s| > 1 && IsHigh(s[0]) && IsLow(s[1]) {
      EscapeLexed(s[2..], rest);
      RawLexed(s[..2], Escape(s[2..]) + rest);
      assert Escape(s) + rest == s[..2] + (Escape(s[2..]) + rest);
    } else {
      EscapeLexed(s[1..], rest);
      EscapeUnitLexed(s[0], Escape(s[1..]) + rest);
      assert Escape(s) + rest == EscapeUnit(s[0]) + (Escape(s[1..]) + rest);
    }
  }

  lemma QuoteLexed(s: Text, rest: Text)
    requires MayFollow(rest)
    ensures Lexed(Outside, Quote(s) + rest)
  {
    var closing := [QUOTE] + rest;
    assert closing[1..] == rest;
    EscapeLexed(s, closing);
    assert Quote(s) + rest == [QUOTE] + (Escape(s) + closing);
    assert (Quote(s) + rest)[1..] == Escape(s) + closing;
  }

  /** A mark of punctuation, and what follows it. */
  lemma MarkLexed(mark: Unit, rest: Text)
    requires Lexed(Outside, rest) && mark != QUOTE && mark != BAR
    ensures Lexed(Outside, [mark] + rest) && (!IsLetter(mark) ==> MayFollow([mark] + rest))
  {
    assert ([mark] + rest)[1..] == rest;
  }

  /** Something in brackets, when it lexes before the closing one. */
  lemma BracketsLexed(open: Unit, inner: Text, close: Unit, rest: Text)
    requires open != QUOTE && open != BAR && Lexed(Outside, inner + ([close] + rest))
    ensures Lexed(Outside, [open] + inner + [close] + rest)
  {
    hide Lexed;
    MarkLexed(open, inner + ([close] + rest));
    assert [open] + inner + [close] + rest == [open] + (inner + ([close] + rest));
  }

  lemma {:induction false} StringifyLexed(v: Json, rest: Text)
    requires WellFormed(v) && MayFollow(rest)
    ensures Lexed(Outside, Stringify(v) + rest)
    decreases v, 1
  {
    hide Lexed, MayFollow, Quote, JoinItems, JoinFields, SortFields;
    match v
    case Str(text) => QuoteLexed(text, rest);
    case Arr(items) =>
      ClosingLexed(CLOSE_ARRAY, rest);
      ItemsLexed(items, [CLOSE_ARRAY] + rest);
      BracketsLexed(OPEN_ARRAY, JoinItems(items), CLOSE_ARRAY, rest);
    case Obj(fields) =>
      ClosingLexed(CLOSE_OBJECT, rest);
      FieldsLexed(v, SortFields(fields), [CLOSE_OBJECT] + rest);
      BracketsLexed(OPEN_OBJECT, JoinFields(v, SortFields(fields)), CLOSE_OBJECT, rest);
    case _ => LeafLexed(v, rest);
  }

  lemma ClosingLexed(close: Unit, rest: Text)
    requires MayFollow(rest) && close in {CLOSE_ARRAY, CLOSE_OBJECT}
    ensures MayFollow([close] + rest)
  {
    MarkLexed(close, rest);
  }

  lemma LeafLexed(v: Json, rest: Text)
    requires WellFormed(v) && MayFollow(rest) && !v.Str? && !v.Arr? && !v.Obj?
    ensures Lexed(Outside, Stringify(v) + rest)
  {
    PunctuationLexed(Stringify(v), rest);
  }

  lemma {:induction false} ItemsLexed(items: seq<Json>, rest: Text)
    requires MayFollow(rest) && forall i | 0 <= i < |items| :: WellFormed(items[i])
    ensures Lexed(Outside, JoinItems(items) + rest)
    decreases items, 2
  {
    hide Lexed, Stringify, WellFormed, StartsWithLetter;
    if items == [] {
      assert JoinItems(items) + rest == rest;
    } else {
      var after := if |items| == 1 then rest else [COMMA] + (JoinItems(items[1..]) + rest);
      if |items| > 1 {
        ItemsLexed(items[1..], rest);
        MarkLexed(COMMA, JoinItems(items[1..]) + rest);
      }
      JoinItemsSplit(items, rest);
      if !items[0].Undefined? {
        StringifyLexed(items[0], after);
      }
    }
  }

  lemma JoinItemsSplit(items: seq<Json>, rest: Text)
    requires items != []
    ensures var after := if |items| == 1 then rest else [COMMA] + (JoinItems(items[1..]) + rest);
            JoinItems(items) + rest == if items[0].Undefined? then after else Stringify(items[0]) + after
  {
    hide Stringify;
    if |items| > 1 {
      var first := if items[0].Undefined? then [] else Stringify(items[0]);
      Regroup(first, [COMMA], JoinItems(items[1..]), rest);
    }
  }

  lemma Regroup(a: Text, b: Text, c: Text, d: Text)
    ensures a + b + c + d == a + (b + (c + d))
    ensures [] + b + c + d == b + (c + d)
  {
  }

  lemma {:induction false} FieldsLexed(parent: Json, fields: seq<Field>, rest: Text)
    requires parent.Obj? && multiset(fields) <= multiset(parent.fields)
    requires MayFollow(rest) && WellFormed(parent)
    ensures Lexed(Outside, JoinFields(parent, fields) + rest)
    decreases parent, 0, |fields|
  {
    hide Lexed, Stringify, Quote, StartsWithLetter;
    if fields == [] {
      assert JoinFields(parent, fields) + rest == rest;
    } else {
      var f := fields[0];
      assert f in multiset(fields) && f in parent.fields;
      assert fields == [f] + fields[1..];
      var after := if |fields| == 1 then rest else [COMMA] + (JoinFields(parent, fields[1..]) + rest);
      if |fields| > 1 {
        FieldsLexed(parent, fields[1..], rest);
        MarkLexed(COMMA, JoinFields(parent, fields[1..]) + rest);
      }
      JoinFieldsSplit(parent, fields, rest);
      StringifyLexed(f.value, after);
      MarkLexed(COLON, Stringify(f.value) + after);
      QuoteLexed(f.key, [COLON] + (Stringify(f.value) + after));
    }
  }

  lemma JoinFieldsSplit(parent: Json, fields: seq<Field>, rest: Text)
    requires parent.Obj? && multiset(fields) <= multiset(parent.fields) && fields != []
    requires multiset(fields[1..]) <= multiset(parent.fields)
    ensures var after := if |fields| == 1 then rest else [COMMA] + (JoinFields(parent, fields[1..]) + rest);
            JoinFields(parent, fields) + rest == Quote(fields[0].key) + ([COLON] + (Stringify(fields[0].value) + after))
  {
    hide Stringify, Quote;
    var key, value := Quote(fields[0].key), Stringify(fields[0].value);
    if |fields| == 1 {
      Regroup(key, [COLON], value, rest);
    } else {
      var more := JoinFields(parent, fields[1..]);
      Regroup(key + [COLON] + value, [COMMA], more, rest);
      Regroup(key, [COLON], value, [COMMA] + (more + rest));
    }
  }

  // ------------------------------------------------------------ no object after a bar

  /** A bar stands in a literal, so what follows it does too. */
  lemma {:induction false} AfterBar(at: Place, t: Text, i: nat)
    requires Lexed(at, t) && i < |t| && t[i] == BAR
    ensures Lexed(Inside, t[i + 1..])
    decreases i
  {
    if i > 0 {
      var next := match at
        case Outside => if t[0] == QUOTE then Inside else Outside
        case Inside => if t[0] == QUOTE then Outside else if t[0] == BACKSLASH then Escaped else Inside
        case Escaped => Inside;
      AfterBar(next, t[1..], i - 1);
      assert t[1..][i..] == t[i + 1..];
    }
  }

  predicate LetterKeys(fields: seq<Field>) {
    forall i | 0 <= i < |fields| :: StartsWithLetter(fields[i].key)
  }

  /** The printed object is empty, or opens with a quote and a letter. */
  predicate OpensObject(t: Text) {
    t == [OPEN_OBJECT, CLOSE_OBJECT] || (|t| > 2 && t[0] == OPEN_OBJECT && t[1] == QUOTE && IsLetter(t[2]))
  }

  lemma ObjectStart(fields: seq<Field>)
    requires LetterKeys(fields)
    ensures OpensObject(Stringify(Obj(fields)))
  {
    hide SortFields, Quote, StartsWithLetter;
    var sorted := SortFields(fields);
    if sorted == [] {
      assert JoinFields(Obj(fields), sorted) == [];
    } else {
      assert sorted[0] in multiset(sorted) && sorted[0] in fields;
      QuoteStart(sorted[0].key);
      var inner := JoinFields(Obj(fields), sorted);
      assert Quote(sorted[0].key) <= inner;
      ObjectOpens(inner, Quote(sorted[0].key));
    }
  }

  lemma QuoteStart(key: Text)
    requires StartsWithLetter(key)
    ensures |Quote(key)| > 1 && Quote(key)[0] == QUOTE && IsLetter(Quote(key)[1])
  {
    assert Escape(key)[0] == key[0];
  }

  lemma ObjectOpens(inner: Text, start: Text)
    requires start <= inner && |start| > 1 && start[0] == QUOTE && IsLetter(start[1])
    ensures OpensObject([OPEN_OBJECT] + inner + [CLOSE_OBJECT])
  {
    assert inner[0] == start[0] && inner[1] == start[1];
  }

  lemma NotInside(t: Text)
    requires OpensObject(t)
    ensures !Lexed(Inside, t)
  {
    var u := t[1..];
    assert Lexed(Inside, t) == Lexed(Inside, u);
    if |t| == 2 {
      assert u[1..] == [];
      assert !Lexed(Inside, u[1..]);
    } else {
      assert u[0] == QUOTE && u[1..][0] == t[2];
    }
  }

  /** What follows a bar of a printed value is never a whole printed object with such keys. */
  lemma NoObjectAfterBar(v: Json, head: Text, fields: seq<Field>)
    requires WellFormed(v) && LetterKeys(fields)
    ensures Stringify(v) != head + [BAR] + Stringify(Obj(fields))
  {
    hide Lexed, Stringify, LetterKeys, OpensObject;
    var t, tail := Stringify(v), Stringify(Obj(fields));
    NothingFollows();
    StringifyLexed(v, []);
    assert t + [] == t;
    ObjectStart(fields);
    NotInside(tail);
    var i := |head|;
    if i < |t| && t[i] == BAR {
      AfterBar(Outside, t, i);
    }
    var whole := head + [BAR] + tail;
    assert whole[i] == BAR && whole[i + 1..] == tail;
  }

  lemma NothingFollows()
    ensures MayFollow([])
  {
  }
}
