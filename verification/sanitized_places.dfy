/**
 * What the evidence sanitizers leave, and what the scan refuses, at every place of a value
 * (packages/employees/specialist-kit/src/finance-evidence.ts:24-75,354-385, ux-evidence.ts:12-51,85-142,
 * finance-delivery-validation.ts:60-83).
 */
module SanitizedPlaces {
  import opened Texts
  import opened Folding
  import opened JsonValues
  import opened JsonPaths
  import opened EvidenceText
  import opened EvidenceSanitizer

  // ------------------------------------------------------------ fragments of a key

  /** The only other unit whose lower case holds an ASCII letter is the capital I with a dot. */
  predicate LetterSpells(c: Unit, letter: Unit) {
    UnitSpells(c, letter) || (letter == 'i' as int && c == 0x0130)
  }

  /** Units a key may hold anywhere without a difference: no letter, no digit. */
  predicate Passed(c: Unit) {
    !('a' as int <= c <= 'z' as int) && !('A' as int <= c <= 'Z' as int) && !('0' as int <= c <= '9' as int)
    && c != 0x212A && c != 0x0130
  }

  /** The text is the word in whatever case, with other units strewn in. */
  predicate SpellsLoosely(t: Text, word: Text) {
    if t == [] then word == []
    else
      || (Passed(t[0]) && SpellsLoosely(t[1..], word))
      || (word != [] && LetterSpells(t[0], word[0]) && SpellsLoosely(t[1..], word[1..]))
  }

  predicate HoldsWord(key: Text, word: string) {
    exists i, j | 0 <= i <= j <= |key| :: SpellsLoosely(key[i..j], Lit(word))
  }

  function FragmentWords(kit: Kit): set<string> {
    match kit
    case Finance =>
      {"password", "secret", "token", "apikey", "accountnumber", "iban", "cpf", "cnpj", "creditcard", "cvv", "bankaccount",
       "routingnumber", "clientsecret", "authorization"}
    case Ux => {"password", "secret", "token", "apikey", "clientsecret", "authorization", "privatekey"}
  }

  predicate HoldsFragment(kit: Kit, key: Text) {
    exists word | word in FragmentWords(kit) :: HoldsWord(key, word)
  }

  predicate IsContentKey(key: Text) {
    SpellsOneOf(key, {"content", "body", "rawcontent", "fullcontent"})
  }

  /** What normalising makes of one unit. */
  function Normal(c: Unit): Text {
    NormalizeKey(LowerUnit(c))
  }

  predicate WordUnits(word: Text) {
    forall i | 0 <= i < |word| :: 'a' as int <= word[i] <= 'z' as int
  }

  lemma NormalUnit(c: Unit)
    ensures Normal(c) == [] <==> Passed(c)
    ensures |Normal(c)| <= 1
    ensures forall letter: Unit | 'a' as int <= letter <= 'z' as int :: Normal(c) == [letter] <==> LetterSpells(c, letter)
  {
    var none: Text := [];
    assert NormalizeKey(none) == none;
    if c == 0x0130 {
      assert LowerUnit(c)[1..] == [0x0307] && [0x0307][1..] == none;
      assert NormalizeKey([0x0307]) == none;
      assert Normal(c) == ['i' as int];
    } else {
      var d := LowerUnit(c)[0];
      assert LowerUnit(c) == [d] && [d][1..] == none;
      assert NormalizeKey([d]) == (if IsDigit(d) || 'a' as int <= d <= 'z' as int then [d] else []) + none;
      if Normal(c) != [] {
        assert Normal(c) == [d];
      }
    }
  }

  function KeptUnit(c: Unit): Text {
    if IsDigit(c) || 'a' as int <= c <= 'z' as int then [c] else []
  }

  lemma NormalizeStep(c: Unit, t: Text)
    ensures NormalizeKey([]) == [] && NormalizeKey([c] + t) == KeptUnit(c) + NormalizeKey(t)
  {
    assert ([c] + t)[1..] == t;
  }

  lemma {:induction false} NormalizeConcat(a: Text, b: Text)
    ensures NormalizeKey(a + b) == NormalizeKey(a) + NormalizeKey(b)
  {
    hide NormalizeKey, KeptUnit;
    if a == [] {
      assert a + b == b;
      NormalizeStep(0, []);
    } else {
      NormalizeConcat(a[1..], b);
      NormalizeStep(a[0], a[1..]);
      NormalizeStep(a[0], a[1..] + b);
      assert a == [a[0]] + a[1..] && a + b == [a[0]] + (a[1..] + b);
    }
  }

  function Normalized(key: Text): Text {
    NormalizeKey(Lower(key))
  }

  lemma NormalizedStep(key: Text)
    ensures key == [] ==> Normalized(key) == []
    ensures key != [] ==> Normalized(key) == Normal(key[0]) + Normalized(key[1..])
  {
    hide LowerUnit;
    if key != [] {
      NormalizeConcat(LowerUnit(key[0]), Lower(key[1..]));
    }
  }

  lemma {:induction false} LooselyNormalized(t: Text, word: Text)
    requires WordUnits(word)
    ensures SpellsLoosely(t, word) <==> Normalized(t) == word
  {
    hide Normal, Normalized, Passed, LetterSpells;
    NormalizedStep(t);
    if t != [] {
      NormalUnit(t[0]);
      LooselyNormalized(t[1..], word);
      if word != [] {
        LooselyNormalized(t[1..], word[1..]);
        assert word == [word[0]] + word[1..];
      }
    }
  }

  lemma {:induction false} NormalizedSplit(a: Text, b: Text)
    ensures Normalized(a + b) == Normalized(a) + Normalized(b)
  {
    hide Normal, Normalized;
    NormalizedStep(a);
    if a == [] {
      assert a + b == b;
    } else {
      NormalizedStep(a + b);
      NormalizedSplit(a[1..], b);
      assert (a + b)[1..] == a[1..] + b;
    }
  }

  /** Every start of the normalised key comes from a start of the key. */
  lemma {:induction false} StartOf(key: Text, n: nat) returns (i: nat)
    requires n <= |Normalized(key)|
    ensures i <= |key| && Normalized(key[..i]) == Normalized(key)[..n] && Normalized(key[i..]) == Normalized(key)[n..]
  {
    hide Normal, Normalized;
    if n == 0 {
      i := 0;
      NormalizedStep(key[..0]);
      assert key[0..] == key;
    } else {
      NormalizedStep(key);
      NormalUnit(key[0]);
      var m := |Normal(key[0])|;
      var j := StartOf(key[1..], n - m);
      i := j + 1;
      assert key[..i][1..] == key[1..][..i - 1] && key[i..] == key[1..][i - 1..];
      NormalizedStep(key[..i]);
    }
  }

  lemma {:induction false} IncludedAt(s: Text, word: Text) returns (k: nat)
    requires Includes(s, word)
    ensures k + |word| <= |s| && s[k..k + |word|] == word
  {
    if word <= s {
      k := 0;
    } else {
      var j := IncludedAt(s[1..], word);
      k := j + 1;
      assert s[1..][j..j + |word|] == s[k..k + |word|];
    }
  }

  lemma {:induction false} IncludesAt(s: Text, word: Text, k: nat)
    requires k + |word| <= |s| && s[k..k + |word|] == word
    ensures Includes(s, word)
  {
    if k == 0 {
      assert word <= s;
    } else {
      assert s[1..][k - 1..k - 1 + |word|] == s[k..k + |word|];
      IncludesAt(s[1..], word, k - 1);
    }
  }

  /** The normalised key includes a word exactly when some stretch of the key spells it loosely. */
  lemma IncludesWord(key: Text, word: string)
    requires WordUnits(Lit(word))
    ensures Includes(Normalized(key), Lit(word)) <==> HoldsWord(key, word)
  {
    hide Normalized, SpellsLoosely, Includes, Lit;
    var w := Lit(word);
    if Includes(Normalized(key), w) {
      var k := IncludedAt(Normalized(key), w);
      var i := StartOf(key, k);
      var m := StartOf(key[i..], |w|);
      assert key[i..][..m] == key[i..i + m];
      assert Normalized(key)[k..][..|w|] == Normalized(key)[k..k + |w|];
      LooselyNormalized(key[i..i + m], w);
    }
    if HoldsWord(key, word) {
      var i, j :| 0 <= i <= j <= |key| && SpellsLoosely(key[i..j], w);
      LooselyNormalized(key[i..j], w);
      assert key == key[..i] + (key[i..j] + key[j..]);
      NormalizedSplit(key[i..j], key[j..]);
      NormalizedSplit(key[..i], key[i..j] + key[j..]);
      var n := |Normalized(key[..i])|;
      assert Normalized(key)[n..n + |w|] == w;
      IncludesAt(Normalized(key), w, n);
    }
  }

  /** A key is denied exactly when some stretch of it is a fragment, in whatever case, other units strewn in. */
  lemma DeniedIff(kit: Kit, key: Text)
    ensures Denied(kit, key) <==> HoldsFragment(kit, key)
  {
    hide HoldsWord, Includes, Lit, NormalizeKey, Lower;
    assert Normalized(key) == NormalizeKey(Lower(key));
    if kit == Finance { FinanceWords(key); AccountWords(key); SharedWords(key); } else { UxWords(key); SharedWords(key); }
  }

  lemma LettersOnly(word: string)
    requires forall i | 0 <= i < |word| :: 'a' <= word[i] <= 'z'
    ensures WordUnits(Lit(word))
  {
  }

  lemma TheWord(key: Text, word: string)
    requires forall i | 0 <= i < |word| :: 'a' <= word[i] <= 'z'
    ensures Includes(Normalized(key), Lit(word)) <==> HoldsWord(key, word)
  {
    hide HoldsWord, Includes, Lit, Normalized, WordUnits;
    LettersOnly(word);
    IncludesWord(key, word);
  }

  lemma SharedWords(key: Text)
    ensures Includes(Normalized(key), Lit("password")) <==> HoldsWord(key, "password")
    ensures Includes(Normalized(key), Lit("secret")) <==> HoldsWord(key, "secret")
    ensures Includes(Normalized(key), Lit("token")) <==> HoldsWord(key, "token")
    ensures Includes(Normalized(key), Lit("apikey")) <==> HoldsWord(key, "apikey")
    ensures Includes(Normalized(key), Lit("clientsecret")) <==> HoldsWord(key, "clientsecret")
    ensures Includes(Normalized(key), Lit("authorization")) <==> HoldsWord(key, "authorization")
  {
    hide HoldsWord, Includes, Lit, Normalized;
    TheWord(key, "password");
    TheWord(key, "secret");
    TheWord(key, "token");
    TheWord(key, "apikey");
    TheWord(key, "clientsecret");
    TheWord(key, "authorization");
  }

  lemma FinanceWords(key: Text)
    ensures Includes(Normalized(key), Lit("iban")) <==> HoldsWord(key, "iban")
    ensures Includes(Normalized(key), Lit("cpf")) <==> HoldsWord(key, "cpf")
    ensures Includes(Normalized(key), Lit("cnpj")) <==> HoldsWord(key, "cnpj")
    ensures Includes(Normalized(key), Lit("cvv")) <==> HoldsWord(key, "cvv")
  {
    hide HoldsWord, Includes, Lit, Normalized;
    TheWord(key, "iban");
    TheWord(key, "cpf");
    TheWord(key, "cnpj");
    TheWord(key, "cvv");
  }

  lemma AccountWords(key: Text)
    ensures Includes(Normalized(key), Lit("accountnumber")) <==> HoldsWord(key, "accountnumber")
    ensures Includes(Normalized(key), Lit("creditcard")) <==> HoldsWord(key, "creditcard")
    ensures Includes(Normalized(key), Lit("bankaccount")) <==> HoldsWord(key, "bankaccount")
    ensures Includes(Normalized(key), Lit("routingnumber")) <==> HoldsWord(key, "routingnumber")
  {
    hide HoldsWord, Includes, Lit, Normalized;
    TheWord(key, "accountnumber");
    TheWord(key, "creditcard");
    TheWord(key, "bankaccount");
    TheWord(key, "routingnumber");
  }

  lemma UxWords(key: Text)
    ensures Includes(Normalized(key), Lit("privatekey")) <==> HoldsWord(key, "privatekey")
  {
    hide HoldsWord, Includes, Lit, Normalized;
    TheWord(key, "privatekey");
  }

  lemma ForbiddenIff(key: Text)
    ensures Forbidden(key) <==> IsContentKey(key)
  {
    hide Lower, Lit, Spells;
    LowerSpells(key, "content");
    LowerSpells(key, "body");
    LowerSpells(key, "rawcontent");
    LowerSpells(key, "fullcontent");
  }

  // ------------------------------------------------------------ what is left at every place

  /** No step of the path is behind a content key or a key that holds a fragment. */
  predicate Open(kit: Kit, path: seq<Step>) {
    forall i | 0 <= i < |path| && path[i].Key? :: !IsContentKey(path[i].key) && !HoldsFragment(kit, path[i].key)
  }

  lemma StepSanitized(kit: Kit, v: Json, step: Step)
    ensures Into(Sanitize(kit, v), step)
         == match Into(v, step)
            case None => None
            case Some(value) =>
              if step.Item? then Some(Sanitize(kit, value))
              else if IsContentKey(step.key) then None
              else Some(if HoldsFragment(kit, step.key) then Str(Tag()) else Sanitize(kit, value))
  {
    hide IsContentKey, HoldsFragment, Denied, Forbidden, Get, Keep, CleanText, Tag;
    if v.Obj? && step.Key? {
      DeniedIff(kit, step.key);
      ForbiddenIff(step.key);
      GetKept(SanitizeFields(kit, v.fields), Shown, step.key);
      GetSanitizedField(kit, v.fields, step.key);
    }
  }

  lemma {:induction false} GetSanitizedField(kit: Kit, fields: seq<Field>, key: Text)
    ensures Get(SanitizeFields(kit, fields), key)
         == match Get(fields, key)
            case None => None
            case Some(value) => Some(if Denied(kit, key) then Str(Tag()) else Sanitize(kit, value))
  {
    hide Denied, Sanitize, Tag;
    if fields != [] {
      var r := SanitizeFields(kit, fields);
      assert r[0] == SanitizeField(kit, fields[0]);
      assert r[1..] == SanitizeFields(kit, fields[1..]);
      GetSanitizedField(kit, fields[1..], key);
    }
  }

  lemma {:induction false} OpenPlace(kit: Kit, v: Json, path: seq<Step>)
    requires Open(kit, path)
    ensures At(Sanitize(kit, v), path)
         == match At(v, path) case None => None case Some(value) => Some(Sanitize(kit, value))
    decreases |path|
  {
    hide IsContentKey, HoldsFragment, Into, Sanitize, Tag;
    if path != [] {
      StepSanitized(kit, v, path[0]);
      var next := Into(v, path[0]);
      if next.Some? {
        OpenPlace(kit, next.value, path[1..]);
      }
    }
  }

  /**
   * Sanitizing decides every place. Behind open keys a text is cleaned and every other leaf kept; directly behind
   * a key that holds a fragment is the tag, and behind a content key nothing.
   */
  lemma SanitizedAt(kit: Kit, v: Json, path: seq<Step>)
    requires Open(kit, path)
    ensures At(Sanitize(kit, v), path).Some? <==> At(v, path).Some?
    ensures At(v, path).Some? ==>
              match At(v, path).value
              case Str(text) => At(Sanitize(kit, v), path) == Some(Str(CleanText(kit, text)))
              case Arr(items) => At(Sanitize(kit, v), path).value.Arr? && |At(Sanitize(kit, v), path).value.items| == |items|
              case Obj(_) => At(Sanitize(kit, v), path).value.Obj?
              case leaf => At(Sanitize(kit, v), path) == Some(leaf)
    ensures forall key | At(v, path + [Key(key)]).Some? ::
              && (IsContentKey(key) ==> At(Sanitize(kit, v), path + [Key(key)]).None?)
              && (!IsContentKey(key) && HoldsFragment(kit, key) ==>
                    At(Sanitize(kit, v), path + [Key(key)]) == Some(Str(Lit("[REDACTED]"))))
  {
    OpenPlace(kit, v, path);
    hide IsContentKey, HoldsFragment, Open, At, CleanText;
    forall key | At(v, path + [Key(key)]).Some?
      ensures IsContentKey(key) ==> At(Sanitize(kit, v), path + [Key(key)]).None?
      ensures !IsContentKey(key) && HoldsFragment(kit, key) ==>
                At(Sanitize(kit, v), path + [Key(key)]) == Some(Str(Lit("[REDACTED]")))
    {
      AtLast(v, path, Key(key));
      AtLast(Sanitize(kit, v), path, Key(key));
      StepSanitized(kit, At(v, path).value, Key(key));
    }
  }

  // ------------------------------------------------------------ what the scan refuses

  predicate LastKey(path: seq<Step>) {
    path != [] && path[|path| - 1].Key?
  }

  /** A place the scan objects to: a text with something left, a content key, or a fragment key without the tag. */
  predicate Objectionable(kit: Kit, v: Json, path: seq<Step>) {
    var found := At(v, path);
    found.Some?
    && ((found.value.Str? && Residual(kit, found.value.text))
        || (LastKey(path) &&
            var key := path[|path| - 1].key;
            IsContentKey(key) || (HoldsFragment(kit, key) && found.value != Str(Lit("[REDACTED]")))))
  }

  lemma AtFirst(v: Json, step: Step, path: seq<Step>)
    ensures At(v, [step] + path) == if Into(v, step).None? then None else At(Into(v, step).value, path)
    ensures LastKey([step] + path) <==> if path == [] then step.Key? else LastKey(path)
    ensures LastKey(path) ==> ([step] + path)[|path|].Key? && ([step] + path)[|path|] == path[|path| - 1]
  {
    assert ([step] + path)[1..] == path;
  }

  lemma {:induction false} UnsafePlace(kit: Kit, v: Json) returns (path: seq<Step>)
    requires WellFormed(v) && Unsafe(kit, v)
    ensures Objectionable(kit, v, path)
    decreases v
  {
    hide IsContentKey, HoldsFragment, Denied, Forbidden, Residual;
    path := [];
    match v
    case Arr(items) =>
      var i :| 0 <= i < |items| && Unsafe(kit, items[i]);
      var rest := UnsafePlace(kit, items[i]);
      AtFirst(v, Item(i), rest);
      path := [Item(i)] + rest;
    case Obj(fields) =>
      var i :| 0 <= i < |fields| && UnsafeField(kit, fields[i]);
      var step := Key(fields[i].key);
      GetFound(fields, i);
      if Unsafe(kit, fields[i].value) {
        var rest := UnsafePlace(kit, fields[i].value);
        AtFirst(v, step, rest);
        path := [step] + rest;
      } else {
        DeniedIff(kit, fields[i].key);
        ForbiddenIff(fields[i].key);
        AtFirst(v, step, []);
        path := [step];
        assert [step] + [] == [step];
      }
    case _ =>
  }

  lemma {:induction false} ObjectionableIsUnsafe(kit: Kit, v: Json, path: seq<Step>)
    requires Objectionable(kit, v, path)
    ensures Unsafe(kit, v)
    decreases |path|
  {
    hide IsContentKey, HoldsFragment, Denied, Forbidden, Residual, Get;
    if path != [] {
      var step, rest, x := path[0], path[1..], Into(v, path[0]).value;
      assert path == [step] + rest;
      AtFirst(v, step, rest);
      if Objectionable(kit, x, rest) {
        ObjectionableIsUnsafe(kit, x, rest);
        UnsafeBelow(kit, v, step);
      } else {
        DeniedIff(kit, step.key);
        ForbiddenIff(step.key);
        RefusedKey(kit, v, step.key);
      }
    }
  }

  lemma UnsafeBelow(kit: Kit, v: Json, step: Step)
    requires Into(v, step).Some? && Unsafe(kit, Into(v, step).value)
    ensures Unsafe(kit, v)
  {
    hide Denied, Forbidden, Residual, Get;
    if v.Obj? {
      var i :| 0 <= i < |v.fields| && v.fields[i] == Field(step.key, Into(v, step).value);
      assert UnsafeField(kit, v.fields[i]);
    }
  }

  lemma RefusedKey(kit: Kit, v: Json, key: Text)
    requires v.Obj? && Get(v.fields, key).Some?
    requires Forbidden(key) || (Denied(kit, key) && Get(v.fields, key).value != Str(Tag()))
    ensures Unsafe(kit, v)
  {
    hide Denied, Forbidden, Residual, Get;
    var i :| 0 <= i < |v.fields| && v.fields[i] == Field(key, Get(v.fields, key).value);
    assert UnsafeField(kit, v.fields[i]);
  }

  /** The scan refuses a value exactly when it objects to some place in it. */
  lemma ScanRefusesIff(kit: Kit, v: Json)
    requires WellFormed(v)
    ensures Unsafe(kit, v) <==> exists path :: Objectionable(kit, v, path)
  {
    hide Objectionable, Unsafe;
    if Unsafe(kit, v) {
      var path := UnsafePlace(kit, v);
    }
    if path :| Objectionable(kit, v, path) {
      ObjectionableIsUnsafe(kit, v, path);
    }
  }

  /** Whatever stands before and after it, a fragment in any case makes a key one that is tagged. */
  lemma FragmentInKey(kit: Kit, before: Text, t: Text, after: Text, word: string)
    requires word in FragmentWords(kit) && Spells(t, word)
    ensures HoldsFragment(kit, before + t + after)
  {
    hide FragmentWords;
    var key := before + t + after;
    SpellsIsLoose(t, word);
    assert key[|before|..|before| + |t|] == t;
    assert HoldsWord(key, word);
  }

  lemma {:induction false} SpellsIsLoose(t: Text, word: string)
    requires Spells(t, word)
    ensures SpellsLoosely(t, Lit(word))
  {
    if t != [] {
      assert UnitSpells(t[0], word[0] as int % 0x1_0000);
      assert forall i | 0 <= i < |t[1..]| :: t[1..][i] == t[i + 1] && word[1..][i] == word[i + 1];
      SpellsIsLoose(t[1..], word[1..]);
      assert Lit(word)[1..] == Lit(word[1..]);
    }
  }
}
