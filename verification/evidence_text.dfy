/**
 * Redaction of personal data and bearer tokens in text
 * (packages/employees/specialist-kit/src/finance-evidence.ts, ux-evidence.ts).
 */
module EvidenceText {
  import opened Texts
  import opened TextMeaning
  import opened Patterns

  function Digits(n: nat, rest: Pattern): Pattern {
    if n == 0 then rest else One(Digit, Digits(n - 1, rest))
  }

  function Letters(word: Text, rest: Pattern): Pattern {
    if word == [] then rest else One(Letter(word[0]), Letters(word[1..], rest))
  }

  function Repeat(n: nat, cls: Class, rest: Pattern): Pattern {
    if n == 0 then rest else One(cls, Repeat(n - 1, cls, rest))
  }

  const DOT := Is('.' as int)
  const DASH := Is('-' as int)
  const SLASH := Is('/' as int)

  function Cpf(): (p: Pattern)
    ensures p.One? && p.cls == Digit
  {
    Digits(3, One(DOT, Digits(3, One(DOT, Digits(3, One(DASH, Digits(2, End)))))))
  }

  function Cnpj(): (p: Pattern)
    ensures p.One? && p.cls == Digit
  {
    Digits(2, One(DOT, Digits(3, One(DOT, Digits(3, One(SLASH, Digits(4, One(DASH, Digits(2, End)))))))))
  }

  function Card(): (p: Pattern)
    ensures p.One? && p.cls == Digit
  {
    Digits(4, Maybe(Gap, Digits(4, Maybe(Gap, Digits(4, Maybe(Gap, Digits(4, End)))))))
  }

  /** /bearer\s+[a-z0-9._\-]{n,}/i, n being at least one. */
  function BearerOf(n: nat): (p: Pattern)
    ensures p.One? && p.cls == Letter('b' as int)
  {
    Letters(Lit("bearer"), One(Space, Many(Space, Repeat(n, Word, Many(Word, End)))))
  }

  function Bearer(): Pattern {
    BearerOf(1)
  }

  function Tag(): (t: Text)
    ensures |t| == 10 && t[0] == '[' as int && forall i | 0 <= i < |t| :: !In(Digit, t[i]) && t[i] != 'b' as int && t[i] != 'B' as int
  {
    Lit("[REDACTED]")
  }

  function BearerTag(): (t: Text)
    ensures t == Lit("Bearer ") + Tag() && t[0] == 'B' as int
    ensures forall i | 0 <= i < |t| :: !In(Digit, t[i])
    ensures forall i | 1 <= i < |t| :: !In(Letter('b' as int), t[i])
  {
    Lit("Bearer [REDACTED]")
  }

  function RedactFinancePii(text: Text): Text {
    Replace(Card(), Tag(), Replace(Cnpj(), Tag(), Replace(Cpf(), Tag(), text)))
  }

  predicate ResidualFinancePii(text: Text) {
    Test(Cpf(), text) || Test(Cnpj(), text) || Test(Card(), text)
  }

  function RedactUxText(text: Text): Text {
    Replace(Bearer(), BearerTag(), RedactFinancePii(text))
  }

  predicate Marked(text: Text) {
    var lower := Lower(text);
    || Includes(lower, Lit("begin private key")) || Includes(lower, Lit("aws_secret")) || Includes(lower, Lit("api_key="))
  }

  predicate ResidualUxSecrets(text: Text) {
    ResidualFinancePii(text) || Test(BearerOf(8), text) || Marked(text)
  }

  // ------------------------------------------------------------ what the patterns denote

  /** Digits at every position of the text but those given, which hold the given units. */
  predicate Shaped(w: Text, marks: map<nat, Unit>) {
    forall i | 0 <= i < |w| :: if i in marks then w[i] == marks[i] else '0' as int <= w[i] <= '9' as int
  }

  lemma {:induction false} DigitsDenote(n: nat, rest: Pattern, w: Text)
    ensures Denotes(Digits(n, rest), w) <==> n <= |w| && (forall i | 0 <= i < n :: In(Digit, w[i])) && Denotes(rest, w[n..])
  {
    if n == 0 {
      assert w[0..] == w;
    } else if w != [] {
      DigitsDenote(n - 1, rest, w[1..]);
      if n <= |w| {
        assert w[1..][n - 1..] == w[n..];
        assert forall i | 1 <= i < n :: w[1..][i - 1] == w[i];
        assert (forall i | 0 <= i < n :: In(Digit, w[i])) <==>
               In(Digit, w[0]) && forall i | 0 <= i < n - 1 :: In(Digit, w[1..][i]);
      }
    }
  }

  predicate DigitsAt(w: Text, i: nat, n: nat) {
    i + n <= |w| && forall k | i <= k < i + n :: In(Digit, w[k])
  }

  /** From a position on, a group of digits and a unit, then the rest. */
  lemma GroupAt(n: nat, unit: Unit, rest: Pattern, w: Text, i: nat)
    requires i <= |w|
    ensures Denotes(Digits(n, One(Is(unit), rest)), w[i..]) <==>
            i + n < |w| && DigitsAt(w, i, n) && w[i + n] == unit && Denotes(rest, w[i + n + 1..])
  {
    var v := w[i..];
    DigitsDenote(n, One(Is(unit), rest), v);
    assert forall k | 0 <= k < |v| :: v[k] == w[i + k];
    assert i + n <= |w| ==> (DigitsAt(w, i, n) <==> forall k | 0 <= k < n :: In(Digit, v[k])) by {
      assert forall k | i <= k < |w| :: w[k] == v[k - i];
    }
    if n < |v| {
      assert v[n..][1..] == w[i + n + 1..];
    }
  }

  lemma EndAt(n: nat, w: Text, i: nat)
    requires i <= |w|
    ensures Denotes(Digits(n, End), w[i..]) <==> |w| == i + n && DigitsAt(w, i, n)
  {
    var v := w[i..];
    DigitsDenote(n, End, v);
    assert forall k | 0 <= k < |v| :: v[k] == w[i + k];
    assert forall k | i <= k < |w| :: w[k] == v[k - i];
  }

  /** A CPF is ddd.ddd.ddd-dd. */
  lemma CpfDenotes(w: Text)
    ensures Denotes(Cpf(), w) <==> |w| == 14 && Shaped(w, map[3 := '.' as int, 7 := '.' as int, 11 := '-' as int])
  {
    var p2 := Digits(2, End);
    var p3 := Digits(3, One(DASH, p2));
    var p4 := Digits(3, One(DOT, p3));
    hide Digits, Denotes, DigitsAt, Shaped;
    CpfIs();
    assert w[0..] == w;
    GroupAt(3, '.' as int, p4, w, 0);
    if |w| >= 4 { GroupAt(3, '.' as int, p3, w, 4); }
    if |w| >= 8 { GroupAt(3, '-' as int, p2, w, 8); }
    if |w| >= 12 { EndAt(2, w, 12); }
    CpfPositions(w);
  }

  lemma CpfPositions(w: Text)
    ensures |w| == 14 ==>
              (Shaped(w, map[3 := '.' as int, 7 := '.' as int, 11 := '-' as int]) <==>
               DigitsAt(w, 0, 3) && w[3] == '.' as int && DigitsAt(w, 4, 3) && w[7] == '.' as int
               && DigitsAt(w, 8, 3) && w[11] == '-' as int && DigitsAt(w, 12, 2))
  {
  }

  /** A CNPJ is dd.ddd.ddd/dddd-dd. */
  lemma CnpjDenotes(w: Text)
    ensures Denotes(Cnpj(), w) <==>
            |w| == 18 && Shaped(w, map[2 := '.' as int, 6 := '.' as int, 10 := '/' as int, 15 := '-' as int])
  {
    hide Digits, Denotes, DigitsAt, Shaped, In;
    var p2 := Digits(2, End);
    var p3 := Digits(4, One(DASH, p2));
    var p4 := Digits(3, One(SLASH, p3));
    CnpjIs();
    assert w[0..] == w;
    GroupAt(2, '.' as int, Digits(3, One(DOT, p4)), w, 0);
    if |w| >= 3 { GroupAt(3, '.' as int, p4, w, 3); }
    if |w| >= 7 { CnpjTail(w); }
    CnpjPositions(w);
  }

  lemma CnpjTail(w: Text)
    requires |w| >= 7
    ensures var p2 := Digits(2, End);
            Denotes(Digits(3, One(SLASH, Digits(4, One(DASH, p2)))), w[7..]) <==>
              |w| == 18 && DigitsAt(w, 7, 3) && w[10] == '/' as int && DigitsAt(w, 11, 4) && w[15] == '-' as int && DigitsAt(w, 16, 2)
  {
    hide Digits, Denotes, DigitsAt, In;
    var p2 := Digits(2, End);
    var p3 := Digits(4, One(DASH, p2));
    GroupAt(3, '/' as int, p3, w, 7);
    if |w| >= 11 { GroupAt(4, '-' as int, p2, w, 11); }
    if |w| >= 16 { EndAt(2, w, 16); }
  }

  lemma CnpjPositions(w: Text)
    ensures |w| == 18 ==>
              (Shaped(w, map[2 := '.' as int, 6 := '.' as int, 10 := '/' as int, 15 := '-' as int]) <==>
               DigitsAt(w, 0, 2) && w[2] == '.' as int && DigitsAt(w, 3, 3) && w[6] == '.' as int
               && DigitsAt(w, 7, 3) && w[10] == '/' as int && DigitsAt(w, 11, 4) && w[15] == '-' as int && DigitsAt(w, 16, 2))
  {
  }

  lemma CpfIs()
    ensures Cpf() == Digits(3, One(DOT, Digits(3, One(DOT, Digits(3, One(DASH, Digits(2, End)))))))
  {
  }

  lemma CnpjIs()
    ensures Cnpj() == Digits(2, One(DOT, Digits(3, One(DOT, Digits(3, One(SLASH, Digits(4, One(DASH, Digits(2, End)))))))))
  {
  }

  /** Groups of four digits, each next one after at most one unit of white space or dash. */
  predicate FourGroups(n: nat, w: Text) {
    && |w| >= 4 && (forall i | 0 <= i < 4 :: '0' as int <= w[i] <= '9' as int)
    && if n <= 1 then |w| == 4
       else FourGroups(n - 1, w[4..]) || (|w| > 4 && (White(w[4]) || w[4] == '-' as int) && FourGroups(n - 1, w[5..]))
  }

  function CardGroups(n: nat): Pattern {
    if n <= 1 then Digits(4, End) else Digits(4, Maybe(Gap, CardGroups(n - 1)))
  }

  lemma {:induction false} GroupsDenote(n: nat, w: Text)
    ensures Denotes(CardGroups(n), w) <==> FourGroups(n, w)
  {
    hide Digits, White, IsSpace;
    if n <= 1 {
      assert w[0..] == w;
      EndAt(4, w, 0);
    } else {
      DigitsDenote(4, Maybe(Gap, CardGroups(n - 1)), w);
      if |w| >= 4 {
        GroupsDenote(n - 1, w[4..]);
        if |w| > 4 {
          WhiteIsSpace(w[4]);
          assert w[4..][1..] == w[5..];
          GroupsDenote(n - 1, w[5..]);
        }
      }
    }
  }

  /** A card number is four groups of four digits. */
  lemma CardDenotes(w: Text)
    ensures Denotes(Card(), w) <==> FourGroups(4, w)
  {
    GroupsDenote(4, w);
    hide Denotes, FourGroups;
    assert CardGroups(2) == Digits(4, Maybe(Gap, Digits(4, End)));
    assert CardGroups(4) == Card();
  }

  /** A text of `cls*` and the rest splits where the rest begins. */
  lemma {:induction false} ManySplit(cls: Class, rest: Pattern, w: Text) returns (k: nat)
    requires Denotes(Many(cls, rest), w)
    ensures k <= |w| && AllIn(cls, w[..k]) && Denotes(rest, w[k..])
  {
    if Denotes(rest, w) {
      k := 0;
      assert w[0..] == w;
    } else {
      var j := ManySplit(cls, rest, w[1..]);
      k := j + 1;
      assert w[..k] == [w[0]] + w[1..][..j] && w[k..] == w[1..][j..];
      AllInMore(cls, w[0], w[1..][..j]);
    }
  }

  lemma {:induction false} ManyJoined(cls: Class, rest: Pattern, w: Text, k: nat)
    requires k <= |w| && AllIn(cls, w[..k]) && Denotes(rest, w[k..])
    ensures Denotes(Many(cls, rest), w)
  {
    if k == 0 {
      assert w[0..] == w;
    } else {
      assert w[..k] == [w[0]] + w[1..][..k - 1] && w[1..][k - 1..] == w[k..];
      AllInMore(cls, w[0], w[1..][..k - 1]);
      ManyJoined(cls, rest, w[1..], k - 1);
    }
  }

  predicate AllIn(cls: Class, w: Text) {
    forall i | 0 <= i < |w| :: In(cls, w[i])
  }

  lemma {:induction false} LettersDenote(word: Text, rest: Pattern, w: Text)
    ensures Denotes(Letters(word, rest), w) <==>
            |word| <= |w| && (forall i | 0 <= i < |word| :: In(Letter(word[i]), w[i])) && Denotes(rest, w[|word|..])
  {
    if word == [] {
      assert w[0..] == w;
    } else if w != [] {
      LettersDenote(word[1..], rest, w[1..]);
      if |word| <= |w| {
        assert w[1..][|word| - 1..] == w[|word|..];
        assert forall i | 1 <= i < |word| :: w[1..][i - 1] == w[i] && word[1..][i - 1] == word[i];
        assert (forall i | 0 <= i < |word| :: In(Letter(word[i]), w[i])) <==>
               In(Letter(word[0]), w[0]) && forall i | 0 <= i < |word| - 1 :: In(Letter(word[1..][i]), w[1..][i]);
      }
    }
  }

  /** White space up to k, and at least n token units from there to the end. */
  predicate TokenFrom(n: nat, w: Text, k: nat) {
    7 <= k && k + n <= |w| && AllIn(Space, w[6..k]) && AllIn(Word, w[k..])
  }

  predicate TokenUnit(c: Unit) {
    || 'a' as int <= c <= 'z' as int || 'A' as int <= c <= 'Z' as int || '0' as int <= c <= '9' as int
    || c == '.' as int || c == '_' as int || c == '-' as int
  }

  /** The word in either case at the start. */
  predicate BearerWord(w: Text) {
    && |w| >= 6 && (w[0] == 'b' as int || w[0] == 'B' as int) && (w[1] == 'e' as int || w[1] == 'E' as int)
    && (w[2] == 'a' as int || w[2] == 'A' as int) && (w[3] == 'r' as int || w[3] == 'R' as int)
    && (w[4] == 'e' as int || w[4] == 'E' as int) && (w[5] == 'r' as int || w[5] == 'R' as int)
  }

  /** From the seventh unit on white space, at least one unit, up to k, and a token of at least n units to the end. */
  predicate SpaceThenToken(n: nat, w: Text, k: nat) {
    && 7 <= k && k + n <= |w| && (forall i | 6 <= i < k :: White(w[i])) && (forall i | k <= i < |w| :: TokenUnit(w[i]))
  }

  /** The word in any case, white space, and a token of at least n units. */
  ghost predicate BearerShaped(n: nat, w: Text) {
    BearerWord(w) && exists k: nat :: SpaceThenToken(n, w, k)
  }

  lemma BearerWordIs(w: Text)
    ensures BearerWord(w) <==> |w| >= 6 && forall i | 0 <= i < 6 :: In(Letter(Lit("bearer")[i]), w[i])
  {
    var word := Lit("bearer");
    assert word[0] == 'b' as int && word[1] == 'e' as int && word[2] == 'a' as int;
    assert word[3] == 'r' as int && word[4] == 'e' as int && word[5] == 'r' as int;
    hide Lit;
    if BearerWord(w) {
      forall i | 0 <= i < 6 ensures In(Letter(word[i]), w[i]) {
        assert i == 0 || i == 1 || i == 2 || i == 3 || i == 4 || i == 5;
      }
    }
  }

  lemma TokenFromIs(n: nat, w: Text, k: nat)
    ensures TokenFrom(n, w, k) <==> SpaceThenToken(n, w, k)
  {
    if 7 <= k && k + n <= |w| {
      forall c ensures (White(c) <==> In(Space, c)) && (TokenUnit(c) <==> In(Word, c)) {
        WhiteIsSpace(c);
      }
      hide In, White, TokenUnit;
      assert forall i | 6 <= i < k :: w[i] == w[6..k][i - 6];
      assert forall i | k <= i < |w| :: w[i] == w[k..][i - k];
    }
  }

  lemma {:induction false} TokenDenotes(n: nat, w: Text)
    ensures Denotes(Repeat(n, Word, Many(Word, End)), w) <==> |w| >= n && AllIn(Word, w)
  {
    if n == 0 {
      if Denotes(Many(Word, End), w) {
        var k := ManySplit(Word, End, w);
        assert w[..k] == w;
      }
      if AllIn(Word, w) {
        assert w[..|w|] == w && w[|w|..] == [];
        ManyJoined(Word, End, w, |w|);
      }
    } else if w != [] {
      TokenDenotes(n - 1, w[1..]);
      assert [w[0]] + w[1..] == w;
      AllInMore(Word, w[0], w[1..]);
    }
  }

  /** A bearer token is the word in any case, white space, and a token of at least so many units. */
  lemma BearerDenotes(n: nat, w: Text)
    ensures Denotes(BearerOf(n), w) <==> BearerShaped(n, w)
  {
    BearerIs(n);
    BearerWordIs(w);
    forall k: nat ensures TokenFrom(n, w, k) <==> SpaceThenToken(n, w, k) {
      TokenFromIs(n, w, k);
    }
    hide BearerOf, Letters, In, Lit, TokenFrom, Denotes, BearerWord, SpaceThenToken;
    LettersDenote(Lit("bearer"), Spaced(n), w);
    if |w| > 6 {
      SpacesAndToken(n, w);
    } else if |w| == 6 {
      assert w[6..] == [];
      SpacedNotEmpty(n);
      NoTokenInSix(n, w);
    }
  }

  lemma NoTokenInSix(n: nat, w: Text)
    requires |w| <= 6
    ensures forall k: nat :: !SpaceThenToken(n, w, k)
  {
  }

  function Spaced(n: nat): Pattern {
    One(Space, Many(Space, Repeat(n, Word, Many(Word, End))))
  }

  lemma SpacedNotEmpty(n: nat)
    ensures !Denotes(Spaced(n), [])
  {
  }

  lemma SpacesAndToken(n: nat, w: Text)
    requires |w| > 6
    ensures Denotes(Spaced(n), w[6..]) <==> exists k: nat :: TokenFrom(n, w, k)
  {
    var token, v := Repeat(n, Word, Many(Word, End)), w[7..];
    assert w[6..][1..] == v && w[6..][0] == w[6];
    assert Denotes(Spaced(n), w[6..]) <==> In(Space, w[6]) && Denotes(Many(Space, token), v);
    hide In, Denotes, AllIn, TokenFrom, Repeat;
    if In(Space, w[6]) && Denotes(Many(Space, token), v) {
      var k := ManySplit(Space, token, v);
      TokenAt(n, w, k);
    }
    if k: nat :| TokenFrom(n, w, k) {
      TokenWithin(n, w, k);
      TokenAt(n, w, k - 7);
      ManyJoined(Space, token, v, k - 7);
    }
  }

  lemma TokenWithin(n: nat, w: Text, k: nat)
    requires TokenFrom(n, w, k)
    ensures 7 <= k <= |w|
  {
  }

  lemma TokenAt(n: nat, w: Text, k: nat)
    requires 7 + k <= |w|
    ensures AllIn(Space, w[7..][..k]) && Denotes(Repeat(n, Word, Many(Word, End)), w[7..][k..]) && In(Space, w[6])
       <==> TokenFrom(n, w, 7 + k)
  {
    hide Denotes, In, Repeat, AllIn;
    var v := w[7..];
    TokenDenotes(n, v[k..]);
    SpacesAt(w, k);
    AllInMore(Space, w[6], v[..k]);
  }

  lemma SpacesAt(w: Text, k: nat)
    requires 7 + k <= |w|
    ensures w[7..][k..] == w[7 + k..] && w[6..7 + k] == [w[6]] + w[7..][..k]
  {
    assert forall i | 0 <= i < k :: w[7..][..k][i] == w[7 + i];
  }

  lemma AllInMore(cls: Class, c: Unit, w: Text)
    ensures AllIn(cls, [c] + w) <==> In(cls, c) && AllIn(cls, w)
  {
    hide In;
    var all := [c] + w;
    assert all[0] == c && forall i | 0 <= i < |w| :: all[i + 1] == w[i];
    assert forall i | 1 <= i < |all| :: all[i] == w[i - 1];
  }

  lemma BearerIs(n: nat)
    ensures BearerOf(n) == Letters(Lit("bearer"), Spaced(n))
  {
  }

  // ------------------------------------------------------------ classes of the patterns

  function DigitClasses(): set<Class> {
    {Digit, Gap, DOT, DASH, SLASH}
  }

  function BearerClasses(): set<Class> {
    {Letter('b' as int), Letter('e' as int), Letter('a' as int), Letter('r' as int), Space, Word}
  }

  lemma WithinOne(cls: Class, rest: Pattern, classes: set<Class>)
    requires cls in classes && Within(rest, classes)
    ensures Within(One(cls, rest), classes)
  {
  }

  lemma {:induction false} DigitsWithin(n: nat, rest: Pattern, classes: set<Class>)
    requires Digit in classes && Within(rest, classes)
    ensures Within(Digits(n, rest), classes)
  {
    if n > 0 {
      hide Within;
      DigitsWithin(n - 1, rest, classes);
      WithinOne(Digit, Digits(n - 1, rest), classes);
    }
  }

  lemma CpfWithin(cs: set<Class>)
    requires Digit in cs && DOT in cs && DASH in cs
    ensures Within(Cpf(), cs)
  {
    DigitsWithin(2, End, cs);
    DigitsWithin(3, One(DASH, Digits(2, End)), cs);
    var last := Digits(3, One(DASH, Digits(2, End)));
    DigitsWithin(3, One(DOT, last), cs);
    DigitsWithin(3, One(DOT, Digits(3, One(DOT, last))), cs);
  }

  lemma CnpjWithin(cs: set<Class>)
    requires Digit in cs && DOT in cs && DASH in cs && SLASH in cs
    ensures Within(Cnpj(), cs)
  {
    DigitsWithin(2, End, cs);
    DigitsWithin(4, One(DASH, Digits(2, End)), cs);
    var last := Digits(4, One(DASH, Digits(2, End)));
    DigitsWithin(3, One(SLASH, last), cs);
    DigitsWithin(3, One(DOT, Digits(3, One(SLASH, last))), cs);
    DigitsWithin(2, One(DOT, Digits(3, One(DOT, Digits(3, One(SLASH, last))))), cs);
  }

  lemma CardWithin(cs: set<Class>)
    requires Digit in cs && Gap in cs
    ensures Within(Card(), cs)
  {
    var last := Digits(4, End);
    DigitsWithin(4, End, cs);
    DigitsWithin(4, Maybe(Gap, last), cs);
    DigitsWithin(4, Maybe(Gap, Digits(4, Maybe(Gap, last))), cs);
    DigitsWithin(4, Maybe(Gap, Digits(4, Maybe(Gap, Digits(4, Maybe(Gap, last))))), cs);
  }

  lemma NumbersWithin()
    ensures Within(Cpf(), DigitClasses()) && Within(Cnpj(), DigitClasses()) && Within(Card(), DigitClasses())
  {
    CpfWithin(DigitClasses());
    CnpjWithin(DigitClasses());
    CardWithin(DigitClasses());
  }

  lemma {:induction false} LettersWithin(word: Text, rest: Pattern, classes: set<Class>)
    requires Within(rest, classes) && forall i | 0 <= i < |word| :: Letter(word[i]) in classes
    ensures Within(Letters(word, rest), classes)
  {
    if word != [] {
      LettersWithin(word[1..], rest, classes);
    }
  }

  lemma BearerWithin()
    ensures Within(Bearer(), BearerClasses())
  {
    var tail := One(Space, Many(Space, Repeat(1, Word, Many(Word, End))));
    assert Repeat(1, Word, Many(Word, End)) == One(Word, Many(Word, End));
    assert Within(tail, BearerClasses());
    LettersWithin(Lit("bearer"), tail, BearerClasses());
  }

  // ------------------------------------------------------------ what the replacements shadow

  lemma TagCovers(q: Pattern, r: Text)
    requires r != [] && (r[0] == '[' as int || r[0] == 'B' as int)
    ensures Covers(DigitClasses(), q, r)
  {
    forall s, t | Match(q, s).Some? ensures Shadows(DigitClasses(), r + t, s) {
      assert Barrier(DigitClasses(), (r + t)[0]);
    }
  }

  /** What the pattern of a word takes starts with the word. */
  lemma {:induction false} LettersMatched(word: Text, rest: Pattern, s: Text)
    ensures Match(Letters(word, rest), s).Some? ==>
              && |s| >= |word| && Match(rest, s[|word|..]).Some?
              && forall i | 0 <= i < |word| :: In(Letter(word[i]), s[i])
  {
    if word == [] {
      assert s[0..] == s;
    } else if s != [] {
      LettersMatched(word[1..], rest, s[1..]);
      if |s| >= |word| {
        assert s[1..][|word| - 1..] == s[|word|..];
        assert forall i | 1 <= i < |word| :: word[1..][i - 1] == word[i] && s[1..][i - 1] == s[i];
      }
    }
  }

  /** Texts alike up to a barrier shadow each other. */
  lemma {:induction false} ShadowPrefix(classes: set<Class>, a: Text, b: Text, n: nat)
    requires n < |a| && n <= |b| && Barrier(classes, a[n])
    requires forall i | 0 <= i < n :: Alike(classes, a[i], b[i])
    ensures Shadows(classes, a, b)
  {
    if n > 0 {
      ShadowPrefix(classes, a[1..], b[1..], n - 1);
    }
  }

  function Token(n: nat): Pattern {
    Repeat(n, Word, Many(Word, End))
  }

  lemma SpaceMatched(p: Pattern, s: Text)
    requires Match(One(Space, p), s).Some?
    ensures s != [] && IsSpace(s[0])
  {
  }

  /** What the bearer pattern takes starts with the word, in any case, and a space. */
  lemma BearerMatched(s: Text)
    requires Match(Bearer(), s).Some?
    ensures |s| > 6 && IsSpace(s[6]) && forall i | 0 <= i < 6 :: In(Letter(Lit("bearer")[i]), s[i])
  {
    LettersMatched(Lit("bearer"), One(Space, Many(Space, Token(1))), s);
    SpaceMatched(Many(Space, Token(1)), s[6..]);
  }

  lemma AlikeLetters(letter: Unit, c: Unit, d: Unit)
    requires 'a' as int <= letter <= 'z' as int && In(Letter(letter), c) && In(Letter(letter), d)
    ensures Alike(BearerClasses(), c, d)
  {
  }

  lemma AlikeSpaces(c: Unit)
    requires IsSpace(c)
    ensures Alike(BearerClasses(), ' ' as int, c)
  {
  }

  lemma BearerTagUnits()
    ensures forall i | 0 <= i < 6 :: In(Letter(Lit("bearer")[i]), BearerTag()[i]) && 'a' as int <= Lit("bearer")[i] <= 'z' as int
    ensures BearerTag()[6] == ' ' as int && BearerTag()[7] == '[' as int && Barrier(BearerClasses(), '[' as int)
  {
  }

  lemma BearerShadow(s: Text, t: Text)
    requires Match(Bearer(), s).Some?
    ensures Shadows(BearerClasses(), BearerTag() + t, s)
  {
    BearerMatched(s);
    BearerTagUnits();
    hide Lit, BearerClasses, In, IsSpace, Barrier, Alike, Match, BearerTag, Shadows;
    var a := BearerTag() + t;
    forall i | 0 <= i < 7 ensures Alike(BearerClasses(), a[i], s[i]) {
      if i < 6 { AlikeLetters(Lit("bearer")[i], a[i], s[i]); } else { AlikeSpaces(s[6]); }
    }
    ShadowPrefix(BearerClasses(), a, s, 7);
  }

  lemma BearerCovers()
    ensures Covers(BearerClasses(), Bearer(), BearerTag())
  {
    hide Bearer, BearerTag, BearerClasses, Match, Shadows;
    forall s, t | Match(Bearer(), s).Some? ensures Shadows(BearerClasses(), BearerTag() + t, s) {
      BearerShadow(s, t);
    }
  }

  /** The tag itself is not a bearer token. */
  lemma BearerTagSpent(t: Text)
    ensures Match(Bearer(), BearerTag() + t).None?
  {
    var a := BearerTag() + t;
    LettersMatched(Lit("bearer"), One(Space, Many(Space, Token(1))), a);
    assert a[6..][0] == ' ' as int && a[6..][1] == '[' as int;
    NoToken(a[6..]);
  }

  lemma NoToken(s: Text)
    requires |s| > 1 && s[0] == ' ' as int && s[1] == '[' as int
    ensures Match(One(Space, Many(Space, Token(1))), s).None?
  {
    assert Token(1) == One(Word, Many(Word, End));
    assert Match(Token(1), s[1..]).None?;
    assert Match(Many(Space, Token(1)), s[1..]).None?;
  }

  // ------------------------------------------------------------ main properties

  predicate CreatesNothing(q: Pattern, r: Text) {
    q.One? && r != [] && (r[0] == '[' as int || r[0] == 'B' as int) && forall i | 0 <= i < |r| :: !In(Digit, r[i])
  }

  lemma NumbersStayOut(p: Pattern, q: Pattern, r: Text, s: Text)
    requires CreatesNothing(q, r) && p in {Cpf(), Cnpj(), Card()}
    ensures Test(p, Replace(q, r, s)) ==> Test(p, s)
  {
    hide Test, Replace, Covers, Within, DigitClasses;
    NumbersWithin();
    TagCovers(q, r);
    if Test(p, Replace(q, r, s)) {
      CreatesNone(DigitClasses(), p, q, r, s);
    }
  }

  lemma NumbersLeave(p: Pattern, s: Text)
    requires p in {Cpf(), Cnpj(), Card()}
    ensures !Test(p, Replace(p, Tag(), s))
  {
    hide Test, Replace, Covers, Within, DigitClasses;
    NumbersWithin();
    TagCovers(p, Tag());
    forall t ensures Match(p, Tag() + t).None? {
      assert !In(Digit, (Tag() + t)[0]);
    }
    LeavesNone(DigitClasses(), p, Tag(), s);
  }

  /** The three passes leave no CPF, CNPJ or card number, whatever each of them put together. */
  lemma FinanceRedactionComplete(text: Text)
    ensures !ResidualFinancePii(RedactFinancePii(text))
  {
    hide Test, Replace, Cpf, Cnpj, Card;
    var a := Replace(Cpf(), Tag(), text);
    var b := Replace(Cnpj(), Tag(), a);
    NumbersLeave(Cpf(), text);
    NumbersLeave(Cnpj(), a);
    NumbersLeave(Card(), b);
    NumbersStayOut(Cpf(), Cnpj(), Tag(), a);
    NumbersStayOut(Cpf(), Card(), Tag(), b);
    NumbersStayOut(Cnpj(), Card(), Tag(), b);
  }

  /** A text is left alone exactly when it holds none of the three. */
  lemma FinanceRedactionIdentityIff(text: Text)
    ensures RedactFinancePii(text) == text <==> !ResidualFinancePii(text)
  {
    FinanceRedactionComplete(text);
    hide Test, Replace, Cpf, Cnpj, Card;
    if !ResidualFinancePii(text) {
      ReplaceNothing(Cpf(), Tag(), text);
      ReplaceNothing(Cnpj(), Tag(), text);
      ReplaceNothing(Card(), Tag(), text);
    }
  }

  /** None of the four survives the four passes, and none is created by them. */
  lemma UxRedactionComplete(text: Text)
    ensures !ResidualFinancePii(RedactUxText(text)) && !Test(Bearer(), RedactUxText(text))
  {
    hide Test, Replace, Cpf, Cnpj, Card, Bearer, BearerTag;
    var a := RedactFinancePii(text);
    FinanceRedactionComplete(text);
    BearerOne();
    NumbersStayOut(Cpf(), Bearer(), BearerTag(), a);
    NumbersStayOut(Cnpj(), Bearer(), BearerTag(), a);
    NumbersStayOut(Card(), Bearer(), BearerTag(), a);
    BearerLeaves(a);
  }

  lemma BearerOne()
    ensures CreatesNothing(Bearer(), BearerTag())
  {
  }

  lemma BearerLeaves(s: Text)
    ensures !Test(Bearer(), Replace(Bearer(), BearerTag(), s))
  {
    BearerWithin();
    BearerCovers();
    forall t ensures Match(Bearer(), BearerTag() + t).None? {
      BearerTagSpent(t);
    }
    hide Match, Covers, Within, BearerClasses;
    LeavesNone(BearerClasses(), Bearer(), BearerTag(), s);
  }

  lemma UxRedactionIdentityIff(text: Text)
    ensures RedactUxText(text) == text <==> !ResidualFinancePii(text) && !Test(Bearer(), text)
  {
    UxRedactionComplete(text);
    hide Test, Replace, Cpf, Cnpj, Card, Bearer, BearerTag;
    BearerOne();
    if !ResidualFinancePii(text) && !Test(Bearer(), text) {
      FinanceRedactionIdentityIff(text);
      ReplaceNothing(Bearer(), BearerTag(), text);
    }
  }

  /** The residual check asks for at least eight units of token; the redactor takes any. */
  lemma {:induction false} LongTokenIsToken(s: Text)
    requires Test(BearerOf(8), s)
    ensures Test(Bearer(), s)
  {
    if Match(BearerOf(8), s).Some? {
      LettersMatched(Lit("bearer"), One(Space, Many(Space, Token(8))), s);
      SpacesThenToken(s[6..]);
      WordThen(Lit("bearer"), One(Space, Many(Space, Token(1))), s);
    } else {
      hide Match;
      LongTokenIsToken(s[1..]);
    }
  }

  lemma {:induction false} WordThen(word: Text, rest: Pattern, s: Text)
    requires |s| >= |word| && Match(rest, s[|word|..]).Some?
    requires forall i | 0 <= i < |word| :: In(Letter(word[i]), s[i])
    ensures Match(Letters(word, rest), s).Some?
  {
    if word == [] {
      assert s[0..] == s;
    } else {
      assert s[1..][|word| - 1..] == s[|word|..];
      WordThen(word[1..], rest, s[1..]);
    }
  }

  lemma SpacesThenToken(s: Text)
    requires Match(One(Space, Many(Space, Token(8))), s).Some?
    ensures Match(One(Space, Many(Space, Token(1))), s).Some?
  {
    ManySpaces(s[1..]);
  }

  lemma {:induction false} ManySpaces(s: Text)
    requires Match(Many(Space, Token(8)), s).Some?
    ensures Match(Many(Space, Token(1)), s).Some?
  {
    if s != [] && IsSpace(s[0]) && Match(Many(Space, Token(8)), s[1..]).Some? {
      ManySpaces(s[1..]);
    } else {
      assert Match(Token(8), s).Some?;
      assert Token(1) == One(Word, Many(Word, End)) && Token(8) == One(Word, Token(7));
      assert Match(End, s[1..]).Some?;
      assert Match(Many(Word, End), s[1..]).Some?;
    }
  }
}
