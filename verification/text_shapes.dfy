/**
 * What the redactors look for, said about the units of the text
 * (packages/employees/specialist-kit/src/finance-evidence.ts:14-22, 96-120, ux-evidence.ts:24-40, 104-125).
 */
module TextShapes {
  import opened Texts
  import opened TextMeaning
  import opened Folding
  import opened Patterns
  import opened EvidenceText

  // ------------------------------------------------------------ numbers

  /** ddd.ddd.ddd-dd, dd.ddd.ddd/dddd-dd, or four groups of four digits with at most one gap between two. */
  predicate NumberShaped(w: Text) {
    || (|w| == 14 && Shaped(w, map[3 := '.' as int, 7 := '.' as int, 11 := '-' as int]))
    || (|w| == 18 && Shaped(w, map[2 := '.' as int, 6 := '.' as int, 10 := '/' as int, 15 := '-' as int]))
    || FourGroups(4, w)
  }

  /** A text holds a number to redact exactly when some stretch of it has one of the three shapes. */
  lemma NumberHeldIff(text: Text)
    ensures ResidualFinancePii(text) <==> exists k, n | 0 <= k <= n <= |text| :: NumberShaped(text[k..n])
  {
    TestSomewhere(Cpf(), text);
    TestSomewhere(Cnpj(), text);
    TestSomewhere(Card(), text);
    forall w ensures NumberShaped(w) <==> Denotes(Cpf(), w) || Denotes(Cnpj(), w) || Denotes(Card(), w) {
      CpfDenotes(w);
      CnpjDenotes(w);
      CardDenotes(w);
    }
    hide NumberShaped, Denotes, Test, Cpf, Cnpj, Card;
  }

  /** A text holds a bearer token exactly when some stretch of it has that shape. */
  lemma BearerHeldIff(least: nat, text: Text)
    ensures Test(BearerOf(least), text) <==> exists k, n | 0 <= k <= n <= |text| :: BearerShaped(least, text[k..n])
  {
    TestSomewhere(BearerOf(least), text);
    forall w ensures BearerShaped(least, w) <==> Denotes(BearerOf(least), w) {
      BearerDenotes(least, w);
    }
    hide BearerShaped, Denotes, Test, BearerOf;
  }

  // ------------------------------------------------------------ markers

  /** From its start on the text spells the word in whatever case. */
  predicate SpelledFrom(t: Text, word: string) {
    |word| <= |t| && Spells(t[..|word|], word)
  }

  /** A word lower-casing leaves alone, whose last letter is no i. */
  predicate Marker(word: string) {
    Folding.Word(word) && word != "" && word[|word| - 1] != 'i'
  }

  lemma SpelledRest(t: Text, word: string)
    requires Folding.Word(word) && word != ""
    ensures SpelledFrom(t, word) <==> t != [] && UnitSpells(t[0], word[0] as int) && SpelledFrom(t[1..], word[1..])
  {
    hide UnitSpells, Spells;
    assert WordChar(word[0]);
    if |word| <= |t| {
      SpellsRest(t[..|word|], word);
      assert t[..|word|][1..] == t[1..][..|word| - 1];
    }
  }

  lemma NothingSpelled(t: Text)
    ensures SpelledFrom(t, "") && Lit("") <= Lower(t)
  {
    assert Lit("") == [];
  }

  /** The word is at the start of the lower-cased text exactly when the text spells it from its start on. */
  lemma {:induction false} LowerStarts(t: Text, word: string)
    requires word != "" ==> Marker(word)
    ensures Lit(word) <= Lower(t) <==> SpelledFrom(t, word)
  {
    hide SpelledFrom, LowerUnit, UnitSpells;
    NothingSpelled(t);
    if word != "" {
      SpelledRest(t, word);
      LitRest(word);
      NoCombiningDot(word);
      if t != [] {
        LowerStarts(t[1..], word[1..]);
        UnitLowered(t[0], word[0]);
        StartStep(LowerUnit(t[0]), Lower(t[1..]), Lit(word));
        assert |word| > 1 || Lit(word)[0] != 'i' as int;
      }
    }
  }

  /** One lower-cased unit more: it must be the first unit of the word. */
  lemma StartStep(first: Text, rest: Text, w: Text)
    requires w != [] && (|first| == 1 || first == ['i' as int, 0x0307]) && 0x0307 !in w && (|w| > 1 || w[0] != 'i' as int)
    ensures w <= first + rest <==> first == [w[0]] && w[1..] <= rest
  {
    var all := first + rest;
    assert all[0] == first[0];
    if |first| == 1 {
      assert all[1..] == rest && w == [w[0]] + w[1..];
      assert w <= all ==> w[1..] == all[..|w|][1..] == rest[..|w| - 1];
      assert w[1..] <= rest && first == [w[0]] ==> w == all[..|w|];
    } else {
      assert all[1] == 0x0307 && (|w| > 1 ==> w[1] in w);
    }
  }

  predicate Holds(t: Text, word: string) {
    exists i | 0 <= i <= |t| :: SpelledFrom(t[i..], word)
  }

  lemma HoldsStep(t: Text, word: string)
    requires t != []
    ensures Holds(t, word) <==> SpelledFrom(t, word) || Holds(t[1..], word)
  {
    hide SpelledFrom;
    assert t[0..] == t;
    if Holds(t, word) {
      var i :| 0 <= i <= |t| && SpelledFrom(t[i..], word);
      if i > 0 { assert t[1..][i - 1..] == t[i..]; }
    }
    if Holds(t[1..], word) {
      var i :| 0 <= i <= |t[1..]| && SpelledFrom(t[1..][i..], word);
      assert t[1..][i..] == t[i + 1..];
    }
  }

  lemma NothingHolds(word: string)
    requires word != ""
    ensures !Holds([], word) && !Includes([], Lit(word))
  {
  }

  /** The lower-cased text includes the word exactly when the text spells it somewhere. */
  lemma {:induction false} LowerIncludes(t: Text, word: string)
    requires Marker(word)
    ensures Includes(Lower(t), Lit(word)) <==> Holds(t, word)
  {
    hide SpelledFrom, Holds, Lit, LowerUnit, Folding.Word, Includes;
    NothingHolds(word);
    if t != [] {
      LowerIncludes(t[1..], word);
      LowerStarts(t, word);
      HoldsStep(t, word);
      NoCombiningDot(word);
      UnitLowered(t[0], 'a');
      IncludesStep(LowerUnit(t[0]), Lower(t[1..]), Lit(word));
    }
  }

  lemma IncludesStep(first: Text, rest: Text, w: Text)
    requires w != [] && (|first| == 1 || first == ['i' as int, 0x0307]) && 0x0307 !in w
    ensures Includes(first + rest, w) <==> w <= first + rest || Includes(rest, w)
  {
    var all := first + rest;
    if |first| == 1 {
      assert all[1..] == rest;
    } else {
      assert all[1..] == [0x0307] + rest && all[1..][1..] == rest;
      assert all[1..][0] == 0x0307 && w[0] in w;
    }
  }

  /** One of the three markers stands in the text, in whatever case. */
  lemma MarkedIff(text: Text)
    ensures Marked(text) <==> Holds(text, "begin private key") || Holds(text, "aws_secret") || Holds(text, "api_key=")
  {
    MarkersAre();
    hide Lit, Holds, Includes, Lower, Marker;
    LowerIncludes(text, "begin private key");
    LowerIncludes(text, "aws_secret");
    LowerIncludes(text, "api_key=");
  }

  lemma MarkersAre()
    ensures Marker("begin private key") && Marker("aws_secret") && Marker("api_key=")
  {
  }

  /** What the scan of the other kit looks for: a number, a bearer token of at least eight units, or a marker. */
  lemma UxSecretHeldIff(text: Text)
    ensures ResidualUxSecrets(text) <==>
              || (exists k, n | 0 <= k <= n <= |text| :: NumberShaped(text[k..n]))
              || (exists k, n | 0 <= k <= n <= |text| :: BearerShaped(8, text[k..n]))
              || Holds(text, "begin private key") || Holds(text, "aws_secret") || Holds(text, "api_key=")
  {
    NumberHeldIff(text);
    BearerHeldIff(8, text);
    MarkedIff(text);
    hide NumberShaped, BearerShaped, Holds, Marked, Test, ResidualFinancePii;
  }
}
