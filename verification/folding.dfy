/**
 * What `toLowerCase` and a comparison with an ASCII word amount to, unit by unit: which texts a key test of the
 * redactors takes, said without lower-casing anything
 * (packages/domain-signals/src/redact.ts:52, packages/employees/specialist-kit/src/finance-evidence.ts:66-75).
 */
module Folding {
  import opened Texts

  /** The unit is the letter, digit or mark, or its capital, or the Kelvin sign for a k. */
  predicate UnitSpells(c: Unit, letter: Unit) {
    c == letter
    || ('a' as int <= letter <= 'z' as int && c + 32 == letter)
    || (letter == 'k' as int && c == 0x212A)
  }

  /** The text is the word in whatever case. */
  predicate Spells(t: Text, word: string) {
    |t| == |word| && forall i | 0 <= i < |t| :: UnitSpells(t[i], word[i] as int % 0x1_0000)
  }

  predicate SpellsOneOf(t: Text, words: set<string>) {
    exists word | word in words :: Spells(t, word)
  }

  /** A character that lower-casing leaves alone. */
  predicate WordChar(c: char) {
    c <= 'z' && !('A' <= c <= 'Z')
  }

  predicate Word(word: string) {
    forall i | 0 <= i < |word| :: WordChar(word[i])
  }

  lemma UnitLowered(c: Unit, letter: char)
    requires WordChar(letter)
    ensures LowerUnit(c) == [letter as int] <==> UnitSpells(c, letter as int)
    ensures |LowerUnit(c)| == 1 || (c == 0x0130 && LowerUnit(c) == ['i' as int, 0x0307])
  {
  }

  /** Lower-casing a text gives the word exactly when the text spells it. */
  lemma {:induction false} LowerSpells(t: Text, word: string)
    requires Word(word)
    ensures Lower(t) == Lit(word) <==> Spells(t, word)
  {
    hide LowerUnit, UnitSpells, WordChar;
    if t == [] || word == "" {
      LowerEmpty(t);
    } else {
      LowerSpells(t[1..], word[1..]);
      UnitLowered(t[0], word[0]);
      LitRest(word);
      SpellsRest(t, word);
      NoCombiningDot(word);
      LowerRest(t, Lit(word));
    }
  }

  lemma LowerEmpty(t: Text)
    ensures Lower(t) == [] <==> t == []
  {
  }

  lemma LitRest(word: string)
    requires Word(word) && word != ""
    ensures Word(word[1..]) && Lit(word) == [word[0] as int] + Lit(word[1..])
  {
  }

  lemma NoCombiningDot(word: string)
    requires Word(word)
    ensures 0x0307 !in Lit(word)
  {
  }

  lemma SpellsRest(t: Text, word: string)
    requires t != [] && word != "" && WordChar(word[0])
    ensures Spells(t, word) <==> UnitSpells(t[0], word[0] as int) && Spells(t[1..], word[1..])
  {
    hide UnitSpells;
    if UnitSpells(t[0], word[0] as int) && Spells(t[1..], word[1..]) {
      forall i | 0 <= i < |t| ensures UnitSpells(t[i], word[i] as int % 0x1_0000) {
        if i > 0 {
          assert t[1..][i - 1] == t[i] && word[1..][i - 1] == word[i];
        }
      }
    }
  }

  /** No word holds the combining dot that the capital I with a dot leaves behind. */
  lemma LowerRest(t: Text, w: Text)
    requires t != [] && w != [] && 0x0307 !in w
    ensures Lower(t) == w <==> LowerUnit(t[0]) == [w[0]] && Lower(t[1..]) == w[1..]
  {
    var first, rest := LowerUnit(t[0]), Lower(t[1..]);
    assert Lower(t) == first + rest;
    assert w == [w[0]] + w[1..];
    if |first| == 1 {
      assert (first + rest)[0] == first[0] && (first + rest)[1..] == rest;
    } else {
      assert (first + rest)[1] == 0x0307;
    }
  }
}
