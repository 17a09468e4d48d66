/**
 * The recursive evidence sanitizers and the scans that check their output
 * (packages/employees/specialist-kit/src/finance-evidence.ts, ux-evidence.ts, finance-delivery-validation.ts).
 */
module EvidenceSanitizer {
  import opened Texts
  import opened JsonValues
  import opened Patterns
  import opened EvidenceText

  /** The two sanitizers share their recursion and differ in the text redactor and the denied keys. */
  datatype Kit = Finance | Ux

  // ------------------------------------------------------------ keys

  function NormalizeKey(lower: Text): Text {
    if lower == [] then []
    else (if IsDigit(lower[0]) || 'a' as int <= lower[0] <= 'z' as int then [lower[0]] else []) + NormalizeKey(lower[1..])
  }

  function DenyFragments(kit: Kit): set<Text> {
    match kit
    case Finance =>
      {Lit("password"), Lit("secret"), Lit("token"), Lit("apikey"), Lit("accountnumber"), Lit("iban"), Lit("cpf"), Lit("cnpj"),
       Lit("creditcard"), Lit("cvv"), Lit("bankaccount"), Lit("routingnumber"), Lit("clientsecret"), Lit("authorization")}
    case Ux =>
      {Lit("password"), Lit("secret"), Lit("token"), Lit("apikey"), Lit("clientsecret"), Lit("authorization"), Lit("privatekey")}
  }

  predicate Denied(kit: Kit, key: Text) {
    exists fragment | fragment in DenyFragments(kit) :: Includes(NormalizeKey(Lower(key)), fragment)
  }

  predicate Forbidden(key: Text) {
    Lower(key) in {Lit("content"), Lit("body"), Lit("rawcontent"), Lit("fullcontent")}
  }

  // ------------------------------------------------------------ the sanitizer

  const MAX_EXCERPT: nat := 500
  const ELLIPSIS: Unit := 0x2026

  function CleanText(kit: Kit, text: Text): Text {
    match kit
    case Ux => RedactUxText(text)
    case Finance =>
      var redacted := RedactFinancePii(text);
      if ResidualFinancePii(redacted) then Tag()
      else if |redacted| > MAX_EXCERPT then redacted[..MAX_EXCERPT] + [ELLIPSIS]
      else redacted
  }

  function Sanitize(kit: Kit, v: Json): Json
    decreases v, 0
  {
    match v
    case Str(text) => Str(CleanText(kit, text))
    case Arr(items) => Arr(seq(|items|, i requires 0 <= i < |items| => Sanitize(kit, items[i])))
    case Obj(fields) => Obj(Allowed(SanitizeFields(kit, fields)))
    case _ => v
  }

  function SanitizeFields(kit: Kit, fields: seq<Field>): (r: seq<Field>)
    ensures |r| == |fields| && forall i | 0 <= i < |fields| :: r[i] == SanitizeField(kit, fields[i])
    decreases fields, 1
  {
    seq(|fields|, i requires 0 <= i < |fields| => SanitizeField(kit, fields[i]))
  }

  function SanitizeField(kit: Kit, f: Field): Field
    decreases f, 1
  {
    Field(f.key, if Denied(kit, f.key) then Str(Tag()) else Sanitize(kit, f.value))
  }

  predicate Shown(key: Text) {
    !Forbidden(key)
  }

  function Allowed(fields: seq<Field>): seq<Field> {
    Keep(fields, Shown)
  }

  lemma NotYet(fields: seq<Field>, i: nat)
    requires i < |fields| && forall j, k | 0 <= j < k < |fields| :: fields[j].key != fields[k].key
    ensures !HasKey(Allowed(fields[..i]), fields[i].key)
  {
    Kept(fields[..i], Shown);
    forall k | 0 <= k < |Allowed(fields[..i])| ensures Allowed(fields[..i])[k].key != fields[i].key {
      assert Allowed(fields[..i])[k] in fields[..i];
    }
  }

  method SanitizeJson(kit: Kit, v: Json) returns (r: Json)
    requires WellFormed(v)
    ensures r == Sanitize(kit, v)
    decreases v
  {
    hide CleanText, Denied, Forbidden, Tag;
    match v
    case Str(text) =>
      r := Str(CleanText(kit, text));
    case Arr(items) =>
      var out := [];
      for i := 0 to |items|
        invariant out == seq(i, k requires 0 <= k < i => Sanitize(kit, items[k]))
      {
        var item := SanitizeJson(kit, items[i]);
        out := out + [item];
      }
      r := Arr(out);
    case Obj(fields) =>
      var out := [];
      for i := 0 to |fields|
        invariant out == Allowed(SanitizeFields(kit, fields)[..i])
      {
        var all := SanitizeFields(kit, fields);
        assert all[..i + 1][..i] == all[..i];
        if Forbidden(fields[i].key) {
          continue;
        }
        var child := Str(Tag());
        if !Denied(kit, fields[i].key) {
          child := SanitizeJson(kit, fields[i].value);
        }
        NotYet(all, i);
        PutNew(out, fields[i].key, child);
        out := Put(out, fields[i].key, child);
      }
      assert SanitizeFields(kit, fields)[..|fields|] == SanitizeFields(kit, fields);
      r := Obj(out);
    case _ =>
      r := v;
  }

  // ------------------------------------------------------------ the scan

  predicate Residual(kit: Kit, text: Text) {
    if kit == Finance then ResidualFinancePii(text) else ResidualUxSecrets(text)
  }

  /** True when a value must not be shown. */
  predicate Unsafe(kit: Kit, v: Json)
    decreases v, 0
  {
    match v
    case Str(text) => Residual(kit, text)
    case Arr(items) => exists i | 0 <= i < |items| :: Unsafe(kit, items[i])
    case Obj(fields) => exists i | 0 <= i < |fields| :: UnsafeField(kit, fields[i])
    case _ => false
  }

  predicate UnsafeField(kit: Kit, f: Field)
    decreases f, 1
  {
    Forbidden(f.key) || (Denied(kit, f.key) && f.value != Str(Tag())) || Unsafe(kit, f.value)
  }

  // ------------------------------------------------------------ texts

  lemma TagClean(kit: Kit)
    ensures !ResidualFinancePii(Tag()) && !Test(Bearer(), Tag()) && CleanText(kit, Tag()) == Tag()
  {
    TagHolds(Cpf());
    TagHolds(Cnpj());
    TagHolds(Card());
    TagHolds(Bearer());
    FinanceRedactionIdentityIff(Tag());
    UxRedactionIdentityIff(Tag());
  }

  lemma TagHolds(p: Pattern)
    requires p.One? && (p.cls == Digit || p.cls == Letter('b' as int))
    ensures !Test(p, Tag())
  {
    if Test(p, Tag()) {
      assert Tag() + [] == Tag();
      TestAfter(p, Tag(), []);
    }
  }

  /** No text is so redacted that the replacement of the whole text is needed. */
  lemma WholeTextNeverReplaced(text: Text)
    ensures var redacted := RedactFinancePii(text);
            CleanText(Finance, text)
            == if |redacted| > MAX_EXCERPT then redacted[..MAX_EXCERPT] + [ELLIPSIS] else redacted
  {
    FinanceRedactionComplete(text);
  }

  /** A text within the limit, or cut at the limit and marked so. */
  predicate Short(text: Text) {
    |text| <= MAX_EXCERPT || (|text| == MAX_EXCERPT + 1 && text[MAX_EXCERPT] == ELLIPSIS)
  }

  lemma CutHoldsNothing(text: Text)
    requires |text| > MAX_EXCERPT && !ResidualFinancePii(text)
    ensures !ResidualFinancePii(text[..MAX_EXCERPT] + [ELLIPSIS])
  {
    hide Test, Cpf, Cnpj, Card, Within;
    NumbersWithin();
    assert Barrier(DigitClasses(), ELLIPSIS);
    var cut := text[..MAX_EXCERPT] + [ELLIPSIS];
    hide DigitClasses, Barrier;
    if Test(Cpf(), cut) { CutCreatesNone(DigitClasses(), Cpf(), text, MAX_EXCERPT, ELLIPSIS); }
    if Test(Cnpj(), cut) { CutCreatesNone(DigitClasses(), Cnpj(), text, MAX_EXCERPT, ELLIPSIS); }
    if Test(Card(), cut) { CutCreatesNone(DigitClasses(), Card(), text, MAX_EXCERPT, ELLIPSIS); }
  }

  /** A finance text is left as it is exactly when it holds no number to redact and is short. */
  lemma FinanceTextFixedIff(text: Text)
    ensures !ResidualFinancePii(CleanText(Finance, text)) && Short(CleanText(Finance, text))
    ensures CleanText(Finance, text) == text <==> !ResidualFinancePii(text) && Short(text)
  {
    hide ResidualFinancePii, RedactFinancePii;
    WholeTextNeverReplaced(text);
    FinanceRedactionComplete(text);
    FinanceRedactionIdentityIff(text);
    var redacted := RedactFinancePii(text);
    if |redacted| > MAX_EXCERPT {
      CutHoldsNothing(redacted);
      if |text| == MAX_EXCERPT + 1 && text[MAX_EXCERPT] == ELLIPSIS {
        assert text[..MAX_EXCERPT] + [ELLIPSIS] == text;
      }
    }
  }

  lemma TextSettles(kit: Kit, text: Text)
    ensures CleanText(kit, CleanText(kit, text)) == CleanText(kit, text)
  {
    if kit == Finance {
      FinanceTextFixedIff(text);
      FinanceTextFixedIff(CleanText(Finance, text));
    } else {
      UxRedactionComplete(text);
      UxRedactionIdentityIff(RedactUxText(text));
    }
  }

  // ------------------------------------------------------------ trees

  /** A value the sanitizer has nothing to do on. */
  predicate Settled(kit: Kit, v: Json)
    decreases v, 0
  {
    match v
    case Str(text) => CleanText(kit, text) == text
    case Arr(items) => forall i | 0 <= i < |items| :: Settled(kit, items[i])
    case Obj(fields) => forall i | 0 <= i < |fields| :: SettledField(kit, fields[i])
    case _ => true
  }

  predicate SettledField(kit: Kit, f: Field)
    decreases f, 1
  {
    !Forbidden(f.key) && if Denied(kit, f.key) then f.value == Str(Tag()) else Settled(kit, f.value)
  }

  lemma {:induction false} SanitizedSettles(kit: Kit, v: Json)
    ensures Settled(kit, Sanitize(kit, v))
    decreases v, 0
  {
    hide CleanText, Denied, Forbidden, Tag, SettledField, SanitizeField, Allowed;
    match v
    case Str(text) =>
      TextSettles(kit, text);
    case Arr(items) =>
      forall i | 0 <= i < |items| { SanitizedSettles(kit, items[i]); }
    case Obj(fields) =>
      forall i | 0 <= i < |fields| { SanitizedFieldSettles(kit, fields[i]); }
      AllowedSettle(kit, SanitizeFields(kit, fields));
    case _ =>
  }

  lemma {:induction false} SanitizedFieldSettles(kit: Kit, f: Field)
    ensures Forbidden(f.key) || SettledField(kit, SanitizeField(kit, f))
    ensures SanitizeField(kit, f).key == f.key
    decreases f, 1
  {
    SanitizedSettles(kit, f.value);
  }

  lemma AllowedSettle(kit: Kit, fields: seq<Field>)
    requires forall i | 0 <= i < |fields| :: Forbidden(fields[i].key) || SettledField(kit, fields[i])
    ensures forall i | 0 <= i < |Allowed(fields)| :: SettledField(kit, Allowed(fields)[i])
  {
    hide SettledField, Keep, Forbidden;
    Kept(fields, Shown);
    forall i | 0 <= i < |Allowed(fields)| ensures SettledField(kit, Allowed(fields)[i]) {
      assert Allowed(fields)[i] in Allowed(fields);
    }
  }

  lemma {:induction false} SettledIsFixed(kit: Kit, v: Json)
    ensures Settled(kit, v) <==> Sanitize(kit, v) == v
  {
    hide CleanText, Denied, Forbidden, Tag;
    match v
    case Arr(items) =>
      forall i | 0 <= i < |items| { SettledIsFixed(kit, items[i]); }
      assert Settled(kit, v) ==> Sanitize(kit, v).items == items;
      assert Sanitize(kit, v) == v ==> forall i | 0 <= i < |items| :: items[i] == Sanitize(kit, items[i]);
    case Obj(fields) =>
      var all := SanitizeFields(kit, fields);
      KeptAll(all, Shown);
      forall i | 0 <= i < |fields| ensures
          SettledField(kit, fields[i]) <==> all[i] == fields[i] && !Forbidden(all[i].key) {
        SettledIsFixed(kit, fields[i].value);
      }
      if Settled(kit, v) {
        assert all == fields;
      }
    case _ =>
  }

  /** Sanitizing is idempotent on every value. */
  lemma SanitizeIdempotent(kit: Kit, v: Json)
    ensures Sanitize(kit, Sanitize(kit, v)) == Sanitize(kit, v)
  {
    SanitizedSettles(kit, v);
    SettledIsFixed(kit, Sanitize(kit, v));
  }

  predicate AllShort(v: Json)
    decreases v
  {
    match v
    case Str(text) => Short(text)
    case Arr(items) => forall i | 0 <= i < |items| :: AllShort(items[i])
    case Obj(fields) => forall i | 0 <= i < |fields| :: AllShort(fields[i].value)
    case _ => true
  }

  /**
   * The sanitizer of the producer and the scan of the validator agree: the sanitizer leaves a value alone
   * exactly when the scan accepts it and every text of it is short.
   */
  lemma {:induction false} FinanceFixedIffSafe(v: Json)
    ensures Settled(Finance, v) <==> !Unsafe(Finance, v) && AllShort(v)
  {
    hide CleanText, Denied, Forbidden, Short, ResidualFinancePii;
    match v
    case Str(text) =>
      FinanceTextFixedIff(text);
    case Arr(items) =>
      forall i | 0 <= i < |items| { FinanceFixedIffSafe(items[i]); }
    case Obj(fields) =>
      TagShort();
      forall i | 0 <= i < |fields| ensures
          SettledField(Finance, fields[i]) <==> !UnsafeField(Finance, fields[i]) && AllShort(fields[i].value) {
        FinanceFixedIffSafe(fields[i].value);
      }
    case _ =>
  }

  lemma TagShort()
    ensures Short(Tag()) && !ResidualFinancePii(Tag())
  {
    TagClean(Finance);
  }

  lemma FinanceSanitizedPassesScan(v: Json)
    ensures !Unsafe(Finance, Sanitize(Finance, v)) && AllShort(Sanitize(Finance, v))
  {
    SanitizedSettles(Finance, v);
    FinanceFixedIffSafe(Sanitize(Finance, v));
  }

  predicate MarkedLeaf(v: Json) {
    match v
    case Str(text) => Marked(text)
    case Arr(items) => exists i | 0 <= i < |items| :: MarkedLeaf(items[i])
    case Obj(fields) => exists i | 0 <= i < |fields| :: MarkedLeaf(fields[i].value)
    case _ => false
  }

  lemma {:induction false} UxUnsafeOnlyByMarker(v: Json)
    requires Settled(Ux, v)
    ensures Unsafe(Ux, v) <==> MarkedLeaf(v)
  {
    hide Denied, Forbidden, Marked, RedactUxText, ResidualFinancePii, Test;
    match v
    case Str(text) =>
      UxRedactionIdentityIff(text);
      if Test(BearerOf(8), text) { LongTokenIsToken(text); }
    case Arr(items) =>
      forall i | 0 <= i < |items| { UxUnsafeOnlyByMarker(items[i]); }
    case Obj(fields) =>
      forall i | 0 <= i < |fields| ensures UnsafeField(Ux, fields[i]) <==> MarkedLeaf(fields[i].value) {
        assert SettledField(Ux, fields[i]);
        TagClean(Ux);
        UxUnsafeOnlyByMarker(fields[i].value);
      }
    case _ =>
  }

  /** What the UX sanitizer lets through can still fail the scan, and only because a text holds a marker. */
  lemma UxSanitizedFailsIff(v: Json)
    ensures Unsafe(Ux, Sanitize(Ux, v)) <==> MarkedLeaf(Sanitize(Ux, v))
  {
    SanitizedSettles(Ux, v);
    UxUnsafeOnlyByMarker(Sanitize(Ux, v));
  }
}
