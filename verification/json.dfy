/**
 * The values a signal payload can hold, and the equality that forgets the order of object keys.
 */
module JsonValues {
  import opened Texts

  /** A number is either one JSON cannot print (NaN, an infinity) or the lexeme it prints as. */
  datatype Number = NotFinite | Finite(lexeme: Text)

  datatype Field = Field(key: Text, value: Json)

  /** An object keeps its own keys in insertion order, as Object.entries lists them. */
  datatype Json =
    | Undefined
    | Null
    | Bool(b: bool)
    | Num(number: Number)
    | Str(text: Text)
    | Arr(items: seq<Json>)
    | Obj(fields: seq<Field>)

  predicate IsDigit(c: Unit) {
    '0' as int <= c <= '9' as int
  }

  /** The units Number::toString uses for a finite number. */
  predicate IsNumberUnit(c: Unit) {
    IsDigit(c) || c == '-' as int || c == '+' as int || c == '.' as int || c == 'e' as int
  }

  predicate IsLexeme(t: Text) {
    t != [] && (IsDigit(t[0]) || t[0] == '-' as int) && forall i | 0 <= i < |t| :: IsNumberUnit(t[i])
  }

  predicate DistinctKeys(fields: seq<Field>) {
    forall i, j | 0 <= i < j < |fields| :: fields[i].key != fields[j].key
  }

  /** What every ECMAScript value satisfies: own keys are distinct, finite numbers print as lexemes. */
  predicate WellFormed(v: Json) {
    match v
    case Num(Finite(lexeme)) => IsLexeme(lexeme)
    case Arr(items) => forall i | 0 <= i < |items| :: WellFormed(items[i])
    case Obj(fields) => DistinctKeys(fields) && forall i | 0 <= i < |fields| :: WellFormed(fields[i].value)
    case _ => true
  }

  /** A value JSON text can denote: no undefined, no number without a lexeme. */
  predicate Plain(v: Json) {
    match v
    case Undefined => false
    case Num(number) => number.Finite?
    case Arr(items) => forall i | 0 <= i < |items| :: Plain(items[i])
    case Obj(fields) => forall i | 0 <= i < |fields| :: Plain(fields[i].value)
    case _ => true
  }

  /** `obj[key]`. */
  function Get(fields: seq<Field>, key: Text): (r: Option<Json>)
    ensures r.None? ==> forall i | 0 <= i < |fields| :: fields[i].key != key
    ensures r.Some? ==> Field(key, r.value) in fields
  {
    if fields == [] then None
    else if fields[0].key == key then Some(fields[0].value)
    else Get(fields[1..], key)
  }

  predicate HasKey(fields: seq<Field>, key: Text) {
    exists i | 0 <= i < |fields| :: fields[i].key == key
  }

  /** Equality of values in which an object is a map from keys to values. */
  ghost predicate SameValue(v: Json, w: Json)
    decreases v, 0
  {
    match (v, w)
    case (Arr(a), Arr(b)) => |a| == |b| && forall i | 0 <= i < |a| :: SameValue(a[i], b[i])
    case (Obj(f), Obj(g)) =>
      && (forall i | 0 <= i < |f| :: HasSame(f[i], g))
      && (forall j | 0 <= j < |g| :: HasKey(f, g[j].key))
    case _ => v == w
  }

  /** Some field of g has the key of x and the same value. */
  ghost predicate HasSame(x: Field, g: seq<Field>)
    decreases x, 1
  {
    exists j | 0 <= j < |g| :: g[j].key == x.key && SameValue(x.value, g[j].value)
  }

  lemma GetFound(fields: seq<Field>, i: nat)
    requires DistinctKeys(fields) && i < |fields|
    ensures Get(fields, fields[i].key) == Some(fields[i].value)
  {
    if i > 0 {
      assert fields[0].key != fields[i].key;
      assert DistinctKeys(fields[1..]);
      GetFound(fields[1..], i - 1);
    }
  }

  /** The fields whose key passes. */
  function Keep(fields: seq<Field>, keep: Text -> bool): seq<Field> {
    if fields == [] then []
    else
      var n := |fields| - 1;
      Keep(fields[..n], keep) + if keep(fields[n].key) then [fields[n]] else []
  }

  lemma {:induction false} Kept(fields: seq<Field>, keep: Text -> bool)
    ensures forall f :: f in Keep(fields, keep) <==> f in fields && keep(f.key)
  {
    if fields != [] {
      var n := |fields| - 1;
      Kept(fields[..n], keep);
      assert fields == fields[..n] + [fields[n]];
    }
  }

  lemma {:induction false} KeptAll(fields: seq<Field>, keep: Text -> bool)
    ensures |Keep(fields, keep)| <= |fields|
    ensures |Keep(fields, keep)| == |fields| ==> Keep(fields, keep) == fields
    ensures Keep(fields, keep) == fields <==> forall i | 0 <= i < |fields| :: keep(fields[i].key)
  {
    if fields != [] {
      var n := |fields| - 1;
      KeptAll(fields[..n], keep);
      assert fields == fields[..n] + [fields[n]];
    }
  }

  lemma {:induction false} GetAppend(fields: seq<Field>, more: seq<Field>, key: Text)
    ensures Get(fields + more, key) == if Get(fields, key).Some? then Get(fields, key) else Get(more, key)
  {
    if fields == [] {
      assert fields + more == more;
    } else {
      assert (fields + more)[1..] == fields[1..] + more;
      GetAppend(fields[1..], more, key);
    }
  }

  lemma {:induction false} GetKept(fields: seq<Field>, keep: Text -> bool, key: Text)
    ensures Get(Keep(fields, keep), key) == if keep(key) then Get(fields, key) else None
  {
    if fields != [] {
      hide Get;
      var n := |fields| - 1;
      GetKept(fields[..n], keep, key);
      assert fields == fields[..n] + [fields[n]];
      GetAppend(fields[..n], [fields[n]], key);
      GetAppend(Keep(fields[..n], keep), [fields[n]], key);
      GetOne(fields[n], key);
      assert Keep(fields[..n], keep) + [] == Keep(fields[..n], keep);
    }
  }

  lemma GetOne(f: Field, key: Text)
    ensures Get([f], key) == if f.key == key then Some(f.value) else None
  {
  }

  /** `out[key] = value`. */
  function Put(fields: seq<Field>, key: Text, value: Json): seq<Field> {
    if fields == [] then [Field(key, value)]
    else if fields[0].key == key then [Field(key, value)] + fields[1..]
    else [fields[0]] + Put(fields[1..], key, value)
  }

  lemma PutNew(fields: seq<Field>, key: Text, value: Json)
    requires !HasKey(fields, key)
    ensures Put(fields, key, value) == fields + [Field(key, value)]
  {
    if fields != [] {
      assert fields[0].key != key;
      forall i | 0 <= i < |fields[1..]| ensures fields[1..][i].key != key {
        assert fields[1..][i] == fields[i + 1];
      }
      PutNew(fields[1..], key, value);
    }
  }
}
