/**
 * The text that is hashed into a signal's similarity key
 * (packages/domain-signals/src/signal-hash.ts, pickRelevant in domain-signal-service.ts).
 */
module SignalHash {
  import opened Texts
  import opened JsonValues
  import opened PayloadRedaction
  import opened StableStringify
  import opened JsonLexing

  function RelevantKeys(): seq<Text> {
    [Lit("id"), Lit("number"), Lit("key"), Lit("ref"), Lit("url"), Lit("title"), Lit("action")]
  }

  function Pick(fields: seq<Field>, keys: seq<Text>): seq<Field> {
    if keys == [] then []
    else
      (match Get(fields, keys[0])
       case Some(value) => [Field(keys[0], value)]
       case None => [])
      + Pick(fields, keys[1..])
  }

  method PickRelevant(payload: seq<Field>) returns (out: seq<Field>)
    ensures out == Pick(payload, RelevantKeys())
  {
    hide RelevantKeys, Get, Pick;
    var keys := RelevantKeys();
    out := [];
    PickNone(payload, keys);
    for i := 0 to |keys|
      invariant out + Pick(payload, keys[i..]) == Pick(payload, keys)
    {
      var value := Get(payload, keys[i]);
      if value.Some? {
        out := out + [Field(keys[i], value.value)];
      }
      PickStep(payload, keys, i);
    }
  }

  lemma PickNone(payload: seq<Field>, keys: seq<Text>)
    ensures keys[0..] == keys && Pick(payload, keys[|keys|..]) == []
  {
  }

  lemma PickStep(payload: seq<Field>, keys: seq<Text>, i: nat)
    requires i < |keys|
    ensures var value := Get(payload, keys[i]);
            Pick(payload, keys[i..]) == (if value.Some? then [Field(keys[i], value.value)] else []) + Pick(payload, keys[i + 1..])
  {
    hide Get;
    assert keys[i..][1..] == keys[i + 1..];
  }

  datatype HashParts = HashParts(workspaceId: Text, kind: Text, sourceId: Option<Text>, normalizedKey: Option<Text>)

  function OrEmpty(t: Option<Text>): Text {
    match t case Some(value) => value case None => []
  }

  /** The argument of SHA-256 in `computeSignalHash`. */
  function HashText(parts: HashParts, relevant: seq<Field>): Text {
    Join([parts.workspaceId, parts.kind, OrEmpty(parts.sourceId), OrEmpty(parts.normalizedKey), Stringify(Obj(relevant))],
         [BAR])
  }

  /** The fields of a payload that are hashed: redacted with the default deny list, then picked. */
  function Relevant(payload: Json): seq<Field> {
    Pick(RedactPayload(payload, DenyKeys()), RelevantKeys())
  }

  function PreHash(parts: HashParts, payload: Json): Text {
    HashText(parts, Relevant(payload))
  }

  // ------------------------------------------------------------ when two payloads hash alike

  /** Equal as values, objects being maps, once whatever stands under a denied key is forgotten. */
  ghost predicate Alike(v: Json, w: Json, deny: set<Text>)
    decreases v, 0
  {
    match (v, w)
    case (Arr(a), Arr(b)) => |a| == |b| && forall i | 0 <= i < |a| :: Alike(a[i], b[i], deny)
    case (Obj(f), Obj(g)) =>
      && (forall i | 0 <= i < |f| :: HasAlike(f[i], g, deny))
      && (forall j | 0 <= j < |g| :: HasKey(f, g[j].key))
    case _ => v == w
  }

  /** Some field of g has the key of x and, unless the key is denied, an alike value. */
  ghost predicate HasAlike(x: Field, g: seq<Field>, deny: set<Text>)
    decreases x, 1
  {
    exists j | 0 <= j < |g| :: g[j].key == x.key && (Denied(x.key, deny) || Alike(x.value, g[j].value, deny))
  }

  lemma {:induction false} AlikeIffRedactedSame(v: Json, w: Json, deny: set<Text>)
    ensures Alike(v, w, deny) <==> SameValue(RedactValue(v, deny), RedactValue(w, deny))
    decreases v
  {
    match (v, w)
    case (Arr(a), Arr(b)) =>
      var ra, rb := RedactValue(v, deny).items, RedactValue(w, deny).items;
      if |a| == |b| {
        forall i | 0 <= i < |a| ensures Alike(a[i], b[i], deny) <==> SameValue(ra[i], rb[i]) {
          AlikeIffRedactedSame(a[i], b[i], deny);
        }
      }
      assert SameValue(Arr(ra), Arr(rb)) <==> |a| == |b| && forall i | 0 <= i < |a| :: SameValue(ra[i], rb[i]);
    case (Obj(f), Obj(g)) =>
      forall i | 0 <= i < |f|
        ensures HasAlike(f[i], g, deny) <==> HasSame(RedactField(f[i], deny), RedactFields(g, deny))
      {
        forall j | 0 <= j < |g| ensures
            Alike(f[i].value, g[j].value, deny)
            <==> SameValue(RedactValue(f[i].value, deny), RedactValue(g[j].value, deny))
        {
          AlikeIffRedactedSame(f[i].value, g[j].value, deny);
        }
        FieldAlikeIff(f[i], g, deny);
      }
      ObjectsAlikeIff(f, g, deny);
    case _ =>
  }

  lemma FieldAlikeIff(x: Field, g: seq<Field>, deny: set<Text>)
    requires forall j | 0 <= j < |g| ::
               Alike(x.value, g[j].value, deny)
               <==> SameValue(RedactValue(x.value, deny), RedactValue(g[j].value, deny))
    ensures HasAlike(x, g, deny) <==> HasSame(RedactField(x, deny), RedactFields(g, deny))
  {
    hide Alike, RedactValue;
    var rx, rg := RedactField(x, deny), RedactFields(g, deny);
    if HasAlike(x, g, deny) {
      var j :| 0 <= j < |g| && g[j].key == x.key && (Denied(x.key, deny) || Alike(x.value, g[j].value, deny));
      assert rg[j].key == rx.key && SameValue(rx.value, rg[j].value);
    }
    if HasSame(rx, rg) {
      var j :| 0 <= j < |rg| && rg[j].key == rx.key && SameValue(rx.value, rg[j].value);
      assert g[j].key == x.key && (Denied(x.key, deny) || Alike(x.value, g[j].value, deny));
    }
  }

  lemma ObjectsAlikeIff(f: seq<Field>, g: seq<Field>, deny: set<Text>)
    requires forall i | 0 <= i < |f| ::
               HasAlike(f[i], g, deny) <==> HasSame(RedactField(f[i], deny), RedactFields(g, deny))
    ensures Alike(Obj(f), Obj(g), deny) <==> SameValue(RedactValue(Obj(f), deny), RedactValue(Obj(g), deny))
  {
    hide HasAlike, HasSame, HasKey;
    var rf, rg := RedactFields(f, deny), RedactFields(g, deny);
    forall j | 0 <= j < |g| ensures HasKey(f, g[j].key) <==> HasKey(rf, rg[j].key) {
      SameKeys(f, deny, g[j].key);
    }
    assert forall i | 0 <= i < |f| :: rf[i] == RedactField(f[i], deny);
  }

  lemma SameKeys(f: seq<Field>, deny: set<Text>, key: Text)
    ensures HasKey(f, key) <==> HasKey(RedactFields(f, deny), key)
  {
    var rf := RedactFields(f, deny);
    assert forall i | 0 <= i < |f| :: rf[i].key == f[i].key;
    if HasKey(f, key) {
      var i :| 0 <= i < |f| && f[i].key == key;
      assert rf[i].key == key;
    }
  }

  /** The payload as the map it is hashed from: the wrapped object when it was no object. */
  function PayloadFields(payload: Json): seq<Field> {
    if payload.Obj? then payload.fields else [Field(Lit("value"), payload)]
  }

  /** Two payloads agree on a key: both lack it, or both have it with alike values. */
  ghost predicate AgreeOn(f: seq<Field>, g: seq<Field>, key: Text) {
    match (Get(f, key), Get(g, key))
    case (Some(v), Some(w)) => Alike(v, w, DenyKeys())
    case (None, None) => true
    case _ => false
  }

  // ------------------------------------------------------------ lookups

  lemma {:induction false} GetFirst(fields: seq<Field>, key: Text)
    ensures Get(fields, key).Some? <==> HasKey(fields, key)
  {
    if fields != [] {
      GetFirst(fields[1..], key);
      if HasKey(fields[1..], key) {
        var i :| 0 <= i < |fields[1..]| && fields[1..][i].key == key;
        assert fields[i + 1].key == key;
      }
      if HasKey(fields, key) && fields[0].key != key {
        var i :| 0 <= i < |fields| && fields[i].key == key;
        assert fields[1..][i - 1].key == key;
      }
    }
  }

  lemma {:induction false} GetRedacted(fields: seq<Field>, key: Text, deny: set<Text>)
    requires !Denied(key, deny)
    ensures Get(RedactFields(fields, deny), key)
         == match Get(fields, key) { case Some(v) => Some(RedactValue(v, deny)) case None => None }
  {
    if fields != [] {
      var r := RedactFields(fields, deny);
      assert r[0] == RedactField(fields[0], deny);
      assert r[1..] == RedactFields(fields[1..], deny);
      GetRedacted(fields[1..], key, deny);
    }
  }

  predicate Distinct(keys: seq<Text>) {
    forall i, j | 0 <= i < j < |keys| :: keys[i] != keys[j]
  }

  lemma {:induction false} PickMembers(fields: seq<Field>, keys: seq<Text>)
    requires Distinct(keys)
    ensures DistinctKeys(Pick(fields, keys))
    ensures forall x :: x in Pick(fields, keys) <==> x.key in keys && Get(fields, x.key) == Some(x.value)
  {
    if keys != [] {
      PickMembers(fields, keys[1..]);
      var rest := Pick(fields, keys[1..]);
      assert keys == [keys[0]] + keys[1..];
      assert forall k | k in keys[1..] :: k != keys[0];
      forall i | 0 <= i < |rest| ensures rest[i].key != keys[0] {
        assert rest[i] in rest;
      }
      forall x ensures x in Pick(fields, keys) <==> x.key in keys && Get(fields, x.key) == Some(x.value) {
        assert x.key in keys <==> x.key == keys[0] || x.key in keys[1..];
      }
    }
  }

  // ------------------------------------------------------------ the seven keys

  lemma RelevantKeysDistinct()
    ensures Distinct(RelevantKeys())
  {
    var k := RelevantKeys();
    assert k[0][0] == 'i' as int && k[1][0] == 'n' as int && k[2][0] == 'k' as int && k[3][0] == 'r' as int
        && k[4][0] == 'u' as int && k[5][0] == 't' as int && k[6][0] == 'a' as int;
  }

  lemma RelevantKeysNotDenied(key: Text)
    requires key in RelevantKeys()
    ensures !Denied(key, DenyKeys())
  {
    LowerOfLower(key);
    forall word | word in DenyKeys() ensures word != key {
      DenyKeyStart(word);
      RelevantKeyStart(key);
    }
  }

  lemma DenyKeyStart(word: Text)
    requires word in DenyKeys()
    ensures |word| >= 2
    ensures (word[0] == 'r' as int || word[0] == 'a' as int) && word[1] != 'p' as int && word[1] != 'u' as int ==> |word| > 6
    ensures word[0] == 't' as int ==> word[1] == 'o' as int
    ensures word[0] !in {'i' as int, 'n' as int, 'k' as int, 'u' as int}
  {
  }

  lemma RelevantKeyStart(key: Text)
    requires key in RelevantKeys()
    ensures |key| >= 2
    ensures key[0] == 'r' as int || key[0] == 'a' as int ==> key[1] != 'p' as int && key[1] != 'u' as int && |key| <= 6
    ensures key[0] == 't' as int ==> key[1] == 'i' as int
    ensures key[0] in {'i' as int, 'n' as int, 'k' as int, 'u' as int, 'r' as int, 't' as int, 'a' as int}
  {
  }

  // ------------------------------------------------------------ the picked fields

  /** The picked fields are the same value exactly when the payloads agree on every relevant key. */
  lemma PickedSameIff(f: seq<Field>, g: seq<Field>)
    requires WellFormed(Obj(f)) && WellFormed(Obj(g))
    ensures SameValue(Obj(Pick(RedactFields(f, DenyKeys()), RelevantKeys())),
                      Obj(Pick(RedactFields(g, DenyKeys()), RelevantKeys())))
       <==> forall k | k in RelevantKeys() :: AgreeOn(f, g, k)
  {
    var keys, rf, rg := RelevantKeys(), RedactFields(f, DenyKeys()), RedactFields(g, DenyKeys());
    var pf, pg := Pick(rf, keys), Pick(rg, keys);
    RelevantKeysDistinct();
    PickedWellFormed(f, keys);
    PickedWellFormed(g, keys);
    forall k | k in keys ensures AgreeOn(f, g, k) <==> SameAt(pf, pg, k) {
      AgreeIffSameAt(f, g, k);
    }
    SameObjectIff(pf, pg, keys);
  }

  lemma PickedWellFormed(f: seq<Field>, keys: seq<Text>)
    requires WellFormed(Obj(f)) && Distinct(keys)
    ensures var p := Obj(Pick(RedactFields(f, DenyKeys()), keys)); WellFormed(p) && (Plain(Obj(f)) ==> Plain(p))
    ensures forall x | x in Pick(RedactFields(f, DenyKeys()), keys) :: x.key in keys
  {
    var rf := RedactFields(f, DenyKeys());
    RedactKeeps(Obj(f), DenyKeys());
    PickMembers(rf, keys);
    var p := Pick(rf, keys);
    forall i | 0 <= i < |p| ensures WellFormed(p[i].value) && (Plain(Obj(f)) ==> Plain(p[i].value)) {
      assert p[i] in p;
      assert Get(rf, p[i].key) == Some(p[i].value);
      assert p[i] in rf;
    }
  }

  /** Both lists lack the key, or both have it with the same value. */
  ghost predicate SameAt(f: seq<Field>, g: seq<Field>, key: Text) {
    match (Get(f, key), Get(g, key))
    case (Some(v), Some(w)) => SameValue(v, w)
    case (None, None) => true
    case _ => false
  }

  lemma AgreeIffSameAt(f: seq<Field>, g: seq<Field>, k: Text)
    requires k in RelevantKeys()
    ensures AgreeOn(f, g, k)
       <==> SameAt(Pick(RedactFields(f, DenyKeys()), RelevantKeys()), Pick(RedactFields(g, DenyKeys()), RelevantKeys()), k)
  {
    RelevantKeysDistinct();
    RelevantKeysNotDenied(k);
    GetRedacted(f, k, DenyKeys());
    GetRedacted(g, k, DenyKeys());
    GetPicked(RedactFields(f, DenyKeys()), RelevantKeys(), k);
    GetPicked(RedactFields(g, DenyKeys()), RelevantKeys(), k);
    match (Get(f, k), Get(g, k))
    case (Some(v), Some(w)) => AlikeIffRedactedSame(v, w, DenyKeys());
    case _ =>
  }

  lemma GetPicked(fields: seq<Field>, keys: seq<Text>, k: Text)
    requires Distinct(keys) && k in keys
    ensures Get(Pick(fields, keys), k) == Get(fields, k)
  {
    PickMembers(fields, keys);
    var p := Pick(fields, keys);
    match Get(fields, k)
    case Some(v) =>
      assert Field(k, v) in p;
      var i :| 0 <= i < |p| && p[i] == Field(k, v);
      GetFound(p, i);
    case None =>
  }

  lemma SameObjectIff(f: seq<Field>, g: seq<Field>, keys: seq<Text>)
    requires DistinctKeys(f) && DistinctKeys(g)
    requires (forall x | x in f :: x.key in keys) && (forall x | x in g :: x.key in keys)
    ensures SameValue(Obj(f), Obj(g)) <==> forall k | k in keys :: SameAt(f, g, k)
  {
    if SameValue(Obj(f), Obj(g)) {
      forall k | k in keys ensures SameAt(f, g, k) {
        SameAtKey(f, g, k);
      }
    }
    if forall k | k in keys :: SameAt(f, g, k) {
      forall i | 0 <= i < |f| ensures HasSame(f[i], g) {
        GetFound(f, i);
        assert f[i] in f && SameAt(f, g, f[i].key);
        var j :| 0 <= j < |g| && g[j] == Field(f[i].key, Get(g, f[i].key).value);
      }
      forall j | 0 <= j < |g| ensures HasKey(f, g[j].key) {
        GetFound(g, j);
        assert g[j] in g && SameAt(f, g, g[j].key);
        GetFirst(f, g[j].key);
      }
    }
  }

  lemma SameAtKey(f: seq<Field>, g: seq<Field>, k: Text)
    requires DistinctKeys(f) && DistinctKeys(g) && SameValue(Obj(f), Obj(g))
    ensures SameAt(f, g, k)
  {
    GetFirst(f, k);
    GetFirst(g, k);
    if HasKey(f, k) {
      var i :| 0 <= i < |f| && f[i].key == k;
      GetFound(f, i);
      assert HasSame(f[i], g);
      var j :| 0 <= j < |g| && g[j].key == k && SameValue(f[i].value, g[j].value);
      GetFound(g, j);
    }
  }

  lemma RedactPayloadFields(payload: Json)
    ensures RedactPayload(payload, DenyKeys()) == RedactFields(PayloadFields(payload), DenyKeys())
  {
    ValueNotDenied();
  }

  /** What is hashed of a payload is a value of the language, its keys among the seven. */
  lemma RelevantWellFormed(payload: Json)
    requires WellFormed(payload)
    ensures WellFormed(Obj(Relevant(payload))) && LetterKeys(Relevant(payload))
    ensures Plain(payload) ==> Plain(Obj(Relevant(payload)))
  {
    hide RelevantKeys, Distinct, RedactFields, Get, Pick;
    RedactPayloadFields(payload);
    RelevantKeysDistinct();
    PickedWellFormed(PayloadFields(payload), RelevantKeys());
    LettersFirst(Relevant(payload));
  }

  lemma LettersFirst(fields: seq<Field>)
    requires forall x | x in fields :: x.key in RelevantKeys()
    ensures LetterKeys(fields)
  {
    hide RelevantKeys;
    forall i | 0 <= i < |fields| ensures StartsWithLetter(fields[i].key) {
      assert fields[i] in fields;
      RelevantKeyStart(fields[i].key);
    }
  }

  /** Payloads that agree on every relevant key have the same relevant fields, as values. */
  lemma RelevantSameIff(p: Json, q: Json)
    requires WellFormed(p) && WellFormed(q)
    ensures SameValue(Obj(Relevant(p)), Obj(Relevant(q)))
       <==> forall k | k in RelevantKeys() :: AgreeOn(PayloadFields(p), PayloadFields(q), k)
  {
    RedactPayloadFields(p);
    RedactPayloadFields(q);
    hide RelevantKeys, AgreeOn, SameValue;
    PickedSameIff(PayloadFields(p), PayloadFields(q));
  }

  // ------------------------------------------------------------ the parts and the bars

  function TextsOf(parts: HashParts): seq<Text> {
    [parts.workspaceId, parts.kind, OrEmpty(parts.sourceId), OrEmpty(parts.normalizedKey)]
  }

  /** The parts print alike: an absent source or reference is an empty one. */
  predicate SameParts(a: HashParts, b: HashParts) {
    TextsOf(a) == TextsOf(b)
  }

  predicate AllBarFree(texts: seq<Text>) {
    forall i | 0 <= i < |texts| :: BAR !in texts[i]
  }

  predicate BarFree(parts: HashParts) {
    AllBarFree(TextsOf(parts))
  }

  /** Each text with a bar behind it, then the last one. */
  function Barred(texts: seq<Text>, last: Text): Text {
    if texts == [] then last else texts[0] + [BAR] + Barred(texts[1..], last)
  }

  lemma PreHashText(a: HashParts, p: Json)
    ensures PreHash(a, p) == Barred(TextsOf(a), Stringify(Obj(Relevant(p))))
  {
    hide Stringify, Relevant;
    var c := Stringify(Obj(Relevant(p)));
    JoinIsBarred(TextsOf(a), c);
    assert TextsOf(a) + [c] == [a.workspaceId, a.kind, OrEmpty(a.sourceId), OrEmpty(a.normalizedKey), c];
  }

  lemma {:induction false} JoinIsBarred(texts: seq<Text>, last: Text)
    ensures Join(texts + [last], [BAR]) == Barred(texts, last)
  {
    if texts != [] {
      JoinIsBarred(texts[1..], last);
      assert (texts + [last])[1..] == texts[1..] + [last];
    }
  }

  /** The first bar ends the first text, or the other side's first text goes on past it. */
  lemma FirstBar(a: Text, x: Text, b: Text, y: Text) returns (w: Text)
    requires BAR !in a && a + [BAR] + x == b + [BAR] + y
    ensures (a == b && x == y) || (b == a + [BAR] + w && x == w + [BAR] + y)
  {
    var s := a + [BAR] + x;
    assert s[|a|] == BAR && s[|b|] == BAR;
    assert forall i | 0 <= i < |a| :: s[i] == a[i];
    assert |a| <= |b|;
    assert x == s[|a| + 1..] && y == s[|b| + 1..];
    assert a == s[..|a|] && b == s[..|b|];
    w := if |a| < |b| then s[|a| + 1..|b|] else [];
  }

  lemma {:induction false} BarredSuffix(texts: seq<Text>, last: Text) returns (head: Text)
    requires texts != []
    ensures Barred(texts, last) == head + [BAR] + last
  {
    if |texts| == 1 {
      head := texts[0];
    } else {
      var rest := BarredSuffix(texts[1..], last);
      head := texts[0] + [BAR] + rest;
      assert Barred(texts, last) == texts[0] + [BAR] + (rest + [BAR] + last);
    }
  }

  /** Bar-free texts are the only ones that join as they do, unless a text with a bar reaches into the last one. */
  lemma {:induction false} BarredApart(xs: seq<Text>, last: Text, ys: seq<Text>, end: Text) returns (head: Text)
    requires AllBarFree(xs) && |xs| <= |ys| && Barred(xs, last) == Barred(ys, end)
    ensures (xs == ys && last == end) || last == head + [BAR] + end
    decreases |xs|
  {
    head := [];
    if xs == [] {
      if ys != [] {
        head := BarredSuffix(ys, end);
      }
    } else {
      var x, y := Barred(xs[1..], last), Barred(ys[1..], end);
      var w := FirstBar(xs[0], x, ys[0], y);
      assert xs == [xs[0]] + xs[1..] && ys == [ys[0]] + ys[1..];
      if xs[0] == ys[0] && x == y {
        head := BarredApart(xs[1..], last, ys[1..], end);
      } else {
        assert ([w] + ys[1..])[1..] == ys[1..];
        head := BarredApart(xs[1..], last, [w] + ys[1..], end);
      }
    }
  }

  // ------------------------------------------------------------ main results

  /**
   * Whatever the parts and the payloads: key order, keys outside the seven and the values under denied
   * keys never change the text that is hashed.
   */
  lemma PreHashUnchanged(a: HashParts, p: Json, b: HashParts, q: Json)
    requires SameParts(a, b) && WellFormed(p) && WellFormed(q)
    requires forall k | k in RelevantKeys() :: AgreeOn(PayloadFields(p), PayloadFields(q), k)
    ensures PreHash(a, p) == PreHash(b, q)
  {
    RelevantSameIff(p, q);
    RelevantWellFormed(p);
    RelevantWellFormed(q);
    PreHashText(a, p);
    PreHashText(b, q);
    hide RelevantKeys, AgreeOn, SameValue, Stringify, Relevant, PreHash, WellFormed, Plain, LetterKeys;
    SameValueCanonical(Obj(Relevant(p)), Obj(Relevant(q)));
    PrintsAlikeIff(Obj(Relevant(p)), Obj(Relevant(q)));
  }

  /** Parts without a bar can be read back from the text, whatever parts and payload the other signal has. */
  lemma BarFreeDetermined(a: HashParts, p: Json, b: HashParts, q: Json)
    requires BarFree(a) && WellFormed(p) && WellFormed(q) && PreHash(a, p) == PreHash(b, q)
    ensures SameParts(a, b) && Stringify(Obj(Relevant(p))) == Stringify(Obj(Relevant(q)))
  {
    RelevantWellFormed(p);
    RelevantWellFormed(q);
    PreHashText(a, p);
    PreHashText(b, q);
    hide Relevant, PreHash, Stringify, WellFormed, LetterKeys, Plain;
    var head := BarredApart(TextsOf(a), Stringify(Obj(Relevant(p))), TextsOf(b), Stringify(Obj(Relevant(q))));
    NoObjectAfterBar(Obj(Relevant(p)), head, Relevant(q));
  }

  /**
   * On JSON payloads, and parts without a bar, two signals hash the same text iff they agree on workspace,
   * type, source and reference and on every relevant key of the payload.
   */
  lemma PreHashIff(a: HashParts, p: Json, b: HashParts, q: Json)
    requires BarFree(a) && WellFormed(p) && WellFormed(q) && Plain(p) && Plain(q)
    ensures PreHash(a, p) == PreHash(b, q)
       <==> SameParts(a, b) && forall k | k in RelevantKeys() :: AgreeOn(PayloadFields(p), PayloadFields(q), k)
  {
    if PreHash(a, p) == PreHash(b, q) {
      hide RelevantKeys, AgreeOn, SameValue, Stringify, Relevant, PreHash, WellFormed, Plain, BarFree;
      BarFreeDetermined(a, p, b, q);
      RelevantWellFormed(p);
      RelevantWellFormed(q);
      CanonicalPrinter(Obj(Relevant(p)), Obj(Relevant(q)));
      RelevantSameIff(p, q);
    } else {
      hide RelevantKeys, AgreeOn, PreHash, WellFormed, Plain;
      if SameParts(a, b) && forall k | k in RelevantKeys() :: AgreeOn(PayloadFields(p), PayloadFields(q), k) {
        PreHashUnchanged(a, p, b, q);
      }
    }
  }

  /** A bar inside any part moves text across the parts: the separator is not escaped. */
  lemma BarsCollide(a: HashParts, payload: Json)
    requires !BarFree(a)
    ensures exists b :: !SameParts(a, b) && PreHash(a, payload) == PreHash(b, payload)
  {
    var b := Moved(a);
    var c := Stringify(Obj(Relevant(payload)));
    PreHashText(a, payload);
    PreHashText(b, payload);
    hide PreHash, Stringify, Relevant;
    MovedJoinsAlike(a, c);
  }

  function IndexOfBar(t: Text): (k: nat)
    requires BAR in t
    ensures k < |t| && t[k] == BAR
  {
    if t[0] == BAR then 0 else IndexOfBar(t[1..]) + 1
  }

  lemma SplitAtBar(t: Text)
    requires BAR in t
    ensures var k := IndexOfBar(t); t == t[..k] + [BAR] + t[k + 1..]
  {
    hide IndexOfBar;
  }

  /** Other parts with the same text: the part behind, or before, a bar takes over what stood on its other side. */
  function Moved(a: HashParts): HashParts
    requires !BarFree(a)
  {
    var source, key := OrEmpty(a.sourceId), OrEmpty(a.normalizedKey);
    if BAR in a.workspaceId then
      var k := IndexOfBar(a.workspaceId);
      a.(workspaceId := a.workspaceId[..k], kind := a.workspaceId[k + 1..] + [BAR] + a.kind)
    else if BAR in a.kind then
      var k := IndexOfBar(a.kind);
      a.(workspaceId := a.workspaceId + [BAR] + a.kind[..k], kind := a.kind[k + 1..])
    else if BAR in source then
      var k := IndexOfBar(source);
      a.(kind := a.kind + [BAR] + source[..k], sourceId := Some(source[k + 1..]))
    else
      SomeBar(a);
      var k := IndexOfBar(key);
      a.(sourceId := Some(source + [BAR] + key[..k]), normalizedKey := Some(key[k + 1..]))
  }

  lemma MovedJoinsAlike(a: HashParts, last: Text)
    requires !BarFree(a)
    ensures Barred(TextsOf(a), last) == Barred(TextsOf(Moved(a)), last) && !SameParts(a, Moved(a))
  {
    hide BarFree, Barred, IndexOfBar;
    var source, key := OrEmpty(a.sourceId), OrEmpty(a.normalizedKey);
    if BAR in a.workspaceId {
      var k := IndexOfBar(a.workspaceId);
      SplitAtBar(a.workspaceId);
      BarSlides(a.workspaceId[..k], a.workspaceId[k + 1..], a.kind, source, key, last);
    } else if BAR in a.kind {
      var k := IndexOfBar(a.kind);
      SplitAtBar(a.kind);
      BarSlides(a.workspaceId, a.kind[..k], a.kind[k + 1..], source, key, last);
    } else if BAR in source {
      var k := IndexOfBar(source);
      SplitAtBar(source);
      BarSlides(a.workspaceId, a.kind, source[..k], source[k + 1..], key, last);
    } else {
      SomeBar(a);
      var k := IndexOfBar(key);
      SplitAtBar(key);
      BarSlides(a.workspaceId, a.kind, source, key[..k], key[k + 1..], last);
    }
  }

  lemma SomeBar(a: HashParts)
    requires !BarFree(a)
    ensures BAR in a.workspaceId || BAR in a.kind || BAR in OrEmpty(a.sourceId) || BAR in OrEmpty(a.normalizedKey)
  {
  }

  /** The texts with the bar between two neighbours made part of one text. */
  function Merged(texts: seq<Text>, i: nat): seq<Text>
    requires i + 1 < |texts|
  {
    texts[..i] + [texts[i] + [BAR] + texts[i + 1]] + texts[i + 2..]
  }

  lemma {:induction false} MergedJoinsAlike(texts: seq<Text>, i: nat, last: Text)
    requires i + 1 < |texts|
    ensures Barred(Merged(texts, i), last) == Barred(texts, last)
  {
    var merged := Merged(texts, i);
    if i == 0 {
      assert merged[1..] == texts[1..][1..];
    } else {
      MergedJoinsAlike(texts[1..], i - 1, last);
      assert merged[1..] == Merged(texts[1..], i - 1);
    }
  }

  /** Five texts have a bar between any two; whichever one is taken into a part, they join alike. */
  lemma BarSlides(p: Text, q: Text, r: Text, s: Text, t: Text, last: Text)
    ensures Barred([p + [BAR] + q, r, s, t], last) == Barred([p, q + [BAR] + r, s, t], last)
         == Barred([p, q, r + [BAR] + s, t], last) == Barred([p, q, r, s + [BAR] + t], last)
  {
    hide Barred;
    var five := [p, q, r, s, t];
    MergedJoinsAlike(five, 0, last);
    MergedJoinsAlike(five, 1, last);
    MergedJoinsAlike(five, 2, last);
    MergedJoinsAlike(five, 3, last);
    assert Merged(five, 0) == [p + [BAR] + q, r, s, t] && Merged(five, 1) == [p, q + [BAR] + r, s, t];
    assert Merged(five, 2) == [p, q, r + [BAR] + s, t] && Merged(five, 3) == [p, q, r, s + [BAR] + t];
  }

  /** The text determines the parts exactly when none of them holds a bar. */
  lemma PartsDeterminedIff(a: HashParts)
    ensures BarFree(a)
       <==> forall b, p, q | WellFormed(p) && WellFormed(q) && PreHash(a, p) == PreHash(b, q) :: SameParts(a, b)
  {
    hide PreHash, WellFormed, BarFree, SameParts;
    if BarFree(a) {
      forall b, p, q | WellFormed(p) && WellFormed(q) && PreHash(a, p) == PreHash(b, q) ensures SameParts(a, b) {
        BarFreeDetermined(a, p, b, q);
      }
    } else {
      BarsCollide(a, Null);
      NullWellFormed();
    }
  }

  lemma NullWellFormed()
    ensures WellFormed(Null)
  {
  }
}
