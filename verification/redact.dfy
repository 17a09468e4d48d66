/**
 * Removal of secrets from a payload before it is stored
 * (packages/domain-signals/src/redact.ts).
 */
module PayloadRedaction {
  import opened Texts
  import opened JsonValues

  function DenyKeys(): set<Text> {
    {Lit("password"), Lit("secret"), Lit("token"), Lit("access_token"), Lit("refresh_token"),
     Lit("api_key"), Lit("apikey"), Lit("authorization"), Lit("private_key"), Lit("privatekey"),
     Lit("client_secret"), Lit("webhook_secret")}
  }

  function Redacted(): Json {
    Str(Lit("[REDACTED]"))
  }

  predicate Denied(key: Text, deny: set<Text>) {
    Lower(key) in deny
  }

  // ------------------------------------------------------------ specification

  function RedactValue(v: Json, deny: set<Text>): Json
    decreases v, 0
  {
    match v
    case Arr(items) => Arr(seq(|items|, i requires 0 <= i < |items| => RedactValue(items[i], deny)))
    case Obj(fields) => Obj(RedactFields(fields, deny))
    case _ => v
  }

  function RedactFields(fields: seq<Field>, deny: set<Text>): (r: seq<Field>)
    ensures |r| == |fields| && forall i | 0 <= i < |fields| :: r[i] == RedactField(fields[i], deny)
    decreases fields, 1
  {
    seq(|fields|, i requires 0 <= i < |fields| => RedactField(fields[i], deny))
  }

  function RedactField(f: Field, deny: set<Text>): Field
    decreases f, 1
  {
    Field(f.key, if Denied(f.key, deny) then Redacted() else RedactValue(f.value, deny))
  }

  /** A payload that is not an object is wrapped in one. */
  function RedactPayload(input: Json, deny: set<Text>): (r: seq<Field>) {
    var redacted := RedactValue(input, deny);
    if redacted.Obj? then redacted.fields else [Field(Lit("value"), redacted)]
  }

  // ------------------------------------------------------------ the source's loops

  method Redact(v: Json, deny: set<Text>) returns (r: Json)
    requires WellFormed(v)
    ensures r == RedactValue(v, deny)
    decreases v
  {
    match v
    case Arr(items) =>
      var out := [];
      for i := 0 to |items|
        invariant out == seq(i, k requires 0 <= k < i => RedactValue(items[k], deny))
      {
        var item := Redact(items[i], deny);
        out := out + [item];
      }
      r := Arr(out);
    case Obj(fields) =>
      var out := [];
      for i := 0 to |fields|
        invariant out == RedactFields(fields, deny)[..i]
      {
        var child := Redacted();
        if !Denied(fields[i].key, deny) {
          child := Redact(fields[i].value, deny);
        }
        forall k | 0 <= k < |out| ensures out[k].key != fields[i].key {
          assert out[k] == RedactField(fields[k], deny);
        }
        PutNew(out, fields[i].key, child);
        out := Put(out, fields[i].key, child);
      }
      r := Obj(out);
    case _ =>
      r := v;
  }

  // ------------------------------------------------------------ properties

  lemma {:induction false} RedactKeeps(v: Json, deny: set<Text>)
    ensures WellFormed(v) ==> WellFormed(RedactValue(v, deny))
    ensures Plain(v) ==> Plain(RedactValue(v, deny))
  {
    match v
    case Arr(items) =>
      forall i | 0 <= i < |items| { RedactKeeps(items[i], deny); }
    case Obj(fields) =>
      forall i | 0 <= i < |fields| { RedactKeeps(fields[i].value, deny); }
    case _ =>
  }

  lemma {:induction false} RedactValueIdempotent(v: Json, deny: set<Text>)
    ensures RedactValue(RedactValue(v, deny), deny) == RedactValue(v, deny)
  {
    match v
    case Arr(items) =>
      forall i | 0 <= i < |items| ensures
          RedactValue(RedactValue(items[i], deny), deny) == RedactValue(items[i], deny) {
        RedactValueIdempotent(items[i], deny);
      }
      var once := RedactValue(v, deny);
      assert RedactValue(once, deny).items == once.items;
    case Obj(fields) =>
      forall i | 0 <= i < |fields| ensures
          RedactField(RedactField(fields[i], deny), deny) == RedactField(fields[i], deny) {
        RedactValueIdempotent(fields[i].value, deny);
      }
      assert RedactFields(RedactFields(fields, deny), deny) == RedactFields(fields, deny);
    case _ =>
  }

  /**
   * A second pass changes nothing, except that it loses a wrapped value when the deny list
   * given by the caller covers the wrapping key itself.
   */
  lemma RedactPayloadIdempotentIff(input: Json, deny: set<Text>)
    ensures RedactPayload(Obj(RedactPayload(input, deny)), deny) == RedactPayload(input, deny)
       <==> input.Obj? || !Denied(Lit("value"), deny) || input == Redacted()
  {
    RedactValueIdempotent(input, deny);
    if !input.Obj? {
      var once := [Field(Lit("value"), RedactValue(input, deny))];
      assert RedactFields(once, deny)[0] == RedactField(once[0], deny);
      assert once[0] == RedactField(once[0], deny) ==> RedactFields(once, deny) == once;
    }
  }

  lemma ValueNotDenied()
    ensures !Denied(Lit("value"), DenyKeys())
  {
    LowerOfLower(Lit("value"));
    assert Lit("value")[0] == 'v' as int;
    assert forall word | word in DenyKeys() :: word[0] != 'v' as int;
  }

  /** A text without capitals is its own lower case. */
  lemma LowerOfLower(s: Text)
    requires forall i | 0 <= i < |s| :: LowerUnit(s[i]) == [s[i]]
    ensures Lower(s) == s
  {
    if s != [] {
      LowerOfLower(s[1..]);
    }
  }

  /** The webhook path redacts a payload three times: in the event, in the bridge and in the service. */
  lemma ThreeRedactionsAreOne(payload: Json)
    ensures var once := RedactPayload(payload, DenyKeys());
            RedactPayload(Obj(RedactPayload(Obj(once), DenyKeys())), DenyKeys()) == once
  {
    ValueNotDenied();
    RedactPayloadIdempotentIff(payload, DenyKeys());
  }
}
