/**
 * What redaction leaves at every place of a payload (packages/domain-signals/src/redact.ts:6-59).
 */
module RedactedPlaces {
  import opened Texts
  import opened Folding
  import opened JsonValues
  import opened JsonPaths
  import opened PayloadRedaction

  /** A key that is one of the twelve words in whatever case. */
  predicate Secret(key: Text) {
    SpellsOneOf(key, {"password", "secret", "token", "access_token", "refresh_token", "api_key", "apikey", "authorization",
                      "private_key", "privatekey", "client_secret", "webhook_secret"})
  }

  lemma DeniedIsSecret(key: Text)
    ensures Denied(key, DenyKeys()) <==> Secret(key)
  {
    hide Lower, Lit, Spells;
    PlainWords(key);
    TokenWords(key);
    KeyWords(key);
  }

  lemma PlainWords(key: Text)
    ensures Lower(key) == Lit("password") <==> Spells(key, "password")
    ensures Lower(key) == Lit("secret") <==> Spells(key, "secret")
    ensures Lower(key) == Lit("client_secret") <==> Spells(key, "client_secret")
    ensures Lower(key) == Lit("webhook_secret") <==> Spells(key, "webhook_secret")
  {
    hide Lower, Lit, Spells;
    LowerSpells(key, "password");
    LowerSpells(key, "secret");
    LowerSpells(key, "client_secret");
    LowerSpells(key, "webhook_secret");
  }

  lemma TokenWords(key: Text)
    ensures Lower(key) == Lit("token") <==> Spells(key, "token")
    ensures Lower(key) == Lit("access_token") <==> Spells(key, "access_token")
    ensures Lower(key) == Lit("refresh_token") <==> Spells(key, "refresh_token")
    ensures Lower(key) == Lit("authorization") <==> Spells(key, "authorization")
  {
    hide Lower, Lit, Spells;
    LowerSpells(key, "token");
    LowerSpells(key, "access_token");
    LowerSpells(key, "refresh_token");
    LowerSpells(key, "authorization");
  }

  lemma KeyWords(key: Text)
    ensures Lower(key) == Lit("api_key") <==> Spells(key, "api_key")
    ensures Lower(key) == Lit("apikey") <==> Spells(key, "apikey")
    ensures Lower(key) == Lit("private_key") <==> Spells(key, "private_key")
    ensures Lower(key) == Lit("privatekey") <==> Spells(key, "privatekey")
  {
    hide Lower, Lit, Spells;
    LowerSpells(key, "api_key");
    LowerSpells(key, "apikey");
    LowerSpells(key, "private_key");
    LowerSpells(key, "privatekey");
  }

  /** No step of the path is behind a secret key. */
  predicate Exposed(path: seq<Step>) {
    forall i | 0 <= i < |path| && path[i].Key? :: !Secret(path[i].key)
  }

  lemma {:induction false} GetOfRedacted(fields: seq<Field>, key: Text)
    ensures Get(RedactFields(fields, DenyKeys()), key)
         == match Get(fields, key)
            case None => None
            case Some(value) => Some(if Secret(key) then Redacted() else RedactValue(value, DenyKeys()))
  {
    hide Denied, Secret, RedactValue, Redacted, DenyKeys;
    if fields != [] {
      var r := RedactFields(fields, DenyKeys());
      assert r[0] == RedactField(fields[0], DenyKeys());
      assert r[1..] == RedactFields(fields[1..], DenyKeys());
      DeniedIsSecret(key);
      GetOfRedacted(fields[1..], key);
    }
  }

  /** One step into a redacted value. */
  lemma StepRedacted(v: Json, step: Step)
    ensures Into(RedactValue(v, DenyKeys()), step)
         == match Into(v, step)
            case None => None
            case Some(value) => Some(if step.Key? && Secret(step.key) then Redacted() else RedactValue(value, DenyKeys()))
  {
    hide Secret, Get, Redacted, DenyKeys;
    if v.Obj? && step.Key? {
      GetOfRedacted(v.fields, step.key);
    }
  }

  lemma {:induction false} ExposedPlace(v: Json, path: seq<Step>)
    requires Exposed(path)
    ensures At(RedactValue(v, DenyKeys()), path)
         == match At(v, path) case None => None case Some(value) => Some(RedactValue(value, DenyKeys()))
    decreases |path|
  {
    hide Secret, Into, RedactValue, Redacted, DenyKeys;
    if path != [] {
      StepRedacted(v, path[0]);
      var next := Into(v, path[0]);
      if next.Some? {
        ExposedPlace(next.value, path[1..]);
      }
    }
  }

  /**
   * Redaction decides every place. Outside secret keys nothing appears or goes and every text, number, boolean,
   * null and undefined is as it was; directly behind a secret key, wherever it stands, is the tag.
   */
  lemma RedactedAt(v: Json, path: seq<Step>)
    requires Exposed(path)
    ensures At(RedactValue(v, DenyKeys()), path).Some? <==> At(v, path).Some?
    ensures At(v, path).Some? && !At(v, path).value.Arr? && !At(v, path).value.Obj? ==>
              At(RedactValue(v, DenyKeys()), path) == At(v, path)
    ensures At(v, path).Some? && At(v, path).value.Arr? ==>
              var r := At(RedactValue(v, DenyKeys()), path).value; r.Arr? && |r.items| == |At(v, path).value.items|
    ensures At(v, path).Some? && At(v, path).value.Obj? ==>
              var r := At(RedactValue(v, DenyKeys()), path).value;
              r.Obj? && |r.fields| == |At(v, path).value.fields|
              && forall i | 0 <= i < |r.fields| :: r.fields[i].key == At(v, path).value.fields[i].key
    ensures forall key | Secret(key) && At(v, path + [Key(key)]).Some? ::
              At(RedactValue(v, DenyKeys()), path + [Key(key)]) == Some(Str(Lit("[REDACTED]")))
  {
    ExposedPlace(v, path);
    hide Secret, Exposed, At, DenyKeys;
    forall key | Secret(key) && At(v, path + [Key(key)]).Some?
      ensures At(RedactValue(v, DenyKeys()), path + [Key(key)]) == Some(Str(Lit("[REDACTED]")))
    {
      AtLast(v, path, Key(key));
      AtLast(RedactValue(v, DenyKeys()), path, Key(key));
      StepRedacted(At(v, path).value, Key(key));
    }
  }

  /** What `ingest` stores: an object is redacted, anything else wrapped under `value`. */
  lemma StoredPayload(payload: Json)
    ensures Obj(RedactPayload(payload, DenyKeys()))
         == RedactValue(if payload.Obj? then payload else Obj([Field(Lit("value"), payload)]), DenyKeys())
  {
    hide Lit, DenyKeys;
    ValueNotDenied();
    var wrapped := [Field(Lit("value"), payload)];
    assert RedactFields(wrapped, DenyKeys())[0] == RedactField(wrapped[0], DenyKeys());
    assert RedactFields(wrapped, DenyKeys()) == [RedactField(wrapped[0], DenyKeys())];
  }
}
