/** What saving settings makes of what was typed (backend/app/modules/admin_config/services/settings.py). */
module SavedSettings {
  import opened Wrappers
  import opened Json
  import opened Secrets
  import opened Settings

  /** A field of a section. */
  function FieldOf(config: Value, key: string, name: string): Option<Value> {
    if config.Dict? && key in config.fields && config.fields[key].Dict? && name in config.fields[key].fields
    then Some(config.fields[key].fields[name]) else None
  }

  /** The field after the merge alone: what was typed wins, and dicts are merged. */
  function Given(prior: Option<Value>, typed: Option<Value>): Option<Value> {
    if typed.None? then prior
    else if prior.Some? && prior.value.Dict? && typed.value.Dict? then Some(DeepMerge(prior.value, typed.value))
    else typed
  }

  /**
    What is to become of a field that had a prior value, for what was typed: an
    empty or masked password or token is no input, anything else is.
   */
  function Wanted(prior: Option<Value>, typed: Option<Value>, name: string): Option<Value> {
    if name in {"password", "botToken"} && typed in {Some(Str("")), Some(Str(MASK))} then Some(prior.GetOr(Null))
    else Given(prior, typed)
  }

  predicate Container(value: Option<Value>) {
    value.Some? && (value.value.List? || value.value.Dict?)
  }

  lemma MergedField(current: Value, body: Value, key: string, name: string)
    requires current.Dict? && body.Dict? && Section(current, body, key)
    ensures
      var prior, typed := FieldOf(current, key, name), FieldOf(body, key, name);
      var merged := DeepMerge(current, Cleaned(body)).fields;
      && key in merged && merged[key].Dict?
      && (name in merged[key].fields <==> Given(prior, typed).Some?)
      && (name in merged[key].fields ==> merged[key].fields[name] == Given(prior, typed).value)
  {
    assert DeepMerge(current, Cleaned(body)).fields[key] == DeepMerge(current.fields[key], body.fields[key]);
    var prior, typed := FieldOf(current, key, name), FieldOf(body, key, name);
    if prior.Some? && typed.Some? {
      assert DeepMerge(prior.value, typed.value) == Given(prior, typed).value;
    }
  }

  /** Saving fails exactly when a password or token of a section would be a list or a dict. */
  lemma RefusedExactly(current: Value, body: Value)
    requires current.Dict? && body.Dict?
    ensures MergeSetting(current, body).Err? <==>
      exists key <- body.fields, name <- ["password", "botToken"] ::
        Section(current, body, key) && Container(Given(FieldOf(current, key, name), FieldOf(body, key, name)))
  {
    var merged := DeepMerge(current, Cleaned(body)).fields;
    forall key | key in body.fields && Section(current, body, key)
      ensures key in merged
      ensures !Lookups(merged[key]) <==>
        exists name <- ["password", "botToken"] ::
          Container(Given(FieldOf(current, key, name), FieldOf(body, key, name)))
    {
      assert "password" in ["password", "botToken"] && "botToken" in ["password", "botToken"];
      forall name | name in ["password", "botToken"]
        ensures !Hashable(merged[key], name) <==> Container(Given(FieldOf(current, key, name), FieldOf(body, key, name)))
      {
        MergedField(current, body, key, name);
      }
    }
  }

  /** What `merge_setting` returns, field by field: what is wanted, and nothing else. */
  lemma MergedExactly(current: Value, body: Value, key: string)
    requires current.Dict? && body.Dict? && MergeSetting(current, body).Ok?
    ensures
      var merged := MergeSetting(current, body).value;
      && merged.Dict?
      && (key in merged.fields <==> key in current.fields || (key in body.fields && key != UPDATED_AT))
      && (if Section(current, body, key) then
            key in merged.fields && merged.fields[key].Dict?
            && forall name: string ::
                 FieldOf(merged, key, name) == Wanted(FieldOf(current, key, name), FieldOf(body, key, name), name)
          else if key in body.fields && key != UPDATED_AT then merged.fields[key] == body.fields[key]
          else key in current.fields ==> merged.fields[key] == current.fields[key])
  {
    if key in body.fields && key in current.fields {
      assert !Section(current, body, key) && key != UPDATED_AT ==>
          DeepMerge(current.fields[key], body.fields[key]) == body.fields[key];
    }
    if Section(current, body, key) {
      var merged := MergeSetting(current, body).value;
      forall name: string
        ensures FieldOf(merged, key, name) == Wanted(FieldOf(current, key, name), FieldOf(body, key, name), name)
      {
        MergedField(current, body, key, name);
      }
    }
  }

  /** What reads as sealed is opened, everything else is shown as it is. */
  lemma RevealedField(cipher: Cipher, config: Value, key: string, name: string)
    requires config.Dict?
    ensures
      var field, shown := FieldOf(config, key, name), FieldOf(Reveal(cipher, config), key, name);
      && (field.None? ==> shown.None?)
      && (field.Some? && field.value.Str? && !(PREFIX <= field.value.s) ==> shown == field)
      && (field.Some? ==> shown == Some(Entry(name, field.value, [Key(key), Key(name)], Decrypting(cipher))))
  {
    ChangedFields(config, [], Decrypting(cipher));
    if key in config.fields && config.fields[key].Dict? {
      assert [] + [Key(key)] == [Key(key)] && [Key(key)] + [Key(name)] == [Key(key), Key(name)];
      ChangedFields(config.fields[key], [Key(key)], Decrypting(cipher));
    }
  }

  /**
    Saving over a stored config, field by field of its sections: a typed string
    that is not blank and does not read as sealed is what is stored, passwords and
    tokens included; a blank password or token keeps the stored one, or becomes
    null where there was none; and what was not typed stays.
   */
  lemma SavedAsTyped(cipher: Cipher, draw: Path -> Nonce, defaults: Value, stored: Value, body: Value, key: string, name: string)
    requires Lawful(cipher) && defaults.Dict? && stored.Dict? && body.Dict?
    requires Update(cipher, draw, defaults, stored, body).Ok?
    requires Section(Reveal(cipher, if stored.fields == map[] then defaults else stored), body, key)
    ensures
      var current := Reveal(cipher, if stored.fields == map[] then defaults else stored);
      var after := Reveal(cipher, Update(cipher, draw, defaults, stored, body).value);
      var prior, typed := FieldOf(current, key, name), FieldOf(body, key, name);
      var blank := name in {"password", "botToken"} && typed in {Some(Str("")), Some(Str(MASK))};
      && (typed.Some? && typed.value.Str? && !blank && !(PREFIX <= typed.value.s) ==> FieldOf(after, key, name) == typed)
      && ((typed.None? || blank) && prior.Some? && prior.value.Str? && !(PREFIX <= prior.value.s)
          ==> FieldOf(after, key, name) == prior)
      && (blank && prior.None? ==> FieldOf(after, key, name) == Some(Null))
      && (typed.None? && prior.None? ==> FieldOf(after, key, name).None?)
  {
    var current := Reveal(cipher, if stored.fields == map[] then defaults else stored);
    var merged := MergeSetting(current, body).value;
    RevealUndoesProtect(cipher, draw, merged);
    MergedExactly(current, body, key);
    RevealedField(cipher, merged, key, name);
  }

  /** What the body does not name keeps its revealed value, whole sections included. */
  lemma UnnamedStays(cipher: Cipher, draw: Path -> Nonce, defaults: Value, stored: Value, body: Value, key: string)
    requires Lawful(cipher) && defaults.Dict? && stored.Dict? && body.Dict?
    requires Update(cipher, draw, defaults, stored, body).Ok?
    requires key !in body.fields || key == UPDATED_AT
    ensures
      var current := Reveal(cipher, if stored.fields == map[] then defaults else stored);
      var after := Reveal(cipher, Update(cipher, draw, defaults, stored, body).value);
      && after.Dict? && current.Dict? && (key in after.fields <==> key in current.fields)
      && (key in current.fields ==> after.fields[key] == Reveal(cipher, current).fields[key])
  {
    var current := Reveal(cipher, if stored.fields == map[] then defaults else stored);
    var merged := MergeSetting(current, body).value;
    RevealUndoesProtect(cipher, draw, merged);
    MergedExactly(current, body, key);
    ChangedFields(merged, [], Decrypting(cipher));
    ChangedFields(current, [], Decrypting(cipher));
  }

  /** What is stored and what is shown: every string secret sealed, or empty, in the row, and masked, or empty, in the answer. */
  lemma SavedIsHidden(cipher: Cipher, draw: Path -> Nonce, defaults: Value, stored: Value, body: Value, stamp: string)
    requires defaults.Dict? && stored.Dict? && body.Dict?
    requires Update(cipher, draw, defaults, stored, body).Ok?
    ensures
      var saved := Update(cipher, draw, defaults, stored, body).value;
      && saved.Dict? && AllSecrets(saved, text => NotStoredPlain(text))
      && var shown := ReadMasked(cipher, saved, stamp);
      && AllSecrets(shown, text => text == "" || text == MASK)
      && shown.fields.Keys == saved.fields.Keys + {"updatedAt"} && shown.fields["updatedAt"] == Str(stamp)
  {
    var current := Reveal(cipher, if stored.fields == map[] then defaults else stored);
    var saved := Update(cipher, draw, defaults, stored, body).value;
    ProtectSeals(cipher, draw, MergeSetting(current, body).value);
    MaskHides(cipher, saved);
    ChangedFields(saved, [], Decrypting(cipher));
    ChangedFields(Reveal(cipher, saved), [], Masking());
    assert Lower("updatedAt") == "updatedat";
    StampedSecrets(Mask(cipher, saved), stamp);
  }

  lemma StampedSecrets(shown: Value, stamp: string)
    requires shown.Dict? && AllSecrets(shown, text => text == "" || text == MASK)
    ensures AllSecrets(Dict(shown.fields[UPDATED_AT := Str(stamp)]), text => text == "" || text == MASK)
  {
    assert Lower(UPDATED_AT) == "updatedat";
  }
}
