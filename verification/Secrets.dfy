/** backend/app/core/secrets.py: encrypting, revealing and masking the secrets inside JSON settings. */
module Secrets {
  import opened Json

  const PREFIX := "enc:v1:"
  const MASK := "\U{2022}\U{2022}\U{2022}\U{2022}\U{2022}\U{2022}"
  const SENSITIVE_KEYS: set<string> := {"password", "secret", "secretkey", "accesskey", "clientsecret", "bottoken", "token", "chatid"}

  /** Where a value stands; encryption draws one nonce per place. */
  datatype Step = Key(key: string) | Item(index: nat)
  type Path = seq<Step>
  type Nonce = nat

  /** Authenticated encryption with its text encoding, and decryption. */
  datatype Cipher = Cipher(seal: (string, Nonce) -> string, open: string -> string)

  ghost predicate Lawful(cipher: Cipher) {
    forall text, nonce :: cipher.open(cipher.seal(text, nonce)) == text
  }

  function Lower(text: string): string {
    seq(|text|, i requires 0 <= i < |text| => if 'A' <= text[i] <= 'Z' then text[i] - 'A' + 'a' else text[i])
  }

  predicate Sensitive(key: string) {
    Lower(key) in SENSITIVE_KEYS
  }

  /** `encrypt_value`. */
  function EncryptValue(cipher: Cipher, nonce: Nonce, value: string): string {
    if value == "" || PREFIX <= value then value else PREFIX + cipher.seal(value, nonce)
  }

  /** `decrypt_value`. */
  function DecryptValue(cipher: Cipher, value: string): string {
    if PREFIX <= value then cipher.open(value[|PREFIX|..]) else value
  }

  function MaskValue(value: string): string {
    if value == "" then value else MASK
  }

  /** `_walk`: every dict entry is transformed after its value was walked. */
  function Walk(value: Value, path: Path, transform: (Path, string, Value) -> Value): Value
    decreases value
  {
    match value
    case Dict(fields) =>
      Dict(map key | key in fields :: transform(path + [Key(key)], key, Walk(fields[key], path + [Key(key)], transform)))
    case List(items) =>
      List(seq(|items|, i requires 0 <= i < |items| => Walk(items[i], path + [Item(i)], transform)))
    case _ => value
  }

  /** The three transforms have this form: strings under sensitive keys change, nothing else. */
  function OnSecrets(change: (Path, string) -> string): (Path, string, Value) -> Value {
    (path, key, item: Value) => if Sensitive(key) && item.Str? then Str(change(path, item.s)) else item
  }

  function Changed(value: Value, path: Path, change: (Path, string) -> string): Value {
    Walk(value, path, OnSecrets(change))
  }

  /** `protect_mapping`, whatever nonces are drawn. */
  function Protect(cipher: Cipher, draw: Path -> Nonce, value: Value): Value {
    Changed(value, [], Encrypting(cipher, draw))
  }

  function Encrypting(cipher: Cipher, draw: Path -> Nonce): (Path, string) -> string {
    (path, text) => EncryptValue(cipher, draw(path), text)
  }

  function Decrypting(cipher: Cipher): (Path, string) -> string {
    (path, text) => DecryptValue(cipher, text)
  }

  function Masking(): (Path, string) -> string {
    (path, text) => MaskValue(text)
  }

  /** `reveal_mapping`. */
  function Reveal(cipher: Cipher, value: Value): Value {
    Changed(value, [], Decrypting(cipher))
  }

  /** `mask_mapping`. */
  function Mask(cipher: Cipher, value: Value): Value {
    Changed(Reveal(cipher, value), [], Masking())
  }

  // ---------------------------------------------------------------------------
  // Walks
  // ---------------------------------------------------------------------------

  /** The walked entry of a dict. */
  function Entry(key: string, value: Value, path: Path, change: (Path, string) -> string): Value {
    OnSecrets(change)(path, key, Changed(value, path, change))
  }

  /** Walking twice is walking once with both changes. */
  lemma {:induction false} WalksCompose(value: Value, path: Path,
    first: (Path, string) -> string, second: (Path, string) -> string, both: (Path, string) -> string)
    requires forall p, text :: both(p, text) == second(p, first(p, text))
    ensures Changed(Changed(value, path, first), path, second) == Changed(value, path, both)
    decreases value, 0
  {
    match value
    case Dict(fields) =>
      forall key | key in fields
        ensures Entry(key, Entry(key, fields[key], path + [Key(key)], first), path + [Key(key)], second)
             == Entry(key, fields[key], path + [Key(key)], both)
      {
        EntriesCompose(key, fields[key], path + [Key(key)], first, second, both);
      }
      DictsCompose(fields, path, first, second, both);
    case List(items) =>
      forall i | 0 <= i < |items|
        ensures Changed(Changed(items[i], path + [Item(i)], first), path + [Item(i)], second)
             == Changed(items[i], path + [Item(i)], both)
      {
        WalksCompose(items[i], path + [Item(i)], first, second, both);
      }
      ListsCompose(items, path, first, second, both);
    case _ =>
  }

  lemma DictsCompose(fields: map<string, Value>, path: Path,
    first: (Path, string) -> string, second: (Path, string) -> string, both: (Path, string) -> string)
    requires forall key <- fields ::
               Entry(key, Entry(key, fields[key], path + [Key(key)], first), path + [Key(key)], second)
               == Entry(key, fields[key], path + [Key(key)], both)
    ensures Changed(Changed(Dict(fields), path, first), path, second) == Changed(Dict(fields), path, both)
  {
    hide OnSecrets;
    var once := Changed(Dict(fields), path, first);
    assert once.fields.Keys == fields.Keys;
    forall key | key in fields ensures once.fields[key] == Entry(key, fields[key], path + [Key(key)], first) {
    }
    assert Changed(once, path, second).fields == Changed(Dict(fields), path, both).fields;
  }

  lemma ListsCompose(items: seq<Value>, path: Path,
    first: (Path, string) -> string, second: (Path, string) -> string, both: (Path, string) -> string)
    requires forall i :: 0 <= i < |items| ==>
               Changed(Changed(items[i], path + [Item(i)], first), path + [Item(i)], second)
               == Changed(items[i], path + [Item(i)], both)
    ensures Changed(Changed(List(items), path, first), path, second) == Changed(List(items), path, both)
  {
    hide OnSecrets;
    var once := Changed(List(items), path, first);
    assert |once.items| == |items|;
    forall i | 0 <= i < |items| ensures once.items[i] == Changed(items[i], path + [Item(i)], first) {
    }
    assert Changed(once, path, second).items == Changed(List(items), path, both).items;
  }

  lemma {:induction false} EntriesCompose(key: string, value: Value, path: Path,
    first: (Path, string) -> string, second: (Path, string) -> string, both: (Path, string) -> string)
    requires forall p, text :: both(p, text) == second(p, first(p, text))
    ensures Entry(key, Entry(key, value, path, first), path, second) == Entry(key, value, path, both)
    decreases value, 1
  {
    WalksCompose(value, path, first, second, both);
  }

  /** Every string under a sensitive key, at any depth, satisfies the condition. */
  ghost predicate AllSecrets(value: Value, condition: string -> bool)
    decreases value
  {
    match value
    case Dict(fields) =>
      forall key <- fields ::
        (Sensitive(key) && fields[key].Str? ==> condition(fields[key].s)) && AllSecrets(fields[key], condition)
    case List(items) => forall i :: 0 <= i < |items| ==> AllSecrets(items[i], condition)
    case _ => true
  }

  /** The same for the value of one key. */
  ghost predicate EntrySecrets(key: string, value: Value, condition: string -> bool) {
    (Sensitive(key) && value.Str? ==> condition(value.s)) && AllSecrets(value, condition)
  }

  /** A walk leaves a value alone exactly when it changes none of its secrets. */
  lemma {:induction false} WalkFixes(value: Value, path: Path,
    change: (Path, string) -> string, condition: string -> bool)
    requires forall p, text :: change(p, text) == text <==> condition(text)
    ensures Changed(value, path, change) == value <==> AllSecrets(value, condition)
    decreases value, 0
  {
    match value
    case Dict(fields) =>
      forall key | key in fields
        ensures Entry(key, fields[key], path + [Key(key)], change) == fields[key] <==> EntrySecrets(key, fields[key], condition)
      {
        EntryFixes(key, fields[key], path + [Key(key)], change, condition);
      }
      var walked := Changed(value, path, change);
      assert forall key <- fields :: walked.fields[key] == Entry(key, fields[key], path + [Key(key)], change);
      if AllSecrets(value, condition) {
        assert forall key <- fields :: EntrySecrets(key, fields[key], condition);
        assert walked.fields == fields;
      }
      if walked == value {
        assert forall key <- fields :: EntrySecrets(key, fields[key], condition);
      }
    case List(items) =>
      forall i | 0 <= i < |items|
        ensures Changed(items[i], path + [Item(i)], change) == items[i] <==> AllSecrets(items[i], condition)
      {
        WalkFixes(items[i], path + [Item(i)], change, condition);
      }
      var walked := Changed(value, path, change);
      assert forall i :: 0 <= i < |items| ==> walked.items[i] == Changed(items[i], path + [Item(i)], change);
      if AllSecrets(value, condition) {
        assert walked.items == items;
      }
    case _ =>
  }

  lemma {:induction false} EntryFixes(key: string, value: Value, path: Path,
    change: (Path, string) -> string, condition: string -> bool)
    requires forall p, text :: change(p, text) == text <==> condition(text)
    ensures Entry(key, value, path, change) == value <==> EntrySecrets(key, value, condition)
    decreases value, 1
  {
    WalkFixes(value, path, change, condition);
  }

  /** After a walk every secret has whatever property the change gives it. */
  lemma {:induction false} WalkGives(value: Value, path: Path,
    change: (Path, string) -> string, condition: string -> bool)
    requires forall p, text :: condition(change(p, text))
    ensures AllSecrets(Changed(value, path, change), condition)
    decreases value
  {
    match value
    case Dict(fields) =>
      forall key | key in fields ensures AllSecrets(Changed(fields[key], path + [Key(key)], change), condition) {
        WalkGives(fields[key], path + [Key(key)], change, condition);
      }
    case List(items) =>
      forall i | 0 <= i < |items| ensures AllSecrets(Changed(items[i], path + [Item(i)], change), condition) {
        WalkGives(items[i], path + [Item(i)], change, condition);
      }
    case _ =>
  }

  // ---------------------------------------------------------------------------
  // What protecting, revealing and masking promise
  // ---------------------------------------------------------------------------

  predicate NotStoredPlain(text: string) {
    text == "" || PREFIX <= text
  }

  lemma Encrypted(cipher: Cipher, nonce: Nonce, text: string)
    ensures NotStoredPlain(EncryptValue(cipher, nonce, text))
    ensures Lawful(cipher) ==> DecryptValue(cipher, EncryptValue(cipher, nonce, text)) == DecryptValue(cipher, text)
  {
    if text != "" && !(PREFIX <= text) {
      var sealed := cipher.seal(text, nonce);
      assert (PREFIX + sealed)[|PREFIX|..] == sealed;
    }
  }

  /** Every string under a sensitive key is stored empty or behind the prefix that marks what is sealed. */
  lemma ProtectSeals(cipher: Cipher, draw: Path -> Nonce, value: Value)
    ensures AllSecrets(Protect(cipher, draw, value), text => NotStoredPlain(text))
  {
    hide EncryptValue, NotStoredPlain;
    var condition := text => NotStoredPlain(text);
    forall p, text ensures condition(Encrypting(cipher, draw)(p, text)) {
      Encrypted(cipher, draw(p), text);
    }
    WalkGives(value, [], Encrypting(cipher, draw), condition);
  }

  /** Every string under a sensitive key leaves masked settings empty or as the mask, whatever is stored. */
  lemma MaskHides(cipher: Cipher, value: Value)
    ensures AllSecrets(Mask(cipher, value), text => text == "" || text == MASK)
  {
    WalkGives(Reveal(cipher, value), [], Masking(), text => text == "" || text == MASK);
  }

  /** The prefix counts as the seal: settings are stored as typed exactly when no string secret needs one. */
  lemma ProtectFixes(cipher: Cipher, draw: Path -> Nonce, value: Value)
    ensures Protect(cipher, draw, value) == value <==> AllSecrets(value, text => NotStoredPlain(text))
  {
    forall p, text ensures Encrypting(cipher, draw)(p, text) == text <==> NotStoredPlain(text) {
      Encrypted(cipher, draw(p), text);
    }
    WalkFixes(value, [], Encrypting(cipher, draw), text => NotStoredPlain(text));
  }

  /** Protecting loses nothing: revealing gives what revealing the original gives, for any nonces. */
  lemma RevealUndoesProtect(cipher: Cipher, draw: Path -> Nonce, value: Value)
    requires Lawful(cipher)
    ensures Reveal(cipher, Protect(cipher, draw, value)) == Reveal(cipher, value)
  {
    hide EncryptValue, DecryptValue, Changed;
    forall p, text ensures Decrypting(cipher)(p, text) == Decrypting(cipher)(p, Encrypting(cipher, draw)(p, text)) {
      Encrypted(cipher, draw(p), text);
    }
    WalksCompose(value, [], Encrypting(cipher, draw), Decrypting(cipher), Decrypting(cipher));
  }

  /** Protecting twice is protecting once: what is sealed stays as it is, whatever nonces the second pass draws. */
  lemma ProtectIdempotent(cipher: Cipher, draw: Path -> Nonce, again: Path -> Nonce, value: Value)
    ensures Protect(cipher, again, Protect(cipher, draw, value)) == Protect(cipher, draw, value)
  {
    forall p, text
      ensures Encrypting(cipher, draw)(p, text) == Encrypting(cipher, again)(p, Encrypting(cipher, draw)(p, text))
    {
      var once := EncryptValue(cipher, draw(p), text);
      Encrypted(cipher, draw(p), text);
      assert EncryptValue(cipher, again(p), once) == once;
    }
    WalksCompose(value, [], Encrypting(cipher, draw), Encrypting(cipher, again), Encrypting(cipher, draw));
  }

  /** A revealed value is left alone by revealing exactly when none of its secrets reads as sealed. */
  lemma RevealFixes(cipher: Cipher, value: Value)
    ensures Reveal(cipher, value) == value <==> AllSecrets(value, text => DecryptValue(cipher, text) == text)
  {
    WalkFixes(value, [], Decrypting(cipher), text => DecryptValue(cipher, text) == text);
  }
}
