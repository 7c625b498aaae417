/** backend/app/modules/admin_config/services/settings.py: saving settings over masked secrets. */
module Settings {
  import opened Wrappers
  import opened Json
  import opened Secrets
  import opened Dicts

  const UPDATED_AT := "updatedAt"

  datatype SettingError = UnhashableSecret

  // ---------------------------------------------------------------------------
  // `merge_setting`
  // ---------------------------------------------------------------------------

  /** `nested.get(name) in {"", MASK}`: a list or dict cannot be looked up in a set. */
  predicate Hashable(section: Value, name: string) {
    section.Dict? && name in section.fields ==> !section.fields[name].List? && !section.fields[name].Dict?
  }

  predicate Blank(section: Value, name: string) {
    section.Dict? && name in section.fields && section.fields[name] in {Str(""), Str(MASK)}
  }

  /** A blank or masked field takes its prior value, or null when there was none. */
  function RestoredField(section: Value, prior: Value, name: string): Value
    requires section.Dict? && prior.Dict?
  {
    if Blank(section, name) then
      Dict(section.fields[name := if name in prior.fields then prior.fields[name] else Null])
    else section
  }

  function Restored(section: Value, prior: Value): Value
    requires section.Dict? && prior.Dict?
  {
    RestoredField(RestoredField(section, prior, "password"), prior, "botToken")
  }

  function Cleaned(incoming: Value): Value
    requires incoming.Dict?
  {
    Dict(incoming.fields - {UPDATED_AT})
  }

  /** Sections that both sides hold as dicts. */
  predicate Section(current: Value, incoming: Value, key: string)
    requires current.Dict? && incoming.Dict?
  {
    && key != UPDATED_AT && key in incoming.fields && incoming.fields[key].Dict?
    && key in current.fields && current.fields[key].Dict?
  }

  /** A merged section, restored; anything else as merged. */
  function Patched(current: Value, incoming: Value, key: string, merged: Value): Value
    requires current.Dict? && incoming.Dict?
  {
    if Section(current, incoming, key) && merged.Dict? then Restored(merged, current.fields[key]) else merged
  }

  predicate Lookups(section: Value) {
    Hashable(section, "password") && Hashable(section, "botToken")
  }

  function MergeSetting(current: Value, incoming: Value): Result<Value, SettingError>
    requires current.Dict? && incoming.Dict?
  {
    var merged := DeepMerge(current, Cleaned(incoming)).fields;
    if exists key <- merged :: Section(current, incoming, key) && !Lookups(merged[key]) then Err(UnhashableSecret)
    else Ok(Dict(map key | key in merged :: Patched(current, incoming, key, merged[key])))
  }

  // ---------------------------------------------------------------------------
  // `merge_setting` as the code runs it, on dicts as objects
  // ---------------------------------------------------------------------------

  predicate BlankItem(item: Item) {
    item == Other(Str("")) || item == Other(Str(MASK))
  }

  /** One of the two restorations: the field of a new section is written in place. */
  method RestoreField(nested: PyDict, prior: PyDict, name: string,
                      ghost section: Value, ghost before: Value, ghost heap: set<PyDict>, ghost own: set<PyDict>)
    returns (hashable: bool)
    requires Built(nested, section, heap, own) && Denotes(Node(prior), before, heap)
    modifies nested
    ensures hashable == Hashable(section, name)
    ensures Built(nested, if hashable then RestoredField(section, before, name) else section, heap, own)
  {
    if name !in nested.items {
      return true;
    }
    var item := nested.items[name];
    assert Denotes(item, section.fields[name], heap + (own - {nested}));
    if item.Node? || item.value.List? {
      return false;
    }
    if BlankItem(item) {
      var restored := if name in prior.items then prior.items[name] else Other(Null);
      assert Denotes(restored, RestoredField(section, before, name).fields[name], heap);
      DenotesInLarger(restored, RestoredField(section, before, name).fields[name], heap, heap + (own - {nested}));
      nested.items := nested.items[name := restored];
    }
    return true;
  }

  /** The sections outside `todo` have been patched. */
  function PatchedOutside(current: Value, incoming: Value, merged: map<string, Value>, todo: set<string>): Value
    requires current.Dict? && incoming.Dict?
  {
    Dict(map key | key in merged :: if key in todo then merged[key] else Patched(current, incoming, key, merged[key]))
  }

  lemma PatchedAll(current: Value, incoming: Value)
    requires current.Dict? && incoming.Dict?
    requires forall key <- DeepMerge(current, Cleaned(incoming)).fields ::
               Section(current, incoming, key) ==> Lookups(DeepMerge(current, Cleaned(incoming)).fields[key])
    ensures MergeSetting(current, incoming)
         == Ok(PatchedOutside(current, incoming, DeepMerge(current, Cleaned(incoming)).fields, {}))
  {
    var merged := DeepMerge(current, Cleaned(incoming)).fields;
    assert PatchedOutside(current, incoming, merged, {}).fields
        == map key | key in merged :: Patched(current, incoming, key, merged[key]);
  }

  /** Before the loop nothing has been patched; a key that is no section is patched from the start. */
  lemma NothingPatched(current: Value, incoming: Value, merged: map<string, Value>, todo: set<string>)
    requires current.Dict? && incoming.Dict?
    requires forall key <- merged :: Section(current, incoming, key) ==> key in todo
    ensures PatchedOutside(current, incoming, merged, todo) == Dict(merged)
  {
    assert PatchedOutside(current, incoming, merged, todo).fields == merged;
  }

  lemma PatchedOne(current: Value, incoming: Value, merged: map<string, Value>, todo: set<string>, key: string)
    requires current.Dict? && incoming.Dict? && key in todo && key in merged
    ensures PatchedOutside(current, incoming, merged, todo - {key}).Dict?
    ensures
      var now := PatchedOutside(current, incoming, merged, todo).fields;
      var next := PatchedOutside(current, incoming, merged, todo - {key}).fields;
      && now[key] == merged[key]
      && next == now[key := Patched(current, incoming, key, merged[key])]
      && (!Section(current, incoming, key) ==>
            PatchedOutside(current, incoming, merged, todo - {key}) == PatchedOutside(current, incoming, merged, todo))
  {
    var now := PatchedOutside(current, incoming, merged, todo).fields;
    var next := PatchedOutside(current, incoming, merged, todo - {key}).fields;
    assert next == now[key := Patched(current, incoming, key, merged[key])];
    if !Section(current, incoming, key) {
      assert now[key := now[key]] == now;
    }
  }

  /** A dict without its time stamp stands for the cleaned value. */
  lemma CleanedDenotes(cleaned: PyDict, incoming: PyDict, value: Value, heap: set<PyDict>)
    requires Denotes(Node(incoming), value, heap) && cleaned.items == incoming.items - {UPDATED_AT}
    ensures Denotes(Node(cleaned), Cleaned(value), heap + {cleaned})
  {
    forall key | key in Cleaned(value).fields
      ensures Denotes(cleaned.items[key], Cleaned(value).fields[key], heap + {cleaned})
    {
      DenotesInLarger(incoming.items[key], value.fields[key], heap, heap + {cleaned});
    }
  }

  lemma StandingAt(items: map<string, Item>, value: Value, heap: set<PyDict>, parts: map<string, set<PyDict>>, key: string)
    requires Standing(items, value, heap, parts)
    ensures key in parts ==>
              key in items && items[key].Node? && items[key].dict in parts[key] && items[key].dict in All(parts)
  {
  }

  /** Replacing one part by another that is built keeps the items standing. */
  lemma Restanding(items: map<string, Item>, now: Value, next: Value, heap: set<PyDict>,
                   parts: map<string, set<PyDict>>, key: string)
    requires now.Dict? && next.Dict? && key in parts && key in next.fields && items.Keys == now.fields.Keys
    requires next.fields == now.fields[key := next.fields[key]]
    requires forall other <- parts :: other in items && items[other].Node? && other in now.fields
    requires forall other <- parts :: other != key ==> Built(items[other].dict, now.fields[other], heap, parts[other])
    requires Built(items[key].dict, next.fields[key], heap, parts[key])
    requires forall one <- parts, other <- parts :: one != other ==> parts[one] !! parts[other]
    requires forall other <- items :: other !in parts ==> Denotes(items[other], now.fields[other], heap)
    ensures Standing(items, next, heap, parts)
  {
    hide Built, Denotes;
  }

  lemma SectionFails(current: Value, incoming: Value, key: string)
    requires current.Dict? && incoming.Dict? && Section(current, incoming, key)
    requires key in DeepMerge(current, Cleaned(incoming)).fields
    requires !Lookups(DeepMerge(current, Cleaned(incoming)).fields[key])
    ensures MergeSetting(current, incoming) == Err(UnhashableSecret)
  {
  }

  lemma PatchedSection(current: Value, incoming: Value, key: string, merged: Value)
    requires current.Dict? && incoming.Dict? && Section(current, incoming, key) && merged.Dict?
    ensures Patched(current, incoming, key, merged)
         == RestoredField(RestoredField(merged, current.fields[key], "password"), current.fields[key], "botToken")
  {
  }

  /** The dict made along the way may count as one of the new ones. */
  lemma BuiltFrom(d: PyDict, value: Value, heap: set<PyDict>, extra: PyDict, own: set<PyDict>)
    requires Built(d, value, heap + {extra}, own) && extra !in heap && extra != d
    ensures Built(d, value, heap, own + {extra})
  {
    assert heap + {extra} + (own - {d}) == heap + (own + {extra} - {d});
  }

  /** The body of the loop for a section: both fields of the new dict are restored in place. */
  method PatchSection(items: map<string, Item>, key: string, prior: PyDict, ghost before: Value, ghost body: Value,
                      ghost whole: map<string, Value>, ghost todo: set<string>,
                      ghost heap: set<PyDict>, ghost parts: map<string, set<PyDict>>)
    returns (hashable: bool)
    requires before.Dict? && body.Dict? && Section(before, body, key)
    requires key in todo && key in parts && key in whole && whole[key].Dict?
    requires key in items && items[key].Node?
    requires Standing(items, PatchedOutside(before, body, whole, todo), heap, parts) && All(parts) !! heap
    requires Denotes(Node(prior), before.fields[key], heap)
    modifies items[key].dict
    ensures hashable == Lookups(whole[key])
    ensures hashable ==> Standing(items, PatchedOutside(before, body, whole, todo - {key}), heap, parts)
  {
    hide Built, Denotes, Patched, PatchedOutside, RestoredField;
    ghost var now := PatchedOutside(before, body, whole, todo);
    ghost var next := PatchedOutside(before, body, whole, todo - {key});
    PatchedOne(before, body, whole, todo, key);
    StandingAt(items, now, heap, parts, key);
    var nested := items[key].dict;
    ghost var section, former := whole[key], before.fields[key];
    ghost var own := parts[key];
    hashable := RestoreField(nested, prior, "password", section, former, heap, own);
    if hashable {
      hashable := RestoreField(nested, prior, "botToken", RestoredField(section, former, "password"), former, heap, own);
      RestoredKeeps(section, former);
      if hashable {
        PatchedSection(before, body, key, section);
        Restanding(items, now, next, heap, parts, key);
      }
    }
  }

  lemma RestoredKeeps(section: Value, prior: Value)
    requires section.Dict? && prior.Dict?
    ensures Hashable(RestoredField(section, prior, "password"), "botToken") <==> Hashable(section, "botToken")
  {
  }

  /**
    `merge_setting`: the current and the incoming settings are only read; what is
    patched are new dicts of the merge.
   */
  method MergeSettingDicts(current: PyDict, incoming: PyDict, ghost before: Value, ghost body: Value, ghost heap: set<PyDict>)
    returns (result: Result<PyDict, SettingError>, ghost own: set<PyDict>)
    requires Denotes(Node(current), before, heap) && Denotes(Node(incoming), body, heap)
    ensures fresh(own)
    ensures match MergeSetting(before, body)
            case Ok(value) => result.Ok? && Built(result.value, value, heap, own)
            case Err(error) => result == Err(error)
    ensures Denotes(Node(current), before, heap) && Denotes(Node(incoming), body, heap)
  {
    hide Built, Denotes, DeepMerge, Patched, PatchedOutside, MergeSetting, RestoredField, Standing;
    EntryDenotes(current, before, heap, "");
    EntryDenotes(incoming, body, heap, "");
    own := {};
    var cleaned := new PyDict(incoming.items - {UPDATED_AT});
    ghost var larger := heap + {cleaned};
    CleanedDenotes(cleaned, incoming, body, heap);
    DenotesInLarger(Node(current), before, heap, larger);
    var merged, parts := MergeDicts(current, cleaned, before, Cleaned(body), larger);
    ghost var whole, items, inner := DeepMerge(before, Cleaned(body)).fields, merged.items, All(parts);
    var todo := cleaned.items.Keys;
    NothingPatched(before, body, whole, todo);
    while todo != {}
      invariant merged.items == items && cleaned.items == incoming.items - {UPDATED_AT} && todo <= cleaned.items.Keys
      invariant Standing(items, PatchedOutside(before, body, whole, todo), larger, parts)
      invariant forall key <- whole :: key !in todo && Section(before, body, key) ==> Lookups(whole[key])
      decreases todo
    {
      var key :| key in todo;
      EntryDenotes(current, before, heap, key);
      EntryDenotes(incoming, body, heap, key);
      MergedAt(before, Cleaned(body), key);
      StandingAt(items, PatchedOutside(before, body, whole, todo), larger, parts, key);
      if cleaned.items[key].Node? && key in current.items && current.items[key].Node? {
        assert Section(before, body, key) && key in parts;
        var prior := current.items[key].dict;
        DenotesInLarger(Node(prior), before.fields[key], heap, larger);
        var hashable := PatchSection(merged.items, key, prior, before, body, whole, todo, larger, parts);
        if !hashable {
          SectionFails(before, body, key);
          return Err(UnhashableSecret), {};
        }
      } else {
        PatchedOne(before, body, whole, todo, key);
      }
      todo := todo - {key};
    }
    PatchedAll(before, body);
    StandingBuilt(merged, PatchedOutside(before, body, whole, {}), larger, parts);
    own := inner + {merged} + {cleaned};
    BuiltFrom(merged, PatchedOutside(before, body, whole, {}), heap, cleaned, inner + {merged});
    return Ok(merged), own;
  }

  // ---------------------------------------------------------------------------
  // Reading masked and saving back
  // ---------------------------------------------------------------------------

  /** `get_setting`: masked, stamped with the time of the last update. */
  function ReadMasked(cipher: Cipher, stored: Value, stamp: string): Value
    requires stored.Dict?
  {
    Dict(Mask(cipher, stored).fields[UPDATED_AT := Str(stamp)])
  }

  /** `update_app_config`; an empty stored config falls back to the defaults. */
  function Update(cipher: Cipher, draw: Path -> Nonce, defaults: Value, stored: Value, body: Value): Result<Value, SettingError>
    requires defaults.Dict? && stored.Dict? && body.Dict?
  {
    var current := Reveal(cipher, if stored.fields == map[] then defaults else stored);
    match MergeSetting(current, body)
    case Ok(merged) => Ok(Protect(cipher, draw, merged))
    case Err(error) => Err(error)
  }

  predicate Unmasked(text: string) {
    text == "" || text == MASK
  }

  /** No secret reads as sealed. */
  ghost predicate Readable(cipher: Cipher, key: string, value: Value) {
    EntrySecrets(key, value, text => DecryptValue(cipher, text) == text)
  }

  /** Nothing is lost by masking: every secret is empty already, or is the mask itself. */
  ghost predicate NothingToMask(key: string, value: Value) {
    EntrySecrets(key, value, text => Unmasked(text))
  }

  predicate RestoredName(name: string) {
    name == "password" || name == "botToken"
  }

  /** Every secret of a section stands directly in it, under a restored name, and does not read as sealed. */
  ghost predicate SectionReadable(cipher: Cipher, section: Value)
    requires section.Dict?
  {
    forall name <- section.fields ::
      if RestoredName(name) then Readable(cipher, name, section.fields[name]) else NothingToMask(name, section.fields[name])
  }

  /** The restored names hold no list or dict, which `merge_setting` cannot look up. */
  predicate PlainSecrets(section: Value)
    requires section.Dict?
  {
    forall name <- section.fields :: RestoredName(name) ==> !section.fields[name].List? && !section.fields[name].Dict?
  }

  ghost predicate KeyReadable(cipher: Cipher, key: string, value: Value) {
    if key == UPDATED_AT then Readable(cipher, key, value)
    else if value.Dict? then SectionReadable(cipher, value)
    else NothingToMask(key, value)
  }

  predicate KeyPlain(key: string, value: Value) {
    key != UPDATED_AT && value.Dict? ==> PlainSecrets(value)
  }

  /**
    The configs that survive: secrets stand only directly in a section, under
    exactly the two names that are restored, and none reads as sealed.
   */
  ghost predicate Restorable(cipher: Cipher, config: Value)
    requires config.Dict?
  {
    forall key <- config.fields :: KeyPlain(key, config.fields[key]) && KeyReadable(cipher, key, config.fields[key])
  }

  function At(key: string): Path { [Key(key)] }

  /** The walked entries of a top-level dict. */
  lemma ChangedFields(value: Value, path: Path, change: (Path, string) -> string)
    requires value.Dict?
    ensures Changed(value, path, change).Dict? && Changed(value, path, change).fields.Keys == value.fields.Keys
    ensures forall key <- value.fields ::
              Changed(value, path, change).fields[key] == Entry(key, value.fields[key], path + [Key(key)], change)
  {
  }

  /** Masking keeps the shape of a value, so a merge onto the original yields the masked value. */
  lemma {:induction false} MaskedCovers(value: Value, path: Path)
    ensures Covers(Changed(value, path, Masking()), value)
    decreases value
  {
    if value.Dict? {
      ChangedFields(value, path, Masking());
      forall key | key in value.fields ensures Covers(Entry(key, value.fields[key], path + [Key(key)], Masking()), value.fields[key]) {
        MaskedCovers(value.fields[key], path + [Key(key)]);
      }
    }
  }

  /** Masking and revealing an entry gives it back exactly when there was nothing to mask. */
  lemma MaskThenReveal(cipher: Cipher, key: string, value: Value, path: Path)
    ensures Entry(key, Entry(key, value, path, Masking()), path, Decrypting(cipher)) == value <==> NothingToMask(key, value)
  {
    assert !(PREFIX <= MASK) by { assert MASK[0] != PREFIX[0]; }
    EntriesCompose(key, value, path, Masking(), Decrypting(cipher), Masking());
    EntryFixes(key, value, path, Masking(), text => Unmasked(text));
  }

  lemma RevealOnly(cipher: Cipher, key: string, value: Value, path: Path)
    ensures Entry(key, value, path, Decrypting(cipher)) == value <==> Readable(cipher, key, value)
  {
    EntryFixes(key, value, path, Decrypting(cipher), text => DecryptValue(cipher, text) == text);
  }

  lemma RestoredNamesAreSensitive()
    ensures Sensitive("password") && Sensitive("botToken")
  {
    assert Lower("password") == "password";
    assert Lower("botToken") == "bottoken";
  }

  lemma MaskedSection(section: Value, path: Path)
    requires section.Dict?
    ensures Lookups(Changed(section, path, Masking())) <==> PlainSecrets(section)
  {
    ChangedFields(section, path, Masking());
    var masked := Changed(section, path, Masking());
    forall name | name in section.fields
      ensures masked.fields[name].List? == section.fields[name].List? && masked.fields[name].Dict? == section.fields[name].Dict?
    {
    }
  }

  lemma RestoredSection(section: Value, path: Path)
    requires section.Dict? && Lookups(Changed(section, path, Masking()))
    ensures
      var masked := Changed(section, path, Masking());
      var restored := Restored(masked, section);
      && restored.Dict? && restored.fields.Keys == section.fields.Keys
      && forall name <- section.fields ::
           restored.fields[name] == if RestoredName(name) then section.fields[name] else masked.fields[name]
  {
    ChangedFields(section, path, Masking());
    RestoredNamesAreSensitive();
    var masked := Changed(section, path, Masking());
    forall name | name in section.fields && RestoredName(name)
      ensures if section.fields[name].Str? then Blank(masked, name) else masked.fields[name] == section.fields[name]
    {
    }
  }

  /** One section comes back exactly when only its restored fields are secret, and those are readable. */
  lemma SectionRoundTrip(cipher: Cipher, section: Value, path: Path)
    requires section.Dict? && Lookups(Changed(section, path, Masking()))
    ensures Changed(Restored(Changed(section, path, Masking()), section), path, Decrypting(cipher)) == section
       <==> SectionReadable(cipher, section)
  {
    var masked := Changed(section, path, Masking());
    var restored := Restored(masked, section);
    RestoredSection(section, path);
    ChangedFields(section, path, Masking());
    ChangedFields(restored, path, Decrypting(cipher));
    var back := Changed(restored, path, Decrypting(cipher));
    forall name | name in section.fields
      ensures back.fields[name] == section.fields[name] <==>
        if RestoredName(name) then Readable(cipher, name, section.fields[name]) else NothingToMask(name, section.fields[name])
    {
      if RestoredName(name) {
        RevealOnly(cipher, name, section.fields[name], path + [Key(name)]);
      } else {
        MaskThenReveal(cipher, name, section.fields[name], path + [Key(name)]);
      }
    }
    if forall name <- section.fields :: back.fields[name] == section.fields[name] {
      assert back.fields == section.fields;
    }
  }

  /** How one key stands after merging the masked config: sections and all, except the time stamp, are masked. */
  ghost predicate MaskMerged(revealed: Value, body: Value, key: string, merged: Value)
    requires revealed.Dict? && body.Dict? && key in revealed.fields
  {
    && (Section(revealed, body, key) <==> key != UPDATED_AT && revealed.fields[key].Dict?)
    && merged == if key == UPDATED_AT then revealed.fields[key] else Entry(key, revealed.fields[key], At(key), Masking())
  }

  ghost predicate AllMaskMerged(revealed: Value, body: Value)
    requires revealed.Dict? && body.Dict?
  {
    var merged := DeepMerge(revealed, Cleaned(body)).fields;
    merged.Keys == revealed.fields.Keys && forall key <- merged :: MaskMerged(revealed, body, key, merged[key])
  }

  /** The merge of a masked config onto the revealed one, key by key. */
  lemma MergedMask(revealed: Value, stamp: string)
    requires revealed.Dict?
    ensures
      var masked := Changed(revealed, [], Masking());
      var body := Dict(masked.fields[UPDATED_AT := Str(stamp)]);
      AllMaskMerged(revealed, body)
  {
    var masked := Changed(revealed, [], Masking());
    var body := Dict(masked.fields[UPDATED_AT := Str(stamp)]);
    ChangedFields(revealed, [], Masking());
    forall key | key in revealed.fields ensures [] + [Key(key)] == At(key) {
    }
    forall key | key in revealed.fields && key != UPDATED_AT
      ensures DeepMerge(revealed.fields[key], masked.fields[key]) == masked.fields[key]
    {
      MaskedCovers(revealed.fields[key], At(key));
      CoversExactly(masked.fields[key], revealed.fields[key]);
    }
  }

  /** What reading masked and saving back does to one key of the revealed config. */
  lemma KeyRoundTrip(cipher: Cipher, revealed: Value, body: Value, key: string, merged: Value)
    requires revealed.Dict? && body.Dict? && key in revealed.fields && MaskMerged(revealed, body, key, merged)
    ensures Section(revealed, body, key) && !Lookups(merged) <==> !KeyPlain(key, revealed.fields[key])
    ensures KeyPlain(key, revealed.fields[key]) ==>
              (Entry(key, Patched(revealed, body, key, merged), At(key), Decrypting(cipher)) == revealed.fields[key]
               <==> KeyReadable(cipher, key, revealed.fields[key]))
  {
    var value := revealed.fields[key];
    if key == UPDATED_AT {
      RevealOnly(cipher, key, value, At(key));
    } else if value.Dict? {
      assert merged == Changed(value, At(key), Masking());
      MaskedSection(value, At(key));
      if PlainSecrets(value) {
        SectionRoundTrip(cipher, value, At(key));
      }
    } else {
      MaskThenReveal(cipher, key, value, At(key));
    }
  }

  lemma SaveSucceeds(cipher: Cipher, revealed: Value, body: Value)
    requires revealed.Dict? && body.Dict? && AllMaskMerged(revealed, body)
    ensures MergeSetting(revealed, body).Ok? <==> forall key <- revealed.fields :: KeyPlain(key, revealed.fields[key])
  {
    var merged := DeepMerge(revealed, Cleaned(body)).fields;
    forall key | key in merged
      ensures Section(revealed, body, key) && !Lookups(merged[key]) <==> !KeyPlain(key, revealed.fields[key])
    {
      KeyRoundTrip(cipher, revealed, body, key, merged[key]);
    }
  }

  lemma SavedKeys(cipher: Cipher, revealed: Value, body: Value)
    requires revealed.Dict? && body.Dict? && AllMaskMerged(revealed, body)
    requires MergeSetting(revealed, body).Ok?
    requires forall key <- revealed.fields :: KeyPlain(key, revealed.fields[key])
    ensures Reveal(cipher, MergeSetting(revealed, body).value) == revealed
       <==> forall key <- revealed.fields :: KeyReadable(cipher, key, revealed.fields[key])
  {
    var merged := DeepMerge(revealed, Cleaned(body)).fields;
    var saved := MergeSetting(revealed, body).value;
    var back := Reveal(cipher, saved);
    ChangedFields(saved, [], Decrypting(cipher));
    forall key | key in revealed.fields
      ensures back.fields[key] == revealed.fields[key] <==> KeyReadable(cipher, key, revealed.fields[key])
    {
      assert [] + [Key(key)] == At(key);
      assert saved.fields[key] == Patched(revealed, body, key, merged[key]);
      KeyRoundTrip(cipher, revealed, body, key, merged[key]);
    }
    if forall key <- revealed.fields :: back.fields[key] == revealed.fields[key] {
      assert back.fields == revealed.fields;
    }
  }

  /** A config without any key is saved as the defaults. */
  lemma EmptyRoundTrip(cipher: Cipher, draw: Path -> Nonce, defaults: Value, stored: Value, stamp: string)
    requires Lawful(cipher) && defaults.Dict? && stored.Dict? && stored.fields == map[]
    ensures
      var saved := Update(cipher, draw, defaults, stored, ReadMasked(cipher, stored, stamp));
      saved.Ok? && Reveal(cipher, saved.value) == Reveal(cipher, Reveal(cipher, defaults))
  {
    var revealed, body := Reveal(cipher, defaults), ReadMasked(cipher, stored, stamp);
    ChangedFields(stored, [], Decrypting(cipher));
    ChangedFields(Reveal(cipher, stored), [], Masking());
    assert Cleaned(body).fields == map[];
    var result := MergeSetting(revealed, body);
    assert DeepMerge(revealed, Cleaned(body)).fields == revealed.fields;
    assert result.Ok? && result.value.fields == revealed.fields;
    RevealUndoesProtect(cipher, draw, result.value);
  }

  /**
    Reading the config masked and saving it as it was read leaves the revealed
    config unchanged exactly for the restorable ones, whatever nonces are drawn
    and whatever time stamp was shown; a config without any key is replaced by
    the defaults.
   */
  lemma MaskedRoundTrip(cipher: Cipher, draw: Path -> Nonce, defaults: Value, stored: Value, stamp: string)
    requires Lawful(cipher) && defaults.Dict? && stored.Dict?
    ensures
      var saved := Update(cipher, draw, defaults, stored, ReadMasked(cipher, stored, stamp));
      saved.Ok? && Reveal(cipher, saved.value) == Reveal(cipher, stored)
      <==> if stored.fields == map[] then defaults.fields == map[] else Restorable(cipher, Reveal(cipher, stored))
  {
    if stored.fields == map[] {
      EmptyRoundTrip(cipher, draw, defaults, stored, stamp);
      ChangedFields(stored, [], Decrypting(cipher));
      ChangedFields(defaults, [], Decrypting(cipher));
      ChangedFields(Reveal(cipher, defaults), [], Decrypting(cipher));
      hide Update, MergeSetting, Restorable;
      if Reveal(cipher, Reveal(cipher, defaults)) == Reveal(cipher, stored) {
        assert defaults.fields.Keys == stored.fields.Keys;
      }
      return;
    }
    var revealed := Reveal(cipher, stored);
    var body := ReadMasked(cipher, stored, stamp);
    MergedMask(revealed, stamp);
    SaveSucceeds(cipher, revealed, body);
    var result := MergeSetting(revealed, body);
    if result.Ok? {
      SavedKeys(cipher, revealed, body);
      RevealUndoesProtect(cipher, draw, result.value);
    }
  }

  /** A Telegram destination keeps its chat id in a list, which is replaced whole: such a config does not survive. */
  lemma DestinationsAreNotRestored(cipher: Cipher, config: Value, i: nat, chatId: string)
    requires config.Dict? && "telegram" in config.fields && config.fields["telegram"].Dict?
    requires
      var telegram := config.fields["telegram"].fields;
      && "destinations" in telegram && telegram["destinations"].List? && i < |telegram["destinations"].items|
      && (var destination := telegram["destinations"].items[i];
          destination.Dict? && "chatId" in destination.fields && destination.fields["chatId"] == Str(chatId))
    requires !Unmasked(chatId)
    ensures !Restorable(cipher, config)
  {
    assert Lower("chatId") == "chatid";
    var destinations := config.fields["telegram"].fields["destinations"];
    assert !AllSecrets(destinations.items[i], text => Unmasked(text));
    assert !NothingToMask("destinations", destinations);
  }

  // ---------------------------------------------------------------------------
  // The row as it is updated
  // ---------------------------------------------------------------------------

  class AppSetting {
    var value: Value
    var updatedAt: string

    constructor (value: Value, updatedAt: string)
      ensures this.value == value && this.updatedAt == updatedAt
    {
      this.value, this.updatedAt := value, updatedAt;
    }
  }

  /** `update_app_config`: the row takes the protected merge, or a failing merge leaves it alone. */
  method UpdateAppConfig(row: AppSetting, cipher: Cipher, draw: Path -> Nonce, defaults: Value, body: Value, now: string)
    returns (result: Result<Value, SettingError>)
    requires defaults.Dict? && row.value.Dict? && body.Dict?
    modifies row
    ensures
      var updated := Update(cipher, draw, defaults, old(row.value), body);
      if updated.Ok? then
        && row.value == updated.value && row.value.Dict? && row.updatedAt == now
        && result == Ok(ReadMasked(cipher, row.value, now))
      else result == Err(updated.error) && row.value == old(row.value) && row.updatedAt == old(row.updatedAt)
  {
    var current := Reveal(cipher, if row.value.fields == map[] then defaults else row.value);
    var merged := MergeSetting(current, body);
    if merged.Err? {
      return Err(merged.error);
    }
    row.value := Protect(cipher, draw, merged.value);
    row.updatedAt := now;
    return Ok(ReadMasked(cipher, row.value, now));
  }
}
