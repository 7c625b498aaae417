/** JSON values as Python holds them, and backend/app/shared/dicts.py. */
module Json {
  datatype Value =
    | Null
    | Bool(b: bool)
    | Number(n: int)
    | Str(s: string)
    | List(items: seq<Value>)
    | Dict(fields: map<string, Value>)

  /** `deep_merge` on values: two dicts are merged key by key, anything else is replaced. */
  function DeepMerge(base: Value, overlay: Value): (merged: Value)
    ensures overlay.Dict? ==> merged.Dict?
    decreases overlay
  {
    if base.Dict? && overlay.Dict? then
      Dict(map key | key in base.fields.Keys + overlay.fields.Keys ::
        if key !in overlay.fields then base.fields[key]
        else if key in base.fields then DeepMerge(base.fields[key], overlay.fields[key])
        else overlay.fields[key])
    else overlay
  }

  /** Merging a value onto itself changes nothing. */
  lemma {:induction false} MergeIdempotent(value: Value)
    ensures DeepMerge(value, value) == value
    decreases value
  {
    if value.Dict? {
      forall key | key in value.fields ensures DeepMerge(value.fields[key], value.fields[key]) == value.fields[key] {
        MergeIdempotent(value.fields[key]);
      }
    }
  }

  /** Everything `a` holds under dict keys is overridden or kept by `c`: merging `a` below `c` adds nothing. */
  ghost predicate Covers(c: Value, a: Value)
    decreases c
  {
    c.Dict? && a.Dict? ==>
      && a.fields.Keys <= c.fields.Keys
      && forall key <- a.fields :: Covers(c.fields[key], a.fields[key])
  }

  lemma {:induction false} CoversExactly(c: Value, a: Value)
    ensures DeepMerge(a, c) == c <==> Covers(c, a)
    decreases c
  {
    if c.Dict? && a.Dict? {
      forall key | key in a.fields && key in c.fields
        ensures DeepMerge(a.fields[key], c.fields[key]) == c.fields[key] <==> Covers(c.fields[key], a.fields[key])
      {
        CoversExactly(c.fields[key], a.fields[key]);
      }
      var merged := DeepMerge(a, c);
      if merged == c {
        assert merged.fields.Keys == a.fields.Keys + c.fields.Keys;
        forall key | key in a.fields ensures key in c.fields && Covers(c.fields[key], a.fields[key]) {
          assert key in merged.fields;
          assert merged.fields[key] == DeepMerge(a.fields[key], c.fields[key]);
        }
      }
      if Covers(c, a) {
        assert merged.fields == c.fields;
      }
    }
  }

  /** Wherever a non-dict of `b` stands between dicts of `a` and `c`, `c` covers `a`. */
  ghost predicate Associable(a: Value, b: Value, c: Value)
    decreases c
  {
    if a.Dict? && !b.Dict? && c.Dict? then Covers(c, a)
    else if a.Dict? && b.Dict? && c.Dict? then
      forall key <- a.fields :: key in b.fields && key in c.fields ==> Associable(a.fields[key], b.fields[key], c.fields[key])
    else true
  }

  /**
    `deep_merge` is not associative: it is exactly for those layers in which no
    non-dict in the middle shields keys of the first that the last lacks.
   */
  lemma {:induction false} MergeAssociative(a: Value, b: Value, c: Value)
    ensures DeepMerge(DeepMerge(a, b), c) == DeepMerge(a, DeepMerge(b, c)) <==> Associable(a, b, c)
    decreases c
  {
    if a.Dict? && !b.Dict? && c.Dict? {
      CoversExactly(c, a);
    } else if a.Dict? && b.Dict? && c.Dict? {
      forall key | key in a.fields && key in b.fields && key in c.fields
        ensures DeepMerge(DeepMerge(a.fields[key], b.fields[key]), c.fields[key])
             == DeepMerge(a.fields[key], DeepMerge(b.fields[key], c.fields[key]))
            <==> Associable(a.fields[key], b.fields[key], c.fields[key])
      {
        MergeAssociative(a.fields[key], b.fields[key], c.fields[key]);
      }
      var left := DeepMerge(DeepMerge(a, b), c);
      var right := DeepMerge(a, DeepMerge(b, c));
      assert left.fields.Keys == right.fields.Keys;
      forall key | key in left.fields && !(key in a.fields && key in b.fields && key in c.fields)
        ensures left.fields[key] == right.fields[key]
      {
      }
      forall key | key in a.fields && key in b.fields && key in c.fields
        ensures left.fields[key] == right.fields[key] <==> Associable(a.fields[key], b.fields[key], c.fields[key])
      {
      }
      if left == right {
        forall key | key in a.fields && key in b.fields && key in c.fields
          ensures Associable(a.fields[key], b.fields[key], c.fields[key])
        {
          assert left.fields[key] == right.fields[key];
        }
      }
      if Associable(a, b, c) {
        assert left.fields == right.fields;
      }
    }
  }
}
