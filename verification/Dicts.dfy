/**
  `deep_merge` of backend/app/shared/dicts.py on dicts as objects: the merge
  shares what it does not have to copy, and writes to nothing that existed before.
 */
module Dicts {
  import opened Json

  /** An entry: another dict, or a value that is none. */
  datatype Item = Node(dict: PyDict) | Other(value: Value)

  class PyDict {
    var items: map<string, Item>

    constructor (items: map<string, Item>)
      ensures this.items == items
    {
      this.items := items;
    }
  }

  /** The item stands for the value, through dicts of the heap. */
  ghost predicate Denotes(item: Item, value: Value, heap: set<PyDict>)
    reads heap
    decreases value
  {
    match item
    case Other(v) => v == value && !value.Dict?
    case Node(d) =>
      && value.Dict? && d in heap && d.items.Keys == value.fields.Keys
      && forall key <- value.fields :: Denotes(d.items[key], value.fields[key], heap)
  }

  lemma {:induction false} DenotesInLarger(item: Item, value: Value, heap: set<PyDict>, larger: set<PyDict>)
    requires Denotes(item, value, heap) && heap <= larger
    ensures Denotes(item, value, larger)
    decreases value
  {
    if item.Node? {
      forall key | key in value.fields ensures Denotes(item.dict.items[key], value.fields[key], larger) {
        DenotesInLarger(item.dict.items[key], value.fields[key], heap, larger);
      }
    }
  }

  /**
    A new dict that stands for the value: itself and the other new dicts below it
    are `own`, everything else it leads to was there before.
   */
  ghost predicate Built(d: PyDict, value: Value, heap: set<PyDict>, own: set<PyDict>)
    reads heap, own
  {
    && d in own && own !! heap
    && value.Dict? && d.items.Keys == value.fields.Keys
    && forall key <- value.fields :: Denotes(d.items[key], value.fields[key], heap + (own - {d}))
  }

  lemma BuiltDenotes(d: PyDict, value: Value, heap: set<PyDict>, own: set<PyDict>)
    requires Built(d, value, heap, own)
    ensures Denotes(Node(d), value, heap + own)
  {
    forall key | key in value.fields ensures Denotes(d.items[key], value.fields[key], heap + own) {
      DenotesInLarger(d.items[key], value.fields[key], heap + (own - {d}), heap + own);
    }
  }

  /** Both sides hold a dict under the key. */
  predicate Nested(base: Value, overlay: Value, key: string) {
    && base.Dict? && overlay.Dict?
    && key in base.fields && base.fields[key].Dict?
    && key in overlay.fields && overlay.fields[key].Dict?
  }

  /** The new dicts under the nested keys, each built from dicts of its own. */
  ghost predicate Parts(items: map<string, Item>, merged: Value, heap: set<PyDict>, parts: map<string, set<PyDict>>)
    reads heap, set key, d | key in parts && d in parts[key] :: d
  {
    && merged.Dict?
    && (forall key <- parts ::
          && key in items && items[key].Node? && key in merged.fields
          && Built(items[key].dict, merged.fields[key], heap, parts[key]))
    && (forall key <- parts, other <- parts :: key != other ==> parts[key] !! parts[other])
  }

  ghost function All(parts: map<string, set<PyDict>>): set<PyDict> {
    set key, d | key in parts && d in parts[key] :: d
  }

  lemma NoParts(items: map<string, Item>, merged: Value, heap: set<PyDict>)
    requires merged.Dict?
    ensures Parts(items, merged, heap, map[]) && All(map[]) == {}
  {
  }

  lemma AddPart(items: map<string, Item>, merged: Value, heap: set<PyDict>, parts: map<string, set<PyDict>>,
                key: string, nested: PyDict, made: set<PyDict>)
    requires Parts(items, merged, heap, parts) && key !in parts && key in merged.fields
    requires Built(nested, merged.fields[key], heap, made) && made !! All(parts)
    ensures Parts(items[key := Node(nested)], merged, heap, parts[key := made])
    ensures All(parts[key := made]) == All(parts) + made
  {
    hide Built;
    forall other | other in parts ensures parts[other] <= All(parts) {
    }
    var more := parts[key := made];
    forall d | d in All(parts) + made ensures d in All(more) {
      if d in All(parts) {
        var other :| other in parts && d in parts[other];
        assert more[other] == parts[other];
      } else {
        assert d in more[key];
      }
    }
  }

  lemma AddItem(items: map<string, Item>, merged: Value, heap: set<PyDict>, parts: map<string, set<PyDict>>,
                key: string, item: Item)
    requires Parts(items, merged, heap, parts) && key !in parts
    ensures Parts(items[key := item], merged, heap, parts)
  {
    hide Built;
  }

  /** What an entry of a dict stands for. */
  lemma EntryDenotes(d: PyDict, value: Value, heap: set<PyDict>, key: string)
    requires Denotes(Node(d), value, heap)
    ensures value.Dict? && d in heap && d.items.Keys == value.fields.Keys
    ensures key in value.fields ==>
              Denotes(d.items[key], value.fields[key], heap) && (d.items[key].Node? <==> value.fields[key].Dict?)
  {
  }

  lemma MergedAt(below: Value, above: Value, key: string)
    requires below.Dict? && above.Dict?
    ensures
      var merged := DeepMerge(below, above);
      && merged.Dict? && merged.fields.Keys == below.fields.Keys + above.fields.Keys
      && (key in above.fields ==>
            merged.fields[key] == if Nested(below, above, key) then DeepMerge(below.fields[key], above.fields[key])
                                  else above.fields[key])
      && (key in below.fields && key !in above.fields ==> merged.fields[key] == below.fields[key])
  {
  }

  /** The items stand for the value: under the keys of `parts` by new dicts, elsewhere by old ones. */
  ghost predicate Standing(items: map<string, Item>, value: Value, heap: set<PyDict>, parts: map<string, set<PyDict>>)
    reads heap, All(parts)
  {
    && Parts(items, value, heap, parts)
    && items.Keys == value.fields.Keys
    && forall key <- items :: key !in parts ==> Denotes(items[key], value.fields[key], heap)
  }

  lemma StandingBuilt(d: PyDict, value: Value, heap: set<PyDict>, parts: map<string, set<PyDict>>)
    requires Standing(d.items, value, heap, parts)
    requires d !in heap && d !in All(parts) && All(parts) !! heap
    ensures Built(d, value, heap, All(parts) + {d})
  {
    assert All(parts) + {d} - {d} == All(parts);
    forall key | key in value.fields ensures Denotes(d.items[key], value.fields[key], heap + All(parts)) {
      if key in parts {
        BuiltDenotes(d.items[key].dict, value.fields[key], heap, parts[key]);
        DenotesInLarger(d.items[key], value.fields[key], heap + parts[key], heap + All(parts));
      } else {
        DenotesInLarger(d.items[key], value.fields[key], heap, heap + All(parts));
      }
    }
  }

  /** How the copy stands once the keys outside `todo` have been assigned. */
  ghost predicate Assigned(items: map<string, Item>, start: map<string, Item>, below: Value, above: Value,
                           heap: set<PyDict>, parts: map<string, set<PyDict>>, todo: set<string>)
    requires below.Dict? && above.Dict?
    reads heap, All(parts)
  {
    var merged := DeepMerge(below, above);
    && todo <= above.fields.Keys
    && items.Keys == below.fields.Keys + (above.fields.Keys - todo)
    && Parts(items, merged, heap, parts)
    && (forall key :: key in parts <==> Nested(below, above, key) && key !in todo)
    && (forall key <- todo :: key in items ==> key in start && items[key] == start[key])
    && (forall key <- items :: key !in parts && key !in todo ==>
          key in merged.fields && Denotes(items[key], merged.fields[key], heap))
  }

  lemma AssignedAtFirst(base: PyDict, below: Value, above: Value, heap: set<PyDict>)
    requires Denotes(Node(base), below, heap) && above.Dict?
    ensures Assigned(base.items, base.items, below, above, heap, map[], above.fields.Keys)
    ensures All(map[]) == {}
  {
    hide Denotes;
    EntryDenotes(base, below, heap, "");
    MergedAt(below, above, "");
    NoParts(base.items, DeepMerge(below, above), heap);
    forall key | key in base.items && key !in above.fields
      ensures Denotes(base.items[key], DeepMerge(below, above).fields[key], heap)
    {
      EntryDenotes(base, below, heap, key);
      MergedAt(below, above, key);
    }
  }

  lemma AssignNested(items: map<string, Item>, start: map<string, Item>, below: Value, above: Value, heap: set<PyDict>,
                     parts: map<string, set<PyDict>>, todo: set<string>, key: string, nested: PyDict, made: set<PyDict>)
    requires below.Dict? && above.Dict? && Assigned(items, start, below, above, heap, parts, todo)
    requires key in todo && Nested(below, above, key)
    requires Built(nested, DeepMerge(below.fields[key], above.fields[key]), heap, made) && made !! All(parts)
    ensures Assigned(items[key := Node(nested)], start, below, above, heap, parts[key := made], todo - {key})
    ensures All(parts[key := made]) == All(parts) + made
  {
    hide Parts, Built, Denotes, DeepMerge, All;
    MergedAt(below, above, key);
    AddPart(items, DeepMerge(below, above), heap, parts, key, nested, made);
  }

  lemma AssignOther(items: map<string, Item>, start: map<string, Item>, below: Value, above: Value, heap: set<PyDict>,
                    parts: map<string, set<PyDict>>, todo: set<string>, key: string, item: Item)
    requires below.Dict? && above.Dict? && Assigned(items, start, below, above, heap, parts, todo)
    requires key in todo && !Nested(below, above, key) && Denotes(item, above.fields[key], heap)
    ensures Assigned(items[key := item], start, below, above, heap, parts, todo - {key})
  {
    hide Parts, Built, Denotes, DeepMerge, All;
    MergedAt(below, above, key);
    AddItem(items, DeepMerge(below, above), heap, parts, key, item);
  }

  /** A key still to be assigned holds what the base held. */
  lemma StillToAssign(items: map<string, Item>, base: PyDict, overlay: PyDict, below: Value, above: Value,
                      heap: set<PyDict>, parts: map<string, set<PyDict>>, todo: set<string>, key: string)
    requires Denotes(Node(base), below, heap) && Denotes(Node(overlay), above, heap)
    requires below.Dict? && above.Dict? && Assigned(items, base.items, below, above, heap, parts, todo) && key in todo
    ensures key in above.fields && key in overlay.items
    ensures Denotes(overlay.items[key], above.fields[key], heap)
    ensures overlay.items[key].Node? && key in items && items[key].Node? <==> Nested(below, above, key)
    ensures Nested(below, above, key) ==> Denotes(items[key], below.fields[key], heap)
    ensures key !in parts
  {
    hide Denotes, DeepMerge, Parts;
    EntryDenotes(base, below, heap, key);
    EntryDenotes(overlay, above, heap, key);
  }

  lemma AssignedAll(items: map<string, Item>, start: map<string, Item>, below: Value, above: Value,
                    heap: set<PyDict>, parts: map<string, set<PyDict>>)
    requires below.Dict? && above.Dict? && Assigned(items, start, below, above, heap, parts, {})
    ensures Standing(items, DeepMerge(below, above), heap, parts)
    ensures forall key :: key in parts <==> Nested(below, above, key)
  {
    hide Built, Denotes, DeepMerge;
    MergedAt(below, above, "");
  }

  /** `deep_merge`: nothing that existed before is written, and every merged section is new. */
  method MergeDicts(base: PyDict, overlay: PyDict, ghost below: Value, ghost above: Value, ghost heap: set<PyDict>)
    returns (result: PyDict, ghost parts: map<string, set<PyDict>>)
    requires Denotes(Node(base), below, heap) && Denotes(Node(overlay), above, heap)
    ensures fresh(All(parts)) && fresh(result) && result !in All(parts)
    ensures Standing(result.items, DeepMerge(below, above), heap, parts)
    ensures forall key :: key in parts <==> Nested(below, above, key)
    ensures Denotes(Node(base), below, heap) && Denotes(Node(overlay), above, heap)
    decreases above
  {
    hide Denotes, DeepMerge, Built, Standing, All, Assigned;
    EntryDenotes(base, below, heap, "");
    EntryDenotes(overlay, above, heap, "");
    result := new PyDict(base.items);
    parts := map[];
    ghost var inner: set<PyDict> := {};
    AssignedAtFirst(base, below, above, heap);
    var todo := overlay.items.Keys;
    while todo != {}
      invariant inner == All(parts) && fresh(inner) && fresh(result) && result !in inner
      invariant Assigned(result.items, base.items, below, above, heap, parts, todo)
      decreases todo
    {
      var key :| key in todo;
      StillToAssign(result.items, base, overlay, below, above, heap, parts, todo, key);
      var item := overlay.items[key];
      if item.Node? && key in result.items && result.items[key].Node? {
        var nested, deeper := MergeDicts(result.items[key].dict, item.dict, below.fields[key], above.fields[key], heap);
        ghost var made := All(deeper) + {nested};
        StandingBuilt(nested, DeepMerge(below.fields[key], above.fields[key]), heap, deeper);
        AssignNested(result.items, base.items, below, above, heap, parts, todo, key, nested, made);
        result.items := result.items[key := Node(nested)];
        parts, inner := parts[key := made], inner + made;
      } else {
        AssignOther(result.items, base.items, below, above, heap, parts, todo, key, item);
        result.items := result.items[key := item];
      }
      todo := todo - {key};
    }
    AssignedAll(result.items, base.items, below, above, heap, parts);
  }
}
