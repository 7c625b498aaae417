/**
  Dotted paths into JavaScript objects: frontend/app/utils/object-path.ts, and
  the shallow copy through which useDocumentPage.ts writes a field.
 */
module ObjectPath {
  /** A value of the language: of the primitive ones only the identity matters here. */
  datatype Value = Undefined | Null | Primitive(id: int) | Ref(obj: JsObject)

  class JsObject {
    var fields: map<string, Value>

    constructor (fields: map<string, Value>)
      ensures this.fields == fields
    {
      this.fields := fields;
    }
  }

  // ---------------------------------------------------------------------------
  // Paths
  // ---------------------------------------------------------------------------

  /** `split('.')` */
  function SplitAll(path: string): (parts: seq<string>)
    ensures parts != []
  {
    if path == "" then [""]
    else
      var rest := SplitAll(path[1..]);
      if path[0] == '.' then [""] + rest else [[path[0]] + rest[0]] + rest[1..]
  }

  function NonEmpty(parts: seq<string>): seq<string> {
    if parts == [] then []
    else (if parts[0] == "" then [] else [parts[0]]) + NonEmpty(parts[1..])
  }

  /** `path.split('.').filter(Boolean)` */
  function Split(path: string): seq<string> {
    NonEmpty(SplitAll(path))
  }

  function Join(parts: seq<string>): string {
    if parts == [] then ""
    else if |parts| == 1 then parts[0]
    else parts[0] + "." + Join(parts[1..])
  }

  lemma {:induction false} SplitAllAt(part: string, rest: string)
    requires '.' !in part
    ensures SplitAll(part) == [part]
    ensures SplitAll(part + "." + rest) == [part] + SplitAll(rest)
    decreases |part|
  {
    var path := part + "." + rest;
    if part == "" {
      assert path[1..] == rest;
    } else {
      SplitAllAt(part[1..], rest);
      assert path[1..] == part[1..] + "." + rest;
      assert [part[0]] + part[1..] == part;
    }
  }

  lemma {:induction false} NonEmptyExactly(parts: seq<string>)
    ensures forall part :: part in NonEmpty(parts) <==> part in parts && part != ""
    ensures (forall part <- parts :: part != "") ==> NonEmpty(parts) == parts
    decreases |parts|
  {
    if parts != [] {
      NonEmptyExactly(parts[1..]);
      assert parts == [parts[0]] + parts[1..];
      assert parts[0] in parts && forall part <- parts[1..] :: part in parts;
    }
  }

  lemma {:induction false} SplitAllJoin(parts: seq<string>)
    requires parts != [] && forall part <- parts :: '.' !in part
    ensures SplitAll(Join(parts)) == parts
    decreases |parts|
  {
    SplitAllAt(parts[0], Join(parts[1..]));
    if |parts| > 1 {
      SplitAllJoin(parts[1..]);
    }
  }

  /** Dot-free names that are joined come apart again, but for the empty ones, which a path does not see. */
  lemma SplitJoin(parts: seq<string>)
    requires forall part <- parts :: '.' !in part
    ensures Split(Join(parts)) == NonEmpty(parts)
    ensures (forall part <- parts :: part != "") ==> Split(Join(parts)) == parts
  {
    NonEmptyExactly(parts);
    if parts != [] {
      SplitAllJoin(parts);
    }
  }

  lemma {:induction false} SplitAllDotFree(path: string)
    ensures forall part <- SplitAll(path) :: '.' !in part
    decreases |path|
  {
    if path != "" {
      SplitAllDotFree(path[1..]);
      var rest := SplitAll(path[1..]);
      assert rest[0] in rest;
    }
  }

  /** The names of a path are not empty and hold no dot. */
  lemma SplitNames(path: string)
    ensures forall part <- Split(path) :: part != "" && '.' !in part
  {
    SplitAllDotFree(path);
    NonEmptyExactly(SplitAll(path));
  }

  // ---------------------------------------------------------------------------
  // Heaps
  // ---------------------------------------------------------------------------

  /** The fields of a set of objects at one moment. */
  type Heap = map<JsObject, map<string, Value>>

  ghost function HeapOf(objects: set<JsObject>): Heap
    reads objects
  {
    map o | o in objects :: o.fields
  }

  /** No reference leads out of the heap. */
  ghost predicate Closed(heap: Heap) {
    forall o, key :: o in heap && key in heap[o] && heap[o][key].Ref? ==> heap[o][key].obj in heap
  }

  function Field(heap: Heap, value: Value, key: string): Value {
    if value.Ref? && value.obj in heap && key in heap[value.obj] then heap[value.obj][key] else Undefined
  }

  function ReadPath(heap: Heap, value: Value, parts: seq<string>): Value
    decreases |parts|
  {
    if parts == [] then value else ReadPath(heap, Field(heap, value, parts[0]), parts[1..])
  }

  lemma {:induction false} ReadSplit(heap: Heap, value: Value, front: seq<string>, back: seq<string>)
    ensures ReadPath(heap, value, front + back) == ReadPath(heap, ReadPath(heap, value, front), back)
    decreases |front|
  {
    if front == [] {
      assert front + back == back;
    } else {
      assert (front + back)[1..] == front[1..] + back;
      ReadSplit(heap, Field(heap, value, front[0]), front[1..], back);
    }
  }

  lemma ReadOneMore(heap: Heap, value: Value, parts: seq<string>, n: nat)
    requires n < |parts|
    ensures ReadPath(heap, value, parts[..n + 1]) == Field(heap, ReadPath(heap, value, parts[..n]), parts[n])
  {
    assert parts[..n + 1] == parts[..n] + [parts[n]];
    ReadSplit(heap, value, parts[..n], [parts[n]]);
  }

  lemma {:induction false} ReadStays(heap: Heap, value: Value, parts: seq<string>)
    requires Closed(heap) && (value.Ref? ==> value.obj in heap)
    ensures var found := ReadPath(heap, value, parts); found.Ref? ==> found.obj in heap
    decreases |parts|
  {
    if parts != [] {
      ReadStays(heap, Field(heap, value, parts[0]), parts[1..]);
    }
  }

  lemma {:induction false} ReadNothing(heap: Heap, value: Value, parts: seq<string>)
    requires !value.Ref? && parts != []
    ensures ReadPath(heap, value, parts) == Undefined
    decreases |parts|
  {
    if |parts| > 1 {
      ReadNothing(heap, Undefined, parts[1..]);
    }
  }

  // ---------------------------------------------------------------------------
  // Reading and writing, as the code does it
  // ---------------------------------------------------------------------------

  /** `getByPath` */
  method GetByPath(source: Value, path: string, ghost objects: set<JsObject>) returns (found: Value)
    requires Closed(HeapOf(objects)) && (source.Ref? ==> source.obj in objects)
    ensures found == if !source.Ref? || path == "" then Undefined else ReadPath(HeapOf(objects), source, Split(path))
  {
    if !source.Ref? || path == "" {
      return Undefined;
    }
    var parts := Split(path);
    var current := source;
    for i := 0 to |parts|
      invariant current.Ref? ==> current.obj in objects
      invariant ReadPath(HeapOf(objects), source, parts) == ReadPath(HeapOf(objects), current, parts[i..])
    {
      if !current.Ref? {
        ReadNothing(HeapOf(objects), current, parts[i..]);
        return Undefined;
      }
      var next := if parts[i] in current.obj.fields then current.obj.fields[parts[i]] else Undefined;
      assert next == Field(HeapOf(objects), current, parts[i]);
      assert parts[i..][1..] == parts[i + 1..];
      current := next;
    }
    return current;
  }

  /** How many leading names, short of the last, lead from object to object. */
  function Depth(heap: Heap, value: Value, parts: seq<string>): (n: nat)
    requires parts != []
    ensures n < |parts|
    decreases |parts|
  {
    if |parts| == 1 || !Field(heap, value, parts[0]).Ref? then 0
    else 1 + Depth(heap, Field(heap, value, parts[0]), parts[1..])
  }

  function Link(chain: seq<JsObject>, value: Value, j: nat): Value {
    if j < |chain| then Ref(chain[j]) else value
  }

  ghost function Members(chain: seq<JsObject>): set<JsObject> {
    set o | o in chain
  }

  lemma MembersGrow(chain: seq<JsObject>, o: JsObject)
    ensures Members([]) == {}
    ensures Members(chain + [o]) == Members(chain) + {o}
  {
  }

  /** The chain's objects are new, and all different. */
  ghost predicate NewIn(heap: Heap, chain: seq<JsObject>) {
    (forall i, j :: 0 <= i < j < |chain| ==> chain[i] != chain[j]) && (forall o <- chain :: o !in heap)
  }

  /** An object of the chain holds one name and the link to the next object, the last one the value. */
  ghost predicate LinkedAt(heap: Heap, chain: seq<JsObject>, names: seq<string>, value: Value, j: nat)
    requires j < |chain| == |names|
  {
    chain[j] in heap && heap[chain[j]] == map[names[j] := Link(chain, value, j + 1)]
  }

  ghost predicate Linked(heap: Heap, chain: seq<JsObject>, names: seq<string>, value: Value)
    requires |names| == |chain|
  {
    forall j: nat :: j < |chain| ==> LinkedAt(heap, chain, names, value, j)
  }

  ghost predicate UnchangedBut(before: Heap, owner: JsObject, after: Heap) {
    forall o <- before :: o in after && (o != owner ==> after[o] == before[o])
  }

  /**
    The heap after a write: one field of one object has changed, and behind it
    hangs a chain of new objects, one for every missing step, down to the value.
   */
  ghost predicate Wrote(before: Heap, target: JsObject, parts: seq<string>, value: Value,
                        chain: seq<JsObject>, after: Heap)
    requires parts != []
  {
    var depth := Depth(before, Ref(target), parts);
    var owner := ReadPath(before, Ref(target), parts[..depth]);
    && owner.Ref? && owner.obj in before && owner.obj in after
    && |chain| == |parts| - 1 - depth
    && NewIn(before, chain)
    && after.Keys == before.Keys + Members(chain)
    && after[owner.obj] == before[owner.obj][parts[depth] := Link(chain, value, 0)]
    && UnchangedBut(before, owner.obj, after)
    && Linked(after, chain, parts[depth + 1..], value)
  }

  lemma {:induction false} DepthWalks(heap: Heap, value: Value, parts: seq<string>)
    requires parts != [] && value.Ref?
    ensures var n := Depth(heap, value, parts);
            && (forall i :: 0 <= i <= n ==> ReadPath(heap, value, parts[..i]).Ref?)
            && (n < |parts| - 1 ==> !ReadPath(heap, value, parts[..n + 1]).Ref?)
    decreases |parts|
  {
    var n := Depth(heap, value, parts);
    var next := Field(heap, value, parts[0]);
    if |parts| > 1 && next.Ref? {
      DepthWalks(heap, next, parts[1..]);
    }
    forall i | 0 < i <= |parts|
      ensures ReadPath(heap, value, parts[..i]) == ReadPath(heap, next, parts[1..][..i - 1])
    {
      assert parts[..i][1..] == parts[1..][..i - 1];
    }
  }

  /** Where the loop of `SetByPath` stands after `i` steps: still on the old objects, or at the end of the new chain. */
  ghost predicate Walking(before: Heap, target: JsObject, parts: seq<string>, depth: nat, i: nat,
                          current: JsObject, chain: seq<JsObject>, now: Heap)
    requires depth < |parts| && i < |parts|
  {
    var owner := ReadPath(before, Ref(target), parts[..depth]);
    && owner.Ref? && owner.obj in before && owner.obj in now
    && NewIn(before, chain)
    && now.Keys == before.Keys + Members(chain)
    && (i <= depth ==> chain == [] && now == before && Ref(current) == ReadPath(before, Ref(target), parts[..i]))
    && (i > depth ==>
          && |chain| == i - depth && current == chain[|chain| - 1] && current in now
          && now[owner.obj] == before[owner.obj][parts[depth] := Ref(chain[0])]
          && UnchangedBut(before, owner.obj, now)
          && Linked(now, chain[..|chain| - 1], parts[depth + 1..i], Ref(current))
          && now[current] == map[])
  }

  /** The loop looks at the fields of an object it knows. */
  lemma WalkingAt(before: Heap, target: JsObject, parts: seq<string>, depth: nat, i: nat,
                  current: JsObject, chain: seq<JsObject>, now: Heap)
    requires depth < |parts| && i < |parts| && Closed(before) && target in before
    requires Walking(before, target, parts, depth, i, current, chain, now)
    ensures current in now
  {
    ReadStays(before, Ref(target), parts[..i]);
  }

  /** An object in the way is entered, which can happen only before the depth is reached. */
  lemma WalkInto(before: Heap, target: JsObject, parts: seq<string>, depth: nat, i: nat,
                 current: JsObject, chain: seq<JsObject>, now: Heap)
    requires parts != [] && depth == Depth(before, Ref(target), parts) && i < |parts| - 1
    requires Walking(before, target, parts, depth, i, current, chain, now)
    requires Field(now, Ref(current), parts[i]).Ref?
    ensures Walking(before, target, parts, depth, i + 1, Field(now, Ref(current), parts[i]).obj, chain, now)
  {
    if i <= depth {
      DepthWalks(before, Ref(target), parts);
      ReadOneMore(before, Ref(target), parts, i);
    }
  }

  /** The chain's last object gets its name, and the link or the value behind it. */
  lemma LinkedGrows(now: Heap, chain: seq<JsObject>, names: seq<string>, key: string, value: Value, later: Heap)
    requires chain != [] && |names| == |chain| - 1
    requires Linked(now, chain[..|chain| - 1], names, Ref(chain[|chain| - 1]))
    requires forall i :: 0 <= i < |chain| - 1 ==>
      chain[i] in now && chain[i] in later && later[chain[i]] == now[chain[i]]
    requires chain[|chain| - 1] in later && later[chain[|chain| - 1]] == map[key := value]
    ensures Linked(later, chain, names + [key], value)
  {
    var shorter := chain[..|chain| - 1];
    forall j: nat | j < |chain| ensures LinkedAt(later, chain, names + [key], value, j) {
      if j < |shorter| {
        assert LinkedAt(now, shorter, names, Ref(chain[|chain| - 1]), j);
      }
    }
  }

  /** A missing object is created, which happens at the depth and at every step after it. */
  lemma WalkCreating(before: Heap, target: JsObject, parts: seq<string>, depth: nat, i: nat,
                     current: JsObject, chain: seq<JsObject>, now: Heap, created: JsObject, later: Heap)
    requires parts != [] && depth == Depth(before, Ref(target), parts) && i < |parts| - 1
    requires Walking(before, target, parts, depth, i, current, chain, now)
    requires current in now && created !in now && !Field(now, Ref(current), parts[i]).Ref?
    requires later == now[current := now[current][parts[i] := Ref(created)]][created := map[]]
    ensures Walking(before, target, parts, depth, i + 1, created, chain + [created], later)
  {
    hide Linked, Depth, ReadPath, Walking, Field;
    if i <= depth {
      StillWalking(before, target, parts, depth, i, current, chain, now);
      CreatedAtDepth(before, target, parts, i);
      CreatedFirst(before, target, parts, current, created, later);
      assert chain + [created] == [created];
    } else {
      CreatedNext(before, target, parts, depth, i, current, chain, now, created, later);
    }
  }

  lemma StillWalking(before: Heap, target: JsObject, parts: seq<string>, depth: nat, i: nat,
                     current: JsObject, chain: seq<JsObject>, now: Heap)
    requires i <= depth < |parts| && Walking(before, target, parts, depth, i, current, chain, now)
    ensures chain == [] && now == before && Ref(current) == ReadPath(before, Ref(target), parts[..i])
  {
    hide ReadPath;
  }

  lemma CreatedFirst(before: Heap, target: JsObject, parts: seq<string>,
                     current: JsObject, created: JsObject, later: Heap)
    requires parts != [] && Depth(before, Ref(target), parts) < |parts| - 1
    requires Ref(current) == ReadPath(before, Ref(target), parts[..Depth(before, Ref(target), parts)])
    requires current in before && created !in before
    requires later == before[current := before[current][parts[Depth(before, Ref(target), parts)] := Ref(created)]]
                            [created := map[]]
    ensures var depth := Depth(before, Ref(target), parts);
            Walking(before, target, parts, depth, depth + 1, created, [created], later)
  {
    hide Linked, Depth, ReadPath;
    var depth := Depth(before, Ref(target), parts);
    LinkedNone(later, Ref(created));
    assert [created][..0] == [] && parts[depth + 1..depth + 1] == [];
  }

  lemma NewGrows(heap: Heap, chain: seq<JsObject>, o: JsObject)
    requires NewIn(heap, chain) && o !in heap && o !in Members(chain)
    ensures NewIn(heap, chain + [o]) && Members(chain + [o]) == Members(chain) + {o}
    ensures forall i :: 0 <= i < |chain| - 1 ==> chain[i] != chain[|chain| - 1]
  {
  }

  lemma CreatedNext(before: Heap, target: JsObject, parts: seq<string>, depth: nat, i: nat,
                    current: JsObject, chain: seq<JsObject>, now: Heap, created: JsObject, later: Heap)
    requires depth < i < |parts| - 1
    requires Walking(before, target, parts, depth, i, current, chain, now)
    requires current in now && created !in now
    requires later == now[current := now[current][parts[i] := Ref(created)]][created := map[]]
    ensures Walking(before, target, parts, depth, i + 1, created, chain + [created], later)
  {
    hide Linked, Depth, ReadPath, NewIn;
    NewGrows(before, chain, created);
    LinkedGrows(now, chain, parts[depth + 1..i], parts[i], Ref(created), later);
    assert (chain + [created])[..|chain|] == chain;
    assert parts[depth + 1..i] + [parts[i]] == parts[depth + 1..i + 1];
  }

  lemma LinkedNone(heap: Heap, value: Value)
    ensures Linked(heap, [], [], value)
  {
  }

  /** Up to the depth there is always an object to enter. */
  lemma CreatedAtDepth(before: Heap, target: JsObject, parts: seq<string>, i: nat)
    requires parts != [] && i <= Depth(before, Ref(target), parts) && i < |parts|
    requires !Field(before, ReadPath(before, Ref(target), parts[..i]), parts[i]).Ref?
    ensures i == Depth(before, Ref(target), parts)
  {
    DepthWalks(before, Ref(target), parts);
    ReadOneMore(before, Ref(target), parts, i);
  }

  lemma WalkEnds(before: Heap, target: JsObject, parts: seq<string>, value: Value, depth: nat,
                 current: JsObject, chain: seq<JsObject>, now: Heap, after: Heap)
    requires parts != [] && depth == Depth(before, Ref(target), parts)
    requires Walking(before, target, parts, depth, |parts| - 1, current, chain, now)
    requires current in now && after == now[current := now[current][parts[|parts| - 1] := value]]
    ensures Wrote(before, target, parts, value, chain, after)
  {
    hide Linked, Depth, ReadPath;
    var last := |parts| - 1;
    if last <= depth {
      LinkedNone(after, value);
      assert parts[depth + 1..] == [] && last == depth;
    } else {
      LinkedGrows(now, chain, parts[depth + 1..last], parts[last], value, after);
      assert parts[depth + 1..last] + [parts[last]] == parts[depth + 1..];
    }
  }

  /** One turn of the loop of `setByPath`: enter the object under the name, or put an empty one there. */
  method Enter(current: JsObject, name: string, ghost objects: set<JsObject>) returns (next: JsObject)
    requires current in objects
    modifies current
    ensures var before := old(HeapOf(objects));
            var found := Field(before, Ref(current), name);
            if found.Ref?
            then next == found.obj && HeapOf(objects) == before
            else
              && fresh(next)
              && HeapOf(objects + {next})
              == before[current := before[current][name := Ref(next)]][next := map[]]
  {
    if name !in current.fields || !current.fields[name].Ref? {
      var created := new JsObject(map[]);
      current.fields := current.fields[name := Ref(created)];
    }
    next := current.fields[name].obj;
  }

  /** `setByPath`; a path without names writes nothing. */
  method SetByPath(target: JsObject, path: string, value: Value, ghost objects: set<JsObject>)
    returns (ghost chain: seq<JsObject>)
    requires target in objects && Closed(HeapOf(objects))
    modifies objects
    ensures fresh(Members(chain))
    ensures if Split(path) == []
            then chain == [] && HeapOf(objects) == old(HeapOf(objects))
            else Wrote(old(HeapOf(objects)), target, Split(path), value, chain, HeapOf(objects + Members(chain)))
  {
    hide Walking, Wrote, Depth, ReadPath, Split, Closed, Members, Field;
    chain := [];
    MembersGrow(chain, target);
    assert objects + Members(chain) == objects;
    var parts := Split(path);
    if parts == [] {
      return;
    }
    ghost var before, all := HeapOf(objects), objects;
    ghost var depth := Depth(before, Ref(target), parts);
    WalkBegins(before, target, parts);
    var current := target;
    for i := 0 to |parts| - 1
      invariant all == objects + Members(chain) && fresh(Members(chain))
      invariant Walking(before, target, parts, depth, i, current, chain, HeapOf(all))
    {
      ghost var now := HeapOf(all);
      WalkingAt(before, target, parts, depth, i, current, chain, now);
      var next := Enter(current, parts[i], all);
      if Field(now, Ref(current), parts[i]).Ref? {
        WalkInto(before, target, parts, depth, i, current, chain, now);
      } else {
        all := all + {next};
        WalkCreating(before, target, parts, depth, i, current, chain, now, next, HeapOf(all));
        MembersGrow(chain, next);
        chain := chain + [next];
      }
      current := next;
    }
    ghost var now := HeapOf(all);
    WalkingAt(before, target, parts, depth, |parts| - 1, current, chain, now);
    current.fields := current.fields[parts[|parts| - 1] := value];
    assert HeapOf(all) == now[current := now[current][parts[|parts| - 1] := value]];
    WalkEnds(before, target, parts, value, depth, current, chain, now, HeapOf(all));
  }

  lemma WalkBegins(before: Heap, target: JsObject, parts: seq<string>)
    requires parts != [] && Closed(before) && target in before
    ensures Walking(before, target, parts, Depth(before, Ref(target), parts), 0, target, [], before)
  {
    var depth := Depth(before, Ref(target), parts);
    DepthWalks(before, Ref(target), parts);
    ReadStays(before, Ref(target), parts[..depth]);
  }

  // ---------------------------------------------------------------------------
  // What a write means to readers
  // ---------------------------------------------------------------------------

  /** Both paths lead to the same object. */
  predicate Meet(heap: Heap, root: JsObject, p: seq<string>, q: seq<string>) {
    ReadPath(heap, Ref(root), p).Ref? && ReadPath(heap, Ref(root), p) == ReadPath(heap, Ref(root), q)
  }

  /** Different paths from the root never lead to the same object. */
  ghost predicate TreeShaped(heap: Heap, root: JsObject) {
    forall p: seq<string>, q: seq<string> :: Meet(heap, root, p, q) ==> p == q
  }

  /** The object whose field a write changes. */
  function Owner(heap: Heap, root: JsObject, parts: seq<string>): Value
    requires parts != []
  {
    ReadPath(heap, Ref(root), parts[..Depth(heap, Ref(root), parts)])
  }

  lemma FieldAfter(before: Heap, root: JsObject, parts: seq<string>, value: Value,
                   chain: seq<JsObject>, after: Heap, at: Value, key: string)
    requires parts != [] && Wrote(before, root, parts, value, chain, after)
    requires at == Owner(before, root, parts) || (at.Ref? ==> at.obj in before)
    ensures Field(after, at, key)
         == if at == Owner(before, root, parts) && key == parts[Depth(before, Ref(root), parts)]
            then Link(chain, value, 0)
            else Field(before, at, key)
    ensures |chain| == |parts| - 1 - Depth(before, Ref(root), parts)
  {
    hide Depth, ReadPath, NewIn, Linked;
  }

  lemma ChainFieldAfter(before: Heap, root: JsObject, parts: seq<string>, value: Value,
                        chain: seq<JsObject>, after: Heap, j: nat, key: string)
    requires parts != [] && Wrote(before, root, parts, value, chain, after)
    requires j < |chain|
    ensures |chain| == |parts| - 1 - Depth(before, Ref(root), parts)
    ensures Field(after, Ref(chain[j]), key)
         == if key == parts[Depth(before, Ref(root), parts) + 1 + j] then Link(chain, value, j + 1) else Undefined
  {
    hide Depth, ReadPath, UnchangedBut, NewIn;
    assert LinkedAt(after, chain, parts[Depth(before, Ref(root), parts) + 1..], value, j);
  }

  lemma OwnerIsOneOf(before: Heap, root: JsObject, parts: seq<string>, q: seq<string>)
    requires TreeShaped(before, root) && parts != []
    requires ReadPath(before, Ref(root), q) == Owner(before, root, parts)
    ensures q == parts[..Depth(before, Ref(root), parts)]
  {
    hide Depth;
    DepthWalks(before, Ref(root), parts);
    assert Meet(before, root, q, parts[..Depth(before, Ref(root), parts)]);
  }

  /** A path that does not go through the changed field reads as before. */
  lemma {:induction false} Elsewhere(before: Heap, root: JsObject, parts: seq<string>, value: Value,
                                     chain: seq<JsObject>, after: Heap, q: seq<string>)
    requires Closed(before) && root in before && TreeShaped(before, root)
    requires parts != [] && Wrote(before, root, parts, value, chain, after)
    requires !(parts[..Depth(before, Ref(root), parts) + 1] <= q)
    ensures ReadPath(after, Ref(root), q) == ReadPath(before, Ref(root), q)
    decreases |q|
  {
    hide Depth, Wrote, TreeShaped, Field, Owner;
    if q != [] {
      var depth := Depth(before, Ref(root), parts);
      var last := |q| - 1;
      assert q[..last + 1] == q;
      Elsewhere(before, root, parts, value, chain, after, q[..last]);
      ReadOneMore(before, Ref(root), q, last);
      ReadOneMore(after, Ref(root), q, last);
      ReadStays(before, Ref(root), q[..last]);
      var at := ReadPath(before, Ref(root), q[..last]);
      FieldAfter(before, root, parts, value, chain, after, at, q[last]);
      assert q == q[..last] + [q[last]] && parts[..depth + 1] == parts[..depth] + [parts[depth]];
      if at == Owner(before, root, parts) && q[last] == parts[depth] {
        OwnerIsOneOf(before, root, parts, q[..last]);
      }
    }
  }

  /** The new links are read along the path, one name at a time, down to the value. */
  lemma {:induction false} Along(before: Heap, root: JsObject, parts: seq<string>, value: Value,
                                 chain: seq<JsObject>, after: Heap, j: nat)
    requires Closed(before) && root in before && TreeShaped(before, root)
    requires parts != [] && Wrote(before, root, parts, value, chain, after) && j <= |chain|
    ensures ReadPath(after, Ref(root), parts[..Depth(before, Ref(root), parts) + 1 + j]) == Link(chain, value, j)
    decreases j
  {
    hide Depth, Wrote, TreeShaped, Field, ReadPath;
    var depth := Depth(before, Ref(root), parts);
    FieldAfter(before, root, parts, value, chain, after, Owner(before, root, parts), parts[depth]);
    ReadOneMore(after, Ref(root), parts, depth + j);
    if j == 0 {
      Elsewhere(before, root, parts, value, chain, after, parts[..depth]);
    } else {
      Along(before, root, parts, value, chain, after, j - 1);
      ChainFieldAfter(before, root, parts, value, chain, after, j - 1, parts[depth + j]);
    }
  }

  /** What has been written is read back. */
  lemma WriteThenRead(before: Heap, root: JsObject, parts: seq<string>, value: Value,
                      chain: seq<JsObject>, after: Heap)
    requires Closed(before) && root in before && TreeShaped(before, root)
    requires parts != [] && Wrote(before, root, parts, value, chain, after)
    ensures ReadPath(after, Ref(root), parts) == value
  {
    hide Depth, ReadPath, TreeShaped, Closed, UnchangedBut, Linked, NewIn;
    Along(before, root, parts, value, chain, after, |chain|);
    assert parts[..|parts|] == parts;
  }

  /** Reading a path that is neither part of the written one nor an extension of it gives what it gave before. */
  lemma WriteElsewhere(before: Heap, root: JsObject, parts: seq<string>, value: Value,
                       chain: seq<JsObject>, after: Heap, q: seq<string>)
    requires Closed(before) && root in before && TreeShaped(before, root)
    requires parts != [] && Wrote(before, root, parts, value, chain, after)
    requires !(parts <= q) && !(q <= parts)
    ensures ReadPath(after, Ref(root), q) == ReadPath(before, Ref(root), q)
  {
    var depth := Depth(before, Ref(root), parts);
    if parts[..depth + 1] <= q {
      var i := Divergence(parts, q);
      LeavesChain(before, root, parts, value, chain, after, q, i);
    } else {
      Elsewhere(before, root, parts, value, chain, after, q);
    }
  }

  lemma {:induction false} Divergence(p: seq<string>, q: seq<string>) returns (i: nat)
    requires !(p <= q) && !(q <= p)
    ensures i < |p| && i < |q| && p[..i] == q[..i] && p[i] != q[i]
    decreases |p|
  {
    if p[0] != q[0] {
      i := 0;
    } else {
      i := Divergence(p[1..], q[1..]);
      assert p[..i + 1] == [p[0]] + p[1..][..i] && q[..i + 1] == [q[0]] + q[1..][..i];
      i := i + 1;
    }
  }

  /** Off the new chain there is nothing, as there was nothing before. */
  lemma LeavesChain(before: Heap, root: JsObject, parts: seq<string>, value: Value,
                    chain: seq<JsObject>, after: Heap, q: seq<string>, i: nat)
    requires Closed(before) && root in before && TreeShaped(before, root)
    requires parts != [] && Wrote(before, root, parts, value, chain, after)
    requires i < |parts| && i < |q| && parts[..i] == q[..i] && parts[i] != q[i]
    requires parts[..Depth(before, Ref(root), parts) + 1] <= q
    ensures ReadPath(before, Ref(root), q) == Undefined == ReadPath(after, Ref(root), q)
  {
    hide Depth, TreeShaped, Field, ReadPath, Wrote;
    var depth := Depth(before, Ref(root), parts);
    assert q[..depth + 1] == parts[..depth + 1];
    assert forall j :: 0 <= j <= depth ==> q[..depth + 1][j] == parts[j];
    NothingThere(before, root, parts);
    UndefinedBeyond(before, Ref(root), q, depth + 1);
    OffChain(before, root, parts, value, chain, after, q[i], i);
    OneMoreAlike(after, root, parts, q, i);
    if i + 1 < |q| {
      UndefinedBeyond(after, Ref(root), q, i + 1);
    } else {
      assert q[..i + 1] == q;
    }
  }

  lemma OneMoreAlike(heap: Heap, root: JsObject, p: seq<string>, q: seq<string>, i: nat)
    requires i < |p| && i < |q| && p[..i] == q[..i]
    ensures ReadPath(heap, Ref(root), q[..i + 1]) == Field(heap, ReadPath(heap, Ref(root), p[..i]), q[i])
  {
    ReadOneMore(heap, Ref(root), q, i);
  }

  lemma OffChain(before: Heap, root: JsObject, parts: seq<string>, value: Value,
                 chain: seq<JsObject>, after: Heap, key: string, i: nat)
    requires Closed(before) && root in before && TreeShaped(before, root)
    requires parts != [] && Wrote(before, root, parts, value, chain, after)
    requires Depth(before, Ref(root), parts) < i < |parts| && key != parts[i]
    ensures Field(after, ReadPath(after, Ref(root), parts[..i]), key) == Undefined
  {
    hide Depth, TreeShaped, Field, ReadPath, Closed, NewIn, UnchangedBut, Linked;
    var j := i - Depth(before, Ref(root), parts) - 1;
    assert parts[Depth(before, Ref(root), parts) + 1 + j] == parts[i];
    Along(before, root, parts, value, chain, after, j);
    ChainFieldAfter(before, root, parts, value, chain, after, j, key);
  }

  lemma NothingThere(before: Heap, root: JsObject, parts: seq<string>)
    requires parts != [] && Depth(before, Ref(root), parts) < |parts| - 1
    ensures !ReadPath(before, Ref(root), parts[..Depth(before, Ref(root), parts) + 1]).Ref?
  {
    DepthWalks(before, Ref(root), parts);
  }

  lemma UndefinedBeyond(heap: Heap, value: Value, q: seq<string>, n: nat)
    requires n < |q| && !ReadPath(heap, value, q[..n]).Ref?
    ensures ReadPath(heap, value, q) == Undefined
  {
    assert q == q[..n] + q[n..];
    ReadSplit(heap, value, q[..n], q[n..]);
    ReadNothing(heap, ReadPath(heap, value, q[..n]), q[n..]);
  }

  /** Writing a path twice leaves what the second write alone would have left. */
  lemma WriteTwice(before: Heap, root: JsObject, parts: seq<string>, first: Value, second: Value,
                   chain: seq<JsObject>, between: Heap, more: seq<JsObject>, after: Heap)
    requires Closed(before) && root in before && TreeShaped(before, root)
    requires parts != []
    requires Wrote(before, root, parts, first, chain, between)
    ensures Wrote(between, root, parts, second, more, after) ==>
              more == [] && Wrote(before, root, parts, second, chain, after)
  {
    hide Depth, ReadPath, TreeShaped, Wrote, Closed;
    DepthComplete(before, root, parts, first, chain, between);
    LastObject(before, root, parts, first, chain, between);
    if Wrote(between, root, parts, second, more, after) {
      OnlyTheLast(between, root, parts, second, more, after);
      Overwritten(before, root, parts, first, second, chain, between, after);
    }
  }

  /** Where every step exists, a write only sets the last name in the last object. */
  lemma OnlyTheLast(before: Heap, root: JsObject, parts: seq<string>, value: Value,
                    chain: seq<JsObject>, after: Heap)
    requires parts != [] && Wrote(before, root, parts, value, chain, after)
    requires Depth(before, Ref(root), parts) == |parts| - 1
    ensures var last := ReadPath(before, Ref(root), parts[..|parts| - 1]);
            && chain == [] && last.Ref? && last.obj in before
            && after == before[last.obj := before[last.obj][parts[|parts| - 1] := value]]
  {
    hide Depth, ReadPath;
  }

  lemma Overwritten(before: Heap, root: JsObject, parts: seq<string>, first: Value, second: Value,
                    chain: seq<JsObject>, between: Heap, after: Heap)
    requires parts != [] && Wrote(before, root, parts, first, chain, between)
    requires var last := if chain == [] then Owner(before, root, parts) else Ref(chain[|chain| - 1]);
             && last.Ref? && last.obj in between
             && after == between[last.obj := between[last.obj][parts[|parts| - 1] := second]]
    ensures Wrote(before, root, parts, second, chain, after)
  {
    hide Depth, ReadPath, Linked;
    var names := parts[Depth(before, Ref(root), parts) + 1..];
    if chain == [] {
      LinkedNone(after, second);
    } else {
      Relinked(between, chain, names, first, second, after);
    }
  }

  lemma Relinked(between: Heap, chain: seq<JsObject>, names: seq<string>, first: Value, second: Value, after: Heap)
    requires chain != [] && |names| == |chain| && Linked(between, chain, names, first)
    requires forall i, j :: 0 <= i < j < |chain| ==> chain[i] != chain[j]
    requires chain[|chain| - 1] in between
    requires after == between[chain[|chain| - 1] := between[chain[|chain| - 1]][names[|names| - 1] := second]]
    ensures Linked(after, chain, names, second)
  {
    forall j: nat | j < |chain| ensures LinkedAt(after, chain, names, second, j) {
      assert LinkedAt(between, chain, names, first, j);
    }
  }

  /** The object that holds the last name of a written path. */
  lemma LastObject(before: Heap, root: JsObject, parts: seq<string>, value: Value,
                   chain: seq<JsObject>, after: Heap)
    requires Closed(before) && root in before && TreeShaped(before, root)
    requires parts != [] && Wrote(before, root, parts, value, chain, after)
    ensures ReadPath(after, Ref(root), parts[..|parts| - 1])
         == if chain == [] then Owner(before, root, parts) else Ref(chain[|chain| - 1])
  {
    hide Depth, ReadPath, TreeShaped, Field, Closed, UnchangedBut, Linked, NewIn;
    if chain == [] {
      Elsewhere(before, root, parts, value, chain, after, parts[..|parts| - 1]);
    } else {
      Along(before, root, parts, value, chain, after, |chain| - 1);
    }
  }

  /** After a write every step of the path but the last leads to an object. */
  lemma DepthComplete(before: Heap, root: JsObject, parts: seq<string>, value: Value,
                      chain: seq<JsObject>, after: Heap)
    requires Closed(before) && root in before && TreeShaped(before, root)
    requires parts != [] && Wrote(before, root, parts, value, chain, after)
    ensures Depth(after, Ref(root), parts) == |parts| - 1
  {
    hide Depth, ReadPath, TreeShaped, Field, Closed, UnchangedBut, Linked, NewIn;
    var depth, n := Depth(before, Ref(root), parts), Depth(after, Ref(root), parts);
    DepthWalks(before, Ref(root), parts);
    DepthWalks(after, Ref(root), parts);
    if n < |parts| - 1 {
      if n < depth {
        assert parts[..n + 1] != parts[..depth + 1];
        Elsewhere(before, root, parts, value, chain, after, parts[..n + 1]);
      } else {
        Along(before, root, parts, value, chain, after, n - depth);
      }
    }
  }

  // ---------------------------------------------------------------------------
  // Writing a field of a document page
  // ---------------------------------------------------------------------------

  /** `{ ...model }` */
  method ShallowCopy(model: JsObject, ghost objects: set<JsObject>) returns (copy: JsObject)
    requires model in objects && Closed(HeapOf(objects))
    ensures fresh(copy)
    ensures HeapOf(objects + {copy}) == old(HeapOf(objects))[copy := old(model.fields)]
    ensures Closed(HeapOf(objects + {copy}))
  {
    hide Closed;
    copy := new JsObject(model.fields);
    CopyClosed(HeapOf(objects), model, copy);
    assert HeapOf(objects + {copy}) == HeapOf(objects)[copy := HeapOf(objects)[model]];
  }

  class DocumentPage {
    var model: JsObject
    var dirty: bool
    var trackingChanges: bool
    var fieldErrors: map<string, string>

    constructor (model: JsObject)
      ensures this.model == model && !dirty && !trackingChanges && fieldErrors == map[]
    {
      this.model, dirty, trackingChanges, fieldErrors := model, false, false, map[];
    }

    /** `setFieldValue`: the model is replaced by a shallow copy, and the copy is written. */
    method SetFieldValue(key: string, value: Value, ghost objects: set<JsObject>) returns (ghost chain: seq<JsObject>)
      requires model in objects && Closed(HeapOf(objects))
      modifies this, objects
      ensures fresh(model) && fresh(Members(chain))
      ensures var copied := old(HeapOf(objects))[model := old(model.fields)];
              var now := HeapOf(objects + {model} + Members(chain));
              if Split(key) == [] then now == copied else Wrote(copied, model, Split(key), value, chain, now)
      ensures dirty == (old(dirty) || old(trackingChanges)) && trackingChanges == old(trackingChanges)
      ensures fieldErrors == if key in old(fieldErrors) && old(fieldErrors)[key] != ""
                             then old(fieldErrors) - {key}
                             else old(fieldErrors)
    {
      hide Wrote, Split, Closed, Members, HeapOf;
      var next := ShallowCopy(model, objects);
      ghost var all := objects + {next};
      chain := SetByPath(next, key, value, all);
      if chain == [] {
        MembersGrow(chain, next);
        assert all + Members(chain) == all;
      }
      model := next;
      if trackingChanges {
        dirty := true;
      }
      if key in fieldErrors && fieldErrors[key] != "" {
        fieldErrors := fieldErrors - {key};
      }
    }
  }

  /** Reading never notices changes outside the objects it can reach. */
  lemma {:induction false} ReadUnchanged(before: Heap, after: Heap, value: Value, parts: seq<string>)
    requires Closed(before) && (value.Ref? ==> value.obj in before)
    requires forall o <- before :: o in after && after[o] == before[o]
    ensures ReadPath(after, value, parts) == ReadPath(before, value, parts)
    decreases |parts|
  {
    if parts != [] {
      ReadUnchanged(before, after, Field(before, value, parts[0]), parts[1..]);
    }
  }

  lemma CopyClosed(heap: Heap, root: JsObject, copy: JsObject)
    requires Closed(heap) && root in heap
    ensures Closed(heap[copy := heap[root]])
  {
    var copied: Heap := heap[copy := heap[root]];
    forall o: JsObject, key: string | o in copied && key in copied[o] && copied[o][key].Ref? ensures copied[o][key].obj in copied {
      if o == copy {
        assert heap[root][key].obj in heap;
      }
    }
  }

  /** A shallow copy reads like the original, and is the root of a tree of its own. */
  lemma CopyReads(heap: Heap, root: JsObject, copy: JsObject)
    requires Closed(heap) && root in heap && copy !in heap && TreeShaped(heap, root)
    ensures var copied := heap[copy := heap[root]];
            && Closed(copied) && TreeShaped(copied, copy)
            && forall p: seq<string> :: p != [] ==> ReadPath(copied, Ref(copy), p) == ReadPath(heap, Ref(root), p)
  {
    var copied := heap[copy := heap[root]];
    forall p: seq<string> | p != []
      ensures ReadPath(copied, Ref(copy), p) == ReadPath(heap, Ref(root), p)
      ensures ReadPath(copied, Ref(copy), p) != Ref(copy)
    {
      CopyReadsPath(heap, root, copy, p);
    }
    forall p: seq<string>, q: seq<string> | Meet(copied, copy, p, q) ensures p == q {
      assert p != [] && q != [] ==> Meet(heap, root, p, q);
    }
  }

  lemma CopyReadsPath(heap: Heap, root: JsObject, copy: JsObject, p: seq<string>)
    requires Closed(heap) && root in heap && copy !in heap && p != []
    ensures ReadPath(heap[copy := heap[root]], Ref(copy), p) == ReadPath(heap, Ref(root), p)
    ensures ReadPath(heap, Ref(root), p) != Ref(copy)
  {
    var copied := heap[copy := heap[root]];
    assert Field(copied, Ref(copy), p[0]) == Field(heap, Ref(root), p[0]);
    ReadUnchanged(heap, copied, Field(heap, Ref(root), p[0]), p[1..]);
    ReadStays(heap, Ref(root), p);
  }

  /**
    After a field has been written, the new model has the value there and reads
    as the old one did on every path that is neither part of the written one nor
    an extension of it.
   */
  lemma FieldWritten(heap: Heap, root: JsObject, copy: JsObject, parts: seq<string>, value: Value,
                     chain: seq<JsObject>, after: Heap, q: seq<string>)
    requires Closed(heap) && root in heap && copy !in heap && TreeShaped(heap, root)
    requires parts != [] && Wrote(heap[copy := heap[root]], copy, parts, value, chain, after)
    ensures ReadPath(after, Ref(copy), parts) == value
    ensures !(parts <= q) && !(q <= parts) ==> ReadPath(after, Ref(copy), q) == ReadPath(heap, Ref(root), q)
  {
    hide Wrote, TreeShaped, Closed, ReadPath;
    CopyReads(heap, root, copy);
    WriteThenRead(heap[copy := heap[root]], copy, parts, value, chain, after);
    if !(parts <= q) && !(q <= parts) {
      WriteElsewhere(heap[copy := heap[root]], copy, parts, value, chain, after, q);
    }
  }

  /**
    The model that was replaced is untouched exactly when the first name of the
    path is the only one or leads to no object; otherwise the two models share
    that object, and the old one shows the new value too.
   */
  lemma OldModel(heap: Heap, root: JsObject, copy: JsObject, parts: seq<string>, value: Value,
                 chain: seq<JsObject>, after: Heap, q: seq<string>)
    requires Closed(heap) && root in heap && copy !in heap && TreeShaped(heap, root)
    requires parts != [] && Wrote(heap[copy := heap[root]], copy, parts, value, chain, after)
    ensures if |parts| == 1 || !Field(heap, Ref(root), parts[0]).Ref?
            then ReadPath(after, Ref(root), q) == ReadPath(heap, Ref(root), q)
            else ReadPath(after, Ref(root), parts) == value
  {
    hide TreeShaped, Linked, NewIn;
    var copied := heap[copy := heap[root]];
    CopyReads(heap, root, copy);
    if |parts| == 1 || !Field(heap, Ref(root), parts[0]).Ref? {
      assert Field(copied, Ref(copy), parts[0]) == Field(heap, Ref(root), parts[0]);
      assert Depth(copied, Ref(copy), parts) == 0;
      assert parts[..0] == [];
      ReadUnchanged(heap, after, Ref(root), q);
    } else {
      SharedField(heap, root, copy, parts, value, chain, after);
      WriteThenRead(copied, copy, parts, value, chain, after);
    }
  }

  lemma SharedField(heap: Heap, root: JsObject, copy: JsObject, parts: seq<string>, value: Value,
                    chain: seq<JsObject>, after: Heap)
    requires Closed(heap) && root in heap && copy !in heap && TreeShaped(heap, root)
    requires |parts| > 1 && Wrote(heap[copy := heap[root]], copy, parts, value, chain, after)
    requires Field(heap, Ref(root), parts[0]).Ref?
    ensures Field(after, Ref(root), parts[0]) == Field(after, Ref(copy), parts[0])
  {
    hide Linked, NewIn;
    var copied := heap[copy := heap[root]];
    var depth := Depth(copied, Ref(copy), parts);
    assert depth > 0;
    CopyReadsPath(heap, root, copy, parts[..depth]);
    DepthWalks(copied, Ref(copy), parts);
    assert Meet(heap, root, [], parts[..depth]) <==> ReadPath(heap, Ref(root), parts[..depth]) == Ref(root);
    FieldAfter(copied, copy, parts, value, chain, after, Ref(root), parts[0]);
    FieldAfter(copied, copy, parts, value, chain, after, Ref(copy), parts[0]);
  }
}
