/** frontend/app/utils/role/permissions.ts: normalising the permission matrix before it is sent. */
module RolePermissions {
  import opened Wrappers
  import opened PermissionCatalog

  const LEGACY: map<string, string> := map[
    "select" := "view", "read" := "view", "write" := "edit", "email" := "comment",
    "report" := "view", "import" := "create", "mask" := "view"]

  /**
    Property names every plain object inherits: looking one of them up in the
    legacy table yields a truthy value that is no action.
   */
  const INHERITED: set<string> := {
    "constructor", "toString", "toLocaleString", "valueOf", "hasOwnProperty", "isPrototypeOf", "propertyIsEnumerable",
    "__proto__", "__defineGetter__", "__defineSetter__", "__lookupGetter__", "__lookupSetter__"}

  /** What one raw code turns into. */
  datatype Code = Known(action: string) | Alien | Unknown

  function Decode(raw: string): Code {
    if raw in ACTIONS then Known(raw)
    else if raw in LEGACY then Known(LEGACY[raw])
    else if raw in INHERITED then Alien
    else Unknown
  }

  // ---------------------------------------------------------------------------
  // Actions
  // ---------------------------------------------------------------------------

  /** The given actions in canonical order. */
  function Filtered(order: seq<string>, wanted: set<string>): seq<string> {
    if order == [] then []
    else (if order[0] in wanted then [order[0]] else []) + Filtered(order[1..], wanted)
  }

  function Ordered(wanted: set<string>): seq<string> {
    Filtered(ACTIONS, wanted)
  }

  lemma {:induction false} FilteredExactly(order: seq<string>, wanted: set<string>)
    requires Distinct(order)
    ensures forall action :: action in Filtered(order, wanted) <==> action in order && action in wanted
    ensures Distinct(Filtered(order, wanted))
    decreases |order|
  {
    if order != [] {
      assert forall i :: 0 <= i < |order[1..]| ==> order[1..][i] == order[i + 1];
      FilteredExactly(order[1..], wanted);
      assert order[0] !in order[1..];
    }
  }

  lemma {:induction false} FilteredAgrees(order: seq<string>, a: set<string>, b: set<string>)
    requires forall action <- order :: action in a <==> action in b
    ensures Filtered(order, a) == Filtered(order, b)
    decreases |order|
  {
    if order != [] {
      FilteredAgrees(order[1..], a, b);
    }
  }

  function Members(actions: seq<string>): set<string> {
    set action | action in actions
  }

  /** The actions the raw codes stand for. */
  function Decoded(raw: seq<string>): set<string> {
    set i | 0 <= i < |raw| && Decode(raw[i]).Known? :: Decode(raw[i]).action
  }

  /** Some raw code is more than `view`: an action, or an inherited property. */
  predicate ImpliesView(raw: seq<string>) {
    exists i :: 0 <= i < |raw| && (Decode(raw[i]).Alien? || (Decode(raw[i]).Known? && Decode(raw[i]).action != "view"))
  }

  function NormalizedActions(raw: seq<string>): seq<string> {
    Ordered(Decoded(raw) + (if ImpliesView(raw) then {"view"} else {}))
  }

  lemma DecodedGrows(codes: seq<string>, i: nat)
    requires i < |codes|
    ensures Decoded(codes[..i + 1])
         == Decoded(codes[..i]) + (if Decode(codes[i]).Known? then {Decode(codes[i]).action} else {})
    ensures ImpliesView(codes[..i + 1])
       <==> ImpliesView(codes[..i]) || Decode(codes[i]).Alien? || (Decode(codes[i]).Known? && Decode(codes[i]).action != "view")
  {
    assert codes[..i + 1] == codes[..i] + [codes[i]];
    assert forall j :: 0 <= j < i ==> codes[..i + 1][j] == codes[..i][j];
    assert codes[..i + 1][i] == codes[i];
  }

  /** Reading the set back in canonical order. */
  method InOrder(wanted: set<string>) returns (actions: seq<string>)
    ensures actions == Ordered(wanted)
  {
    var order := ACTIONS;
    actions := [];
    assert order[0..] == order;
    for i := 0 to |order|
      invariant actions + Filtered(order[i..], wanted) == Filtered(order, wanted)
    {
      assert order[i..][1..] == order[i + 1..];
      if order[i] in wanted {
        actions := actions + [order[i]];
      }
    }
  }

  /** `normalizePermissionActions`: the set filled code by code, read back in canonical order. */
  method NormalizePermissionActions(raw: Option<seq<string>>) returns (actions: seq<string>)
    ensures actions == NormalizedActions(raw.GetOr([]))
  {
    var codes := raw.GetOr([]);
    var normalized: set<string> := {};
    var more := false;
    for i := 0 to |codes|
      invariant normalized == Decoded(codes[..i])
      invariant more == ImpliesView(codes[..i])
    {
      DecodedGrows(codes, i);
      match Decode(codes[i]) {
        case Known(action) =>
          normalized := normalized + {action};
          more := more || action != "view";
        case Alien =>
          more := true;
        case Unknown =>
      }
    }
    assert codes[..|codes|] == codes;
    actions := InOrder(normalized + (if more then {"view"} else {}));
  }

  /** Normalised actions: canonical, each once, and never without `view`. */
  ghost predicate Normal(actions: seq<string>) {
    && actions == Ordered(Members(actions))
    && (actions != [] ==> "view" in actions)
    && forall action <- actions :: action in ACTIONS
  }

  lemma DecodedAreActions(raw: seq<string>)
    ensures forall action <- Decoded(raw) :: action in ACTIONS
  {
  }

  lemma OrderedExactly(wanted: set<string>)
    ensures forall action :: action in Ordered(wanted) <==> action in ACTIONS && action in wanted
    ensures Distinct(Ordered(wanted))
    ensures Ordered(Members(Ordered(wanted))) == Ordered(wanted)
  {
    ActionsAreDistinct();
    FilteredExactly(ACTIONS, wanted);
    FilteredAgrees(ACTIONS, wanted, Members(Ordered(wanted)));
  }

  /** Exactly which actions come out: those decoded, and `view` whenever anything more was asked for. */
  lemma NormalizedExactly(raw: seq<string>)
    ensures forall action :: action in NormalizedActions(raw) <==>
              (exists i :: 0 <= i < |raw| && Decode(raw[i]) == Known(action)) || (action == "view" && ImpliesView(raw))
    ensures Normal(NormalizedActions(raw))
  {
    var wanted := Decoded(raw) + (if ImpliesView(raw) then {"view"} else {});
    OrderedExactly(wanted);
    DecodedAreActions(raw);
    assert "view" == ACTIONS[0];
    forall action | action in NormalizedActions(raw)
      ensures (exists i :: 0 <= i < |raw| && Decode(raw[i]) == Known(action)) || (action == "view" && ImpliesView(raw))
    {
    }
    forall action | action in NormalizedActions(raw) && !ImpliesView(raw) ensures action == "view" {
      var i :| 0 <= i < |raw| && Decode(raw[i]) == Known(action);
    }
    assert NormalizedActions(raw) != [] ==> NormalizedActions(raw)[0] in NormalizedActions(raw);
  }

  /** Normalising what is already normal changes nothing. */
  lemma NormalIsFixed(actions: seq<string>)
    requires Normal(actions)
    ensures NormalizedActions(actions) == actions
  {
    assert Decoded(actions) == Members(actions) by {
      forall action | action in actions ensures action in Decoded(actions) {
        var i :| 0 <= i < |actions| && actions[i] == action;
        assert Decode(actions[i]) == Known(action);
      }
    }
    assert ImpliesView(actions) ==> Members(actions) + {"view"} == Members(actions);
    assert Members(actions) + {} == Members(actions);
  }

  lemma {:induction false} FilteredNone(order: seq<string>, wanted: set<string>)
    requires forall action <- order :: action !in wanted
    ensures Filtered(order, wanted) == []
    decreases |order|
  {
    if order != [] {
      FilteredNone(order[1..], wanted);
    }
  }

  lemma OrderedView()
    ensures Ordered({"view"}) == ["view"] && Ordered({}) == []
  {
    var order := ACTIONS;
    var first := "view";
    assert order[0] == first;
    ActionsAreDistinct();
    FilteredNone(order[1..], {first});
    FilteredNone(order, {});
  }

  lemma UnknownDecodes(raw: seq<string>)
    requires forall i :: 0 <= i < |raw| ==> !Decode(raw[i]).Known?
    ensures Decoded(raw) == {}
    ensures ImpliesView(raw) <==> exists i :: 0 <= i < |raw| && Decode(raw[i]).Alien?
  {
  }

  /**
    A code that names an inherited property grants `view` although no code asked
    for any action: without a known code the outcome is `view` exactly when such
    a code is present, and nothing otherwise.
   */
  lemma ViewOutOfNothing(raw: seq<string>)
    requires forall i :: 0 <= i < |raw| ==> !Decode(raw[i]).Known?
    ensures NormalizedActions(raw) == if exists i :: 0 <= i < |raw| && Decode(raw[i]).Alien? then ["view"] else []
  {
    hide Decoded, ImpliesView, Decode, Ordered;
    UnknownDecodes(raw);
    OrderedView();
    var wanted := Decoded(raw) + (if ImpliesView(raw) then {"view"} else {});
    assert wanted == if ImpliesView(raw) then {"view"} else {};
  }

  lemma OneCode(raw: string, action: string)
    requires Decode(raw) == Known(action)
    ensures forall other :: other in NormalizedActions([raw]) <==> other == action || other == "view"
  {
    NormalizedExactly([raw]);
    assert Decode([raw][0]) == Known(action);
    assert ImpliesView([raw]) <==> action != "view";
  }

  lemma LegacyViews()
    ensures Decode("select") == Decode("read") == Known("view")
  {
  }

  lemma LegacyMoreViews()
    ensures Decode("report") == Decode("mask") == Known("view")
  {
  }

  lemma LegacyOthers()
    ensures Decode("write") == Known("edit") && Decode("email") == Known("comment") && Decode("import") == Known("create")
  {
  }

  lemma NoLegacy()
    ensures Decode("constructor") == Alien && Decode("print") == Unknown
  {
  }

  /** The codes of older releases, one by one: each grants today's action, and `view`. */
  lemma LegacyCodes()
    ensures forall code <- ["select", "read", "report", "mask"], other :: other in NormalizedActions([code]) <==> other == "view"
    ensures forall other :: other in NormalizedActions(["write"]) <==> other == "edit" || other == "view"
    ensures forall other :: other in NormalizedActions(["email"]) <==> other == "comment" || other == "view"
    ensures forall other :: other in NormalizedActions(["import"]) <==> other == "create" || other == "view"
    ensures NormalizedActions(["constructor"]) == ["view"] && NormalizedActions(["print"]) == []
  {
    LegacyViews();
    LegacyMoreViews();
    LegacyOthers();
    NoLegacy();
    hide Decode, NormalizedActions;
    forall code | code in ["select", "read", "report", "mask"]
      ensures forall other :: other in NormalizedActions([code]) <==> other == "view"
    {
      OneCode(code, "view");
    }
    OneCode("write", "edit");
    OneCode("email", "comment");
    OneCode("import", "create");
    assert Decode(["constructor"][0]).Alien?;
    ViewOutOfNothing(["constructor"]);
    ViewOutOfNothing(["print"]);
  }

  // ---------------------------------------------------------------------------
  // Rows
  // ---------------------------------------------------------------------------

  /** `byType`: the last row given for a document type. */
  function RowOf(rows: seq<Row>, documentType: string): Option<Row> {
    if rows == [] then None
    else
      var last := rows[|rows| - 1];
      if last.documentType == documentType then Some(last) else RowOf(rows[..|rows| - 1], documentType)
  }

  function Allowed(actions: seq<string>, definition: Definition): seq<string> {
    Filtered(actions, Members(definition.actions))
  }

  function NormalizedRow(definition: Definition, existing: Option<Row>): Row {
    var actions := Allowed(NormalizedActions(if existing.Some? then existing.value.actions else []), definition);
    Row(if existing.Some? && existing.value.id != "" then existing.value.id else "perm_" + definition.documentType,
        definition.documentType,
        actions,
        existing.Some? && actions != [] && "purge" !in actions && existing.value.onlyIfCreator,
        Min(9, Max(0, if existing.Some? then existing.value.level else 0)))
  }

  /** `normalizePermissionRows`. */
  function NormalizedRows(catalog: Catalog, rows: seq<Row>, includeEmpty: bool): seq<Row> {
    if catalog == [] then []
    else
      var row := NormalizedRow(catalog[0], RowOf(rows, catalog[0].documentType));
      (if includeEmpty || row.actions != [] then [row] else []) + NormalizedRows(catalog[1..], rows, includeEmpty)
  }

  /** `permissionRowsToFlatKeys`, as the set its sorted list enumerates. */
  function FlatKeys(catalog: Catalog, rows: seq<Row>): set<string> {
    KeysOf(catalog, NormalizedRows(catalog, rows, false))
  }

  /** The keys of rows taken as they are. */
  function KeysOf(catalog: Catalog, rows: seq<Row>): set<string> {
    if rows == [] then {}
    else
      var last := rows[|rows| - 1];
      var definition := Lookup(catalog, last.documentType);
      KeysOf(catalog, rows[..|rows| - 1])
      + (if definition.Some? then set action | action in last.actions :: PermissionKey(definition.value.prefix, action) else {})
  }

  method AddKeys(keys: set<string>, prefix: string, actions: seq<string>) returns (more: set<string>)
    ensures more == keys + set action | action in actions :: PermissionKey(prefix, action)
  {
    more := keys;
    for i := 0 to |actions|
      invariant more == keys + set action | action in actions[..i] :: PermissionKey(prefix, action)
    {
      assert actions[..i + 1] == actions[..i] + [actions[i]];
      more := more + {PermissionKey(prefix, actions[i])};
    }
    assert actions[..|actions|] == actions;
  }

  /** The loop that fills the key set. */
  method PermissionRowsToFlatKeys(catalog: Catalog, rows: seq<Row>) returns (keys: set<string>)
    ensures keys == FlatKeys(catalog, rows)
  {
    hide NormalizedRows, Lookup, PermissionKey;
    var normalized := NormalizedRows(catalog, rows, false);
    keys := {};
    for i := 0 to |normalized|
      invariant keys == KeysOf(catalog, normalized[..i])
    {
      assert normalized[..i + 1][..i] == normalized[..i];
      var definition := Lookup(catalog, normalized[i].documentType);
      if definition.Some? {
        keys := AddKeys(keys, definition.value.prefix, normalized[i].actions);
      }
    }
    assert normalized[..|normalized|] == normalized;
  }

  /** A row in the form the normaliser produces for its definition. */
  ghost predicate Clean(row: Row, definition: Definition) {
    && row.documentType == definition.documentType
    && row.id != ""
    && Normal(row.actions)
    && (forall action <- row.actions :: action in definition.actions)
    && (row.onlyIfCreator ==> row.actions != [] && "purge" !in row.actions)
    && 0 <= row.level <= 9
  }

  lemma AllowedIsNormal(actions: seq<string>, definition: Definition)
    requires Normal(actions) && "view" in definition.actions
    ensures Normal(Allowed(actions, definition))
    ensures forall action :: action in Allowed(actions, definition) <==> action in actions && action in definition.actions
  {
    OrderedExactly(Members(actions));
    FilteredExactly(actions, Members(definition.actions));
    var allowed := Allowed(actions, definition);
    FilteredTwice(ACTIONS, Members(actions), Members(definition.actions));
    FilteredAgrees(ACTIONS, Members(actions) * Members(definition.actions), Members(allowed));
    if allowed != [] {
      assert allowed[0] in allowed;
    }
  }

  lemma {:induction false} FilteredTwice(order: seq<string>, a: set<string>, b: set<string>)
    ensures Filtered(Filtered(order, a), b) == Filtered(order, a * b)
    decreases |order|
  {
    if order != [] {
      FilteredTwice(order[1..], a, b);
      if order[0] in a {
        assert ([order[0]] + Filtered(order[1..], a))[1..] == Filtered(order[1..], a);
      } else {
        assert [] + Filtered(order[1..], a) == Filtered(order[1..], a);
      }
    }
  }

  lemma {:induction false} AllowedAll(actions: seq<string>, wanted: set<string>)
    requires forall action <- actions :: action in wanted
    ensures Filtered(actions, wanted) == actions
    decreases |actions|
  {
    if actions != [] {
      AllowedAll(actions[1..], wanted);
    }
  }

  lemma NormalizedRowIsClean(definition: Definition, existing: Option<Row>)
    requires "view" in definition.actions
    ensures Clean(NormalizedRow(definition, existing), definition)
  {
    var raw := if existing.Some? then existing.value.actions else [];
    NormalizedExactly(raw);
    AllowedIsNormal(NormalizedActions(raw), definition);
  }

  lemma CleanIsFixed(row: Row, definition: Definition)
    requires Clean(row, definition)
    ensures NormalizedRow(definition, Some(row)) == row
  {
    NormalIsFixed(row.actions);
    AllowedAll(row.actions, Members(definition.actions));
  }

  /** The rows of a sent payload: clean, in catalogue order, one per definition, none empty. */
  ghost predicate CleanRows(catalog: Catalog, rows: seq<Row>)
    decreases |catalog|
  {
    if catalog == [] then rows == []
    else if rows != [] && rows[0].documentType == catalog[0].documentType then
      Clean(rows[0], catalog[0]) && rows[0].actions != [] && CleanRows(catalog[1..], rows[1..])
    else CleanRows(catalog[1..], rows)
  }

  lemma {:induction false} NormalizedRowsAreClean(catalog: Catalog, rows: seq<Row>)
    requires WellFormed(catalog)
    ensures CleanRows(catalog, NormalizedRows(catalog, rows, false))
    decreases |catalog|
  {
    if catalog != [] {
      NormalizedRowsAreClean(catalog[1..], rows);
      NormalizedRowIsClean(catalog[0], RowOf(rows, catalog[0].documentType));
      var rest := NormalizedRows(catalog[1..], rows, false);
      CleanRowsTypes(catalog[1..], rest);
      var row := NormalizedRow(catalog[0], RowOf(rows, catalog[0].documentType));
      if row.actions != [] {
        assert ([row] + rest)[1..] == rest;
      } else {
        assert [] + rest == rest;
      }
    }
  }

  lemma {:induction false} CleanRowsTypes(catalog: Catalog, rows: seq<Row>)
    requires CleanRows(catalog, rows)
    ensures forall i :: 0 <= i < |rows| ==> exists k :: 0 <= k < |catalog| && catalog[k].documentType == rows[i].documentType
    decreases |catalog|
  {
    if catalog != [] {
      if rows != [] && rows[0].documentType == catalog[0].documentType {
        CleanRowsTypes(catalog[1..], rows[1..]);
        forall i | 0 <= i < |rows|
          ensures exists k :: 0 <= k < |catalog| && catalog[k].documentType == rows[i].documentType
        {
          if i > 0 {
            var k :| 0 <= k < |catalog[1..]| && catalog[1..][k].documentType == rows[1..][i - 1].documentType;
            assert catalog[k + 1].documentType == rows[i].documentType;
          }
        }
      } else {
        CleanRowsTypes(catalog[1..], rows);
        forall i | 0 <= i < |rows|
          ensures exists k :: 0 <= k < |catalog| && catalog[k].documentType == rows[i].documentType
        {
          var k :| 0 <= k < |catalog[1..]| && catalog[1..][k].documentType == rows[i].documentType;
          assert catalog[k + 1].documentType == rows[i].documentType;
        }
      }
    }
  }

  ghost predicate DistinctTypes(rows: seq<Row>) {
    forall i, j :: 0 <= i < j < |rows| ==> rows[i].documentType != rows[j].documentType
  }

  lemma {:induction false} CleanRowsDistinct(catalog: Catalog, rows: seq<Row>)
    requires WellFormed(catalog) && CleanRows(catalog, rows)
    ensures DistinctTypes(rows)
    decreases |catalog|
  {
    if catalog != [] {
      if rows != [] && rows[0].documentType == catalog[0].documentType {
        CleanRowsDistinct(catalog[1..], rows[1..]);
        CleanRowsTypes(catalog[1..], rows[1..]);
        forall i, j | 0 <= i < j < |rows| ensures rows[i].documentType != rows[j].documentType {
          if i == 0 {
            var k :| 0 <= k < |catalog[1..]| && catalog[1..][k].documentType == rows[1..][j - 1].documentType;
            assert catalog[k + 1].documentType == rows[j].documentType;
          } else {
            assert rows[1..][i - 1].documentType != rows[1..][j - 1].documentType;
          }
        }
      } else {
        CleanRowsDistinct(catalog[1..], rows);
      }
    }
  }

  lemma {:induction false} RowOfExactly(rows: seq<Row>, documentType: string)
    requires DistinctTypes(rows)
    ensures forall i :: 0 <= i < |rows| && rows[i].documentType == documentType ==> RowOf(rows, documentType) == Some(rows[i])
    ensures (forall i :: 0 <= i < |rows| ==> rows[i].documentType != documentType) ==> RowOf(rows, documentType) == None
  {
    if rows != [] {
      RowOfExactly(rows[..|rows| - 1], documentType);
    }
  }

  lemma NoActions(definition: Definition)
    ensures NormalizedRow(definition, None).actions == []
  {
    UnknownDecodes([]);
    OrderedView();
    assert Decoded([]) + {} == {};
  }

  lemma {:induction false} FixedFrom(catalog: Catalog, rows: seq<Row>, k: nat)
    requires WellFormed(catalog) && DistinctTypes(rows) && k <= |rows| && CleanRows(catalog, rows[k..])
    requires forall i, d :: 0 <= i < k && 0 <= d < |catalog| ==> rows[i].documentType != catalog[d].documentType
    ensures NormalizedRows(catalog, rows, false) == rows[k..]
    decreases |catalog|
  {
    hide NormalizedRow, RowOf, Clean;
    if catalog != [] {
      var definition := catalog[0];
      RowOfExactly(rows, definition.documentType);
      if k < |rows| && rows[k].documentType == definition.documentType {
        CleanIsFixed(rows[k], definition);
        assert rows[k..][1..] == rows[k + 1..];
        FixedFrom(catalog[1..], rows, k + 1);
      } else {
        CleanRowsTypes(catalog[1..], rows[k..]);
        forall i | 0 <= i < |rows| ensures rows[i].documentType != definition.documentType {
          if k <= i {
            var d :| 0 <= d < |catalog[1..]| && catalog[1..][d].documentType == rows[k..][i - k].documentType;
            assert catalog[d + 1].documentType == rows[i].documentType;
          }
        }
        NoActions(definition);
        FixedFrom(catalog[1..], rows, k);
      }
    }
  }

  /** The normaliser is idempotent: what it sends, it would send again unchanged. */
  lemma NormalizedRowsFixed(catalog: Catalog, rows: seq<Row>)
    requires WellFormed(catalog)
    ensures
      var sent := NormalizedRows(catalog, rows, false);
      && NormalizedRows(catalog, sent, false) == sent
      && FlatKeys(catalog, sent) == KeysOf(catalog, sent)
      && FlatKeys(catalog, rows) == FlatKeys(catalog, sent)
  {
    var sent := NormalizedRows(catalog, rows, false);
    NormalizedRowsAreClean(catalog, rows);
    CleanRowsDistinct(catalog, sent);
    assert sent[0..] == sent;
    FixedFrom(catalog, sent, 0);
  }

  // ---------------------------------------------------------------------------
  // What the form is shown, and what of it is sent
  // ---------------------------------------------------------------------------

  /** The given row that counts for a type is the last one. */
  ghost predicate LastOf(rows: seq<Row>, documentType: string, given: Option<Row>) {
    if given.None? then forall i :: 0 <= i < |rows| ==> rows[i].documentType != documentType
    else exists i :: 0 <= i < |rows| && rows[i] == given.value && given.value.documentType == documentType
                     && forall j :: i < j < |rows| ==> rows[j].documentType != documentType
  }

  lemma {:induction false} RowOfIsLast(rows: seq<Row>, documentType: string)
    ensures LastOf(rows, documentType, RowOf(rows, documentType))
  {
    if rows != [] {
      var last := |rows| - 1;
      RowOfIsLast(rows[..last], documentType);
      if rows[last].documentType == documentType {
        assert rows[last] == RowOf(rows, documentType).value;
      } else if RowOf(rows, documentType).Some? {
        var given := RowOf(rows, documentType).value;
        var i :| 0 <= i < last && rows[..last][i] == given && forall j :: i < j < last ==> rows[..last][j].documentType != documentType;
        forall j | i < j < |rows| ensures rows[j].documentType != documentType {
          assert j < last ==> rows[..last][j] == rows[j];
        }
        assert rows[i] == given;
      } else {
        assert forall i :: 0 <= i < last ==> rows[..last][i] == rows[i];
      }
    }
  }

  /** The row shown for a definition, given the row that was stored for its type, if any. */
  ghost predicate ShownFor(row: Row, definition: Definition, given: Option<Row>) {
    var raw := if given.Some? then given.value.actions else [];
    && row.documentType == definition.documentType
    && Distinct(row.actions)
    && (forall action :: action in row.actions <==> action in NormalizedActions(raw) && action in definition.actions)
    && row.id == (if given.Some? && given.value.id != "" then given.value.id else "perm_" + definition.documentType)
    && (row.onlyIfCreator <==> given.Some? && given.value.onlyIfCreator && row.actions != [] && "purge" !in row.actions)
    && row.level == (if given.None? || given.value.level < 0 then 0 else if given.value.level > 9 then 9 else given.value.level)
  }

  lemma NormalizedRowShown(definition: Definition, given: Option<Row>)
    ensures ShownFor(NormalizedRow(definition, given), definition, given)
  {
    var raw := if given.Some? then given.value.actions else [];
    OrderedExactly(Decoded(raw) + (if ImpliesView(raw) then {"view"} else {}));
    FilteredExactly(NormalizedActions(raw), Members(definition.actions));
  }

  /** The matrix has one row for every definition, in catalogue order, made of the last row stored for its type. */
  lemma {:induction false} MatrixExactly(catalog: Catalog, rows: seq<Row>)
    ensures
      var shown := NormalizedRows(catalog, rows, true);
      && |shown| == |catalog|
      && forall k :: 0 <= k < |catalog| ==>
           LastOf(rows, catalog[k].documentType, RowOf(rows, catalog[k].documentType))
           && ShownFor(shown[k], catalog[k], RowOf(rows, catalog[k].documentType))
    decreases |catalog|
  {
    hide LastOf, ShownFor, NormalizedRow;
    if catalog != [] {
      MatrixExactly(catalog[1..], rows);
      RowOfIsLast(rows, catalog[0].documentType);
      NormalizedRowShown(catalog[0], RowOf(rows, catalog[0].documentType));
      forall k | 0 < k < |catalog|
        ensures LastOf(rows, catalog[k].documentType, RowOf(rows, catalog[k].documentType))
        ensures ShownFor(NormalizedRows(catalog, rows, true)[k], catalog[k], RowOf(rows, catalog[k].documentType))
      {
        assert catalog[1..][k - 1] == catalog[k];
        assert NormalizedRows(catalog, rows, true)[k] == NormalizedRows(catalog[1..], rows, true)[k - 1];
      }
    }
  }

  /** The rows with any action, in order. */
  function Granting(rows: seq<Row>): seq<Row> {
    if rows == [] then [] else (if rows[0].actions != [] then [rows[0]] else []) + Granting(rows[1..])
  }

  /** Sent are exactly the rows of the matrix that grant something. */
  lemma {:induction false} SentExactly(catalog: Catalog, rows: seq<Row>)
    ensures NormalizedRows(catalog, rows, false) == Granting(NormalizedRows(catalog, rows, true))
    decreases |catalog|
  {
    hide NormalizedRow, RowOf;
    if catalog != [] {
      SentExactly(catalog[1..], rows);
      assert NormalizedRows(catalog, rows, true)[1..] == NormalizedRows(catalog[1..], rows, true);
    }
  }

  // ---------------------------------------------------------------------------
  // One checkbox
  // ---------------------------------------------------------------------------

  /** `setPermissionAction`; an unknown action leaves the row alone, an inherited name disturbs only the form. */
  function SetAction(row: Row, action: string, enabled: bool): Row {
    match Decode(action)
    case Unknown => row
    case Alien =>
      var actions := NormalizedActions(row.actions);
      Ticked(row, if enabled then Members(actions) + {"view"} else Members(actions))
    case Known(code) =>
      var actions := Members(NormalizedActions(row.actions));
      Ticked(row, if enabled then actions + {code, "view"} else if code == "view" then {} else actions - {code})
  }

  function Ticked(row: Row, actions: set<string>): Row {
    var ordered := Ordered(actions);
    row.(actions := ordered, onlyIfCreator := ordered != [] && "purge" !in ordered && row.onlyIfCreator)
  }

  lemma KnownIsAction(raw: string)
    ensures Decode(raw).Known? ==> Decode(raw).action in ACTIONS
    ensures "view" in ACTIONS
  {
    assert "view" == ACTIONS[0];
  }

  lemma TickedExactly(row: Row, wanted: set<string>)
    requires forall action <- wanted :: action in ACTIONS
    requires wanted != {} ==> "view" in wanted
    ensures Normal(Ticked(row, wanted).actions)
    ensures forall action :: action in Ticked(row, wanted).actions <==> action in wanted
    ensures wanted == {} ==> Ticked(row, wanted).actions == []
  {
    OrderedExactly(wanted);
    OrderedView();
    var ordered := Ordered(wanted);
    if ordered != [] {
      assert ordered[0] in ordered;
    }
  }

  /**
    Ticking or clearing one box of any row makes the row normal, does exactly
    that to the box, drags `view` along when ticking, empties the row when
    `view` is cleared, and leaves every other box, `view` included, as normalising
    shows it.  The rest of the row stays, but that creator restriction ends with
    `purge` or with the last action.
   */
  lemma SetActionExactly(row: Row, action: string, enabled: bool)
    requires Decode(action).Known?
    ensures
      var code := Decode(action).action;
      var next := SetAction(row, action, enabled);
      var before := NormalizedActions(row.actions);
      && Normal(next.actions)
      && (code in next.actions <==> enabled)
      && (enabled ==> "view" in next.actions)
      && (!enabled && code == "view" ==> next.actions == [])
      && (!enabled && code != "view" ==> forall other :: other != code ==> (other in next.actions <==> other in before))
      && (enabled ==> forall other :: other != code && other != "view" ==> (other in next.actions <==> other in before))
      && next == row.(actions := next.actions,
                      onlyIfCreator := row.onlyIfCreator && next.actions != [] && "purge" !in next.actions)
  {
    var code := Decode(action).action;
    KnownIsAction(action);
    NormalizedExactly(row.actions);
    var actions := Members(NormalizedActions(row.actions));
    var wanted := if enabled then actions + {code, "view"} else if code == "view" then {} else actions - {code};
    TickedExactly(row, wanted);
  }

  /**
    Any other code is no box: an unknown one changes nothing, and one that names
    an inherited property normalises the row, or ticks `view`.
   */
  lemma NoSuchBox(row: Row, action: string, enabled: bool)
    requires !Decode(action).Known?
    ensures
      var next := SetAction(row, action, enabled);
      if action in INHERITED then
        && Normal(next.actions)
        && forall other :: other in next.actions <==> other in NormalizedActions(row.actions) || (enabled && other == "view")
      else next == row
  {
    if action in INHERITED {
      KnownIsAction(action);
      NormalizedExactly(row.actions);
      var actions := Members(NormalizedActions(row.actions));
      if other :| other in actions {
        assert NormalizedActions(row.actions) != [];
      }
      TickedExactly(row, if enabled then actions + {"view"} else actions);
    }
  }
}
