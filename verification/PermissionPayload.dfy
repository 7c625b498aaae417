/** backend/app/core/permissions.py: validating a role's permission payload, and its agreement with the form. */
module PermissionPayload {
  import opened Wrappers
  import opened PermissionCatalog
  import RolePermissions

  /** Record-owned types first, then the fixed ones; the order does not matter to the lookups. */
  datatype Tables = Tables(records: Catalog, statics: Catalog)
  {
    function All(): Catalog { records + statics }
  }

  datatype Error =
    | UnknownType(documentType: string)
    | NotAllowed(action: string, documentType: string)
    | LevelOutOfRange
    | Mismatch

  datatype Accepted = Accepted(rows: seq<Row>, permissions: set<string>, count: nat)

  // ---------------------------------------------------------------------------
  // `normalize_permission_payload` on values
  // ---------------------------------------------------------------------------

  /** `PREFIXES.get(prefix)`. */
  function ActionsOf(catalog: Catalog, prefix: string): Option<seq<string>> {
    if catalog == [] then None
    else
      var last := catalog[|catalog| - 1];
      if last.prefix == prefix then Some(last.actions) else ActionsOf(catalog[..|catalog| - 1], prefix)
  }

  /** The prefix a document type is stored under; types not in the tables are new record types. */
  function PrefixOf(tables: Tables, documentType: string): Option<string> {
    var known := Lookup(tables.All(), documentType);
    if known.Some? && known.value.prefix != "" then Some(known.value.prefix)
    else if documentType != "" && Lookup(tables.statics, documentType).None? then Some("records." + documentType)
    else None
  }

  function AllowedFor(tables: Tables, documentType: string): seq<string> {
    var known := Lookup(tables.All(), documentType);
    if known.Some? && known.value.prefix != "" then
      var actions := ActionsOf(tables.All(), known.value.prefix);
      if actions.Some? && actions.value != [] then actions.value else WORKFLOW
    else WORKFLOW
  }

  /** `dict.fromkeys`: the first occurrence of each. */
  function Deduped(actions: seq<string>): seq<string> {
    if actions == [] then []
    else
      var last := actions[|actions| - 1];
      var before := Deduped(actions[..|actions| - 1]);
      if last in before then before else before + [last]
  }

  function WithView(actions: seq<string>): seq<string> {
    if actions != [] && "view" !in actions then ["view"] + actions else actions
  }

  function FirstForbidden(actions: seq<string>, allowed: seq<string>): Option<string> {
    if actions == [] then None
    else if actions[0] !in allowed then Some(actions[0])
    else FirstForbidden(actions[1..], allowed)
  }

  function CheckedRow(tables: Tables, raw: Row): Result<Row, Error> {
    if PrefixOf(tables, raw.documentType).None? then Err(UnknownType(raw.documentType))
    else
      var forbidden := FirstForbidden(raw.actions, AllowedFor(tables, raw.documentType));
      if forbidden.Some? then Err(NotAllowed(forbidden.value, raw.documentType))
      else if !(0 <= raw.level <= 9) then Err(LevelOutOfRange)
      else
        var actions := Deduped(WithView(raw.actions));
        Ok(Row(if raw.id != "" then raw.id else "perm_" + raw.documentType,
               raw.documentType,
               actions,
               actions != [] && "purge" !in actions && raw.onlyIfCreator,
               raw.level))
  }

  function CheckedRows(tables: Tables, rows: seq<Row>): Result<seq<Row>, Error> {
    if rows == [] then Ok([])
    else
      var before := CheckedRows(tables, rows[..|rows| - 1]);
      if before.Err? then before
      else
        var last := CheckedRow(tables, rows[|rows| - 1]);
        if last.Err? then Err(last.error) else Ok(before.value + [last.value])
  }

  /** The permissions of rows that have a prefix. */
  function FlatOf(tables: Tables, rows: seq<Row>): set<string> {
    if rows == [] then {}
    else
      var last := rows[|rows| - 1];
      var prefix := PrefixOf(tables, last.documentType);
      FlatOf(tables, rows[..|rows| - 1])
      + (if prefix.Some? then set action | action in last.actions :: PermissionKey(prefix.value, action) else {})
  }

  function NormalizedPayload(tables: Tables, rows: seq<Row>, supplied: Option<set<string>>): Result<Accepted, Error> {
    var checked := CheckedRows(tables, rows);
    if checked.Err? then Err(checked.error)
    else
      var flat := FlatOf(tables, checked.value);
      if supplied.Some? && supplied.value != flat then Err(Mismatch)
      else Ok(Accepted(checked.value, flat, |flat|))
  }

  // ---------------------------------------------------------------------------
  // The same, as the loops of the code
  // ---------------------------------------------------------------------------

  method CheckActions(actions: seq<string>, allowed: seq<string>) returns (result: Result<seq<string>, string>)
    ensures result == if FirstForbidden(actions, allowed).Some? then Err(FirstForbidden(actions, allowed).value)
                      else Ok(Deduped(WithView(actions)))
  {
    for i := 0 to |actions|
      invariant FirstForbidden(actions, allowed) == FirstForbidden(actions[i..], allowed)
    {
      if actions[i] !in allowed {
        return Err(actions[i]);
      }
      assert actions[i..][1..] == actions[i + 1..];
    }
    var completed := if actions != [] && "view" !in actions then ["view"] + actions else actions;
    var deduped := [];
    for i := 0 to |completed|
      invariant deduped == Deduped(completed[..i])
    {
      assert completed[..i + 1][..i] == completed[..i];
      if completed[i] !in deduped {
        deduped := deduped + [completed[i]];
      }
    }
    assert completed[..|completed|] == completed;
    return Ok(deduped);
  }

  method NormalizePermissionPayload(tables: Tables, rows: seq<Row>, supplied: Option<set<string>>)
    returns (result: Result<Accepted, Error>)
    ensures result == NormalizedPayload(tables, rows, supplied)
  {
    var normalized: seq<Row> := [];
    var flat: set<string> := {};
    for i := 0 to |rows|
      invariant CheckedRows(tables, rows[..i]) == Ok(normalized)
      invariant flat == FlatOf(tables, normalized)
    {
      assert rows[..i + 1][..i] == rows[..i];
      var raw := rows[i];
      var prefix := PrefixOf(tables, raw.documentType);
      if prefix.None? {
        CheckedPrefixFails(tables, rows, i + 1);
        return Err(UnknownType(raw.documentType));
      }
      var actions := CheckActions(raw.actions, AllowedFor(tables, raw.documentType));
      if actions.Err? {
        CheckedPrefixFails(tables, rows, i + 1);
        return Err(NotAllowed(actions.error, raw.documentType));
      }
      if !(0 <= raw.level <= 9) {
        CheckedPrefixFails(tables, rows, i + 1);
        return Err(LevelOutOfRange);
      }
      var row := Row(if raw.id != "" then raw.id else "perm_" + raw.documentType,
                     raw.documentType,
                     actions.value,
                     if actions.value != [] && "purge" !in actions.value then raw.onlyIfCreator else false,
                     raw.level);
      assert (normalized + [row])[..|normalized|] == normalized;
      normalized := normalized + [row];
      flat := RolePermissions.AddKeys(flat, prefix.value, row.actions);
    }
    assert rows[..|rows|] == rows;
    if supplied.Some? && supplied.value != flat {
      return Err(Mismatch);
    }
    return Ok(Accepted(normalized, flat, |flat|));
  }

  lemma {:induction false} CheckedPrefixFails(tables: Tables, rows: seq<Row>, n: nat)
    requires n <= |rows| && CheckedRows(tables, rows[..n]).Err?
    ensures CheckedRows(tables, rows) == CheckedRows(tables, rows[..n])
    decreases |rows|
  {
    if n == |rows| {
      assert rows[..n] == rows;
    } else {
      var shorter := rows[..|rows| - 1];
      assert shorter[..n] == rows[..n];
      CheckedPrefixFails(tables, shorter, n);
    }
  }

  /** `expand_permission_rows`: one key per row and action, in order, repetitions and all. */
  method ExpandPermissionRows(tables: Tables, rows: seq<Row>) returns (keys: seq<string>)
    ensures keys == ExpandedKeys(tables, rows)
    ensures RolePermissions.Members(keys) == ExpandedOf(tables, rows)
  {
    ExpandedMembers(tables, rows);
    keys := [];
    assert ExpandedKeys(tables, rows[..0]) == [];
    hide Lookup, PermissionKey, ExpandedOf, ExpandedKeys;
    for i := 0 to |rows|
      invariant keys == ExpandedKeys(tables, rows[..i])
    {
      OneMoreExpanded(tables, rows, i);
      var row := rows[i];
      var known := Lookup(tables.All(), row.documentType);
      var prefix := if known.Some? && known.value.prefix != "" then known.value.prefix
                    else if row.documentType != "" then "records." + row.documentType else "";
      assert prefix == ExpandedPrefix(tables, row.documentType);
      if prefix != "" {
        var more := KeyList(prefix, row.actions);
        assert more == RowKeyList(tables, row);
        keys := keys + more;
      } else {
        assert keys + [] == keys;
      }
    }
    assert rows[..|rows|] == rows;
  }

  lemma OneMoreExpanded(tables: Tables, rows: seq<Row>, i: nat)
    requires i < |rows|
    ensures ExpandedKeys(tables, rows[..i + 1]) == ExpandedKeys(tables, rows[..i]) + RowKeyList(tables, rows[i])
  {
    assert rows[..i + 1][..i] == rows[..i];
  }

  lemma {:induction false} ExpandedMembers(tables: Tables, rows: seq<Row>)
    ensures RolePermissions.Members(ExpandedKeys(tables, rows)) == ExpandedOf(tables, rows)
  {
    hide ExpandedPrefix, PermissionKey;
    if rows != [] {
      ExpandedMembers(tables, rows[..|rows| - 1]);
    }
  }

  method KeyList(prefix: string, actions: seq<string>) returns (keys: seq<string>)
    ensures |keys| == |actions| && forall i :: 0 <= i < |keys| ==> keys[i] == PermissionKey(prefix, actions[i])
  {
    keys := [];
    for i := 0 to |actions|
      invariant |keys| == i && forall j :: 0 <= j < i ==> keys[j] == PermissionKey(prefix, actions[j])
    {
      keys := keys + [PermissionKey(prefix, actions[i])];
    }
  }

  function ExpandedPrefix(tables: Tables, documentType: string): string {
    var known := Lookup(tables.All(), documentType);
    if known.Some? && known.value.prefix != "" then known.value.prefix
    else if documentType != "" then "records." + documentType else ""
  }

  /** The keys of every row that has a prefix, row after row. */
  function ExpandedKeys(tables: Tables, rows: seq<Row>): seq<string> {
    if rows == [] then []
    else
      ExpandedKeys(tables, rows[..|rows| - 1]) + RowKeyList(tables, rows[|rows| - 1])
  }

  function RowKeyList(tables: Tables, row: Row): seq<string> {
    var prefix := ExpandedPrefix(tables, row.documentType);
    if prefix != "" then seq(|row.actions|, i requires 0 <= i < |row.actions| => PermissionKey(prefix, row.actions[i])) else []
  }

  function ExpandedOf(tables: Tables, rows: seq<Row>): set<string> {
    if rows == [] then {}
    else
      var last := rows[|rows| - 1];
      var prefix := ExpandedPrefix(tables, last.documentType);
      ExpandedOf(tables, rows[..|rows| - 1])
      + (if prefix != "" then set action | action in last.actions :: PermissionKey(prefix, action) else {})
  }

  // ---------------------------------------------------------------------------
  // What is accepted
  // ---------------------------------------------------------------------------

  lemma {:induction false} DedupedExactly(actions: seq<string>)
    ensures forall action :: action in Deduped(actions) <==> action in actions
    ensures Distinct(Deduped(actions))
    ensures Distinct(actions) ==> Deduped(actions) == actions
  {
    if actions != [] {
      var before := actions[..|actions| - 1];
      DedupedExactly(before);
      assert actions == before + [actions[|actions| - 1]];
    }
  }

  /** Each action stands in the order of its first occurrence: those of any prefix come first. */
  lemma {:induction false} DedupedInOrder(actions: seq<string>, n: nat)
    requires n <= |actions|
    ensures Deduped(actions[..n]) <= Deduped(actions)
    ensures forall action :: action in Deduped(actions[..n]) <==> action in actions[..n]
    decreases |actions|
  {
    DedupedExactly(actions[..n]);
    if n < |actions| {
      var before := actions[..|actions| - 1];
      DedupedInOrder(before, n);
      assert before[..n] == actions[..n];
    } else {
      assert actions[..n] == actions;
    }
  }

  lemma {:induction false} ForbiddenExactly(actions: seq<string>, allowed: seq<string>)
    ensures FirstForbidden(actions, allowed).None? <==> forall action <- actions :: action in allowed
    decreases |actions|
  {
    if actions != [] {
      ForbiddenExactly(actions[1..], allowed);
    }
  }

  /** The rows that pass: a known or new type, only actions of that type, and a level of one digit. */
  predicate Acceptable(tables: Tables, raw: Row) {
    && PrefixOf(tables, raw.documentType).Some?
    && (forall action <- raw.actions :: action in AllowedFor(tables, raw.documentType))
    && 0 <= raw.level <= 9
  }

  lemma RowAccepted(tables: Tables, raw: Row)
    ensures CheckedRow(tables, raw).Ok? <==> Acceptable(tables, raw)
  {
    hide AllowedFor, PrefixOf;
    ForbiddenExactly(raw.actions, AllowedFor(tables, raw.documentType));
  }

  /** Rows are accepted exactly when each of them is. */
  lemma {:induction false} AcceptedExactly(tables: Tables, rows: seq<Row>)
    ensures CheckedRows(tables, rows).Ok? <==> forall row <- rows :: Acceptable(tables, row)
  {
    hide CheckedRow, Acceptable;
    if rows != [] {
      var before, last := rows[..|rows| - 1], rows[|rows| - 1];
      AcceptedExactly(tables, before);
      RowAccepted(tables, last);
      assert rows == before + [last];
      assert forall row :: row in rows <==> row in before || row == last;
    }
  }

  /**
    Under which prefix a type is stored and what it allows: a listed type under
    its own with its actions, a new one under `records.` with those of a workflow;
    refused are the empty type and one that is reserved without a prefix.
   */
  lemma TypeRules(tables: Tables, documentType: string)
    requires WellFormed(tables.All())
    ensures forall definition <- tables.All() :: definition.documentType == documentType ==>
              PrefixOf(tables, documentType) == Some(definition.prefix) && AllowedFor(tables, documentType) == definition.actions
    ensures (forall definition <- tables.All() :: definition.documentType != documentType) ==>
              && PrefixOf(tables, documentType) == (if documentType == "" then None else Some("records." + documentType))
              && AllowedFor(tables, documentType) == WORKFLOW
  {
    var catalog := tables.All();
    forall definition | definition in catalog && definition.documentType == documentType
      ensures PrefixOf(tables, documentType) == Some(definition.prefix) && AllowedFor(tables, documentType) == definition.actions
    {
      var i :| 0 <= i < |catalog| && catalog[i] == definition;
      LookupFinds(catalog, i);
      ActionsOfFinds(catalog, i);
    }
    LookupSound(catalog, documentType);
    LookupSound(tables.statics, documentType);
  }

  lemma ReservedTypes(tables: Tables, reserved: Definition)
    requires reserved in tables.statics
    requires forall definition <- tables.All() :: definition.documentType == reserved.documentType ==> definition.prefix == ""
    ensures PrefixOf(tables, reserved.documentType).None?
  {
    LookupSound(tables.All(), reserved.documentType);
    LookupSound(tables.statics, reserved.documentType);
  }

  /** The row grants the key: an action it names, or `view` with any action, under the prefix of its type. */
  ghost predicate Grants(tables: Tables, raw: Row, key: string) {
    exists action: string ::
      && (action in raw.actions || (action == "view" && raw.actions != []))
      && PrefixOf(tables, raw.documentType).Some?
      && key == PermissionKey(PrefixOf(tables, raw.documentType).value, action)
  }

  lemma RowKeys(tables: Tables, raw: Row, key: string)
    requires CheckedRow(tables, raw).Ok?
    ensures
      var row := CheckedRow(tables, raw).value;
      var prefix := PrefixOf(tables, row.documentType);
      prefix.Some? && row.documentType == raw.documentType
      && (Grants(tables, raw, key) <==> key in (set action | action in row.actions :: PermissionKey(prefix.value, action)))
  {
    hide PrefixOf, AllowedFor, PermissionKey;
    CheckedRowMeaning(tables, raw);
  }

  /** The permissions of accepted rows are exactly the keys that some row grants. */
  lemma {:induction false} PermissionsExactly(tables: Tables, rows: seq<Row>, key: string)
    requires CheckedRows(tables, rows).Ok?
    ensures key in FlatOf(tables, CheckedRows(tables, rows).value) <==> exists raw <- rows :: Grants(tables, raw, key)
  {
    hide CheckedRow, PrefixOf, PermissionKey, Grants;
    if rows != [] {
      var before, last := rows[..|rows| - 1], rows[|rows| - 1];
      PermissionsExactly(tables, before, key);
      RowKeys(tables, last, key);
      var out := CheckedRows(tables, rows).value;
      assert out[..|out| - 1] == CheckedRows(tables, before).value;
      assert rows == before + [last];
      assert forall raw :: raw in rows <==> raw in before || raw == last;
    }
  }

  /** The supplied list names exactly the keys that some row grants. */
  ghost predicate Agrees(tables: Tables, rows: seq<Row>, supplied: set<string>) {
    forall key: string :: key in supplied <==> exists raw <- rows :: Grants(tables, raw, key)
  }

  /** Why one row is refused: its type first, then its first action that is not allowed, then its level. */
  ghost predicate RefusedFor(tables: Tables, raw: Row, error: Error) {
    match error
    case UnknownType(documentType) => documentType == raw.documentType && PrefixOf(tables, raw.documentType).None?
    case NotAllowed(action, documentType) =>
      && documentType == raw.documentType && PrefixOf(tables, raw.documentType).Some?
      && exists i :: 0 <= i < |raw.actions| && raw.actions[i] == action
                     && action !in AllowedFor(tables, raw.documentType)
                     && forall j :: 0 <= j < i ==> raw.actions[j] in AllowedFor(tables, raw.documentType)
    case LevelOutOfRange =>
      && PrefixOf(tables, raw.documentType).Some?
      && (forall action <- raw.actions :: action in AllowedFor(tables, raw.documentType))
      && !(0 <= raw.level <= 9)
    case Mismatch => false
  }

  lemma {:induction false} FirstForbiddenIsFirst(actions: seq<string>, allowed: seq<string>) returns (i: nat)
    requires FirstForbidden(actions, allowed).Some?
    ensures i < |actions| && actions[i] == FirstForbidden(actions, allowed).value && actions[i] !in allowed
    ensures forall j :: 0 <= j < i ==> actions[j] in allowed
    decreases |actions|
  {
    if actions[0] !in allowed {
      i := 0;
    } else {
      var rest := FirstForbiddenIsFirst(actions[1..], allowed);
      i := rest + 1;
    }
  }

  lemma RowRefused(tables: Tables, raw: Row)
    requires CheckedRow(tables, raw).Err?
    ensures RefusedFor(tables, raw, CheckedRow(tables, raw).error)
  {
    hide PrefixOf, AllowedFor;
    ForbiddenExactly(raw.actions, AllowedFor(tables, raw.documentType));
    if CheckedRow(tables, raw).error.NotAllowed? {
      var i := FirstForbiddenIsFirst(raw.actions, AllowedFor(tables, raw.documentType));
    }
  }

  lemma {:induction false} FirstRowRefused(tables: Tables, rows: seq<Row>) returns (i: nat)
    requires CheckedRows(tables, rows).Err?
    ensures i < |rows| && RefusedFor(tables, rows[i], CheckedRows(tables, rows).error)
    ensures forall j :: 0 <= j < i ==> Acceptable(tables, rows[j])
  {
    hide CheckedRow, Acceptable, RefusedFor;
    var last := |rows| - 1;
    if CheckedRows(tables, rows[..last]).Err? {
      i := FirstRowRefused(tables, rows[..last]);
    } else {
      i := last;
      RowRefused(tables, rows[last]);
      AcceptedExactly(tables, rows[..last]);
      assert forall j :: 0 <= j < last ==> rows[j] == rows[..last][j];
    }
  }

  /**
    The verdict on a payload: the first unacceptable row is named with its
    reason; otherwise a supplied list is refused exactly when it does not name the
    keys the rows grant, and without one, or with those, the payload is accepted.
   */
  lemma VerdictExactly(tables: Tables, rows: seq<Row>, supplied: Option<set<string>>)
    ensures
      var verdict := NormalizedPayload(tables, rows, supplied);
      && (verdict == Err(Mismatch) <==>
            (forall row <- rows :: Acceptable(tables, row)) && supplied.Some? && !Agrees(tables, rows, supplied.value))
      && (verdict.Ok? <==>
            (forall row <- rows :: Acceptable(tables, row)) && (supplied.Some? ==> Agrees(tables, rows, supplied.value)))
      && (verdict.Ok? ==> Agrees(tables, rows, verdict.value.permissions) && verdict.value.count == |verdict.value.permissions|)
      && (verdict.Err? && verdict.error != Mismatch ==>
            exists i :: 0 <= i < |rows| && RefusedFor(tables, rows[i], verdict.error)
                        && forall j :: 0 <= j < i ==> Acceptable(tables, rows[j]))
  {
    hide Acceptable, Grants, RefusedFor, FlatOf, CheckedRow;
    AcceptedExactly(tables, rows);
    if CheckedRows(tables, rows).Ok? {
      var flat := FlatOf(tables, CheckedRows(tables, rows).value);
      forall key: string ensures key in flat <==> exists raw <- rows :: Grants(tables, raw, key) {
        PermissionsExactly(tables, rows, key);
      }
      if supplied.Some? && Agrees(tables, rows, supplied.value) {
        assert supplied.value == flat;
      }
    } else {
      var i := FirstRowRefused(tables, rows);
      assert CheckedRows(tables, rows).error != Mismatch by { NeverMismatch(tables, rows[i], CheckedRows(tables, rows).error); }
    }
  }

  lemma NeverMismatch(tables: Tables, raw: Row, error: Error)
    requires RefusedFor(tables, raw, error)
    ensures error != Mismatch
  {
  }

  lemma {:induction false} DedupedInFront(action: string, actions: seq<string>)
    requires action !in actions
    ensures Deduped([action] + actions) == [action] + Deduped(actions)
    decreases |actions|
  {
    var all := [action] + actions;
    if actions == [] {
      assert all == [action] && all[..0] == [];
      assert Deduped(all[..0]) == [];
    } else {
      var before, last := actions[..|actions| - 1], actions[|actions| - 1];
      assert all[..|all| - 1] == [action] + before;
      DedupedInFront(action, before);
    }
  }

  /** The order of an accepted row: a `view` that was added stands first, the others as they first occurred. */
  lemma CheckedRowOrder(tables: Tables, raw: Row)
    requires CheckedRow(tables, raw).Ok?
    ensures CheckedRow(tables, raw).value.actions
         == (if raw.actions != [] && "view" !in raw.actions then ["view"] else []) + Deduped(raw.actions)
  {
    hide PrefixOf, AllowedFor, Deduped;
    if raw.actions != [] && "view" !in raw.actions {
      DedupedInFront("view", raw.actions);
    } else {
      assert [] + Deduped(raw.actions) == Deduped(raw.actions);
    }
  }

  /** What an accepted row may contain, as the design promises it. */
  lemma CheckedRowMeaning(tables: Tables, raw: Row)
    requires CheckedRow(tables, raw).Ok?
    ensures
      var row := CheckedRow(tables, raw).value;
      && (forall action :: action in row.actions <==> action in raw.actions || (action == "view" && raw.actions != []))
      && Distinct(row.actions)
      && (forall action <- raw.actions :: action in AllowedFor(tables, raw.documentType))
      && (row.onlyIfCreator <==> row.actions != [] && "purge" !in row.actions && raw.onlyIfCreator)
      && row.level == raw.level && row.documentType == raw.documentType
      && 0 <= row.level <= 9 && row.id != ""
  {
    DedupedExactly(WithView(raw.actions));
    ForbiddenExactly(raw.actions, AllowedFor(tables, raw.documentType));
    assert forall action :: action in WithView(raw.actions) <==> action in raw.actions || (action == "view" && raw.actions != []);
  }

  /** The `view` that is added to a row is itself among the actions of its type. */
  predicate Viewable(tables: Tables, row: Row) {
    row.actions != [] ==> "view" in AllowedFor(tables, row.documentType)
  }

  lemma HasMember(actions: seq<string>)
    ensures actions != [] <==> exists action :: action in actions
  {
    if actions != [] {
      assert actions[0] in actions;
    }
  }

  /** A row that came out of the check passes it again, and then unchanged, exactly when it may have `view`. */
  lemma CheckedRowFixed(tables: Tables, raw: Row)
    requires CheckedRow(tables, raw).Ok?
    ensures CheckedRow(tables, CheckedRow(tables, raw).value) == CheckedRow(tables, raw) <==> Viewable(tables, raw)
  {
    hide AllowedFor, PrefixOf, Deduped;
    var row := CheckedRow(tables, raw).value;
    CheckedRowMeaning(tables, raw);
    DedupedExactly(row.actions);
    ForbiddenExactly(row.actions, AllowedFor(tables, raw.documentType));
    HasMember(raw.actions);
    HasMember(row.actions);
  }

  lemma {:induction false} CheckedRowsFixed(tables: Tables, rows: seq<Row>)
    requires CheckedRows(tables, rows).Ok?
    ensures CheckedRows(tables, CheckedRows(tables, rows).value) == CheckedRows(tables, rows)
       <==> forall row <- rows :: Viewable(tables, row)
    ensures FlatOf(tables, CheckedRows(tables, rows).value) == ExpandedOf(tables, CheckedRows(tables, rows).value)
  {
    hide CheckedRow, AllowedFor, Viewable;
    if rows != [] {
      var before, last := rows[..|rows| - 1], rows[|rows| - 1];
      CheckedRowsFixed(tables, before);
      CheckedRowFixed(tables, last);
      KnownPrefix(tables, last);
      var out := CheckedRows(tables, rows).value;
      assert out[..|out| - 1] == CheckedRows(tables, before).value;
      assert rows == before + [last];
    }
  }

  lemma KnownPrefix(tables: Tables, raw: Row)
    requires CheckedRow(tables, raw).Ok?
    ensures CheckedRow(tables, raw).value.documentType == raw.documentType
    ensures PrefixOf(tables, raw.documentType) == Some(ExpandedPrefix(tables, raw.documentType))
    ensures ExpandedPrefix(tables, raw.documentType) != ""
  {
  }

  /**
    Storing is stable exactly when `view` is an action of every type that is
    given any: then an accepted payload is accepted again as it stands.  In any
    case expanding its rows gives back exactly its permissions.
   */
  lemma AcceptedIsStable(tables: Tables, rows: seq<Row>, supplied: Option<set<string>>)
    requires NormalizedPayload(tables, rows, supplied).Ok?
    ensures
      var accepted := NormalizedPayload(tables, rows, supplied).value;
      && (NormalizedPayload(tables, accepted.rows, Some(accepted.permissions)) == Ok(accepted)
          <==> forall row <- rows :: Viewable(tables, row))
      && ExpandedOf(tables, accepted.rows) == accepted.permissions
  {
    CheckedRowsFixed(tables, rows);
  }

  // ---------------------------------------------------------------------------
  // The form and the server agree
  // ---------------------------------------------------------------------------

  /** The server knows every definition of the form, in whatever order and whatever else it knows. */
  ghost predicate ServerKnows(catalog: Catalog, tables: Tables) {
    && WellFormed(catalog) && WellFormed(tables.All())
    && forall definition :: definition in catalog ==> definition in tables.All()
  }

  lemma {:induction false} ActionsOfFinds(catalog: Catalog, i: nat)
    requires WellFormed(catalog) && i < |catalog|
    ensures ActionsOf(catalog, catalog[i].prefix) == Some(catalog[i].actions)
  {
    if i < |catalog| - 1 {
      ActionsOfFinds(catalog[..|catalog| - 1], i);
    }
  }

  lemma KnownDefinition(catalog: Catalog, tables: Tables, definition: Definition)
    requires ServerKnows(catalog, tables) && definition in catalog
    ensures Lookup(catalog, definition.documentType) == Some(definition)
    ensures PrefixOf(tables, definition.documentType) == Some(definition.prefix)
    ensures AllowedFor(tables, definition.documentType) == definition.actions
  {
    var i :| 0 <= i < |catalog| && catalog[i] == definition;
    LookupFinds(catalog, i);
    assert definition in tables.All();
    var k :| 0 <= k < |tables.All()| && tables.All()[k] == definition;
    LookupFinds(tables.All(), k);
    ActionsOfFinds(tables.All(), k);
  }

  lemma CleanRowAccepted(catalog: Catalog, tables: Tables, row: Row, definition: Definition)
    requires ServerKnows(catalog, tables) && definition in catalog && RolePermissions.Clean(row, definition)
    ensures row.documentType == definition.documentType && CheckedRow(tables, row) == Ok(row)
  {
    KnownDefinition(catalog, tables, definition);
    ForbiddenExactly(row.actions, definition.actions);
    RolePermissions.OrderedExactly(RolePermissions.Members(row.actions));
    DedupedExactly(row.actions);
  }

  ghost predicate CleanIn(catalog: Catalog, row: Row) {
    exists definition <- catalog :: RolePermissions.Clean(row, definition)
  }

  /** Every row is clean for some definition of the catalogue. */
  ghost predicate AllClean(catalog: Catalog, rows: seq<Row>) {
    forall i :: 0 <= i < |rows| ==> CleanIn(catalog, rows[i])
  }

  lemma {:induction false} CleanRowsAreAllClean(catalog: Catalog, rows: seq<Row>)
    requires RolePermissions.CleanRows(catalog, rows)
    ensures AllClean(catalog, rows)
    decreases |catalog|
  {
    if catalog != [] {
      if rows != [] && rows[0].documentType == catalog[0].documentType {
        CleanRowsAreAllClean(catalog[1..], rows[1..]);
        assert catalog[0] in catalog;
        forall i | 0 <= i < |rows| ensures CleanIn(catalog, rows[i]) {
          if i > 0 {
            assert CleanIn(catalog[1..], rows[1..][i - 1]);
            var definition :| definition in catalog[1..] && RolePermissions.Clean(rows[i], definition);
            assert definition in catalog;
          }
        }
      } else {
        CleanRowsAreAllClean(catalog[1..], rows);
        forall i | 0 <= i < |rows| ensures CleanIn(catalog, rows[i]) {
          assert CleanIn(catalog[1..], rows[i]);
          var definition :| definition in catalog[1..] && RolePermissions.Clean(rows[i], definition);
          assert definition in catalog;
        }
      }
    }
  }

  lemma {:induction false} CleanRowsAccepted(catalog: Catalog, tables: Tables, rows: seq<Row>)
    requires ServerKnows(catalog, tables) && AllClean(catalog, rows)
    ensures CheckedRows(tables, rows) == Ok(rows)
    ensures FlatOf(tables, rows) == RolePermissions.KeysOf(catalog, rows)
  {
    hide CheckedRow, Lookup, ServerKnows, RolePermissions.Clean;
    if rows != [] {
      var last := rows[|rows| - 1];
      CleanRowsAccepted(catalog, tables, rows[..|rows| - 1]);
      assert CleanIn(catalog, last);
      var definition :| definition in catalog && RolePermissions.Clean(last, definition);
      CleanRowAccepted(catalog, tables, last, definition);
      KnownDefinition(catalog, tables, definition);
      assert rows == rows[..|rows| - 1] + [last];
    }
  }

  function ActionCount(rows: seq<Row>): nat {
    if rows == [] then 0 else ActionCount(rows[..|rows| - 1]) + |rows[|rows| - 1].actions|
  }

  lemma {:induction false} KeysOfMember(catalog: Catalog, rows: seq<Row>, key: string)
    requires key in RolePermissions.KeysOf(catalog, rows)
    ensures exists i :: 0 <= i < |rows| && Lookup(catalog, rows[i].documentType).Some?
              && exists action <- rows[i].actions :: key == PermissionKey(Lookup(catalog, rows[i].documentType).value.prefix, action)
  {
    if rows != [] && key in RolePermissions.KeysOf(catalog, rows[..|rows| - 1]) {
      KeysOfMember(catalog, rows[..|rows| - 1], key);
    }
  }

  lemma {:induction false} KeyCount(prefix: string, actions: seq<string>)
    requires Distinct(actions) && forall action <- actions :: '.' !in action
    ensures |set action | action in actions :: PermissionKey(prefix, action)| == |actions|
  {
    var keys := set action | action in actions :: PermissionKey(prefix, action);
    if actions == [] {
      assert keys == {};
    } else {
      var last := actions[|actions| - 1];
      var before := actions[..|actions| - 1];
      KeyCount(prefix, before);
      var fewer := set action | action in before :: PermissionKey(prefix, action);
      assert actions == before + [last];
      assert keys == fewer + {PermissionKey(prefix, last)};
      if PermissionKey(prefix, last) in fewer {
        var action :| action in before && PermissionKey(prefix, action) == PermissionKey(prefix, last);
        PermissionKeyInjective(prefix, action, prefix, last);
        assert false;
      }
    }
  }

  lemma CleanKeyCount(row: Row, definition: Definition)
    requires RolePermissions.Clean(row, definition)
    ensures row.documentType == definition.documentType
    ensures |set action | action in row.actions :: PermissionKey(definition.prefix, action)| == |row.actions|
  {
    ActionsAreDotFree();
    RolePermissions.OrderedExactly(RolePermissions.Members(row.actions));
    KeyCount(definition.prefix, row.actions);
  }

  /** No two rows or actions share a key, so the set is as large as the matrix has ticks. */
  lemma {:induction false} KeysCounted(catalog: Catalog, rows: seq<Row>)
    requires WellFormed(catalog) && AllClean(catalog, rows) && RolePermissions.DistinctTypes(rows)
    ensures |RolePermissions.KeysOf(catalog, rows)| == ActionCount(rows)
  {
    hide RolePermissions.Clean, PermissionKey;
    if rows != [] {
      var last := rows[|rows| - 1];
      var before := rows[..|rows| - 1];
      assert rows == before + [last];
      KeysCounted(catalog, before);
      assert CleanIn(catalog, rows[|rows| - 1]);
      var definition :| definition in catalog && RolePermissions.Clean(last, definition);
      var i :| 0 <= i < |catalog| && catalog[i] == definition;
      LookupFinds(catalog, i);
      CleanKeyCount(last, definition);
      var added := set action | action in last.actions :: PermissionKey(definition.prefix, action);
      forall key | key in added ensures key !in RolePermissions.KeysOf(catalog, before) {
        if key in RolePermissions.KeysOf(catalog, before) {
          OtherRowOtherKey(catalog, before, last, definition, key);
        }
      }
    }
  }

  lemma OtherRowOtherKey(catalog: Catalog, before: seq<Row>, last: Row, definition: Definition, key: string)
    requires WellFormed(catalog) && AllClean(catalog, before)
    requires definition in catalog && RolePermissions.Clean(last, definition)
    requires forall row <- before :: row.documentType != last.documentType
    requires exists action <- last.actions :: key == PermissionKey(definition.prefix, action)
    ensures key !in RolePermissions.KeysOf(catalog, before)
  {
    if key in RolePermissions.KeysOf(catalog, before) {
      KeysOfMember(catalog, before, key);
      var i :| 0 <= i < |before| && Lookup(catalog, before[i].documentType).Some?
               && exists action <- before[i].actions :: key == PermissionKey(Lookup(catalog, before[i].documentType).value.prefix, action);
      var other := Lookup(catalog, before[i].documentType).value;
      LookupSound(catalog, before[i].documentType);
      var mine :| mine in last.actions && key == PermissionKey(definition.prefix, mine);
      var theirs :| theirs in before[i].actions && key == PermissionKey(other.prefix, theirs);
      ActionsAreDotFree();
      assert CleanIn(catalog, before[i]);
      PermissionKeyInjective(definition.prefix, mine, other.prefix, theirs);
      SamePrefix(catalog, definition, other);
    }
  }

  lemma SamePrefix(catalog: Catalog, a: Definition, b: Definition)
    requires WellFormed(catalog) && a in catalog && b in catalog && a.prefix == b.prefix
    ensures a == b
  {
    var i :| 0 <= i < |catalog| && catalog[i] == a;
    var j :| 0 <= j < |catalog| && catalog[j] == b;
  }

  /**
    Whatever rows the form holds, the payload it sends is accepted: the server
    finds no error, keeps the rows as they are, computes the same permissions and
    counts as many as the form did.
   */
  lemma FormPayloadAccepted(catalog: Catalog, tables: Tables, rows: seq<Row>)
    requires ServerKnows(catalog, tables)
    ensures
      var sent := RolePermissions.NormalizedRows(catalog, rows, false);
      var keys := RolePermissions.FlatKeys(catalog, sent);
      && NormalizedPayload(tables, sent, Some(keys)) == Ok(Accepted(sent, keys, |keys|))
      && |keys| == ActionCount(sent)
  {
    var sent := RolePermissions.NormalizedRows(catalog, rows, false);
    RolePermissions.NormalizedRowsFixed(catalog, rows);
    RolePermissions.NormalizedRowsAreClean(catalog, rows);
    RolePermissions.CleanRowsDistinct(catalog, sent);
    CleanRowsAreAllClean(catalog, sent);
    CleanRowsAccepted(catalog, tables, sent);
    KeysCounted(catalog, sent);
  }
}
