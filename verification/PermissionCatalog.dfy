/** The permission catalogue both languages share: document types, key prefixes and allowed actions. */
module PermissionCatalog {
  import opened Wrappers

  datatype Definition = Definition(documentType: string, prefix: string, actions: seq<string>)

  type Catalog = seq<Definition>

  /** `ROLE_PERMISSION_ACTIONS`, in canonical order. */
  const ACTIONS: seq<string> := [
    "view", "create", "edit", "archive", "restore", "delete", "purge",
    "assign", "share", "export", "comment", "transition", "configure"]

  const WORKFLOW: seq<string> := [
    "view", "create", "edit", "archive", "restore", "delete", "purge",
    "assign", "share", "export", "comment", "transition"]

  /** One row of the permission matrix; an empty id stands for a missing one. */
  datatype Row = Row(id: string, documentType: string, actions: seq<string>, onlyIfCreator: bool, level: int)

  ghost predicate Distinct<T(!new)>(items: seq<T>) {
    forall i, j :: 0 <= i < j < |items| ==> items[i] != items[j]
  }

  ghost predicate WellFormed(catalog: Catalog) {
    && (forall i, j :: 0 <= i < j < |catalog| ==>
          catalog[i].documentType != catalog[j].documentType && catalog[i].prefix != catalog[j].prefix)
    && (forall i :: 0 <= i < |catalog| ==>
          && catalog[i].documentType != "" && catalog[i].prefix != ""
          && "view" in catalog[i].actions
          && forall action <- catalog[i].actions :: action in ACTIONS)
  }

  /** The definition of a document type. */
  function Lookup(catalog: Catalog, documentType: string): Option<Definition> {
    if catalog == [] then None
    else
      var last := catalog[|catalog| - 1];
      if last.documentType == documentType then Some(last) else Lookup(catalog[..|catalog| - 1], documentType)
  }

  lemma {:induction false} LookupFinds(catalog: Catalog, i: nat)
    requires WellFormed(catalog) && i < |catalog|
    ensures Lookup(catalog, catalog[i].documentType) == Some(catalog[i])
  {
    if i < |catalog| - 1 {
      LookupFinds(catalog[..|catalog| - 1], i);
    }
  }

  lemma {:induction false} LookupSound(catalog: Catalog, documentType: string)
    ensures
      var found := Lookup(catalog, documentType);
      && (found.Some? ==> found.value in catalog && found.value.documentType == documentType)
      && (found.None? ==> forall definition <- catalog :: definition.documentType != documentType)
  {
    if catalog != [] {
      LookupSound(catalog[..|catalog| - 1], documentType);
    }
  }

  /** `prefix.action`, the form in which a permission is stored and checked. */
  function PermissionKey(prefix: string, action: string): string {
    prefix + "." + action
  }

  lemma LastDot(prefix: string, action: string)
    requires '.' !in action
    ensures
      var key := PermissionKey(prefix, action);
      key[|prefix|] == '.' && forall i :: |prefix| < i < |key| ==> key[i] != '.'
  {
    var key := PermissionKey(prefix, action);
    forall i | |prefix| < i < |key| ensures key[i] != '.' {
      assert key[i] == action[i - |prefix| - 1];
    }
  }

  /** A key determines its prefix and action, because no action contains a dot. */
  lemma PermissionKeyInjective(prefix: string, action: string, prefix': string, action': string)
    requires '.' !in action && '.' !in action'
    requires PermissionKey(prefix, action) == PermissionKey(prefix', action')
    ensures prefix == prefix' && action == action'
  {
    var key := PermissionKey(prefix, action);
    LastDot(prefix, action);
    LastDot(prefix', action');
    assert key[..|prefix|] == prefix && key[|prefix| + 1..] == action;
    assert key[..|prefix'|] == prefix' && key[|prefix'| + 1..] == action';
  }

  lemma ActionsAreDotFree()
    ensures forall action <- ACTIONS :: '.' !in action
  {
    forall i | 0 <= i < |ACTIONS| ensures '.' !in ACTIONS[i] {
    }
  }

  lemma ActionsAreDistinct()
    ensures Distinct(ACTIONS)
  {
  }
}
