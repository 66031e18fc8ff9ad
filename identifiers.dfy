/**
 The permission identifiers of `App._get_permissions`: each granted permission is read
 from storage as a pair (content type app label, codename) and named by joining the two
 with a dot. The join does not escape dots, so distinct pairs may share a name; the
 names are distinct only when labels are dot-free.
 */
module PermissionIdentifiers {

  /** One row of `values_list("content_type__app_label", "codename")`. */
  datatype PermissionRow = PermissionRow(appLabel: string, codename: string)

  /** The identifier `"<app_label>.<codename>"` of a row: the label, a dot, the codename. */
  function Identifier(row: PermissionRow): (id: string)
    ensures |id| == |row.appLabel| + 1 + |row.codename|
    ensures id[..|row.appLabel|] == row.appLabel
    ensures id[|row.appLabel|] == '.'
    ensures id[|row.appLabel| + 1..] == row.codename
  {
    row.appLabel + "." + row.codename
  }

  /** A label with no dot in it, as a Django app label is. */
  predicate DotFree(appLabel: string) {
    '.' !in appLabel
  }

  /** With dot-free labels the identifier determines the row: the first dot ends the label. */
  lemma IdentifierInjective(r1: PermissionRow, r2: PermissionRow)
    requires DotFree(r1.appLabel) && DotFree(r2.appLabel)
    ensures Identifier(r1) == Identifier(r2) <==> r1 == r2
  {
  }

  /** Without that restriction the identifiers collide: `"a.b" + "." + "c"` is `"a" + "." + "b.c"`. */
  lemma IdentifierCollision()
    ensures PermissionRow("a.b", "c") != PermissionRow("a", "b.c")
    ensures Identifier(PermissionRow("a.b", "c")) == Identifier(PermissionRow("a", "b.c"))
  {
  }
}
