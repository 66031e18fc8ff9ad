/**
 The two set comprehensions of the resolver: the identifiers of the granted rows
 (`{f"{ct}.{name}" for ct, name in perms}`) and the requested values
 (`{perm.value for perm in perm_list}`), and the intersection test that compares them.
 */
module PermissionSets {
  import opened PermissionIdentifiers

  /** The identifiers of all granted rows. Order and repetition of the rows do not matter. */
  function EffectiveSet(rows: seq<PermissionRow>): (ids: set<string>)
    ensures forall i :: 0 <= i < |rows| ==> Identifier(rows[i]) in ids
  {
    set r | r in rows :: Identifier(r)
  }

  /** Every identifier in the set comes from a granted row. */
  lemma EffectiveSetFromRows(rows: seq<PermissionRow>, id: string)
    requires id in EffectiveSet(rows)
    ensures exists i :: 0 <= i < |rows| && Identifier(rows[i]) == id
  {
    var r :| r in rows && Identifier(r) == id;
    var i :| 0 <= i < |rows| && rows[i] == r;
  }

  /** The distinct rows of a query result. */
  function RowSet(rows: seq<PermissionRow>): set<PermissionRow> {
    set r | r in rows
  }

  /** The set of requested permission values. */
  function WantedSet(perms: seq<string>): (wanted: set<string>)
    ensures forall p :: p in wanted <==> p in perms
  {
    set p | p in perms
  }

  /** Appending a row adds exactly its identifier. */
  lemma EffectiveSetAppend(rows: seq<PermissionRow>, row: PermissionRow)
    ensures EffectiveSet(rows + [row]) == EffectiveSet(rows) + {Identifier(row)}
  {
  }

  /** The identifiers depend only on which rows were granted, not on their order or repetition. */
  lemma EffectiveSetOfSameRows(rows1: seq<PermissionRow>, rows2: seq<PermissionRow>)
    requires RowSet(rows1) == RowSet(rows2)
    ensures EffectiveSet(rows1) == EffectiveSet(rows2)
  {
    forall id | id in EffectiveSet(rows1) ensures id in EffectiveSet(rows2) {
      EffectiveSetFromRows(rows1, id);
      var i :| 0 <= i < |rows1| && Identifier(rows1[i]) == id;
      assert rows1[i] in RowSet(rows2);
    }
    forall id | id in EffectiveSet(rows2) ensures id in EffectiveSet(rows1) {
      EffectiveSetFromRows(rows2, id);
      var i :| 0 <= i < |rows2| && Identifier(rows2[i]) == id;
      assert rows2[i] in RowSet(rows1);
    }
  }

  /** Repeated rows collapse: there are never more identifiers than rows. */
  lemma {:induction false} EffectiveSetSize(rows: seq<PermissionRow>)
    ensures |EffectiveSet(rows)| <= |rows|
  {
    if rows == [] {
      assert EffectiveSet(rows) == {};
    } else {
      var init, last := rows[..|rows| - 1], rows[|rows| - 1];
      assert rows == init + [last];
      EffectiveSetAppend(init, last);
      EffectiveSetSize(init);
    }
  }

  /** With dot-free labels, distinct rows give distinct identifiers: one identifier per distinct row. */
  lemma {:induction false} EffectiveSetSizeDotFree(rows: seq<PermissionRow>)
    requires forall i :: 0 <= i < |rows| ==> DotFree(rows[i].appLabel)
    ensures |EffectiveSet(rows)| == |RowSet(rows)|
  {
    if rows == [] {
      assert EffectiveSet(rows) == {};
      assert RowSet(rows) == {};
    } else {
      var init, last := rows[..|rows| - 1], rows[|rows| - 1];
      assert rows == init + [last];
      assert forall i :: 0 <= i < |init| ==> init[i] == rows[i];
      EffectiveSetSizeDotFree(init);
      if last in RowSet(init) {
        RepeatedRowAddsNothing(init, last);
      } else {
        FreshRowAddsOne(init, last);
      }
    }
  }

  /** A row granted twice adds neither a row nor an identifier. */
  lemma RepeatedRowAddsNothing(init: seq<PermissionRow>, last: PermissionRow)
    requires last in RowSet(init)
    ensures EffectiveSet(init + [last]) == EffectiveSet(init)
    ensures RowSet(init + [last]) == RowSet(init)
  {
    EffectiveSetAppend(init, last);
    assert RowSet(init + [last]) == RowSet(init) + {last};
  }

  /** A new dot-free row adds one row and one identifier. */
  lemma FreshRowAddsOne(init: seq<PermissionRow>, last: PermissionRow)
    requires forall i :: 0 <= i < |init| ==> DotFree(init[i].appLabel)
    requires DotFree(last.appLabel)
    requires last !in RowSet(init)
    ensures |EffectiveSet(init + [last])| == |EffectiveSet(init)| + 1
    ensures |RowSet(init + [last])| == |RowSet(init)| + 1
  {
    EffectiveSetAppend(init, last);
    FreshRowFreshIdentifier(init, last);
    assert RowSet(init + [last]) == RowSet(init) + {last};
  }

  /** A dot-free row that was not granted yet has an identifier that was not effective yet. */
  lemma FreshRowFreshIdentifier(rows: seq<PermissionRow>, row: PermissionRow)
    requires forall i :: 0 <= i < |rows| ==> DotFree(rows[i].appLabel)
    requires DotFree(row.appLabel)
    requires row !in RowSet(rows)
    ensures Identifier(row) !in EffectiveSet(rows)
  {
    if Identifier(row) in EffectiveSet(rows) {
      EffectiveSetFromRows(rows, Identifier(row));
      var i :| 0 <= i < |rows| && Identifier(rows[i]) == Identifier(row);
      IdentifierInjective(rows[i], row);
    }
  }

  /** The test in `has_perms`, `(wanted & actual) == wanted`, is the subset test `wanted <= actual`. */
  lemma IntersectionTestIsSubset(wanted: set<string>, actual: set<string>)
    ensures (wanted * actual == wanted) <==> wanted <= actual
  {
  }

  /** Every requested value is an effective identifier exactly when the intersection test passes. */
  lemma {:induction false} AllRequestedIffIntersectionTest(perms: seq<string>, actual: set<string>)
    ensures (WantedSet(perms) * actual == WantedSet(perms))
        <==> (forall i :: 0 <= i < |perms| ==> perms[i] in actual)
  {
    IntersectionTestIsSubset(WantedSet(perms), actual);
    if forall i :: 0 <= i < |perms| ==> perms[i] in actual {
      forall p | p in WantedSet(perms) ensures p in actual {
        var i :| 0 <= i < |perms| && perms[i] == p;
      }
    }
  }
}
