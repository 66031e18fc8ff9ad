/**
 The permission resolver of `App` as functions on the instance's state: the active flag,
 the granted rows as the storage query would return them, and the memo attribute
 `_app_perm_cache` (absent until the first active resolution). Each operation returns
 its answer together with the instance's state afterwards.
 */
module Resolver {
  import opened Wrappers
  import opened PermissionIdentifiers
  import opened PermissionSets

  datatype AppState = AppState(isActive: bool, granted: seq<PermissionRow>, cache: Option<set<string>>)

  /** A freshly loaded instance: nothing is memoised yet. */
  function Load(isActive: bool, granted: seq<PermissionRow>): (s: AppState)
    ensures s.isActive == isActive && s.granted == granted && s.cache.None?
  {
    AppState(isActive, granted, None)
  }

  /** `_get_permissions`: the empty set when inactive; otherwise the memoised set, computed and stored on first use. */
  function GetPermissions(s: AppState): (r: (set<string>, AppState))
    // inactive: empty answer, and the cache is neither read nor written
    ensures !s.isActive ==> r.0 == {} && r.1 == s
    // active: the answer is what the cache holds afterwards, and nothing else changes
    ensures s.isActive ==> r.1 == s.(cache := Some(r.0))
    // a filled cache is returned as it is, whatever the rows are now
    ensures s.isActive && s.cache.Some? ==> r.0 == s.cache.value
    // an empty cache is filled with the identifiers of the current rows
    ensures s.isActive && s.cache.None? ==> r.0 == EffectiveSet(s.granted)
  {
    if !s.isActive then ({}, s)
    else if s.cache.None? then
      var perms := EffectiveSet(s.granted);
      (perms, s.(cache := Some(perms)))
    else (s.cache.value, s)
  }

  /** `has_perm`: false when inactive, otherwise membership in the resolved set. */
  function HasPerm(s: AppState, perm: string): (r: (bool, AppState))
    ensures r.0 <==> s.isActive && perm in GetPermissions(s).0
    ensures r.1 == GetPermissions(s).1
    ensures !s.isActive ==> !r.0 && r.1 == s
  {
    if !s.isActive then (false, s)
    else
      var (actual, s') := GetPermissions(s);
      (perm in actual, s')
  }

  /** `has_perms`: false when inactive, otherwise the test `(wanted & actual) == wanted`. */
  function HasPerms(s: AppState, permList: seq<string>): (r: (bool, AppState))
    ensures r.0 <==> s.isActive && forall i :: 0 <= i < |permList| ==> permList[i] in GetPermissions(s).0
    ensures r.1 == GetPermissions(s).1
    ensures !s.isActive ==> !r.0 && r.1 == s
  {
    if !s.isActive then (false, s)
    else
      var wanted := WantedSet(permList);
      var (actual, s') := GetPermissions(s);
      AllRequestedIffIntersectionTest(permList, actual);
      (wanted * actual == wanted, s')
  }

  /** An active app with a filled cache answers from the cache even after its rows changed. */
  lemma CachedIgnoresGrantChanges(s: AppState, rows: seq<PermissionRow>)
    requires s.isActive && s.cache.Some?
    ensures GetPermissions(s.(granted := rows)).0 == GetPermissions(s).0 == s.cache.value
  {
  }

  /** Resolving twice in a row gives the same answer and leaves the same state. */
  lemma GetPermissionsIdempotent(s: AppState)
    ensures GetPermissions(GetPermissions(s).1) == GetPermissions(s)
  {
  }

  /** `has_perms` of a requested set is the subset test against the resolved set. */
  lemma HasPermsIsSubset(s: AppState, permList: seq<string>)
    requires s.isActive
    ensures HasPerms(s, permList).0 <==> WantedSet(permList) <= GetPermissions(s).0
  {
  }

  /** An empty request passes exactly when the app is active. */
  lemma EmptyRequest(s: AppState)
    ensures HasPerms(s, []).0 == s.isActive
  {
  }

  /** `has_perm(p)` and `has_perms([p])` agree, in their answer and in their effect on the cache. */
  lemma HasPermIsSingletonHasPerms(s: AppState, perm: string)
    ensures HasPerm(s, perm) == HasPerms(s, [perm])
  {
    if s.isActive {
      var actual := GetPermissions(s).0;
      assert HasPerms(s, [perm]).0 <==> [perm][0] in actual;
    }
  }

  /** Deactivating keeps the cache; reactivating answers from it again. */
  lemma DeactivateReactivate(s: AppState)
    requires s.cache.Some?
    ensures GetPermissions(s.(isActive := false)).0 == {}
    ensures GetPermissions(s.(isActive := false)).1.cache == s.cache
    ensures GetPermissions(s.(isActive := true)).0 == s.cache.value
  {
  }

  /** A fresh load resolves to the identifiers of its rows, even where a stale instance does not. */
  lemma ReloadRecomputes(stale: AppState, rows: seq<PermissionRow>)
    requires stale.isActive && stale.cache.Some?
    ensures GetPermissions(stale.(granted := rows)).0 == stale.cache.value
    ensures GetPermissions(Load(true, rows)).0 == EffectiveSet(rows)
  {
  }
}
