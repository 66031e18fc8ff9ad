# Permission resolver of Saleor's `App`

This project models how an `App` (a third-party integration) in Saleor works out its
permissions (`saleor/app/models.py`), and proves properties of that model:

- `_get_permissions` returns the empty set for an inactive app. For an active app it
  returns the identifiers `"<app_label>.<codename>"` of the granted permissions. It
  computes them once and keeps them on the instance in the attribute `_app_perm_cache`.
- `has_perm(p)` is false for an inactive app. For an active app it is membership of `p`
  in that set.
- `has_perms(list)` is false for an inactive app. For an active app it is the test
  `(wanted & actual) == wanted`.

Modules:

- `PermissionIdentifiers` (identifiers.dfy): a granted row and its dotted identifier.
- `PermissionSets` (permission_sets.dfy): the two set comprehensions and the intersection test.
- `Resolver` (resolver.dfy): the three operations as functions on the instance's state.
  The state is the active flag, the granted rows and the optional cache. Each function
  returns its answer and the state afterwards.
- `Lifecycle` (lifecycle.dfy): one instance over a sequence of events. The events are
  assignments to `is_active`, changes to the stored permission rows, and calls to the
  resolver.
- `AppModel` (app.dfy): the instance as a class with fields `isActive`, `granted` and
  `cache`. Its methods are proved against the `Resolver` functions. A client method
  walks through an active app, a deactivated app and a reactivated app.

The cache is an `Option<set<string>>`. `None` stands for an attribute the instance does
not have yet (`hasattr` is false). An empty cached set is `Some({})`, which a later call
does not recompute.

Two consequences of the code are worth stating:

- Identifiers are not unique across labels. `_get_permissions` joins label and codename
  with an unescaped dot, so two rows can share one identifier (`IdentifierCollision`).
  They are unique when labels are dot-free (`IdentifierInjective`).
- The instance never clears `_app_perm_cache`. A filled cache outlives changes to the
  stored rows and outlives deactivation (`RegrantsInvisibleOnceCached`,
  `DeactivateReactivate`).

The functions `Lifecycle.WithoutRegrants` (the events without the row changes) and
`Lifecycle.QueryReplies` (the replies to those remaining events) are helpers used to
state `Lifecycle.FilledCacheHidesRows`; they model no code of their own.

## Model

| member | source | states |
|---|---|---|
| `PermissionIdentifiers.Identifier` | saleor/app/models.py:35 | the identifier is the app label, then a dot, then the codename; its length is the sum of the two plus one |
| `PermissionIdentifiers.IdentifierInjective` | saleor/app/models.py:35 | for dot-free labels, two rows have the same identifier exactly when they are the same row |
| `PermissionIdentifiers.IdentifierCollision` | saleor/app/models.py:35 | the rows ("a.b", "c") and ("a", "b.c") differ but have the same identifier |
| `PermissionSets.EffectiveSet` | saleor/app/models.py:33-35 | every granted row's identifier is in the set |
| `PermissionSets.EffectiveSetFromRows` | saleor/app/models.py:33-35 | every identifier in the set is the identifier of some granted row |
| `PermissionSets.EffectiveSetAppend` | saleor/app/models.py:35 | one more row adds exactly that row's identifier |
| `PermissionSets.EffectiveSetOfSameRows` | saleor/app/models.py:33-35 | the set depends only on which rows are granted, not on their order or repetition |
| `PermissionSets.EffectiveSetSize` | saleor/app/models.py:35 | duplicate rows collapse: there are never more identifiers than rows |
| `PermissionSets.EffectiveSetSizeDotFree` | saleor/app/models.py:35 | with dot-free labels there is exactly one identifier per distinct row |
| `PermissionSets.RepeatedRowAddsNothing` | saleor/app/models.py:35 | a row granted a second time adds neither a distinct row nor an identifier |
| `PermissionSets.FreshRowAddsOne` | saleor/app/models.py:35 | with dot-free labels, a new row adds exactly one distinct row and one identifier |
| `PermissionSets.FreshRowFreshIdentifier` | saleor/app/models.py:35 | with dot-free labels, a row not yet granted has an identifier not yet in the set |
| `PermissionSets.WantedSet` | saleor/app/models.py:43 | a value is wanted exactly when it occurs in the request list |
| `PermissionSets.IntersectionTestIsSubset` | saleor/app/models.py:46 | `(wanted & actual) == wanted` holds exactly when wanted is a subset of actual |
| `PermissionSets.AllRequestedIffIntersectionTest` | saleor/app/models.py:43-46 | the intersection test passes exactly when every requested value is in the actual set |
| `Resolver.Load` | saleor/app/models.py:31-32 | a freshly loaded instance has the given flag and rows, and no cache |
| `Resolver.GetPermissions` | saleor/app/models.py:27-36 | inactive: the empty set, with the state unchanged (the cache is neither read nor written). Active: the cache afterwards holds the answer and nothing else changes. A filled cache is returned as it is. An empty cache is filled with the identifiers of the current rows |
| `Resolver.HasPerm` | saleor/app/models.py:48-53 | true exactly when the app is active and the value is in the resolved set; inactive leaves the state unchanged; active has the resolver's effect on the cache |
| `Resolver.HasPerms` | saleor/app/models.py:38-46 | true exactly when the app is active and every requested value is in the resolved set; inactive leaves the state unchanged; active has the resolver's effect on the cache |
| `Resolver.CachedIgnoresGrantChanges` | saleor/app/models.py:32-36 | an active app with a filled cache returns the cached set whatever its rows are now |
| `Resolver.GetPermissionsIdempotent` | saleor/app/models.py:31-36 | resolving a second time gives the same answer and leaves the same state |
| `Resolver.HasPermsIsSubset` | saleor/app/models.py:43-46 | for an active app, `has_perms` is the subset test of the requested values against the resolved set |
| `Resolver.EmptyRequest` | saleor/app/models.py:40-46 | an empty request passes exactly when the app is active |
| `Resolver.HasPermIsSingletonHasPerms` | saleor/app/models.py:38-53 | `has_perm(p)` and `has_perms([p])` agree in their answer and in the state they leave |
| `Resolver.DeactivateReactivate` | saleor/app/models.py:29-36 | with a filled cache, a deactivated app resolves to the empty set and keeps its cache; reactivated, it resolves to the cached set again |
| `Resolver.ReloadRecomputes` | saleor/app/models.py:31-36 | a stale active instance with a cache answers the cached set after its rows change, while a fresh load of the new rows answers their identifiers |
| `Lifecycle.Step` | saleor/app/models.py:27-53 | assignments to the flag or rows reply nothing and keep the cache; no event changes a filled cache |
| `Lifecycle.Run` | saleor/app/models.py:27-53 | one reply per event; a filled cache survives every sequence of events |
| `Lifecycle.FilledCacheHidesRows` | saleor/app/models.py:32-36 | two instances with the same flag and the same filled cache give the same replies to the same calls, whatever rows each has and whatever row changes happen |
| `Lifecycle.RegrantsInvisibleOnceCached` | saleor/app/models.py:32-36 | once the cache is filled, dropping every change to the stored rows leaves the replies to the calls unchanged |
| `Lifecycle.FilledCacheAnswers` | saleor/app/models.py:29-36 | once the cache is filled, every later `_get_permissions` answers the cached set when the instance is active at that point, and the empty set otherwise |
| `Lifecycle.RunPrefix` | saleor/app/models.py:27-53 | the reply to an event is the reply of that event in the state left by all earlier events |
| `Lifecycle.InactiveDeniesAll` | saleor/app/models.py:29-30 | an instance that is never reactivated denies every query and never changes its cache |
| `Lifecycle.StaleInstanceVersusReload` | saleor/app/models.py:31-36 | an instance that resolved before a row change keeps answering the old identifiers; a reload answers the new ones |
| `AppModel.App.constructor` | saleor/app/models.py:31-32 | a new instance holds the given flag and rows and has no cache |
| `AppModel.App.GetPermissions` | saleor/app/models.py:27-36 | the answer and the new state are those of `Resolver.GetPermissions`; only the cache may change |
| `AppModel.App.HasPerms` | saleor/app/models.py:38-46 | the answer and the new state are those of `Resolver.HasPerms`; the answer is the active flag and the subset test |
| `AppModel.App.HasPerm` | saleor/app/models.py:48-53 | the answer and the new state are those of `Resolver.HasPerm` |

## Left out

- The Django field declarations (`name`, `created`, the `permissions` relation options) and
  `Meta` (ordering, the extra permission): they are framework configuration, not logic.
- The default of `is_active` (true): the constructor and `Resolver.Load` take the flag as a
  parameter.
- The storage query `permissions.all().values_list(...).order_by()`: it is the field
  `granted`, a sequence of (app label, codename) rows as the query would return them.
  Changes to it by other code are the `Regrant` event.
- `ModelWithMetadata`, Django's `Permission` and `AppPermission`: they are defined in files
  that are not part of this model. Requested permissions are the strings their `.value` gives.
- `AppToken` and its token generation: the random token comes from a foreign call, and
  uniqueness and cascade delete are enforced by the database.
- `Resolver.GetPermissions`, `AppModel.App.GetPermissions`: the code returns the cached set
  object itself (`getattr(self, "_app_perm_cache")`), so a caller that mutates the returned
  set changes every later answer of `has_perm`, `has_perms` and `_get_permissions` on that
  instance. The model returns an immutable value and omits any change made through it;
  `Lifecycle.Step`'s preservation of a filled cache holds only because no event is such a
  mutation.
