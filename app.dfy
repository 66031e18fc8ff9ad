/**
 The `App` instance as an object: the active flag and the granted rows are fields that
 callers may assign, and the memo attribute is a field that only `GetPermissions` writes.
 Each method is proved against the function of the same name in `Resolver`.
 */
module AppModel {
  import opened Wrappers
  import opened PermissionIdentifiers
  import opened PermissionSets
  import Resolver

  class App {
    var isActive: bool
    var granted: seq<PermissionRow>
    var cache: Option<set<string>>

    /** The instance's state as a value. */
    function State(): Resolver.AppState
      reads this
    {
      Resolver.AppState(isActive, granted, cache)
    }

    /** Loading a record gives an instance without the memo attribute. */
    constructor (isActive: bool, granted: seq<PermissionRow>)
      ensures State() == Resolver.Load(isActive, granted)
    {
      this.isActive := isActive;
      this.granted := granted;
      this.cache := None;
    }

    /** `_get_permissions` */
    method GetPermissions() returns (perms: set<string>)
      modifies this`cache
      ensures (perms, State()) == Resolver.GetPermissions(old(State()))
      ensures !old(isActive) ==> perms == {} && cache == old(cache)
      ensures isActive ==> cache == Some(perms)
    {
      if !isActive {
        return {};
      }
      if cache.None? {
        cache := Some(EffectiveSet(granted));
      }
      perms := cache.value;
    }

    /** `has_perms` */
    method HasPerms(permList: seq<string>) returns (ok: bool)
      modifies this`cache
      ensures (ok, State()) == Resolver.HasPerms(old(State()), permList)
      ensures ok <==> old(isActive) && WantedSet(permList) <= Resolver.GetPermissions(old(State())).0
    {
      if !isActive {
        return false;
      }
      var wanted := WantedSet(permList);
      var actual := GetPermissions();
      ok := wanted * actual == wanted;
    }

    /** `has_perm` */
    method HasPerm(perm: string) returns (ok: bool)
      modifies this`cache
      ensures (ok, State()) == Resolver.HasPerm(old(State()), perm)
    {
      if !isActive {
        return false;
      }
      var actual := GetPermissions();
      ok := perm in actual;
    }
  }

  /** An active app granted `orders.manage_orders`, then deactivated, then reactivated. */
  method WebhookBotScenario() {
    var manage := PermissionRow("orders", "manage_orders");
    assert Identifier(manage) == "orders.manage_orders";
    var app := new App(true, [manage]);
    var ok := app.HasPerm("orders.manage_orders");
    assert ok;
    ok := app.HasPerm("orders.view_orders");
    assert !ok;
    ok := app.HasPerms([]);
    assert ok;

    app.isActive := false;
    ok := app.HasPerm("orders.manage_orders");
    assert !ok;
    ok := app.HasPerms([]);
    assert !ok;

    // the rows change in storage, but the instance still answers from its memo attribute
    app.granted := [];
    app.isActive := true;
    ok := app.HasPerm("orders.manage_orders");
    assert ok;
    var perms := app.GetPermissions();
    assert perms == {"orders.manage_orders"};
  }
}
