/**
 One in-memory `App` instance over time. Between the resolver's calls, code elsewhere may
 assign `is_active` or change the rows of the permission relation in storage; the instance
 never drops its memo attribute, so once filled it answers from it for the rest of its life.
 */
module Lifecycle {
  import opened Wrappers
  import opened PermissionIdentifiers
  import opened PermissionSets
  import opened Resolver

  datatype Event =
    | SetActive(active: bool)              // assignment to `is_active` on this instance
    | Regrant(rows: seq<PermissionRow>)    // the stored permission relation now has these rows
    | AskPermissions                       // `_get_permissions()`
    | AskPerm(perm: string)                // `has_perm(perm)`
    | AskPerms(perms: seq<string>)         // `has_perms(perms)`

  datatype Reply = Silent | Permissions(perms: set<string>) | Verdict(ok: bool)

  /** The effect and the answer of one event. */
  function Step(s: AppState, e: Event): (r: (AppState, Reply))
    ensures e.SetActive? || e.Regrant? ==> r.1 == Silent && r.0.cache == s.cache
    ensures s.cache.Some? ==> r.0.cache == s.cache
  {
    match e
    case SetActive(active) => (s.(isActive := active), Silent)
    case Regrant(rows) => (s.(granted := rows), Silent)
    case AskPermissions => var (p, t) := GetPermissions(s); (t, Permissions(p))
    case AskPerm(perm) => var (b, t) := HasPerm(s, perm); (t, Verdict(b))
    case AskPerms(perms) => var (b, t) := HasPerms(s, perms); (t, Verdict(b))
  }

  /** The final state and the reply to each event of a sequence of events. */
  function Run(s: AppState, events: seq<Event>): (r: (AppState, seq<Reply>))
    ensures |r.1| == |events|
    ensures s.cache.Some? ==> r.0.cache == s.cache
    decreases |events|
  {
    if events == [] then (s, [])
    else
      var (t, reply) := Step(s, events[0]);
      var (u, replies) := Run(t, events[1..]);
      (u, [reply] + replies)
  }

  /** The events without the changes to the stored relation. */
  function WithoutRegrants(events: seq<Event>): (r: seq<Event>)
    ensures forall e :: e in r <==> e in events && !e.Regrant?
    ensures |r| <= |events|
  {
    if events == [] then []
    else if events[0].Regrant? then WithoutRegrants(events[1..])
    else [events[0]] + WithoutRegrants(events[1..])
  }

  /** The replies to the events other than the changes to the stored relation. */
  function QueryReplies(events: seq<Event>, replies: seq<Reply>): (r: seq<Reply>)
    requires |replies| == |events|
    ensures |r| == |WithoutRegrants(events)|
  {
    if events == [] then []
    else if events[0].Regrant? then QueryReplies(events[1..], replies[1..])
    else [replies[0]] + QueryReplies(events[1..], replies[1..])
  }

  /** Two instances that agree on the active flag and on a filled cache answer alike, whatever their rows. */
  lemma {:induction false} FilledCacheHidesRows(s: AppState, t: AppState, events: seq<Event>)
    requires s.isActive == t.isActive && s.cache == t.cache && s.cache.Some?
    ensures QueryReplies(events, Run(s, events).1) == Run(t, WithoutRegrants(events)).1
    decreases |events|
  {
    if events != [] {
      var e := events[0];
      var s' := Step(s, e).0;
      if e.Regrant? {
        assert WithoutRegrants(events) == WithoutRegrants(events[1..]);
        FilledCacheHidesRows(s', t, events[1..]);
      } else {
        var t' := Step(t, e).0;
        assert WithoutRegrants(events) == [e] + WithoutRegrants(events[1..]);
        assert ([e] + WithoutRegrants(events[1..]))[1..] == WithoutRegrants(events[1..]);
        assert Step(s, e).1 == Step(t, e).1;
        FilledCacheHidesRows(s', t', events[1..]);
      }
    }
  }

  /** Once the cache is filled, changes to the stored relation have no visible effect on this instance. */
  lemma RegrantsInvisibleOnceCached(s: AppState, events: seq<Event>)
    requires s.cache.Some?
    ensures QueryReplies(events, Run(s, events).1) == Run(s, WithoutRegrants(events)).1
  {
    FilledCacheHidesRows(s, s, events);
  }

  /** The reply to an event is the reply of a step from the state the earlier events left. */
  lemma {:induction false} RunPrefix(s: AppState, events: seq<Event>, i: nat)
    requires i < |events|
    ensures Run(s, events).1[i] == Step(Run(s, events[..i]).0, events[i]).1
    decreases i
  {
    var t := Step(s, events[0]).0;
    assert Run(s, events).1 == [Step(s, events[0]).1] + Run(t, events[1..]).1;
    if i > 0 {
      RunPrefix(t, events[1..], i - 1);
      assert events[..i][0] == events[0];
      assert events[..i][1..] == events[1..][..i - 1];
      assert events[1..][i - 1] == events[i];
    }
  }

  /** Once the cache is filled, every `_get_permissions` call answers the cached set while the
      instance is active at that point, and the empty set while it is not. */
  lemma FilledCacheAnswers(s: AppState, events: seq<Event>)
    requires s.cache.Some?
    ensures forall i :: 0 <= i < |events| && events[i].AskPermissions? ==>
              Run(s, events).1[i] == Permissions(if Run(s, events[..i]).0.isActive then s.cache.value else {})
  {
    forall i | 0 <= i < |events| && events[i].AskPermissions?
      ensures Run(s, events).1[i] == Permissions(if Run(s, events[..i]).0.isActive then s.cache.value else {})
    {
      RunPrefix(s, events, i);
    }
  }

  /** A reply that grants nothing. */
  predicate Denial(reply: Reply) {
    reply == Silent || reply == Permissions({}) || reply == Verdict(false)
  }

  /** An instance that stays inactive denies everything and never touches its cache. */
  lemma {:induction false} InactiveDeniesAll(s: AppState, events: seq<Event>)
    requires !s.isActive
    requires forall i :: 0 <= i < |events| ==> events[i] != SetActive(true)
    ensures Run(s, events).0.cache == s.cache
    ensures forall i :: 0 <= i < |events| ==> Denial(Run(s, events).1[i])
    decreases |events|
  {
    if events != [] {
      var t := Step(s, events[0]).0;
      assert t.cache == s.cache && !t.isActive;
      InactiveDeniesAll(t, events[1..]);
      var replies := Run(s, events).1;
      assert replies == [Step(s, events[0]).1] + Run(t, events[1..]).1;
      forall i | 0 <= i < |events| ensures Denial(replies[i]) {
        if i > 0 {
          assert replies[i] == Run(t, events[1..]).1[i - 1];
        }
      }
    }
  }

  /** A stale instance keeps the rows of its first call; a reload of the same record sees the new rows. */
  lemma StaleInstanceVersusReload(before: seq<PermissionRow>, after: seq<PermissionRow>)
    ensures Run(Load(true, before), [AskPermissions, Regrant(after), AskPermissions]).1
         == [Permissions(EffectiveSet(before)), Silent, Permissions(EffectiveSet(before))]
    ensures Run(Load(true, after), [AskPermissions]).1 == [Permissions(EffectiveSet(after))]
  {
    var s0 := Load(true, before);
    var s1 := Step(s0, AskPermissions).0;
    var s2 := Step(s1, Regrant(after)).0;
    var es := [AskPermissions, Regrant(after), AskPermissions];
    assert es[1..][1..] == [AskPermissions];
    assert Run(s2, [AskPermissions]).1 == [Permissions(EffectiveSet(before))];
    assert Run(s1, es[1..]).1 == [Silent, Permissions(EffectiveSet(before))];
  }
}
