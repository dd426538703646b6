/** The in-memory memo cache of the option lookups: the key built from the function name, its
    arguments and (for user-scoped entries) the user's sorted allow-lists; lookup with strict
    expiry; store on a miss; and clearing, either wholesale or of one user's entries. Time is
    a parameter in whole seconds. */
module Cache {
  import opened Wrappers
  import opened Text
  import opened Models

  /** `repr` of a string element of a tuple. */
  function QuoteRepr(s: string): string {
    "'" + s + "'"
  }

  /** The elements of a tuple `repr`, separated by ", ". */
  function JoinReprs(xs: seq<string>): string {
    if xs == [] then ""
    else if |xs| == 1 then QuoteRepr(xs[0])
    else QuoteRepr(xs[0]) + ", " + JoinReprs(xs[1..])
  }

  /** `str(tuple(xs))`: `()`, `('a',)` or `('a', 'b')`. */
  function TupleRepr(xs: seq<string>): string {
    if xs == [] then "()"
    else if |xs| == 1 then "(" + QuoteRepr(xs[0]) + ",)"
    else "(" + JoinReprs(xs) + ")"
  }

  /** `tuple(sorted(arr)) if arr else ()`: an absent and an empty allow-list both give `()`. */
  function PermissionTuple(arr: Option<seq<string>>): (r: seq<string>)
    ensures arr.Some? ==> multiset(r) == multiset(arr.value) && Sorted(r)
    ensures arr.None? ==> r == []
  {
    if arr.Some? && arr.value != [] then Sort(arr.value) else []
  }

  /** The part of a key that identifies a user's permissions. */
  function UserSuffix(u: User): string {
    ":user_brands=" + TupleRepr(PermissionTuple(u.brandArr))
      + ":user_cats=" + TupleRepr(PermissionTuple(u.categoryArr))
  }

  /** `f"{name}:{str(args)}:{str(kwargs)}"`. */
  function BaseKey(name: string, argsRepr: string, kwargsRepr: string): string {
    name + ":" + argsRepr + ":" + kwargsRepr
  }

  /** The key of one call; `viewer` is the current user, `None` when not authenticated. */
  function CacheKey(name: string, argsRepr: string, kwargsRepr: string, userSpecific: bool,
                    viewer: Option<User>): (k: string)
    ensures userSpecific && viewer.Some? ==> Contains(k, UserSuffix(viewer.value))
    ensures userSpecific && viewer.Some? ==>
              k == BaseKey(name, argsRepr, kwargsRepr) + UserSuffix(viewer.value)
    ensures !(userSpecific && viewer.Some?) ==> k == BaseKey(name, argsRepr, kwargsRepr)
  {
    if userSpecific && viewer.Some? then
      ContainsSuffix(BaseKey(name, argsRepr, kwargsRepr), UserSuffix(viewer.value));
      BaseKey(name, argsRepr, kwargsRepr) + UserSuffix(viewer.value)
    else BaseKey(name, argsRepr, kwargsRepr)
  }

  /** Two users whose allow-lists hold the same values in any order share their cached entries. */
  lemma KeyIgnoresListOrder(u: User, v: User, name: string, argsRepr: string, kwargsRepr: string)
    requires u.categoryArr.Some? <==> v.categoryArr.Some?
    requires u.brandArr.Some? <==> v.brandArr.Some?
    requires u.categoryArr.Some? ==> multiset(u.categoryArr.value) == multiset(v.categoryArr.value)
    requires u.brandArr.Some? ==> multiset(u.brandArr.value) == multiset(v.brandArr.value)
    ensures UserSuffix(u) == UserSuffix(v)
    ensures CacheKey(name, argsRepr, kwargsRepr, true, Some(u)) == CacheKey(name, argsRepr, kwargsRepr, true, Some(v))
  {
    if u.categoryArr.Some? {
      SortedUnique(PermissionTuple(u.categoryArr), PermissionTuple(v.categoryArr));
    }
    if u.brandArr.Some? {
      SortedUnique(PermissionTuple(u.brandArr), PermissionTuple(v.brandArr));
    }
  }

  /** An absent allow-list (every category) and an empty one (no category) produce the same
      key, although permission checks treat the two users differently. */
  lemma AbsentAndEmptyListsCollide(u: User, name: string, argsRepr: string, kwargsRepr: string)
    requires u.categoryArr.None?
    ensures var v := u.(categoryArr := Some([]));
            && CacheKey(name, argsRepr, kwargsRepr, true, Some(u)) == CacheKey(name, argsRepr, kwargsRepr, true, Some(v))
            && (forall c :: HasCategoryPermission(u, c) && !HasCategoryPermission(v, c))
  {
  }

  /** The entry for `key` is live at time `now`: present, with an expiry strictly later. */
  predicate Fresh<V>(values: map<string, V>, expiry: map<string, int>, key: string, now: int) {
    key in values && key in expiry && now < expiry[key]
  }

  /** The entries whose key does not contain `part`. */
  function WithoutMatching<V>(m: map<string, V>, part: string): (r: map<string, V>)
    ensures forall k :: k in r <==> k in m && !Contains(k, part)
    ensures forall k :: k in r ==> r[k] == m[k]
  {
    map k | k in m && !Contains(k, part) :: m[k]
  }

  /** A stored entry is served until (not including) its expiry time, and no longer. */
  lemma StoredEntryLifetime<V>(values: map<string, V>, expiry: map<string, int>, key: string,
                               x: V, computedAt: int, timeout: int, later: int)
    ensures Fresh(values[key := x], expiry[key := computedAt + timeout], key, later) <==> later < computedAt + timeout
    ensures (values[key := x])[key] == x
  {
  }

  /** After a user-scoped clear no entry keyed for that user is live, whatever its name and
      arguments, while entries of other users whose keys do not mention the suffix are kept. */
  lemma ScopedClearDropsUserEntries<V>(values: map<string, V>, expiry: map<string, int>, u: User,
                                       name: string, argsRepr: string, kwargsRepr: string, now: int)
    ensures !Fresh(WithoutMatching(values, UserSuffix(u)), WithoutMatching(expiry, UserSuffix(u)),
                   CacheKey(name, argsRepr, kwargsRepr, true, Some(u)), now)
  {
    var key := CacheKey(name, argsRepr, kwargsRepr, true, Some(u));
    assert Contains(key, UserSuffix(u));
  }

  /** The process-wide cache: `_cache` and `_cache_expiry`. */
  class MemoCache<V> {
    var values: map<string, V>
    var expiry: map<string, int>

    /** The two dictionaries always hold the same keys. */
    ghost predicate Valid()
      reads this
    {
      values.Keys == expiry.Keys
    }

    constructor ()
      ensures Valid() && values == map[] && expiry == map[]
    {
      values := map[];
      expiry := map[];
    }

    /** The `cached` wrapper for one call. A live entry is returned as it is (`hit`, the
        function is not called); otherwise `computed`, the function's result, finished at
        `computedAt`, is stored until `computedAt + timeout` and returned. */
    method Call(key: string, now: int, computedAt: int, timeout: int, computed: V)
      returns (r: V, hit: bool)
      requires Valid()
      modifies this
      ensures Valid()
      ensures hit == Fresh(old(values), old(expiry), key, now)
      ensures hit ==> r == old(values)[key] && values == old(values) && expiry == old(expiry)
      ensures !hit ==> && r == computed
                       && values == old(values)[key := computed]
                       && expiry == old(expiry)[key := computedAt + timeout]
    {
      if key in values && key in expiry && now < expiry[key] {
        return values[key], true;
      }
      values := values[key := computed];
      expiry := expiry[key := computedAt + timeout];
      r, hit := computed, false;
    }

    /** `clear_cache(user_specific)`; `viewer` is the current user, `None` when not
        authenticated. A full clear empties both dictionaries; a user-scoped one deletes
        exactly the keys that contain the user's suffix. */
    method Clear(userSpecific: bool, viewer: Option<User>)
      requires Valid()
      modifies this
      ensures Valid()
      ensures !userSpecific || viewer.None? ==> values == map[] && expiry == map[]
      ensures userSpecific && viewer.Some? ==>
                && values == WithoutMatching(old(values), UserSuffix(viewer.value))
                && expiry == WithoutMatching(old(expiry), UserSuffix(viewer.value))
    {
      if !userSpecific || viewer.None? {
        values := map[];
        expiry := map[];
        return;
      }
      var part := UserSuffix(viewer.value);
      var doomed := set k | k in values && Contains(k, part);
      var pending := doomed;
      while pending != {}
        invariant pending <= doomed
        invariant values == old(values) - (doomed - pending)
        invariant expiry == old(expiry) - (doomed - pending)
        decreases pending
      {
        var k :| k in pending;
        values := values - {k};
        expiry := expiry - {k};
        pending := pending - {k};
      }
      assert values == WithoutMatching(old(values), part);
      assert expiry == WithoutMatching(old(expiry), part);
    }
  }
}
