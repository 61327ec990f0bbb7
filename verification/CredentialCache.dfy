/**
 The credential resolver with its 60 second cache, against plain lookup.  A `World` is what the credential table and
 the vault hold at one instant; it may change in any way between two resolves.
 */
module CredentialCache {
  import opened Wrappers

  const CACHE_TTL: real := 60.0

  // scope None is tenant scope, Some(id) is the channel with that id.
  datatype Row = Row(
    tenant: string,
    provider: string,
    scope: Option<string>,
    key: string,
    secretId: string,
    active: bool)

  datatype World = World(rows: seq<Row>, vault: map<string, string>)

  datatype Query = Query(tenant: string, provider: string, scope: Option<string>, keys: seq<string>)

  // ------------------------------------------------------- plain lookup

  function Secret(world: World, secretId: string): string {
    if secretId in world.vault then world.vault[secretId] else ""
  }

  predicate Serves(row: Row, q: Query, key: string, scope: Option<string>) {
    row.active && row.tenant == q.tenant && row.provider == q.provider && row.key == key && row.scope == scope
  }

  function FirstSecret(world: World, rows: seq<Row>, q: Query, key: string, scope: Option<string>): Option<string> {
    if rows == [] then None
    else if Serves(rows[0], q, key, scope) && Secret(world, rows[0].secretId) != "" then
      Some(Secret(world, rows[0].secretId))
    else FirstSecret(world, rows[1..], q, key, scope)
  }

  /** What a resolver without a cache returns: the channel's credential, else the tenant's. */
  function Lookup(world: World, q: Query, key: string): Option<string> {
    var own := if q.scope.Some? then FirstSecret(world, world.rows, q, key, q.scope) else None;
    if own.Some? then own else FirstSecret(world, world.rows, q, key, None)
  }

  // Row i belongs to this tenant, provider, key and scope, is active and points at this secret, which is not empty.
  ghost predicate Supplies(world: World, i: int, q: Query, key: string, scope: Option<string>, secret: string) {
    && 0 <= i < |world.rows|
    && world.rows[i].tenant == q.tenant && world.rows[i].provider == q.provider
    && world.rows[i].key == key && world.rows[i].scope == scope && world.rows[i].active
    && world.rows[i].secretId in world.vault && world.vault[world.rows[i].secretId] == secret && secret != ""
  }

  lemma {:induction false} FirstSecretIsSupplied(world: World, q: Query, key: string, scope: Option<string>, from: nat)
    returns (i: nat)
    requires from <= |world.rows|
    ensures var found := FirstSecret(world, world.rows[from..], q, key, scope);
      && (found.Some? ==> from <= i && Supplies(world, i, q, key, scope, found.value))
      && (forall k, secret | from <= k && Supplies(world, k, q, key, scope, secret) :: found.Some? && i <= k)
    decreases |world.rows| - from
  {
    i := from;
    if from < |world.rows| {
      assert world.rows[from..][1..] == world.rows[from + 1..];
      var row := world.rows[from];
      if !Serves(row, q, key, scope) || Secret(world, row.secretId) == "" {
        i := FirstSecretIsSupplied(world, q, key, scope, from + 1);
      } else {
        assert Supplies(world, from, q, key, scope, Secret(world, row.secretId));
      }
    }
  }

  ghost predicate HasSupply(world: World, q: Query, key: string, scope: Option<string>) {
    exists i, secret :: Supplies(world, i, q, key, scope, secret)
  }

  /**
   Lookup answers with the first active row of that very tenant, provider and key whose secret is not empty: of the
   channel if the channel has one, else of the tenant; and with none exactly if there is no such row.
   */
  lemma LookupFindsRow(world: World, q: Query, key: string)
    ensures Lookup(world, q, key).None? <==>
      !HasSupply(world, q, key, None) && (q.scope.Some? ==> !HasSupply(world, q, key, q.scope))
    ensures Lookup(world, q, key).Some? ==>
      var scope := if q.scope.Some? && HasSupply(world, q, key, q.scope) then q.scope else None;
      exists i ::
        Supplies(world, i, q, key, scope, Lookup(world, q, key).value)
        && forall k, secret | Supplies(world, k, q, key, scope, secret) :: i <= k
  {
    assert world.rows[0..] == world.rows;
    var own := FirstSecretIsSupplied(world, q, key, q.scope, 0);
    var shared := FirstSecretIsSupplied(world, q, key, None, 0);
  }

  // ---------------------------------------------------------- the cache

  datatype CacheKey = CacheKey(tenant: string, provider: string, scope: string, key: string)

  datatype Entry = Entry(expiresAt: real, secret: string)

  type Cache = map<CacheKey, Entry>

  // scope_id or "tenant"
  function ScopeKey(scope: Option<string>): string {
    if scope.Some? && scope.value != "" then scope.value else "tenant"
  }

  function KeyOf(q: Query, key: string): CacheKey {
    CacheKey(q.tenant, q.provider, ScopeKey(q.scope), key)
  }

  function Cached(cache: Cache, q: Query, key: string, now: real): Option<string> {
    if KeyOf(q, key) in cache && cache[KeyOf(q, key)].expiresAt > now then Some(cache[KeyOf(q, key)].secret) else None
  }

  // The value of a key before any fallback to the environment.
  function VaultValue(cache: Cache, world: World, q: Query, key: string, now: real): Option<string> {
    var cached := Cached(cache, q, key, now);
    if cached.Some? then cached else Lookup(world, q, key)
  }

  // A resolve stores what it looked up, and nothing else.
  predicate Stores(cache: Cache, world: World, q: Query, key: string, now: real) {
    key in q.keys && Cached(cache, q, key, now).None? && Lookup(world, q, key).Some?
  }

  ghost predicate IsCacheAfter(after: Cache, cache: Cache, world: World, q: Query, now: real) {
    forall ck: CacheKey ::
      if ck == KeyOf(q, ck.key) && Stores(cache, world, q, ck.key, now)
      then ck in after && after[ck] == Entry(now + CACHE_TTL, Lookup(world, q, ck.key).value)
      else (ck in after <==> ck in cache) && (ck in cache ==> after[ck] == cache[ck])
  }

  // -------------------------------------------------------- every history

  datatype Call = Call(now: real, world: World, query: Query)

  ghost predicate InOrder(calls: seq<Call>) {
    forall i, j | 0 <= i < j < |calls| :: calls[i].now <= calls[j].now
  }

  // caches[i] is the cache before call i.
  ghost predicate History(calls: seq<Call>, caches: seq<Cache>) {
    && |caches| == |calls| + 1
    && caches[0] == map[]
    && InOrder(calls)
    && forall i | 0 <= i < |calls| ::
      IsCacheAfter(caches[i + 1], caches[i], calls[i].world, calls[i].query, calls[i].now)
  }

  ghost predicate StoredBy(calls: seq<Call>, i: nat, ck: CacheKey, entry: Entry) {
    && i < |calls|
    && ck == KeyOf(calls[i].query, ck.key)
    && entry.expiresAt == calls[i].now + CACHE_TTL
    && Lookup(calls[i].world, calls[i].query, ck.key) == Some(entry.secret)
  }

  lemma {:induction false} EntriesWereLookedUp(
    calls: seq<Call>, caches: seq<Cache>, n: nat, ck: CacheKey) returns (i: nat)
    requires History(calls, caches) && n <= |calls| && ck in caches[n]
    ensures i < n && StoredBy(calls, i, ck, caches[n][ck])
  {
    var c := calls[n - 1];
    if ck == KeyOf(c.query, ck.key) && Stores(caches[n - 1], c.world, c.query, ck.key, c.now) {
      i := n - 1;
    } else {
      i := EntriesWereLookedUp(calls, caches, n - 1, ck);
    }
  }

  /**
   Every value from the vault path is what plain lookup gave at an instant less than 60 seconds before, for a query
   of the same tenant, provider and cache scope.
   */
  lemma ValuesAreRecent(calls: seq<Call>, caches: seq<Cache>, n: nat, key: string) returns (i: nat)
    requires History(calls, caches) && n < |calls|
    requires VaultValue(caches[n], calls[n].world, calls[n].query, key, calls[n].now).Some?
    ensures i <= n && calls[n].now - 60.0 < calls[i].now <= calls[n].now
    ensures calls[i].query.tenant == calls[n].query.tenant && calls[i].query.provider == calls[n].query.provider
    ensures ScopeKey(calls[i].query.scope) == ScopeKey(calls[n].query.scope)
    ensures Lookup(calls[i].world, calls[i].query, key)
            == VaultValue(caches[n], calls[n].world, calls[n].query, key, calls[n].now)
  {
    var c := calls[n];
    if Cached(caches[n], c.query, key, c.now).Some? {
      i := EntriesWereLookedUp(calls, caches, n, KeyOf(c.query, key));
    } else {
      i := n;
    }
  }

  /** A value looked up is served from the cache for 60 seconds, whatever happens to its row meanwhile. */
  lemma FreshValuesAreServed(calls: seq<Call>, caches: seq<Cache>, i: nat, n: nat, key: string)
    requires History(calls, caches) && i < n < |calls| && calls[n].now < calls[i].now + 60.0
    requires key in calls[i].query.keys && Lookup(calls[i].world, calls[i].query, key).Some?
    requires Cached(caches[i], calls[i].query, key, calls[i].now).None?
    requires calls[n].query.tenant == calls[i].query.tenant && calls[n].query.provider == calls[i].query.provider
    requires calls[n].query.scope == calls[i].query.scope
    ensures VaultValue(caches[n], calls[n].world, calls[n].query, key, calls[n].now)
            == Lookup(calls[i].world, calls[i].query, key)
  {
    EntryStays(calls, caches, i, n, key);
  }

  lemma {:induction false} EntryStays(calls: seq<Call>, caches: seq<Cache>, i: nat, n: nat, key: string)
    requires History(calls, caches) && i < n < |calls| && calls[n].now < calls[i].now + 60.0
    requires key in calls[i].query.keys && Lookup(calls[i].world, calls[i].query, key).Some?
    requires Cached(caches[i], calls[i].query, key, calls[i].now).None?
    ensures var ck := KeyOf(calls[i].query, key);
      ck in caches[n] && caches[n][ck] == Entry(calls[i].now + 60.0, Lookup(calls[i].world, calls[i].query, key).value)
    decreases n
  {
    var c := calls[n - 1];
    var ck := KeyOf(calls[i].query, key);
    assert ck.key == key;
    assert IsCacheAfter(caches[n], caches[n - 1], c.world, c.query, c.now);
    if n - 1 == i {
    } else {
      EntryStays(calls, caches, i, n - 1, key);
      assert ck == KeyOf(c.query, key) ==> Cached(caches[n - 1], c.query, key, c.now).Some?;
    }
  }

  predicate Reserved(scope: Option<string>) {
    scope.None? || scope.value == "" || scope.value == "tenant"
  }

  /** Two scopes share cache entries exactly when they are equal or both read as the tenant's. */
  lemma ScopesShareIff(a: Option<string>, b: Option<string>)
    ensures ScopeKey(a) == ScopeKey(b) <==> a == b || (Reserved(a) && Reserved(b))
  {
  }

  lemma SameLookup(world: World, p: Query, q: Query, key: string)
    requires p.tenant == q.tenant && p.provider == q.provider && p.scope == q.scope
    ensures Lookup(world, p, key) == Lookup(world, q, key)
  {
    SameFirst(world, world.rows, p, q, key, None);
    SameFirst(world, world.rows, p, q, key, p.scope);
  }

  lemma {:induction false} SameFirst(
    world: World, rows: seq<Row>, p: Query, q: Query, key: string, scope: Option<string>)
    requires p.tenant == q.tenant && p.provider == q.provider
    ensures FirstSecret(world, rows, p, key, scope) == FirstSecret(world, rows, q, key, scope)
  {
    if rows == [] {
    } else {
      SameFirst(world, rows[1..], p, q, key, scope);
    }
  }

  /** As long as no channel is called "tenant" or "", a cached value is never another scope's. */
  lemma ValuesAreRecentLookups(calls: seq<Call>, caches: seq<Cache>, n: nat, key: string)
    requires History(calls, caches) && n < |calls|
    requires forall i | 0 <= i <= n :: calls[i].query.scope != Some("tenant") && calls[i].query.scope != Some("")
    requires VaultValue(caches[n], calls[n].world, calls[n].query, key, calls[n].now).Some?
    ensures exists i: nat ::
      i <= n && calls[n].now - 60.0 < calls[i].now <= calls[n].now &&
      Lookup(calls[i].world, calls[n].query, key)
      == VaultValue(caches[n], calls[n].world, calls[n].query, key, calls[n].now)
  {
    var i := ValuesAreRecent(calls, caches, n, key);
    ScopesShareIff(calls[i].query.scope, calls[n].query.scope);
    SameLookup(calls[i].world, calls[i].query, calls[n].query, key);
  }

  /** A channel called "tenant" would hand its secret to the tenant's own queries. */
  lemma ChannelCalledTenantLeaks()
    ensures exists calls: seq<Call>, caches: seq<Cache> ::
      History(calls, caches) && |calls| == 2 && calls[0].world == calls[1].world &&
      VaultValue(caches[1], calls[1].world, calls[1].query, "k", calls[1].now)
      != Lookup(calls[1].world, calls[1].query, "k")
  {
    var row := Row("t", "p", Some("tenant"), "k", "id", true);
    var world := World([row], map["id" := "secret"]);
    var channel, tenant := Query("t", "p", Some("tenant"), ["k"]), Query("t", "p", None, ["k"]);
    var calls := [Call(0.0, world, channel), Call(1.0, world, tenant)];
    var ck := CacheKey("t", "p", "tenant", "k");
    var cache: Cache := map[ck := Entry(60.0, "secret")];
    assert Lookup(world, channel, "k") == Some("secret");
    assert world.rows[1..] == [];
    assert FirstSecret(world, world.rows, tenant, "k", None) == FirstSecret(world, [], tenant, "k", None) == None;
    assert Lookup(world, tenant, "k") == None;
    assert ["k"] == channel.keys && forall k :: k in channel.keys <==> k == "k";
    assert IsCacheAfter(cache, map[], world, channel, 0.0);
    assert IsCacheAfter(cache, cache, world, tenant, 1.0);
    assert History(calls, [map[], cache, cache]);
    assert VaultValue(cache, world, tenant, "k", 1.0) == Some("secret");
  }

  // --------------------------------------------------------- the resolver

  // The rows fetched for several keys at once, channel rows first.
  function Selected(rows: seq<Row>, q: Query, keys: seq<string>, scope: Option<string>): seq<Row> {
    if rows == [] then [] else
    var rest := Selected(rows[1..], q, keys, scope);
    if rows[0].key in keys && Serves(rows[0], q, rows[0].key, scope) then [rows[0]] + rest else rest
  }

  function Fetch(world: World, q: Query, keys: seq<string>): seq<Row> {
    (if q.scope.Some? then Selected(world.rows, q, keys, q.scope) else []) + Selected(world.rows, q, keys, None)
  }

  // The first fetched row of a key whose secret is not empty.
  function FirstFetched(world: World, rows: seq<Row>, key: string): Option<string> {
    if rows == [] then None
    else if rows[0].key == key && Secret(world, rows[0].secretId) != "" then Some(Secret(world, rows[0].secretId))
    else FirstFetched(world, rows[1..], key)
  }

  lemma {:induction false} FirstFetchedConcat(world: World, a: seq<Row>, b: seq<Row>, key: string)
    ensures FirstFetched(world, a + b, key)
            == if FirstFetched(world, a, key).Some? then FirstFetched(world, a, key) else FirstFetched(world, b, key)
  {
    if a == [] {
      assert a + b == b;
    } else {
      assert (a + b)[1..] == a[1..] + b;
      FirstFetchedConcat(world, a[1..], b, key);
    }
  }

  lemma {:induction false} SelectedFirst(
    world: World, rows: seq<Row>, q: Query, keys: seq<string>, key: string, scope: Option<string>)
    requires key in keys
    ensures FirstFetched(world, Selected(rows, q, keys, scope), key) == FirstSecret(world, rows, q, key, scope)
  {
    if rows == [] {
    } else {
      SelectedFirst(world, rows[1..], q, keys, key, scope);
      var rest := Selected(rows[1..], q, keys, scope);
      assert ([rows[0]] + rest)[1..] == rest;
    }
  }

  /** One ordered query for all missing keys finds, key by key, what plain lookup finds. */
  lemma FetchFindsLookup(world: World, q: Query, keys: seq<string>, key: string)
    requires key in keys
    ensures FirstFetched(world, Fetch(world, q, keys), key) == Lookup(world, q, key)
  {
    SelectedFirst(world, world.rows, q, keys, key, None);
    if q.scope.Some? {
      SelectedFirst(world, world.rows, q, keys, key, q.scope);
      FirstFetchedConcat(world, Selected(world.rows, q, keys, q.scope), Selected(world.rows, q, keys, None), key);
    } else {
      assert Fetch(world, q, keys) == Selected(world.rows, q, keys, None);
    }
  }

  lemma {:induction false} SelectedKeys(rows: seq<Row>, q: Query, keys: seq<string>, scope: Option<string>)
    ensures forall row | row in Selected(rows, q, keys, scope) :: row.key in keys
  {
    if rows == [] {
    } else {
      SelectedKeys(rows[1..], q, keys, scope);
    }
  }

  class CredentialResolver {
    var cache: Cache

    constructor ()
      ensures cache == map[]
    {
      cache := map[];
    }

    method FromCache(q: Query, now: real) returns (credentials: map<string, string>, missing: seq<string>)
      ensures forall key :: key in credentials <==> key in q.keys && Cached(cache, q, key, now).Some?
      ensures forall key | key in credentials :: Some(credentials[key]) == Cached(cache, q, key, now)
      ensures forall key :: key in missing <==> key in q.keys && Cached(cache, q, key, now).None?
    {
      credentials, missing := map[], [];
      for i := 0 to |q.keys|
        invariant forall key :: key in credentials <==> key in q.keys[..i] && Cached(cache, q, key, now).Some?
        invariant forall key | key in credentials :: Some(credentials[key]) == Cached(cache, q, key, now)
        invariant forall key :: key in missing <==> key in q.keys[..i] && Cached(cache, q, key, now).None?
      {
        assert q.keys[..i + 1] == q.keys[..i] + [q.keys[i]];
        var cached := Cached(cache, q, q.keys[i], now);
        if cached.Some? {
          credentials := credentials[q.keys[i] := cached.value];
        } else {
          missing := missing + [q.keys[i]];
        }
      }
      assert q.keys[..|q.keys|] == q.keys;
    }

    // Fills in the missing keys from the fetched rows, storing each secret found.
    method ReadVault(world: World, q: Query, now: real, found: map<string, string>, rows: seq<Row>)
      returns (credentials: map<string, string>)
      modifies this
      ensures forall key :: key in credentials <==> key in found || FirstFetched(world, rows, key).Some?
      ensures forall key | key in credentials ::
        Some(credentials[key]) == if key in found then Some(found[key]) else FirstFetched(world, rows, key)
      ensures forall ck: CacheKey ::
        if ck == KeyOf(q, ck.key) && ck.key !in found && FirstFetched(world, rows, ck.key).Some?
        then ck in cache && cache[ck] == Entry(now + CACHE_TTL, FirstFetched(world, rows, ck.key).value)
        else (ck in cache <==> ck in old(cache)) && (ck in old(cache) ==> cache[ck] == old(cache)[ck])
    {
      credentials := found;
      for i := 0 to |rows|
        invariant forall key :: key in credentials <==> key in found || FirstFetched(world, rows[..i], key).Some?
        invariant forall key | key in credentials ::
          Some(credentials[key]) == if key in found then Some(found[key]) else FirstFetched(world, rows[..i], key)
        invariant forall ck: CacheKey ::
          if ck == KeyOf(q, ck.key) && ck.key !in found && FirstFetched(world, rows[..i], ck.key).Some?
          then ck in cache && cache[ck] == Entry(now + CACHE_TTL, FirstFetched(world, rows[..i], ck.key).value)
          else (ck in cache <==> ck in old(cache)) && (ck in old(cache) ==> cache[ck] == old(cache)[ck])
      {
        var row := rows[i];
        assert rows[..i + 1] == rows[..i] + [row];
        forall key ensures FirstFetched(world, rows[..i + 1], key)
          == if FirstFetched(world, rows[..i], key).Some? then FirstFetched(world, rows[..i], key)
             else if row.key == key && Secret(world, row.secretId) != "" then Some(Secret(world, row.secretId))
             else None
        {
          FirstFetchedConcat(world, rows[..i], [row], key);
        }
        if row.key !in credentials {
          var secret := Secret(world, row.secretId);
          if secret != "" {
            credentials := credentials[row.key := secret];
            cache := cache[KeyOf(q, row.key) := Entry(now + CACHE_TTL, secret)];
          }
        }
      }
      assert rows[..|rows|] == rows;
    }

    // `env` is the fallback, empty when disabled; an error lists nothing but leaves the cache updated.
    method Resolve(world: World, q: Query, now: real, env: map<string, string>, required: bool)
      returns (r: Result<map<string, string>, seq<string>>)
      modifies this
      ensures IsCacheAfter(cache, old(cache), world, q, now)
      ensures r.Ok? ==> forall key :: key in r.value ==> key in q.keys
      ensures r.Ok? ==> forall key | key in q.keys ::
        var value := VaultValue(old(cache), world, q, key, now);
        if value.Some? then key in r.value && r.value[key] == value.value
        else if key in env && env[key] != "" then key in r.value && r.value[key] == env[key]
        else key !in r.value
      ensures r.Err? <==> required && exists key ::
        key in q.keys && VaultValue(old(cache), world, q, key, now).None? && (key in env ==> env[key] == "")
    {
      var found, missing := FromCache(q, now);
      var rows := Fetch(world, q, missing);
      FetchedKeys(world, q, missing);
      var credentials := ReadVault(world, q, now, found, rows);
      ghost var fromVault := credentials;
      forall key | key in missing ensures FirstFetched(world, rows, key) == Lookup(world, q, key) {
        FetchFindsLookup(world, q, missing, key);
      }
      var absent: seq<string> := [];
      for i := 0 to |q.keys|
        invariant forall key :: key in credentials <==>
          key in fromVault || (key in q.keys[..i] && key in env && env[key] != "")
        invariant forall key | key in credentials ::
          credentials[key] == if key in fromVault then fromVault[key] else env[key]
        invariant forall key :: key in absent <==> key in q.keys[..i] && key !in credentials
      {
        var key := q.keys[i];
        assert q.keys[..i + 1] == q.keys[..i] + [key];
        if key !in credentials {
          if key in env && env[key] != "" {
            credentials := credentials[key := env[key]];
          } else {
            absent := absent + [key];
          }
        }
      }
      assert q.keys[..|q.keys|] == q.keys;
      if required && absent != [] {
        assert absent[0] in absent;
        return Err(absent);
      }
      r := Ok(credentials);
    }
  }

  lemma FetchedKeys(world: World, q: Query, keys: seq<string>)
    ensures forall key | FirstFetched(world, Fetch(world, q, keys), key).Some? :: key in keys
  {
    SelectedKeys(world.rows, q, keys, None);
    SelectedKeys(world.rows, q, keys, q.scope);
    forall key | FirstFetched(world, Fetch(world, q, keys), key).Some? ensures key in keys {
      FirstFetchedIsThere(world, Fetch(world, q, keys), key);
    }
  }

  lemma {:induction false} FirstFetchedIsThere(world: World, rows: seq<Row>, key: string)
    requires FirstFetched(world, rows, key).Some?
    ensures exists row :: row in rows && row.key == key
  {
    if rows[0].key == key {
      assert rows[0] in rows;
    } else {
      FirstFetchedIsThere(world, rows[1..], key);
      var row :| row in rows[1..] && row.key == key;
      assert row in rows;
    }
  }
}
