// The Database facade's query entry points: GetList over criteria (with the
// cache decision and the reconciliation of fetched rows with the session and
// the cache), GetList over a predicate (with the in-memory filter for what
// could not be translated), and the two Count overloads.
module Database {
  import opened Wrappers
  import opened Criteria
  import opened Expressions
  import opened QueryOptions
  import opened ExpressionRunner
  import opened EntityTypes
  import opened Cache

  /**
   * The collaborators of the facade that are not part of this model:
   * - `fetch(t, criteria, options)`: the rows the data provider(s) of t return
   *   (one provider, or all of those ResolveDataProviders finds, concatenated);
   * - `countRows(t, criteria, options)`: the provider's Count;
   * - `session(t, id)`: SessionMemory.Get;
   * - `describe(c)`: ICriterion.ToString, as the query key uses it;
   * - `sortList(rows)`: List<T>.Sort with the entities' own comparison;
   * - `holds(record, leaf)`: a leaf of a compiled predicate evaluated on a record;
   * - `enforceOptimizedQueries`: the Data.Access.Enforce.Optimized.Queries setting.
   */
  datatype Environment = Environment(
    fetch: (TypeId, seq<QueryCriterion>, seq<QueryOption>) -> seq<Entity>,
    countRows: (TypeId, seq<QueryCriterion>, seq<QueryOption>) -> int,
    session: (TypeId, string) -> Option<Entity>,
    describe: QueryCriterion -> string,
    sortList: seq<Entity> -> seq<Entity>,
    holds: (Entity, Expr) -> bool,
    enforceOptimizedQueries: bool)

  /** The providers only return records of registered types. */
  ghost predicate EnvironmentValid(ts: TypeSystem, env: Environment)
  {
    forall t, c, o, k :: 0 <= k < |env.fetch(t, c, o)| ==> env.fetch(t, c, o)[k].typeId < ts.Count()
  }

  /** new Criterion("IsMarkedSoftDeleted", false). */
  const SoftDeleteCriterion: QueryCriterion := Condition(Simple("IsMarkedSoftDeleted", Is, Some("False")))

  /** The criteria with the soft-delete criterion appended for a soft-delete type. */
  function WithSoftDelete(ts: TypeSystem, t: TypeId, criteria: seq<QueryCriterion>): (r: seq<QueryCriterion>)
    requires ts.Valid() && t < ts.Count()
    ensures |criteria| <= |r| && r[..|criteria|] == criteria
    ensures ts.softDelete[t] ==> |r| == |criteria| + 1 && r[|criteria|] == SoftDeleteCriterion
    ensures !ts.softDelete[t] ==> r == criteria
  {
    if ts.softDelete[t] then criteria + [SoftDeleteCriterion] else criteria
  }

  /** criteria.OfType<DirectDatabaseCriterion>().All(x => x.IsCacheSafe). */
  predicate DirectCriteriaCacheSafe(criteria: seq<QueryCriterion>)
  {
    criteria == [] ||
    ((!criteria[0].Direct? || criteria[0].isCacheSafe) && DirectCriteriaCacheSafe(criteria[1..]))
  }

  /** criteria.Except(typeof(DirectDatabaseCriterion)).Any(c => c.PropertyName.Contains(".")). */
  predicate AnyDottedProperty(criteria: seq<QueryCriterion>)
  {
    criteria != [] &&
    ((criteria[0].Condition? && '.' in PropertyName(criteria[0].criterion)) || AnyDottedProperty(criteria[1..]))
  }

  /** The canCache decision of GetList, step by step as GetList takes it. */
  predicate CacheEligible(criteria: seq<QueryCriterion>, options: seq<QueryOption>)
  {
    var numberOfRecords := ResultsToFetch(options);
    var canCache := options == [] || (|options| == 1 && numberOfRecords == Some(1));
    var canCache := canCache && DirectCriteriaCacheSafe(criteria);
    if AnyDottedProperty(criteria) then false else canCache
  }

  /**
   * A query is cached exactly when it has no options or only Take(1), every
   * direct criterion is cache-safe, and no other criterion is on a dotted property.
   */
  lemma CacheEligibleMeaning(criteria: seq<QueryCriterion>, options: seq<QueryOption>)
    ensures CacheEligible(criteria, options) <==>
              (options == [] || options == [ResultSetSize(Some(1))]) &&
              (forall i :: 0 <= i < |criteria| && criteria[i].Direct? ==> criteria[i].isCacheSafe) &&
              (forall i :: 0 <= i < |criteria| && criteria[i].Condition? ==> '.' !in PropertyName(criteria[i].criterion))
  {
    DirectSafeMeaning(criteria);
    DottedMeaning(criteria);
    if |options| == 1 && ResultsToFetch(options) == Some(1) {
      assert options[0].ResultSetSize? && options[0].number == Some(1);
      assert options == [ResultSetSize(Some(1))];
    }
  }

  lemma {:induction false} DirectSafeMeaning(criteria: seq<QueryCriterion>)
    ensures DirectCriteriaCacheSafe(criteria) <==>
              forall i :: 0 <= i < |criteria| && criteria[i].Direct? ==> criteria[i].isCacheSafe
  {
    if criteria != [] {
      DirectSafeMeaning(criteria[1..]);
      assert forall i :: 1 <= i < |criteria| ==> criteria[i] == criteria[1..][i - 1];
    }
  }

  lemma {:induction false} DottedMeaning(criteria: seq<QueryCriterion>)
    ensures AnyDottedProperty(criteria) <==>
              exists i :: 0 <= i < |criteria| && criteria[i].Condition? && '.' in PropertyName(criteria[i].criterion)
  {
    if criteria != [] {
      DottedMeaning(criteria[1..]);
      if AnyDottedProperty(criteria[1..]) {
        var i :| 0 <= i < |criteria[1..]| && criteria[1..][i].Condition? && '.' in PropertyName(criteria[1..][i].criterion);
        assert criteria[i + 1] == criteria[1..][i];
      }
      if exists i :: 0 <= i < |criteria| && criteria[i].Condition? && '.' in PropertyName(criteria[i].criterion) {
        var i :| 0 <= i < |criteria| && criteria[i].Condition? && '.' in PropertyName(criteria[i].criterion);
        if i > 0 {
          assert criteria[1..][i - 1] == criteria[i];
        }
      }
    }
  }

  /** Each criterion's text, as BuildQueryKey appends them. */
  function Describe(env: Environment, criteria: seq<QueryCriterion>): (r: seq<string>)
    ensures |r| == |criteria| && forall i :: 0 <= i < |criteria| ==> r[i] == env.describe(criteria[i])
  {
    seq(|criteria|, i requires 0 <= i < |criteria| => env.describe(criteria[i]))
  }

  /** The cache key GetList uses for a query on t. */
  function QueryKey(ts: TypeSystem, env: Environment, t: TypeId, criteria: seq<QueryCriterion>, options: seq<QueryOption>): string
    requires ts.Valid() && t < ts.Count()
  {
    BuildQueryKey(ts.names[t], Describe(env, criteria), ResultsToFetch(options))
  }

  // ---------------------------------------------------------------------------
  // Reconciliation of fetched rows (GetConcreteList)
  // ---------------------------------------------------------------------------

  /**
   * One fetched row: the in-session object if there is one, else the cached
   * object, else the row itself, which is added to the cache outside a transaction.
   */
  function ReconcileRow(ts: TypeSystem, env: Environment, t: TypeId, item: Entity, inTransaction: bool, s: CacheState): (Entity, CacheState)
    requires ts.Valid() && item.typeId < ts.Count()
  {
    var inSession := env.session(t, item.id);
    if inSession.Some? then (inSession.value, s)
    else
      var (inCache, types) := Find(ts, s.types, item.typeId, item.id);
      var s1 := s.(types := types);
      if inCache.Some? then (inCache.value, s1)
      else (item, if inTransaction then s1 else AddSpec(ts, s1, item))
  }

  /** The loop of GetConcreteList over the fetched rows. */
  function Reconcile(ts: TypeSystem, env: Environment, t: TypeId, rows: seq<Entity>, inTransaction: bool, s: CacheState): (seq<Entity>, CacheState)
    requires ts.Valid() && forall k :: 0 <= k < |rows| ==> rows[k].typeId < ts.Count()
  {
    if rows == [] then ([], s)
    else
      var (done, s1) := Reconcile(ts, env, t, rows[..|rows| - 1], inTransaction, s);
      var (e, s2) := ReconcileRow(ts, env, t, rows[|rows| - 1], inTransaction, s1);
      (done + [e], s2)
  }

  /** GetConcreteList: fetch, reconcile, and sort unless a Sort or Paging option fixes the order. */
  function ConcreteList(ts: TypeSystem, env: Environment, s: CacheState, t: TypeId, criteria: seq<QueryCriterion>, options: seq<QueryOption>, inTransaction: bool): (seq<Entity>, CacheState)
    requires ts.Valid() && t < ts.Count() && EnvironmentValid(ts, env)
  {
    var (rows, s1) := Reconcile(ts, env, t, env.fetch(t, criteria, options), inTransaction, s);
    (if HasSortOrPaging(options) then rows else env.sortList(rows), s1)
  }

  /** GetList<T>(criteria, options). */
  function GetListSpec(ts: TypeSystem, env: Environment, s: CacheState, t: TypeId, criteria: seq<QueryCriterion>, options: Option<seq<QueryOption>>, inTransaction: bool): (seq<Entity>, CacheState)
    requires ts.Valid() && t < ts.Count() && EnvironmentValid(ts, env)
  {
    var opts := options.GetOr([]);
    var all := WithSoftDelete(ts, t, criteria);
    if !CacheEligible(all, opts) then ConcreteList(ts, env, s, t, all, opts, inTransaction)
    else
      var key := QueryKey(ts, env, t, all, opts);
      var s0 := s.(lists := if ts.CanCache(t) then TouchLists(s.lists, t) else s.lists);
      var hit := FindList(ts, s.lists, t, key);
      if hit.Some? then (hit.value, s0)
      else
        var (result, s1) := ConcreteList(ts, env, s0, t, all, opts, inTransaction);
        (result, if !ts.needsResolution[t] && !inTransaction then s1.(lists := StoreList(ts, s1.lists, t, key, result)) else s1)
  }

  /** The records that satisfy a compiled predicate (Where(DynamicCriteria)), in order. */
  function Filter(env: Environment, rows: seq<Entity>, condition: Expr): (r: seq<Entity>)
    ensures forall x :: x in r ==> x in rows && Truth(condition, (u: Expr) => env.holds(x, u))
    ensures forall x :: x in rows && Truth(condition, (u: Expr) => env.holds(x, u)) ==> x in r
    ensures |r| <= |rows|
  {
    if rows == [] then []
    else
      var last := rows[|rows| - 1];
      Filter(env, rows[..|rows| - 1], condition) +
      (if Truth(condition, (u: Expr) => env.holds(last, u)) then [last] else [])
  }

  /** Take(n) when more than n records are left and a number is given (a negative n takes none). */
  function Truncate(rows: seq<Entity>, n: Option<int>): (r: seq<Entity>)
    ensures n.None? || |rows| <= n.value ==> r == rows
    ensures n.Some? && |rows| > n.value ==> |r| == (if n.value < 0 then 0 else n.value) && r == rows[..|r|]
  {
    if n.Some? && |rows| > n.value then rows[..if n.value < 0 then 0 else n.value] else rows
  }

  /** Count<T>(params Criterion[]): the provider's count over the criteria, soft-delete appended. */
  function Count(ts: TypeSystem, env: Environment, t: TypeId, criteria: seq<Criterion>): (r: int)
    requires ts.Valid() && t < ts.Count()
    ensures ts.softDelete[t] ==> r == env.countRows(t, Conditions(criteria) + [SoftDeleteCriterion], [])
    ensures !ts.softDelete[t] ==> r == env.countRows(t, Conditions(criteria), [])
  {
    env.countRows(t, WithSoftDelete(ts, t, Conditions(criteria)), [])
  }

  /** The criteria as the list handed to a provider. */
  function Conditions(criteria: seq<Criterion>): (r: seq<QueryCriterion>)
    ensures |r| == |criteria| && forall i :: 0 <= i < |criteria| ==> r[i] == Condition(criteria[i])
  {
    seq(|criteria|, i requires 0 <= i < |criteria| => Condition(criteria[i]))
  }

  // ---------------------------------------------------------------------------
  // Properties
  // ---------------------------------------------------------------------------

  /** Looking an entity up and adding a raw row keep the cache's entries filed under their own type and ID. */
  lemma RowKeepsFiled(ts: TypeSystem, env: Environment, t: TypeId, item: Entity, inTransaction: bool, s: CacheState)
    requires ts.Valid() && item.typeId < ts.Count() && Filed(ts, s.types)
    ensures Filed(ts, ReconcileRow(ts, env, t, item, inTransaction, s).1.types)
  {
    if env.session(t, item.id).None? {
      FindSound(ts, s.types, item.typeId, item.id);
    }
  }

  /** Every entity filed in `a` is still filed, unchanged, in `b`. */
  predicate KeepsEntries(a: map<TypeId, EntityMap>, b: map<TypeId, EntityMap>)
  {
    forall u, k :: u in a && k in a[u] ==> u in b && k in b[u] && b[u][k] == a[u][k]
  }

  /** Reconciling one row never drops or replaces a cached entity. */
  lemma RowKeepsEntries(ts: TypeSystem, env: Environment, t: TypeId, item: Entity, inTransaction: bool, s: CacheState)
    requires ts.Valid() && item.typeId < ts.Count() && Filed(ts, s.types)
    ensures KeepsEntries(s.types, ReconcileRow(ts, env, t, item, inTransaction, s).1.types)
  {
    if env.session(t, item.id).None? {
      FindSound(ts, s.types, item.typeId, item.id);
      var (inCache, types) := Find(ts, s.types, item.typeId, item.id);
      assert KeepsEntries(s.types, types);
      if inCache.None? && !inTransaction && ts.CanCache(item.typeId) {
        assert !(item.typeId in s.types && item.id in s.types[item.typeId]);
        var stored := Store(types, item);
        assert forall u, k :: u in types && k in types[u] && (u, k) != (item.typeId, item.id) ==>
                 u in stored && k in stored[u] && stored[u][k] == types[u][k];
      }
    }
  }

  /** Reconciling rows never drops or replaces an entity cached beforehand. */
  lemma {:induction false} ReconcileKeepsEntries(ts: TypeSystem, env: Environment, t: TypeId, rows: seq<Entity>, inTransaction: bool, s: CacheState)
    requires ts.Valid() && forall k :: 0 <= k < |rows| ==> rows[k].typeId < ts.Count()
    requires Filed(ts, s.types)
    ensures KeepsEntries(s.types, Reconcile(ts, env, t, rows, inTransaction, s).1.types)
  {
    if rows != [] {
      var init := rows[..|rows| - 1];
      ReconcileKeepsEntries(ts, env, t, init, inTransaction, s);
      ReconcileRows(ts, env, t, init, inTransaction, s);
      var s1 := Reconcile(ts, env, t, init, inTransaction, s).1;
      RowKeepsEntries(ts, env, t, rows[|rows| - 1], inTransaction, s1);
    }
  }

  /**
   * Reconciliation yields one entry per fetched row: the session's object when
   * the session has one, otherwise an entity with the row's ID; and an entity
   * cached beforehand under the row's cacheable type and ID is returned in
   * preference to the raw row.
   */
  lemma {:induction false} ReconcileRows(ts: TypeSystem, env: Environment, t: TypeId, rows: seq<Entity>, inTransaction: bool, s: CacheState)
    requires ts.Valid() && forall k :: 0 <= k < |rows| ==> rows[k].typeId < ts.Count()
    requires Filed(ts, s.types)
    ensures var (r, after) := Reconcile(ts, env, t, rows, inTransaction, s);
            |r| == |rows| && Filed(ts, after.types) &&
            forall k :: 0 <= k < |rows| ==>
              if env.session(t, rows[k].id).Some? then r[k] == env.session(t, rows[k].id).value
              else r[k].id == rows[k].id
    ensures var r := Reconcile(ts, env, t, rows, inTransaction, s).0;
            |r| == |rows| &&
            forall k :: 0 <= k < |rows| && env.session(t, rows[k].id).None? && ts.CanCache(rows[k].typeId) &&
                        rows[k].typeId in s.types && rows[k].id in s.types[rows[k].typeId] ==>
              r[k] == s.types[rows[k].typeId][rows[k].id]
  {
    if rows != [] {
      var init := rows[..|rows| - 1];
      ReconcileRows(ts, env, t, init, inTransaction, s);
      ReconcileKeepsEntries(ts, env, t, init, inTransaction, s);
      var (done, s1) := Reconcile(ts, env, t, init, inTransaction, s);
      var item := rows[|rows| - 1];
      RowKeepsFiled(ts, env, t, item, inTransaction, s1);
      if env.session(t, item.id).None? {
        FindSound(ts, s1.types, item.typeId, item.id);
      }
      var (e, s2) := ReconcileRow(ts, env, t, item, inTransaction, s1);
      assert Reconcile(ts, env, t, rows, inTransaction, s).0 == done + [e];
      assert forall k :: 0 <= k < |init| ==> rows[k] == init[k];
      assert (done + [e])[|rows| - 1] == e;
      forall k | 0 <= k < |rows| && env.session(t, rows[k].id).None? && ts.CanCache(rows[k].typeId) &&
                 rows[k].typeId in s.types && rows[k].id in s.types[rows[k].typeId]
        ensures (done + [e])[k] == s.types[rows[k].typeId][rows[k].id]
      {
        if k == |rows| - 1 {
          RowPrefersCached(ts, env, t, item, inTransaction, s, s1);
        } else {
          assert (done + [e])[k] == done[k];
        }
      }
    }
  }

  /** A row whose entity was cached before, and still is, reconciles to the cached entity. */
  lemma RowPrefersCached(ts: TypeSystem, env: Environment, t: TypeId, item: Entity, inTransaction: bool, s0: CacheState, s1: CacheState)
    requires ts.Valid() && item.typeId < ts.Count() && Filed(ts, s1.types)
    requires KeepsEntries(s0.types, s1.types)
    requires env.session(t, item.id).None? && ts.CanCache(item.typeId)
    requires item.typeId in s0.types && item.id in s0.types[item.typeId]
    ensures ReconcileRow(ts, env, t, item, inTransaction, s1).0 == s0.types[item.typeId][item.id]
  {
    FindSound(ts, s1.types, item.typeId, item.id);
  }

  /**
   * Inside a transaction reconciliation caches nothing: the cache only gains
   * the empty maps its lookups create, and no list is expired.
   */
  lemma {:induction false} ReconcileInTransaction(ts: TypeSystem, env: Environment, t: TypeId, rows: seq<Entity>, s: CacheState)
    requires ts.Valid() && forall k :: 0 <= k < |rows| ==> rows[k].typeId < ts.Count()
    requires Filed(ts, s.types)
    ensures var after := Reconcile(ts, env, t, rows, true, s).1;
            OnlyTouched(ts, s.types, after.types) && after.lists == s.lists && after.invalidated == s.invalidated
  {
    if rows != [] {
      var init := rows[..|rows| - 1];
      ReconcileInTransaction(ts, env, t, init, s);
      ReconcileRows(ts, env, t, init, true, s);
      var s1 := Reconcile(ts, env, t, init, true, s).1;
      var item := rows[|rows| - 1];
      if env.session(t, item.id).None? {
        FindSound(ts, s1.types, item.typeId, item.id);
        OnlyTouchedTransitive(ts, s.types, s1.types, Find(ts, s1.types, item.typeId, item.id).1);
      }
    }
  }

  /** The provider is asked with the given criteria and, for a soft-delete type, the soft-delete criterion last. */
  lemma ProviderCriteria(ts: TypeSystem, env: Environment, s: CacheState, t: TypeId, criteria: seq<QueryCriterion>, options: Option<seq<QueryOption>>, inTransaction: bool)
    requires ts.Valid() && t < ts.Count() && EnvironmentValid(ts, env)
    requires !CacheEligible(WithSoftDelete(ts, t, criteria), options.GetOr([]))
    ensures var opts := options.GetOr([]);
            var rows := Reconcile(ts, env, t, env.fetch(t, WithSoftDelete(ts, t, criteria), opts), inTransaction, s).0;
            GetListSpec(ts, env, s, t, criteria, options, inTransaction).0 ==
              if HasSortOrPaging(opts) then rows else env.sortList(rows)
  {
  }

  /**
   * On a cache hit the cached list is the result, no row is fetched, and the
   * entity maps are unchanged.
   */
  lemma CacheHit(ts: TypeSystem, env: Environment, s: CacheState, t: TypeId, criteria: seq<QueryCriterion>, options: Option<seq<QueryOption>>, inTransaction: bool)
    requires ts.Valid() && t < ts.Count() && EnvironmentValid(ts, env)
    requires var all := WithSoftDelete(ts, t, criteria);
             CacheEligible(all, options.GetOr([])) &&
             FindList(ts, s.lists, t, QueryKey(ts, env, t, all, options.GetOr([]))).Some?
    ensures var all := WithSoftDelete(ts, t, criteria);
            var r := GetListSpec(ts, env, s, t, criteria, options, inTransaction);
            r.0 == FindList(ts, s.lists, t, QueryKey(ts, env, t, all, options.GetOr([]))).value &&
            r.1.types == s.types && r.1.invalidated == s.invalidated && r.1.lists == s.lists
  {
  }

  /**
   * A fetched list is stored under the query key when the query is
   * cache-eligible, the type needs no polymorphic resolution and no
   * transaction is open; inside a transaction no list changes at all.
   */
  lemma ListStoredOnlyWhenAllowed(ts: TypeSystem, env: Environment, s: CacheState, t: TypeId, criteria: seq<QueryCriterion>, options: Option<seq<QueryOption>>, inTransaction: bool)
    requires ts.Valid() && t < ts.Count() && EnvironmentValid(ts, env) && Filed(ts, s.types)
    ensures var all := WithSoftDelete(ts, t, criteria);
            var opts := options.GetOr([]);
            var r := GetListSpec(ts, env, s, t, criteria, options, inTransaction);
            (CacheEligible(all, opts) && ts.CanCache(t) && !ts.needsResolution[t] && !inTransaction ==>
               FindList(ts, r.1.lists, t, QueryKey(ts, env, t, all, opts)) == Some(r.0)) &&
            (inTransaction ==> forall q :: q in s.lists ==> q in r.1.lists && r.1.lists[q] == s.lists[q])
  {
    var all := WithSoftDelete(ts, t, criteria);
    var opts := options.GetOr([]);
    var rows := env.fetch(t, all, opts);
    if inTransaction {
      ReconcileInTransaction(ts, env, t, rows, s);
      if CacheEligible(all, opts) {
        var s0 := s.(lists := if ts.CanCache(t) then TouchLists(s.lists, t) else s.lists);
        ReconcileInTransaction(ts, env, t, rows, s0);
      }
    } else if CacheEligible(all, opts) && ts.CanCache(t) && !ts.needsResolution[t] {
      var key := QueryKey(ts, env, t, all, opts);
      var s0 := s.(lists := TouchLists(s.lists, t));
      if FindList(ts, s.lists, t, key).None? {
        var (result, s1) := ConcreteList(ts, env, s0, t, all, opts, false);
        AddListThenGetList(ts, s1.lists, t, key, result);
      }
    }
  }

  /** Truncation never lengthens and keeps the records in order. */
  lemma TruncatePrefix(rows: seq<Entity>, n: Option<int>)
    ensures var r := Truncate(rows, n);
            |r| <= |rows| && r == rows[..|r|] && (n.Some? && n.value >= 0 ==> |r| <= n.value)
  {
  }

  // ---------------------------------------------------------------------------
  // The facade
  // ---------------------------------------------------------------------------

  /** The static Database class, over the one cache instance. */
  class Database {
    const registry: TypeSystem
    const env: Environment
    const cache: Cache

    ghost predicate Valid()
      reads this, cache
    {
      registry.Valid() && cache.Valid() && cache.registry == registry && EnvironmentValid(registry, env)
    }

    constructor (ts: TypeSystem, environment: Environment, c: Cache)
      requires ts.Valid() && c.Valid() && c.registry == ts && EnvironmentValid(ts, environment)
      ensures Valid() && registry == ts && env == environment && cache == c
    {
      registry := ts;
      env := environment;
      cache := c;
    }

    /** GetConcreteList: the fetched rows, reconciled with the session and the cache. */
    method GetConcreteList(t: TypeId, criteria: seq<QueryCriterion>, options: seq<QueryOption>, inTransaction: bool)
      returns (result: seq<Entity>)
      requires Valid() && t < registry.Count()
      modifies cache
      ensures Valid()
      ensures (result, cache.State()) == ConcreteList(registry, env, old(cache.State()), t, criteria, options, inTransaction)
    {
      var raw := env.fetch(t, criteria, options);
      result := [];
      var i := 0;
      while i < |raw|
        invariant 0 <= i <= |raw|
        invariant Valid()
        invariant (result, cache.State()) == Reconcile(registry, env, t, raw[..i], inTransaction, old(cache.State()))
      {
        var item := raw[i];
        var inSession := env.session(t, item.id);
        assert raw[..i + 1][..i] == raw[..i];
        if inSession.Some? {
          result := result + [inSession.value];
        } else {
          var inCache := cache.Get(item.typeId, item.id);
          if inCache.None? {
            if !inTransaction {
              cache.Add(item);
            }
            result := result + [item];
          } else {
            result := result + [inCache.value];
          }
        }
        i := i + 1;
      }
      assert raw[..|raw|] == raw;
      if !HasSortOrPaging(options) {
        result := env.sortList(result);
      }
    }

    /** GetList<T>(criteria, options): the cached list when there is one, else the concrete list, cached when allowed. */
    method GetList(t: TypeId, criteria: seq<QueryCriterion>, options: Option<seq<QueryOption>>, inTransaction: bool)
      returns (result: seq<Entity>)
      requires Valid() && t < registry.Count()
      modifies cache
      ensures Valid()
      ensures (result, cache.State()) == GetListSpec(registry, env, old(cache.State()), t, criteria, options, inTransaction)
    {
      var opts := options.GetOr([]);
      var all := WithSoftDelete(registry, t, criteria);
      var canCache := CacheEligible(all, opts);
      var key := "";
      if canCache {
        key := QueryKey(registry, env, t, all, opts);
        var cached := cache.GetList(t, key);
        if cached.Some? {
          return cached.value;
        }
      }
      result := GetConcreteList(t, all, opts, inTransaction);
      if canCache && !registry.needsResolution[t] && !inTransaction {
        cache.AddList(t, key, result);
      }
    }

    /**
     * GetList<T>(predicate, options): the translated conditions go to the
     * query; what could not be translated filters the records afterwards,
     * which are then cut to the number of records to fetch.
     */
    method GetListWhere(t: TypeId, condition: Expr, options: Option<seq<QueryOption>>, inTransaction: bool)
      returns (result: Result<seq<Entity>>)
      requires Valid() && t < registry.Count()
      modifies cache
      ensures Valid()
      ensures Run(condition, env.enforceOptimizedQueries, false).Failure? ==>
                result == Failure(Run(condition, env.enforceOptimizedQueries, false).error)
      ensures Run(condition, env.enforceOptimizedQueries, false).Success? ==> result.Success?
      ensures var run := Run(condition, env.enforceOptimizedQueries, false);
              run.Success? && run.value.dynamicCriteria.None? ==>
                (result.value, cache.State()) ==
                GetListSpec(registry, env, old(cache.State()), t, Conditions(run.value.conditions), Some(options.GetOr([])), inTransaction)
      ensures var run := Run(condition, env.enforceOptimizedQueries, false);
              run.Success? && run.value.dynamicCriteria.Some? ==>
                var (fetched, after) := GetListSpec(registry, env, old(cache.State()), t, Conditions(run.value.conditions), None, inTransaction);
                result.value == Truncate(Filter(env, fetched, condition), ResultsToFetch(options.GetOr([]))) &&
                cache.State() == after
    {
      var opts := options.GetOr([]);
      var run := Run(condition, env.enforceOptimizedQueries, false);
      if run.Failure? {
        return Failure(run.error);
      }
      var runner := run.value;
      if runner.dynamicCriteria.None? {
        var list := GetList(t, Conditions(runner.conditions), Some(opts), inTransaction);
        return Success(list);
      }
      var list := GetList(t, Conditions(runner.conditions), None, inTransaction);
      var filtered := Filter(env, list, runner.dynamicCriteria.value);
      return Success(Truncate(filtered, ResultsToFetch(opts)));
    }

    /**
     * Count<T>(predicate, options): a fully translated predicate is counted by
     * the provider over the conditions (soft-delete appended); otherwise it is
     * the number of records GetList returns for the same predicate.
     */
    method CountWhere(t: TypeId, condition: Expr, options: Option<seq<QueryOption>>, inTransaction: bool)
      returns (result: Result<int>)
      requires Valid() && t < registry.Count()
      modifies cache
      ensures Valid()
      ensures Run(condition, env.enforceOptimizedQueries, false).Failure? ==>
                result == Failure(Run(condition, env.enforceOptimizedQueries, false).error)
      ensures var run := Run(condition, env.enforceOptimizedQueries, false);
              run.Success? && run.value.dynamicCriteria.None? ==>
                result == Success(env.countRows(t, WithSoftDelete(registry, t, Conditions(run.value.conditions)), options.GetOr([]))) &&
                cache.State() == old(cache.State())
      ensures var run := Run(condition, env.enforceOptimizedQueries, false);
              run.Success? && run.value.dynamicCriteria.Some? ==>
                var (fetched, after) := GetListSpec(registry, env, old(cache.State()), t, Conditions(run.value.conditions), None, inTransaction);
                result == Success(|Truncate(Filter(env, fetched, condition), ResultsToFetch(options.GetOr([])))|) &&
                cache.State() == after
    {
      var run := Run(condition, env.enforceOptimizedQueries, false);
      if run.Failure? {
        return Failure(run.error);
      }
      if run.value.dynamicCriteria.None? {
        var conditions := WithSoftDelete(registry, t, Conditions(run.value.conditions));
        return Success(env.countRows(t, conditions, options.GetOr([])));
      }
      var list := GetListWhere(t, condition, options, inTransaction);
      return Success(|list.value|);
    }
  }

  /**
   * For a faithful predicate every record GetList returns for a partly
   * translated predicate satisfies the predicate itself.
   */
  lemma DynamicResultsSatisfy(env: Environment, fetched: seq<Entity>, condition: Expr, n: Option<int>)
    ensures forall x :: x in Truncate(Filter(env, fetched, condition), n) ==>
              x in fetched && Truth(condition, (u: Expr) => env.holds(x, u))
  {
    var f := Filter(env, fetched, condition);
    TruncatePrefix(f, n);
    forall x | x in Truncate(f, n)
      ensures x in fetched && Truth(condition, (u: Expr) => env.holds(x, u))
    {
      var r := Truncate(f, n);
      var k :| 0 <= k < |r| && r[k] == x;
      assert x == f[k];
    }
  }
}
