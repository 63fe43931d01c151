// The entity cache: entities by type and ID, and query results by type and
// query key, with list expiry up the base-type chain.
module Cache {
  import opened Wrappers
  import opened Text
  import opened EntityTypes

  type EntityMap = map<string, Entity>
  type ListMap = map<string, seq<Entity>>

  /**
   * What a cache holds: `types` is the Types dictionary, `lists` the Lists
   * dictionary, and `invalidated` the entities whose cached references have
   * been invalidated (InvalidateCachedReferences), with multiplicity.
   */
  datatype CacheState = CacheState(
    types: map<TypeId, EntityMap>,
    lists: map<TypeId, ListMap>,
    invalidated: multiset<Entity>)

  /** Every type of the dictionary is registered, and each entity is filed under its own type and ID. */
  predicate Filed(ts: TypeSystem, types: map<TypeId, EntityMap>)
  {
    (forall t :: t in types ==> t < ts.Count()) &&
    (forall t, k :: t in types && k in types[t] ==> types[t][k].typeId == t && types[t][k].id == k)
  }

  predicate Consistent(ts: TypeSystem, s: CacheState)
  {
    Filed(ts, s.types) && forall t :: t in s.lists ==> t < ts.Count()
  }

  // ---------------------------------------------------------------------------
  // Specification functions
  // ---------------------------------------------------------------------------

  /** GetEntities: the entity map of t, created empty when missing. */
  function Touch(types: map<TypeId, EntityMap>, t: TypeId): (r: map<TypeId, EntityMap>)
    ensures t in r
  {
    if t in types then types else types[t := map[]]
  }

  /** GetLists with auto-creation: the list map of t, created empty when missing. */
  function TouchLists(lists: map<TypeId, ListMap>, t: TypeId): map<TypeId, ListMap>
  {
    if t in lists then lists else lists[t := map[]]
  }

  /** The loop of ExpireLists from p up to Entity: clear every existing list map on the way. */
  function ClearChain(ts: TypeSystem, lists: map<TypeId, ListMap>, p: TypeId): map<TypeId, ListMap>
    requires ts.Valid() && p < ts.Count()
    decreases p
  {
    if p == EntityRoot then lists
    else ClearChain(ts, if p in lists then lists[p := map[]] else lists, ts.baseOf[p])
  }

  /** ExpireLists(t). */
  function Expire(ts: TypeSystem, lists: map<TypeId, ListMap>, t: TypeId): map<TypeId, ListMap>
    requires ts.Valid() && t < ts.Count()
  {
    if ts.CanCache(t) then ClearChain(ts, lists, t) else lists
  }

  /**
   * Get(t, id): the entity found and the Types dictionary afterwards (each
   * cacheable type visited gets an empty map if it had none).
   */
  function Find(ts: TypeSystem, types: map<TypeId, EntityMap>, t: TypeId, id: string): (Option<Entity>, map<TypeId, EntityMap>)
    requires ts.Valid() && t < ts.Count()
    decreases ts.Count() - t, 1, 0
  {
    if !ts.CanCache(t) then (None, types)
    else
      var touched := Touch(types, t);
      if id in touched[t] then (Some(touched[t][id]), touched)
      else FindAmong(ts, touched, t, id, 0)
  }

  /** The search of Get through the subtypes of t from the i-th on: the first hit wins. */
  function FindAmong(ts: TypeSystem, types: map<TypeId, EntityMap>, t: TypeId, id: string, i: nat): (Option<Entity>, map<TypeId, EntityMap>)
    requires ts.Valid() && t < ts.Count() && i <= |ts.subTypes[t]|
    decreases ts.Count() - t, 0, |ts.subTypes[t]| - i
  {
    if i == |ts.subTypes[t]| then (None, types)
    else
      var (r, after) := Find(ts, types, ts.subTypes[t][i], id);
      if r.Some? then (r, after) else FindAmong(ts, after, t, id, i + 1)
  }

  /** The Types dictionary after Add(e) for a cacheable type: e filed under its type and ID. */
  function Store(types: map<TypeId, EntityMap>, e: Entity): (r: map<TypeId, EntityMap>)
    ensures e.typeId in r && e.id in r[e.typeId] && r[e.typeId][e.id] == e
  {
    var m := Touch(types, e.typeId);
    m[e.typeId := m[e.typeId][e.id := e]]
  }

  /** Add(e). */
  function AddSpec(ts: TypeSystem, s: CacheState, e: Entity): CacheState
    requires ts.Valid() && e.typeId < ts.Count()
  {
    if !ts.CanCache(e.typeId) then s
    else
      var previous := if e.typeId in s.types && e.id in s.types[e.typeId]
                      then multiset{s.types[e.typeId][e.id]} else multiset{};
      CacheState(Store(s.types, e), Expire(ts, s.lists, e.typeId), s.invalidated + previous)
  }

  /** Remove(t, invalidate): the subtypes in the dictionary first, then t itself. */
  function RemoveTypeSpec(ts: TypeSystem, s: CacheState, t: TypeId, invalidate: bool): CacheState
    requires ts.Valid() && t < ts.Count()
    decreases ts.Count() - t, 1, 0
  {
    if !ts.CanCache(t) then s
    else
      var s1 := RemoveChildren(ts, s, t, invalidate, s.types.Keys, t + 1);
      if t in s1.types then
        CacheState(s1.types - {t}, Expire(ts, s1.lists, t),
                   s1.invalidated + (if invalidate then multiset(s1.types[t].Values) else multiset{}))
      else s1
  }

  /**
   * The loop of Remove(t) over the snapshot of dictionary keys whose base type
   * is t, taken in ascending order from k on.
   */
  function RemoveChildren(ts: TypeSystem, s: CacheState, t: TypeId, invalidate: bool, snapshot: set<TypeId>, k: nat): CacheState
    requires ts.Valid() && t < k <= ts.Count()
    decreases ts.Count() - t, 0, ts.Count() - k
  {
    if k == ts.Count() then s
    else
      var next := if k in snapshot && ts.baseOf[k] == t then RemoveTypeSpec(ts, s, k, invalidate) else s;
      RemoveChildren(ts, next, t, invalidate, snapshot, k + 1)
  }

  /** Remove(d, true) for each dependent type d in order. */
  function RemoveAll(ts: TypeSystem, s: CacheState, deps: seq<TypeId>): CacheState
    requires ts.Valid() && forall k :: 0 <= k < |deps| ==> deps[k] < ts.Count()
  {
    if deps == [] then s
    else RemoveTypeSpec(ts, RemoveAll(ts, s, deps[..|deps| - 1]), deps[|deps| - 1], true)
  }

  /** Remove(e): invalidate e, purge the dependent types, then drop e and expire the lists. */
  function RemoveSpec(ts: TypeSystem, s: CacheState, e: Entity): CacheState
    requires ts.Valid() && e.typeId < ts.Count()
  {
    var s1 := s.(invalidated := s.invalidated + multiset{e});
    var s2 := if ts.isApplicationEvent[e.typeId] then s1 else RemoveAll(ts, s1, ts.dependents[e.typeId]);
    if !ts.CanCache(e.typeId) then s2
    else
      var m := Touch(s2.types, e.typeId);
      CacheState(m[e.typeId := m[e.typeId] - {e.id}], Expire(ts, s2.lists, e.typeId), s2.invalidated)
  }

  /** GetList(t, key): the stored list, if the type is cacheable and the key is present. */
  function FindList(ts: TypeSystem, lists: map<TypeId, ListMap>, t: TypeId, key: string): Option<seq<Entity>>
    requires ts.Valid() && t < ts.Count()
  {
    if ts.CanCache(t) && t in lists && key in lists[t] then Some(lists[t][key]) else None
  }

  /** AddList(t, key, list). */
  function StoreList(ts: TypeSystem, lists: map<TypeId, ListMap>, t: TypeId, key: string, list: seq<Entity>): map<TypeId, ListMap>
    requires ts.Valid() && t < ts.Count()
  {
    if !ts.CanCache(t) then lists
    else
      var m := TouchLists(lists, t);
      m[t := m[t][key := list]]
  }

  /**
   * BuildQueryKey: the type's name, ':', each condition's text followed by
   * '|', and "|N:n" when a number of records is given.
   */
  function BuildQueryKey(typeName: string, conditions: seq<string>, numberOfRecords: Option<int>): string
  {
    typeName + ":" + ConditionsText(conditions) +
    (if numberOfRecords.Some? then "|N:" + IntToString(numberOfRecords.value) else "")
  }

  /** Each condition's text followed by '|'. */
  function ConditionsText(conditions: seq<string>): string
  {
    if conditions == [] then ""
    else ConditionsText(conditions[..|conditions| - 1]) + conditions[|conditions| - 1] + "|"
  }

  /** The total number of entities in the maps of the types below `bound`. */
  function CountBelow(types: map<TypeId, EntityMap>, bound: nat): nat
  {
    if bound == 0 then 0
    else CountBelow(types, bound - 1) + (if bound - 1 in types then |types[bound - 1]| else 0)
  }

  // ---------------------------------------------------------------------------
  // Properties
  // ---------------------------------------------------------------------------

  /** ExpireLists(t) keeps every key, clears exactly the maps of t's chain below Entity, and leaves the others alone. */
  lemma {:induction false} ClearChainMeaning(ts: TypeSystem, lists: map<TypeId, ListMap>, p: TypeId)
    requires ts.Valid() && p < ts.Count()
    ensures ClearChain(ts, lists, p).Keys == lists.Keys
    ensures forall q :: q in lists ==>
              ClearChain(ts, lists, p)[q] == if q in ts.Chain(p) then map[] else lists[q]
    decreases p
  {
    if p != EntityRoot {
      var next := if p in lists then lists[p := map[]] else lists;
      ClearChainMeaning(ts, next, ts.baseOf[p]);
    }
  }

  lemma ExpireMeaning(ts: TypeSystem, lists: map<TypeId, ListMap>, t: TypeId)
    requires ts.Valid() && t < ts.Count()
    ensures Expire(ts, lists, t).Keys == lists.Keys
    ensures forall q :: q in lists ==>
              Expire(ts, lists, t)[q] == if ts.CanCache(t) && q in ts.Chain(t) then map[] else lists[q]
  {
    ClearChainMeaning(ts, lists, t);
  }

  /**
   * The types Get(t, id) looks in: t itself when it can be cached, and,
   * recursively, the subtypes of t (GetSubTypes) that can be cached.
   */
  predicate Searched(ts: TypeSystem, t: TypeId, u: TypeId)
    requires ts.Valid() && t < ts.Count()
    decreases ts.Count() - t, 1
  {
    ts.CanCache(t) && (u == t || SearchedFrom(ts, t, 0, u))
  }

  /** u is searched below one of the subtypes of t from the i-th on. */
  predicate SearchedFrom(ts: TypeSystem, t: TypeId, i: nat, u: TypeId)
    requires ts.Valid() && t < ts.Count() && i <= |ts.subTypes[t]|
    decreases ts.Count() - t, 0, |ts.subTypes[t]| - i
  {
    i < |ts.subTypes[t]| && (Searched(ts, ts.subTypes[t][i], u) || SearchedFrom(ts, t, i + 1, u))
  }

  /**
   * Get only reads what is cached: a hit is an entity filed under the
   * requested ID in a searched type, and the lookup adds nothing but empty
   * maps of registered types. An entity cached under t itself is returned,
   * null means that no searched type holds the ID, and a type that cannot be
   * cached yields nothing and changes nothing.
   */
  lemma {:induction false} FindSound(ts: TypeSystem, types: map<TypeId, EntityMap>, t: TypeId, id: string)
    requires ts.Valid() && t < ts.Count()
    requires Filed(ts, types)
    ensures var (r, after) := Find(ts, types, t, id);
            (r.Some? ==> r.value.id == id && r.value.typeId in types && id in types[r.value.typeId] &&
                          types[r.value.typeId][id] == r.value) &&
            (!ts.CanCache(t) ==> r.None? && after == types) &&
            OnlyTouched(ts, types, after)
    ensures ts.CanCache(t) && t in types && id in types[t] ==> Find(ts, types, t, id).0 == Some(types[t][id])
    ensures Find(ts, types, t, id).0.Some? ==> Searched(ts, t, Find(ts, types, t, id).0.value.typeId)
    ensures Find(ts, types, t, id).0.None? ==>
              forall u :: Searched(ts, t, u) && u in types ==> id !in types[u]
    decreases ts.Count() - t, 1, 0
  {
    if ts.CanCache(t) {
      var touched := Touch(types, t);
      if id !in touched[t] {
        FindAmongSound(ts, touched, t, id, 0);
        var after := FindAmong(ts, touched, t, id, 0).1;
        OnlyTouchedTransitive(ts, types, touched, after);
      }
    }
  }

  lemma {:induction false} FindAmongSound(ts: TypeSystem, types: map<TypeId, EntityMap>, t: TypeId, id: string, i: nat)
    requires ts.Valid() && t < ts.Count() && i <= |ts.subTypes[t]|
    requires Filed(ts, types)
    ensures var (r, after) := FindAmong(ts, types, t, id, i);
            (r.Some? ==> r.value.id == id && r.value.typeId in types && id in types[r.value.typeId] &&
                          types[r.value.typeId][id] == r.value) &&
            OnlyTouched(ts, types, after)
    ensures FindAmong(ts, types, t, id, i).0.Some? ==>
              SearchedFrom(ts, t, i, FindAmong(ts, types, t, id, i).0.value.typeId)
    ensures FindAmong(ts, types, t, id, i).0.None? ==>
              forall u :: SearchedFrom(ts, t, i, u) && u in types ==> id !in types[u]
    decreases ts.Count() - t, 0, |ts.subTypes[t]| - i
  {
    if i < |ts.subTypes[t]| {
      var sub := ts.subTypes[t][i];
      FindSound(ts, types, sub, id);
      var (r, after) := Find(ts, types, sub, id);
      if r.None? {
        assert Filed(ts, after);
        FindAmongSound(ts, after, t, id, i + 1);
        OnlyTouchedTransitive(ts, types, after, FindAmong(ts, after, t, id, i + 1).1);
      }
    }
  }

  /** `after` is `types` plus empty maps for some registered types. */
  predicate OnlyTouched(ts: TypeSystem, types: map<TypeId, EntityMap>, after: map<TypeId, EntityMap>)
  {
    types.Keys <= after.Keys &&
    (forall t :: t in after ==> t in types || (t < ts.Count() && after[t] == map[])) &&
    (forall t :: t in types ==> after[t] == types[t])
  }

  lemma OnlyTouchedTransitive(ts: TypeSystem, a: map<TypeId, EntityMap>, b: map<TypeId, EntityMap>, c: map<TypeId, EntityMap>)
    requires OnlyTouched(ts, a, b) && OnlyTouched(ts, b, c)
    ensures OnlyTouched(ts, a, c)
  {
  }

  /** After Add(e) for a cacheable type, Get(type(e), id(e)) returns e. */
  lemma AddThenGet(ts: TypeSystem, s: CacheState, e: Entity)
    requires ts.Valid() && e.typeId < ts.Count() && ts.CanCache(e.typeId)
    ensures Find(ts, AddSpec(ts, s, e).types, e.typeId, e.id).0 == Some(e)
  {
  }

  /**
   * Add(e) for a cacheable type files e under its ID, replacing (and
   * invalidating) the entry it had, leaves every other entry alone, and expires
   * exactly the lists of its chain.
   */
  lemma AddMeaning(ts: TypeSystem, s: CacheState, e: Entity)
    requires ts.Valid() && e.typeId < ts.Count() && ts.CanCache(e.typeId)
    ensures var r := AddSpec(ts, s, e);
            r.types[e.typeId][e.id] == e &&
            (forall t, k :: t in s.types && k in s.types[t] && (t, k) != (e.typeId, e.id) ==>
               t in r.types && k in r.types[t] && r.types[t][k] == s.types[t][k]) &&
            (e.typeId in s.types && e.id in s.types[e.typeId] ==>
               r.invalidated == s.invalidated + multiset{s.types[e.typeId][e.id]}) &&
            r.lists.Keys == s.lists.Keys &&
            (forall q :: q in s.lists ==> r.lists[q] == if q in ts.Chain(e.typeId) then map[] else s.lists[q])
  {
    ExpireMeaning(ts, s.lists, e.typeId);
  }

  /** Remove(t) never adds a type, and never changes the entity map of a type it keeps. */
  lemma {:induction false} RemoveTypeShrinks(ts: TypeSystem, s: CacheState, t: TypeId, invalidate: bool)
    requires ts.Valid() && t < ts.Count()
    ensures var r := RemoveTypeSpec(ts, s, t, invalidate);
            Shrinks(s, r) && (ts.CanCache(t) ==> t !in r.types) &&
            (forall k :: k in s.types && k !in r.types && k < ts.Count() ==> t in ts.Lineage(k))
    decreases ts.Count() - t, 1, 0
  {
    if ts.CanCache(t) {
      var s1 := RemoveChildren(ts, s, t, invalidate, s.types.Keys, t + 1);
      RemoveChildrenShrinks(ts, s, t, invalidate, s.types.Keys, t + 1);
      ExpireMeaning(ts, s1.lists, t);
    }
  }

  lemma {:induction false} RemoveChildrenShrinks(ts: TypeSystem, s: CacheState, t: TypeId, invalidate: bool, snapshot: set<TypeId>, k: nat)
    requires ts.Valid() && t < k <= ts.Count()
    ensures var r := RemoveChildren(ts, s, t, invalidate, snapshot, k);
            Shrinks(s, r) &&
            (forall c :: c in s.types && c !in r.types && c < ts.Count() ==> t in ts.Lineage(c) && c != t)
    decreases ts.Count() - t, 0, ts.Count() - k
  {
    if k < ts.Count() {
      var next := if k in snapshot && ts.baseOf[k] == t then RemoveTypeSpec(ts, s, k, invalidate) else s;
      if k in snapshot && ts.baseOf[k] == t {
        RemoveTypeShrinks(ts, s, k, invalidate);
        forall c | c in s.types && c !in next.types && c < ts.Count()
          ensures t in ts.Lineage(c) && c != t
        {
          AncestorOfChild(ts, c, k);
        }
      }
      RemoveChildrenShrinks(ts, next, t, invalidate, snapshot, k + 1);
    }
  }

  /** The types of `r` are some of those of `s` with the same maps; lists keep their keys and are unchanged or cleared; nothing is un-invalidated. */
  predicate Shrinks(s: CacheState, r: CacheState)
  {
    r.types.Keys <= s.types.Keys &&
    (forall t :: t in r.types ==> r.types[t] == s.types[t]) &&
    r.lists.Keys == s.lists.Keys &&
    (forall q :: q in s.lists ==> r.lists[q] == s.lists[q] || r.lists[q] == map[]) &&
    s.invalidated <= r.invalidated
  }

  /** If k is in c's lineage, so is k's base type. */
  lemma AncestorOfChild(ts: TypeSystem, c: TypeId, k: TypeId)
    requires ts.Valid() && c < ts.Count() && 0 < k < ts.Count() && k in ts.Lineage(c)
    ensures ts.baseOf[k] in ts.Lineage(c) && ts.baseOf[k] != c
  {
    ChainClosed(ts, c, k);
  }

  lemma {:induction false} ChainClosed(ts: TypeSystem, c: TypeId, k: TypeId)
    requires ts.Valid() && c < ts.Count() && k in ts.Chain(c)
    ensures ts.baseOf[k] in ts.Lineage(c) && ts.baseOf[k] < c
    decreases c
  {
    if k != c {
      ChainClosed(ts, ts.baseOf[c], k);
    }
  }

  /** Remove(t) drops every dictionary type whose base type is t, when both can be cached. */
  lemma RemoveTypeDropsChildren(ts: TypeSystem, s: CacheState, t: TypeId, invalidate: bool)
    requires ts.Valid() && t < ts.Count() && ts.CanCache(t)
    ensures forall c :: c in s.types && t < c < ts.Count() && ts.baseOf[c] == t && ts.CanCache(c) ==>
              c !in RemoveTypeSpec(ts, s, t, invalidate).types
  {
    var s1 := RemoveChildren(ts, s, t, invalidate, s.types.Keys, t + 1);
    forall c | c in s.types && t < c < ts.Count() && ts.baseOf[c] == t && ts.CanCache(c)
      ensures c !in RemoveTypeSpec(ts, s, t, invalidate).types
    {
      RemoveChildrenDrops(ts, s, t, invalidate, s.types.Keys, t + 1, c);
      RemoveTypeShrinks(ts, s1, t, invalidate);
    }
  }

  lemma {:induction false} RemoveChildrenDrops(ts: TypeSystem, s: CacheState, t: TypeId, invalidate: bool, snapshot: set<TypeId>, k: nat, c: TypeId)
    requires ts.Valid() && t < k <= c < ts.Count()
    requires c in snapshot && ts.baseOf[c] == t && ts.CanCache(c)
    ensures c !in RemoveChildren(ts, s, t, invalidate, snapshot, k).types
    decreases ts.Count() - k
  {
    var next := if k in snapshot && ts.baseOf[k] == t then RemoveTypeSpec(ts, s, k, invalidate) else s;
    if k == c {
      RemoveTypeShrinks(ts, s, k, invalidate);
      if k + 1 < ts.Count() {
        RemoveChildrenShrinks(ts, next, t, invalidate, snapshot, k + 1);
      }
    } else {
      RemoveChildrenDrops(ts, next, t, invalidate, snapshot, k + 1, c);
    }
  }

  /**
   * Remove(t) for a cacheable type that has a map clears the lists of t and of
   * every ancestor below Entity.
   */
  lemma RemoveTypeExpires(ts: TypeSystem, s: CacheState, t: TypeId, invalidate: bool)
    requires ts.Valid() && t < ts.Count() && ts.CanCache(t) && t in s.types
    ensures var r := RemoveTypeSpec(ts, s, t, invalidate);
            forall q :: q in s.lists && q in ts.Chain(t) ==> q in r.lists && r.lists[q] == map[]
  {
    var s1 := RemoveChildren(ts, s, t, invalidate, s.types.Keys, t + 1);
    RemoveChildrenShrinks(ts, s, t, invalidate, s.types.Keys, t + 1);
    assert t in s1.types;
    ExpireMeaning(ts, s1.lists, t);
  }

  /** Removing the dependent types one after the other drops each cacheable one. */
  lemma {:induction false} RemoveAllDrops(ts: TypeSystem, s: CacheState, deps: seq<TypeId>)
    requires ts.Valid() && forall k :: 0 <= k < |deps| ==> deps[k] < ts.Count()
    ensures var r := RemoveAll(ts, s, deps);
            Shrinks(s, r) && forall k :: 0 <= k < |deps| && ts.CanCache(deps[k]) ==> deps[k] !in r.types
  {
    if deps != [] {
      var init := deps[..|deps| - 1];
      RemoveAllDrops(ts, s, init);
      var mid := RemoveAll(ts, s, init);
      RemoveTypeShrinks(ts, mid, deps[|deps| - 1], true);
      forall k | 0 <= k < |deps| && ts.CanCache(deps[k])
        ensures deps[k] !in RemoveAll(ts, s, deps).types
      {
        if k < |deps| - 1 {
          assert deps[k] == init[k];
        }
      }
    }
  }

  /**
   * After Remove(e): e is invalidated; for a cacheable type its ID is absent
   * from its type's map and its chain's lists are cleared; unless e is an
   * application event, every other cacheable dependent type is purged.
   */
  lemma RemoveMeaning(ts: TypeSystem, s: CacheState, e: Entity)
    requires ts.Valid() && e.typeId < ts.Count()
    ensures var r := RemoveSpec(ts, s, e);
            e in r.invalidated &&
            (ts.CanCache(e.typeId) ==> e.typeId in r.types && e.id !in r.types[e.typeId]) &&
            (ts.CanCache(e.typeId) ==> forall q :: q in s.lists && q in ts.Chain(e.typeId) ==> q in r.lists && r.lists[q] == map[]) &&
            (!ts.isApplicationEvent[e.typeId] ==>
               forall k :: (0 <= k < |ts.dependents[e.typeId]| && ts.CanCache(ts.dependents[e.typeId][k]) &&
                            ts.dependents[e.typeId][k] != e.typeId) ==> ts.dependents[e.typeId][k] !in r.types)
  {
    var s1 := s.(invalidated := s.invalidated + multiset{e});
    var s2 := if ts.isApplicationEvent[e.typeId] then s1 else RemoveAll(ts, s1, ts.dependents[e.typeId]);
    if !ts.isApplicationEvent[e.typeId] {
      RemoveAllDrops(ts, s1, ts.dependents[e.typeId]);
    }
    if ts.CanCache(e.typeId) {
      ExpireMeaning(ts, s2.lists, e.typeId);
    }
  }

  /** AddList(t, key, l) followed by GetList(t, key) returns l, and every other entry reads as before. */
  lemma AddListThenGetList(ts: TypeSystem, lists: map<TypeId, ListMap>, t: TypeId, key: string, list: seq<Entity>)
    requires ts.Valid() && t < ts.Count()
    ensures FindList(ts, StoreList(ts, lists, t, key, list), t, key) ==
            if ts.CanCache(t) then Some(list) else None
    ensures forall u: TypeId, k: string :: u < ts.Count() && (u, k) != (t, key) ==>
              FindList(ts, StoreList(ts, lists, t, key, list), u, k) == FindList(ts, lists, u, k)
  {
  }

  /** A second AddList under the same key overwrites the first. */
  lemma AddListOverwrites(ts: TypeSystem, lists: map<TypeId, ListMap>, t: TypeId, key: string, first: seq<Entity>, second: seq<Entity>)
    requires ts.Valid() && t < ts.Count()
    ensures StoreList(ts, StoreList(ts, lists, t, key, first), t, key, second) == StoreList(ts, lists, t, key, second)
  {
    if ts.CanCache(t) {
      var m := TouchLists(lists, t)[t];
      assert m[key := first][key := second] == m[key := second];
    }
  }

  /** The key starts with the type name and ':', and ends with "|N:n" exactly when n is given. */
  lemma QueryKeyShape(typeName: string, conditions: seq<string>, n: Option<int>)
    ensures StartsWith(BuildQueryKey(typeName, conditions, n), typeName + ":")
    ensures n.Some? ==> EndsWith(BuildQueryKey(typeName, conditions, n), "|N:" + IntToString(n.value))
    ensures n.None? ==> BuildQueryKey(typeName, conditions, n) == typeName + ":" + ConditionsText(conditions)
  {
    var key := BuildQueryKey(typeName, conditions, n);
    var head := typeName + ":" + ConditionsText(conditions);
    assert key[..|typeName + ":"|] == typeName + ":";
    if n.Some? {
      var tail := "|N:" + IntToString(n.value);
      assert key == head + tail;
      assert key[|key| - |tail|..] == tail;
    }
  }

  /** Every condition is followed by '|', so the texts read back in order. */
  lemma {:induction false} ConditionsTextLength(conditions: seq<string>)
    ensures |ConditionsText(conditions)| == |conditions| + SumLengths(conditions)
  {
    if conditions != [] {
      ConditionsTextLength(conditions[..|conditions| - 1]);
    }
  }

  function SumLengths(texts: seq<string>): nat
  {
    if texts == [] then 0 else SumLengths(texts[..|texts| - 1]) + |texts[|texts| - 1]|
  }

  /** Keys for the same type and conditions but different record limits differ. */
  lemma QueryKeySeparatesLimits(typeName: string, conditions: seq<string>, n1: Option<int>, n2: Option<int>)
    requires n1 != n2
    ensures BuildQueryKey(typeName, conditions, n1) != BuildQueryKey(typeName, conditions, n2)
  {
    var head := typeName + ":" + ConditionsText(conditions);
    var k1, k2 := BuildQueryKey(typeName, conditions, n1), BuildQueryKey(typeName, conditions, n2);
    if n1.Some? && n2.Some? {
      var t1, t2 := IntToString(n1.value), IntToString(n2.value);
      assert k1 == head + ("|N:" + t1) && k2 == head + ("|N:" + t2);
      if k1 == k2 {
        SameTail(head, "|N:" + t1, "|N:" + t2);
        assert t1 == ("|N:" + t1)[3..] && t2 == ("|N:" + t2)[3..];
        IntToStringInjective(n1.value, n2.value);
      }
    } else if n1.Some? {
      assert |k1| > |head| == |k2|;
    } else {
      assert |k2| > |head| == |k1|;
    }
  }

  lemma SameTail(head: string, a: string, b: string)
    requires head + a == head + b
    ensures a == b
  {
    assert a == (head + a)[|head|..];
    assert b == (head + b)[|head|..];
  }

  /** CountBelow is zero exactly when every map below the bound is empty. */
  lemma {:induction false} CountBelowZero(types: map<TypeId, EntityMap>, bound: nat)
    ensures CountBelow(types, bound) == 0 <==> forall t :: t in types && t < bound ==> types[t] == map[]
  {
    if bound > 0 {
      CountBelowZero(types, bound - 1);
      if CountBelow(types, bound) == 0 {
        assert bound - 1 in types ==> |types[bound - 1]| == 0;
      }
    }
  }

  // ---------------------------------------------------------------------------
  // The cache object
  // ---------------------------------------------------------------------------

  class Cache {
    const registry: TypeSystem
    var types: map<TypeId, EntityMap>
    var lists: map<TypeId, ListMap>
    var invalidated: multiset<Entity>

    function State(): CacheState
      reads this
    {
      CacheState(types, lists, invalidated)
    }

    predicate Valid()
      reads this
    {
      registry.Valid() && Consistent(registry, State())
    }

    /** A new, empty cache over the application's types. */
    constructor (ts: TypeSystem)
      requires ts.Valid()
      ensures Valid() && registry == ts
      ensures types == map[] && lists == map[] && invalidated == multiset{}
    {
      registry := ts;
      types := map[];
      lists := map[];
      invalidated := multiset{};
    }

    /** GetEntities: create the entity map of t if it is missing. */
    method GetEntities(t: TypeId)
      requires Valid() && t < registry.Count()
      modifies this
      ensures Valid() && types == Touch(old(types), t)
      ensures lists == old(lists) && invalidated == old(invalidated)
    {
      if t !in types {
        types := types[t := map[]];
      }
    }

    /** Get(t, id): the cached entity of type t (or one of its subtypes) with that ID. */
    method Get(t: TypeId, id: string) returns (r: Option<Entity>)
      requires Valid() && t < registry.Count()
      modifies this
      ensures Valid()
      ensures (r, types) == Find(registry, old(types), t, id)
      ensures lists == old(lists) && invalidated == old(invalidated)
      decreases registry.Count() - t
    {
      if !registry.CanCache(t) {
        return None;
      }
      GetEntities(t);
      if id in types[t] {
        return Some(types[t][id]);
      }
      var subs := registry.subTypes[t];
      var i := 0;
      while i < |subs|
        invariant 0 <= i <= |subs|
        invariant Valid() && lists == old(lists) && invalidated == old(invalidated)
        invariant FindAmong(registry, types, t, id, i) == Find(registry, old(types), t, id)
      {
        r := Get(subs[i], id);
        if r.Some? {
          return r;
        }
        i := i + 1;
      }
      return None;
    }

    /** Add(e): file e under its type and ID, replacing an entry with that ID, and expire the lists. */
    method Add(e: Entity)
      requires Valid() && e.typeId < registry.Count()
      modifies this
      ensures Valid()
      ensures State() == AddSpec(registry, old(State()), e)
    {
      if !registry.CanCache(e.typeId) {
        return;
      }
      GetEntities(e.typeId);
      var entities := types[e.typeId];
      if e.id in entities {
        invalidated := invalidated + multiset{entities[e.id]};
        assert (entities - {e.id})[e.id := e] == entities[e.id := e];
        entities := entities - {e.id};
      }
      types := types[e.typeId := entities[e.id := e]];
      ExpireLists(e.typeId);
    }

    /** Remove(e): invalidate e, purge its dependent types, drop it from its type's map and expire the lists. */
    method Remove(e: Entity)
      requires Valid() && e.typeId < registry.Count()
      modifies this
      ensures Valid()
      ensures State() == RemoveSpec(registry, old(State()), e)
    {
      invalidated := invalidated + multiset{e};
      ghost var s1 := State();
      if !registry.isApplicationEvent[e.typeId] {
        var deps := registry.dependents[e.typeId];
        var i := 0;
        while i < |deps|
          invariant 0 <= i <= |deps|
          invariant Valid() && State() == RemoveAll(registry, s1, deps[..i])
        {
          RemoveType(deps[i], true);
          assert deps[..i + 1][..i] == deps[..i];
          i := i + 1;
        }
        assert deps[..|deps|] == deps;
      }
      if !registry.CanCache(e.typeId) {
        return;
      }
      GetEntities(e.typeId);
      if e.id in types[e.typeId] {
        types := types[e.typeId := types[e.typeId] - {e.id}];
      } else {
        assert types[e.typeId] - {e.id} == types[e.typeId];
      }
      ExpireLists(e.typeId);
    }

    /** Remove(t, invalidate): drop the maps of t and of the dictionary's subtypes of t. */
    method RemoveType(t: TypeId, invalidate: bool)
      requires Valid() && t < registry.Count()
      modifies this
      ensures Valid()
      ensures State() == RemoveTypeSpec(registry, old(State()), t, invalidate)
      decreases registry.Count() - t
    {
      if !registry.CanCache(t) {
        return;
      }
      var snapshot := types.Keys;
      var k := t + 1;
      while k < registry.Count()
        invariant t < k <= registry.Count()
        invariant Valid()
        invariant RemoveChildren(registry, State(), t, invalidate, snapshot, k) ==
                  RemoveChildren(registry, old(State()), t, invalidate, snapshot, t + 1)
      {
        if k in snapshot && registry.baseOf[k] == t {
          RemoveType(k, invalidate);
        }
        k := k + 1;
      }
      if t in types {
        var entities := types[t];
        types := types - {t};
        ExpireLists(t);
        if invalidate {
          invalidated := invalidated + multiset(entities.Values);
        }
      }
    }

    /** ExpireLists(t): clear the list maps from t up to Entity. */
    method ExpireLists(t: TypeId)
      requires Valid() && t < registry.Count()
      modifies this
      ensures Valid()
      ensures lists == Expire(registry, old(lists), t)
      ensures types == old(types) && invalidated == old(invalidated)
    {
      if !registry.CanCache(t) {
        return;
      }
      var p: TypeId := t;
      while p != EntityRoot
        invariant Valid() && p < registry.Count()
        invariant types == old(types) && invalidated == old(invalidated)
        invariant lists.Keys == old(lists).Keys
        invariant ClearChain(registry, lists, p) == ClearChain(registry, old(lists), t)
        decreases p
      {
        if p in lists {
          lists := lists[p := map[]];
        }
        p := registry.baseOf[p];
      }
    }

    /** GetList(t, key): the cached query result, creating t's list map when missing. */
    method GetList(t: TypeId, key: string) returns (r: Option<seq<Entity>>)
      requires Valid() && t < registry.Count()
      modifies this
      ensures Valid()
      ensures r == FindList(registry, old(lists), t, key)
      ensures lists == if registry.CanCache(t) then TouchLists(old(lists), t) else old(lists)
      ensures types == old(types) && invalidated == old(invalidated)
    {
      if !registry.CanCache(t) {
        return None;
      }
      if t !in lists {
        lists := lists[t := map[]];
      }
      if key in lists[t] {
        return Some(lists[t][key]);
      }
      return None;
    }

    /** AddList(t, key, list): store a query result, replacing one under the same key. */
    method AddList(t: TypeId, key: string, list: seq<Entity>)
      requires Valid() && t < registry.Count()
      modifies this
      ensures Valid()
      ensures lists == StoreList(registry, old(lists), t, key, list)
      ensures types == old(types) && invalidated == old(invalidated)
    {
      if !registry.CanCache(t) {
        return;
      }
      if t !in lists {
        lists := lists[t := map[]];
      }
      var m := lists[t];
      if key in m {
        assert (m - {key})[key := list] == m[key := list];
        m := m - {key};
      }
      lists := lists[t := m[key := list]];
    }

    /** ClearAll: empty both dictionaries. */
    method ClearAll()
      requires Valid()
      modifies this
      ensures Valid() && types == map[] && lists == map[] && invalidated == old(invalidated)
      ensures CountAllObjects() == 0
    {
      types := map[];
      lists := map[];
      CountBelowZero(types, registry.Count());
    }

    /** CountAllObjects: the number of cached entities over all types. */
    function CountAllObjects(): (r: nat)
      reads this
      requires Valid()
      ensures r == 0 <==> forall t :: t in types ==> types[t] == map[]
    {
      CountBelowZero(types, registry.Count());
      CountBelow(types, registry.Count())
    }
  }
}
