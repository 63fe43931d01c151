// The application's entity types, as the data layer sees them through
// reflection: a base-type function, the subtypes an assembly scan finds, the
// attributes that drive caching, and the entity records themselves.
module EntityTypes {
  import opened Wrappers

  /** An entity type, numbered so that a base type has a smaller number than its subtypes. */
  type TypeId = nat

  /** The `Entity` class at the root of every entity hierarchy. */
  const EntityRoot: TypeId := 0

  /**
   * The registry of entity types 0 .. Count() - 1:
   * - `baseOf[t]`: t.BaseType (unused for the root);
   * - `cacheAttribute[t]`: the value of [CacheObjects] on t, if it carries one;
   * - `cachingEnabled`: the application-wide caching setting;
   * - `subTypes[t]`: what Assembly.GetSubTypes(t) lists, in its order;
   * - `dependents[t]`: CacheDependentAttribute.GetDependentTypes(t);
   * - `isApplicationEvent[t]`: t implements IApplicationEvent;
   * - `softDelete[t]`: SoftDeleteAttribute.RequiresSoftdeleteQuery for t;
   * - `needsResolution[t]`: the type is abstract or an interface, so its
   *   rows come from several providers (NeedsTypeResolution);
   * - `names[t]`: the cached assembly-qualified name.
   */
  datatype TypeSystem = TypeSystem(
    baseOf: seq<TypeId>,
    cacheAttribute: seq<Option<bool>>,
    cachingEnabled: bool,
    subTypes: seq<seq<TypeId>>,
    dependents: seq<seq<TypeId>>,
    isApplicationEvent: seq<bool>,
    softDelete: seq<bool>,
    needsResolution: seq<bool>,
    names: seq<string>)
  {
    function Count(): nat
    {
      |baseOf|
    }

    /** Every table covers every type, base types come first, and subtypes come after their type. */
    predicate Valid()
    {
      |baseOf| >= 1 &&
      |cacheAttribute| == |baseOf| && |subTypes| == |baseOf| && |dependents| == |baseOf| &&
      |isApplicationEvent| == |baseOf| && |softDelete| == |baseOf| &&
      |needsResolution| == |baseOf| && |names| == |baseOf| &&
      (forall t :: 0 < t < |baseOf| ==> baseOf[t] < t) &&
      (forall t, k :: 0 <= t < |subTypes| && 0 <= k < |subTypes[t]| ==> t < subTypes[t][k] < |baseOf|) &&
      (forall t, k :: 0 <= t < |dependents| && 0 <= k < |dependents[t]| ==> dependents[t][k] < |baseOf|)
    }

    /** Cache.CanCache: the type's [CacheObjects] setting, else the application-wide one. */
    predicate CanCache(t: TypeId)
      requires Valid() && t < Count()
    {
      cacheAttribute[t].GetOr(cachingEnabled)
    }

    /** The types from t up its base-type chain, stopping before Entity. */
    function Chain(t: TypeId): (r: set<TypeId>)
      requires Valid() && t < Count()
      ensures forall p :: p in r ==> 0 < p <= t
      ensures t != EntityRoot ==> t in r
      decreases t
    {
      if t == EntityRoot then {} else {t} + Chain(baseOf[t])
    }

    /** t itself and all of its ancestors, Entity included. */
    function Lineage(t: TypeId): set<TypeId>
      requires Valid() && t < Count()
    {
      Chain(t) + {EntityRoot}
    }
  }

  /**
   * An entity record: its runtime type, its ID in text form (GetId().ToString())
   * and the rest of its state, which the data layer does not look into.
   */
  datatype Entity = Entity(typeId: TypeId, id: string, data: string)
}
