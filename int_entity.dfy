// Entities with a 32-bit integer ID that is generated lazily, from a per-type
// counter seeded from the database.
module IntEntity {
  import opened Wrappers

  const MinInt32: int := -0x8000_0000
  const MaxInt32: int := 0x7fff_ffff

  /** System.Int32. */
  type Int32 = x: int | MinInt32 <= x <= MaxInt32

  /** Unchecked `x + 1` on an int: int.MaxValue wraps to int.MinValue. */
  function Increment(x: Int32): (r: Int32)
    ensures x < MaxInt32 ==> r == x + 1
    ensures x == MaxInt32 ==> r == MinInt32
  {
    if x == MaxInt32 then MinInt32 else x + 1
  }

  /**
   * The classes derived from IntEntity: type 0 is IntEntity itself, and
   * `baseOf[t]` is t.BaseType, numbered before t. `transient[t]` is
   * [TransientEntity] on t, and `maxStoredId[t]` is the ID of the first record
   * of GetList(t, Take(1), OrderByDescending("ID")), if there is one.
   */
  datatype IdTypes = IdTypes(baseOf: seq<nat>, transient: seq<bool>, maxStoredId: seq<Option<Int32>>)
  {
    predicate Valid()
    {
      |baseOf| >= 1 && |transient| == |baseOf| && |maxStoredId| == |baseOf| &&
      forall t :: 0 < t < |baseOf| ==> baseOf[t] < t
    }

    /** The ancestor of t (or t itself) that directly extends IntEntity. */
    function IdRoot(t: nat): (r: nat)
      requires Valid() && 0 < t < |baseOf|
      ensures 0 < r <= t && baseOf[r] == 0
      ensures baseOf[t] == 0 ==> r == t
      ensures baseOf[t] != 0 ==> r == IdRoot(baseOf[t])
      decreases t
    {
      if baseOf[t] == 0 then t else IdRoot(baseOf[t])
    }

    /** The first ID of a root type: 1 if transient, else the highest stored ID + 1, or 1 with no record. */
    function InitialId(root: nat): Int32
      requires Valid() && root < |baseOf|
    {
      if transient[root] then 1
      else match maxStoredId[root]
        case None => 1
        case Some(m) => Increment(m)
    }
  }

  /** DefaultNewIdGenerator(t): AddOrUpdate on t's root: seed it on first use, otherwise add one. */
  function NextId(ts: IdTypes, lastUsedIds: map<nat, Int32>, t: nat): (Int32, map<nat, Int32>)
    requires ts.Valid() && 0 < t < |ts.baseOf|
  {
    var root := ts.IdRoot(t);
    var id := if root in lastUsedIds then Increment(lastUsedIds[root]) else ts.InitialId(root);
    (id, lastUsedIds[root := id])
  }

  /**
   * The first ID of a hierarchy is 1 for a transient root and otherwise one
   * past the highest stored ID (or 1); later IDs add one to the last. Only
   * the root's counter changes, and the new ID is what it now holds.
   */
  lemma NextIdMeaning(ts: IdTypes, lastUsedIds: map<nat, Int32>, t: nat)
    requires ts.Valid() && 0 < t < |ts.baseOf|
    ensures var root := ts.IdRoot(t);
            var (id, after) := NextId(ts, lastUsedIds, t);
            (root !in lastUsedIds && ts.transient[root] ==> id == 1) &&
            (root !in lastUsedIds && !ts.transient[root] && ts.maxStoredId[root].None? ==> id == 1) &&
            (root !in lastUsedIds && !ts.transient[root] && ts.maxStoredId[root].Some? && ts.maxStoredId[root].value < MaxInt32 ==>
               id == ts.maxStoredId[root].value + 1) &&
            (root in lastUsedIds && lastUsedIds[root] < MaxInt32 ==> id == lastUsedIds[root] + 1) &&
            after.Keys == lastUsedIds.Keys + {root} && after[root] == id &&
            (forall k :: k in lastUsedIds && k != root ==> after[k] == lastUsedIds[k])
  {
  }

  /** A subclass and its ancestors below IntEntity draw from one counter. */
  lemma {:induction false} SharedCounter(ts: IdTypes, t: nat)
    requires ts.Valid() && 0 < t < |ts.baseOf| && ts.baseOf[t] != 0
    ensures ts.IdRoot(t) == ts.IdRoot(ts.baseOf[t])
    ensures forall last :: NextId(ts, last, t) == NextId(ts, last, ts.baseOf[t])
  {
  }

  /** The IDs handed out by successive generations for the given types. */
  function Generate(ts: IdTypes, lastUsedIds: map<nat, Int32>, types: seq<nat>): (seq<Int32>, map<nat, Int32>)
    requires ts.Valid() && forall k :: 0 <= k < |types| ==> 0 < types[k] < |ts.baseOf|
    decreases |types|
  {
    if types == [] then ([], lastUsedIds)
    else
      var (id, after) := NextId(ts, lastUsedIds, types[0]);
      var (rest, final) := Generate(ts, after, types[1..]);
      ([id] + rest, final)
  }

  /**
   * Within one hierarchy whose counter is set, each generation adds one, so
   * the IDs strictly increase until the counter would pass int.MaxValue.
   */
  lemma {:induction false} GenerateIncreases(ts: IdTypes, lastUsedIds: map<nat, Int32>, types: seq<nat>, root: nat)
    requires ts.Valid() && forall k :: 0 <= k < |types| ==> 0 < types[k] < |ts.baseOf| && ts.IdRoot(types[k]) == root
    requires root in lastUsedIds && lastUsedIds[root] + |types| <= MaxInt32
    ensures var (ids, final) := Generate(ts, lastUsedIds, types);
            |ids| == |types| &&
            (forall k :: 0 <= k < |ids| ==> ids[k] == lastUsedIds[root] + 1 + k) &&
            root in final && final[root] == lastUsedIds[root] + |types|
    decreases |types|
  {
    if types != [] {
      var (id, after) := NextId(ts, lastUsedIds, types[0]);
      assert id == lastUsedIds[root] + 1 && after[root] == id;
      GenerateIncreases(ts, after, types[1..], root);
    }
  }

  /**
   * DefaultNewIdGenerator on IntEntity itself: its base types never reach
   * IntEntity, so the walk up BaseType ends at null and dereferences it.
   */
  const NoIdRoot: Error := NullDereference

  /** The static LastUsedIds table behind DefaultNewIdGenerator. */
  class IdGenerator {
    const types: IdTypes
    var lastUsedIds: map<nat, Int32>

    constructor (ts: IdTypes)
      requires ts.Valid()
      ensures types == ts && lastUsedIds == map[]
    {
      types := ts;
      lastUsedIds := map[];
    }

    /** DefaultNewIdGenerator(GetType()); IntEntity itself (type 0) has no root and fails. */
    method NewId(t: nat) returns (r: Result<Int32>)
      requires types.Valid() && t < |types.baseOf|
      modifies this
      ensures t == 0 ==> r == Failure(NoIdRoot) && lastUsedIds == old(lastUsedIds)
      ensures 0 < t ==> r.Success? && (r.value, lastUsedIds) == NextId(types, old(lastUsedIds), t)
    {
      if t == 0 {
        return Failure(NoIdRoot);
      }
      var root := types.IdRoot(t);
      var id;
      if root in lastUsedIds {
        id := Increment(lastUsedIds[root]);
      } else {
        id := types.InitialId(root);
      }
      lastUsedIds := lastUsedIds[root := id];
      r := Success(id);
    }
  }

  /** An IntEntity instance of runtime type `typeId` (0 for IntEntity itself), with its lazily loaded ID. */
  class IntEntity {
    const typeId: nat
    const generator: IdGenerator
    var isIdLoaded: bool
    var id: Int32

    constructor (t: nat, g: IdGenerator)
      ensures typeId == t && generator == g && !isIdLoaded && id == 0
    {
      typeId := t;
      generator := g;
      isIdLoaded := false;
      id := 0;
    }

    /** The instance's runtime type is one of the generator's types. */
    predicate Valid()
      reads generator
    {
      generator.types.Valid() && typeId < |generator.types.baseOf|
    }

    /**
     * The ID getter: the loaded ID, or a newly generated one that is then
     * kept; generating fails for IntEntity itself, leaving the ID unloaded.
     */
    method GetID() returns (r: Result<Int32>)
      requires Valid()
      modifies this, generator
      ensures r.Success? ==> isIdLoaded && id == r.value
      ensures old(isIdLoaded) ==> r == Success(old(id)) && generator.lastUsedIds == old(generator.lastUsedIds)
      ensures !old(isIdLoaded) && typeId == 0 ==>
                r == Failure(NoIdRoot) && !isIdLoaded && id == old(id) &&
                generator.lastUsedIds == old(generator.lastUsedIds)
      ensures !old(isIdLoaded) && 0 < typeId ==>
                r.Success? && (r.value, generator.lastUsedIds) == NextId(generator.types, old(generator.lastUsedIds), typeId)
    {
      if isIdLoaded {
        return Success(id);
      }
      r := generator.NewId(typeId);
      if r.Success? {
        id := r.value;
        isIdLoaded := true;
      }
    }

    /** The ID setter: later reads return the value without generating. */
    method SetID(value: Int32)
      modifies this
      ensures isIdLoaded && id == value
    {
      id := value;
      isIdLoaded := true;
    }

    /**
     * Equals(other): same runtime type and the same ID, reading both IDs
     * (which may generate them, or fail for IntEntity itself); a null or
     * other-typed object is unequal without reading any ID.
     */
    method Equals(other: IntEntity?) returns (r: Result<bool>)
      requires other != null && other.typeId == typeId ==> Valid() && other.generator == generator
      modifies this, other, generator
      ensures other == null || other.typeId != typeId ==>
                r == Success(false) && id == old(id) && isIdLoaded == old(isIdLoaded) &&
                generator.lastUsedIds == old(generator.lastUsedIds)
      ensures other != null && other.typeId == typeId ==>
                (r.Failure? <==> typeId == 0 && !(old(isIdLoaded) && old(other.isIdLoaded))) &&
                (r.Success? ==> isIdLoaded && other.isIdLoaded && (r.value <==> id == other.id))
    {
      if other == null || other.typeId != typeId {
        return Success(false);
      }
      var mine := GetID();
      if mine.Failure? {
        return Failure(mine.error);
      }
      var theirs := other.GetID();
      if theirs.Failure? {
        return Failure(theirs.error);
      }
      r := Success(mine.value == theirs.value);
    }

    /** GetHashCode: the hash of the ID, which for an int is the ID itself, so equal entities hash alike. */
    method GetHashCode() returns (r: Result<int>)
      requires Valid()
      modifies this, generator
      ensures r.Success? ==> isIdLoaded && r.value == id
      ensures old(isIdLoaded) ==> r == Success(old(id))
      ensures r.Failure? <==> !old(isIdLoaded) && typeId == 0
    {
      var got := GetID();
      if got.Failure? {
        return Failure(got.error);
      }
      r := Success(got.value);
    }
  }

  /** `entity == id` for a nullable int: a null entity equals only a null id. */
  method EqualsId(entity: IntEntity?, id: Option<Int32>) returns (r: Result<bool>)
    requires entity != null ==> entity.Valid()
    modifies entity, if entity == null then {} else {entity.generator}
    ensures entity == null ==> r == Success(id.None?)
    ensures entity != null ==> (r.Failure? <==> !old(entity.isIdLoaded) && entity.typeId == 0)
    ensures entity != null && r.Success? ==> (r.value <==> id == Some(entity.id)) && entity.isIdLoaded
  {
    if entity == null {
      return Success(id.None?);
    }
    var mine := entity.GetID();
    if mine.Failure? {
      return Failure(mine.error);
    }
    r := Success(id == Some(mine.value));
  }

  /** `entity == id` for an int: never true of a null entity. */
  method EqualsInt(entity: IntEntity?, id: Int32) returns (r: Result<bool>)
    requires entity != null ==> entity.Valid()
    modifies entity, if entity == null then {} else {entity.generator}
    ensures entity == null ==> r == Success(false)
    ensures entity != null ==> (r.Failure? <==> !old(entity.isIdLoaded) && entity.typeId == 0)
    ensures entity != null && r.Success? ==> (r.value <==> id == entity.id) && entity.isIdLoaded
  {
    r := EqualsId(entity, Some(id));
  }
}
