// InterfaceDataProvider: serves queries on an interface type by asking the
// database about each class that implements it.
module InterfaceDataProvider {
  import opened Wrappers
  import opened Criteria
  import opened QueryOptions
  import opened EntityTypes
  import opened Lists

  /** A type of the application domain (a class or an interface), by position in the universe. */
  type ClassId = nat

  /** What reflection tells about a type: its name, whether it is an interface, its base type, the interfaces it implements, and its assembly. */
  datatype TypeInfo = TypeInfo(name: string, isInterface: bool, baseType: Option<ClassId>,
                               interfaces: set<ClassId>, assembly: nat)

  /**
   * A loaded assembly: its identity, the assemblies it References(), whether
   * GetTypes() succeeds on it, and the types it declares in GetTypes() order.
   */
  datatype AssemblyInfo = AssemblyInfo(id: nat, references: set<nat>, loads: bool, types: seq<ClassId>)

  /** AppDomain.CurrentDomain.GetAssemblies() and the types they declare. */
  datatype Universe = Universe(types: seq<TypeInfo>, assemblies: seq<AssemblyInfo>)
  {
    /** Assemblies are distinct, and each declares distinct types of its own. */
    predicate Valid()
    {
      (forall a, k :: 0 <= a < |assemblies| && 0 <= k < |assemblies[a].types| ==>
         assemblies[a].types[k] < |types| && types[assemblies[a].types[k]].assembly == assemblies[a].id) &&
      (forall a, b :: 0 <= a < b < |assemblies| ==> assemblies[a].id != assemblies[b].id) &&
      (forall a :: 0 <= a < |assemblies| ==> Distinct(assemblies[a].types))
    }
  }

  // ---------------------------------------------------------------------------
  // FindImplementers, as functions
  // ---------------------------------------------------------------------------

  /** The test of the inner loop: not the interface itself, not an interface, and implementing it. */
  predicate Candidate(u: Universe, iface: ClassId, t: ClassId)
    requires t < |u.types|
  {
    t != iface && !u.types[t].isInterface && iface in u.types[t].interfaces
  }

  /** The candidates among the first types of one assembly, in order. */
  function ScanTypes(u: Universe, iface: ClassId, ts: seq<ClassId>): (r: seq<ClassId>)
    requires forall k :: 0 <= k < |ts| ==> ts[k] < |u.types|
    ensures forall x :: x in r ==> x in ts && Candidate(u, iface, x)
    ensures forall x :: x in ts && Candidate(u, iface, x) ==> x in r
    ensures forall k :: 0 <= k < |r| ==> r[k] < |u.types|
  {
    if ts == [] then []
    else
      var last := ts[|ts| - 1];
      ScanTypes(u, iface, ts[..|ts| - 1]) + (if Candidate(u, iface, last) then [last] else [])
  }

  /** Whether the scan looks into assembly a: it References the interface's assembly and its types load. */
  predicate Scanned(u: Universe, iface: ClassId, a: nat)
    requires iface < |u.types| && a < |u.assemblies|
  {
    u.types[iface].assembly in u.assemblies[a].references && u.assemblies[a].loads
  }

  /** The candidates of the first n assemblies, in order. */
  function Scan(u: Universe, iface: ClassId, n: nat): (r: seq<ClassId>)
    requires u.Valid() && iface < |u.types| && n <= |u.assemblies|
    ensures forall k :: 0 <= k < |r| ==> r[k] < |u.types|
  {
    if n == 0 then []
    else
      Scan(u, iface, n - 1) +
      (if Scanned(u, iface, n - 1) then ScanTypes(u, iface, u.assemblies[n - 1].types) else [])
  }

  /** The candidates whose base type is itself a candidate. */
  function WithParentsIn(list: seq<ClassId>, all: seq<ClassId>, u: Universe): (r: seq<ClassId>)
    requires forall k :: 0 <= k < |list| ==> list[k] < |u.types|
    ensures forall x :: x in r <==> x in list && u.types[x].baseType.Some? && u.types[x].baseType.value in all
  {
    if list == [] then []
    else
      var last := list[|list| - 1];
      WithParentsIn(list[..|list| - 1], all, u) +
      (if u.types[last].baseType.Some? && u.types[last].baseType.value in all then [last] else [])
  }

  /** The loop removing each item in turn. */
  function RemoveEach(list: seq<ClassId>, items: seq<ClassId>): seq<ClassId>
  {
    if items == [] then list
    else RemoveFirst(RemoveEach(list, items[..|items| - 1]), items[|items| - 1])
  }

  /** FindImplementers(iface). */
  function Implementers(u: Universe, iface: ClassId): seq<ClassId>
    requires u.Valid() && iface < |u.types|
  {
    var found := Scan(u, iface, |u.assemblies|);
    ScanInUniverse(u, iface, |u.assemblies|);
    RemoveEach(found, WithParentsIn(found, found, u))
  }

  // ---------------------------------------------------------------------------
  // Properties of FindImplementers
  // ---------------------------------------------------------------------------

  /** Every scanned type is a registered candidate from a scanned assembly. */
  lemma {:induction false} ScanInUniverse(u: Universe, iface: ClassId, n: nat)
    requires u.Valid() && iface < |u.types| && n <= |u.assemblies|
    ensures forall x :: x in Scan(u, iface, n) ==>
              Candidate(u, iface, x) &&
              exists a :: 0 <= a < n && Scanned(u, iface, a) && u.types[x].assembly == u.assemblies[a].id
  {
    if n > 0 {
      ScanInUniverse(u, iface, n - 1);
      if Scanned(u, iface, n - 1) {
        forall x | x in ScanTypes(u, iface, u.assemblies[n - 1].types)
          ensures u.types[x].assembly == u.assemblies[n - 1].id
        {
          var k :| 0 <= k < |u.assemblies[n - 1].types| && u.assemblies[n - 1].types[k] == x;
        }
      }
    }
  }

  /** Filtering a list without duplicates gives a list without duplicates. */
  lemma {:induction false} ScanTypesDistinct(u: Universe, iface: ClassId, ts: seq<ClassId>)
    requires forall k :: 0 <= k < |ts| ==> ts[k] < |u.types|
    requires Distinct(ts)
    ensures Distinct(ScanTypes(u, iface, ts))
  {
    if ts != [] {
      var init := ts[..|ts| - 1];
      assert Distinct(init);
      ScanTypesDistinct(u, iface, init);
      assert ts[|ts| - 1] !in init;
    }
  }

  /** No type is found twice: assemblies are distinct and so are their types. */
  lemma {:induction false} ScanDistinct(u: Universe, iface: ClassId, n: nat)
    requires u.Valid() && iface < |u.types| && n <= |u.assemblies|
    ensures Distinct(Scan(u, iface, n))
  {
    if n > 0 {
      ScanDistinct(u, iface, n - 1);
      ScanInUniverse(u, iface, n - 1);
      if Scanned(u, iface, n - 1) {
        var front := Scan(u, iface, n - 1);
        var ts := u.assemblies[n - 1].types;
        var back := ScanTypes(u, iface, ts);
        ScanTypesDistinct(u, iface, ts);
        forall x | x in back
          ensures x !in front
        {
          var k :| 0 <= k < |ts| && ts[k] == x;
          assert u.types[x].assembly == u.assemblies[n - 1].id;
        }
        DistinctConcat(front, back);
      }
    }
  }

  lemma {:induction false} RemoveEachDistinct(list: seq<ClassId>, items: seq<ClassId>)
    requires Distinct(list)
    ensures Distinct(RemoveEach(list, items))
    ensures forall y :: y in RemoveEach(list, items) <==> y in list && y !in items
  {
    if items != [] {
      var init := items[..|items| - 1];
      RemoveEachDistinct(list, init);
      RemoveFirstDistinct(RemoveEach(list, init), items[|items| - 1]);
      assert forall y :: y in items <==> y in init || y == items[|items| - 1];
    }
  }

  /**
   * FindImplementers yields exactly the implementing classes of the scanned
   * assemblies (never the interface, never an interface) whose base type is not
   * itself among those found, each once.
   */
  lemma ImplementersMeaning(u: Universe, iface: ClassId)
    requires u.Valid() && iface < |u.types|
    ensures var found := Scan(u, iface, |u.assemblies|);
            var r := Implementers(u, iface);
            Distinct(r) &&
            (forall x :: x in r ==> x in found && x != iface && !u.types[x].isInterface && iface in u.types[x].interfaces) &&
            (forall x :: x in found ==> (x in r <==> (u.types[x].baseType.None? || u.types[x].baseType.value !in found)))
  {
    var found := Scan(u, iface, |u.assemblies|);
    ScanInUniverse(u, iface, |u.assemblies|);
    ScanDistinct(u, iface, |u.assemblies|);
    RemoveEachDistinct(found, WithParentsIn(found, found, u));
  }

  // ---------------------------------------------------------------------------
  // Get and the unsupported members
  // ---------------------------------------------------------------------------

  /** The first implementer whose Database.Get yields a record; implementers that throw are skipped. */
  function FirstHit(getById: (ClassId, string) -> Result<Option<Entity>>, implementers: seq<ClassId>, id: string): Option<Entity>
  {
    if implementers == [] then None
    else
      var attempt := getById(implementers[0], id);
      if attempt.Success? && attempt.value.Some? then attempt.value
      else FirstHit(getById, implementers[1..], id)
  }

  /** A hit is the record of some implementer, and every implementer before it gave none (or threw). */
  lemma {:induction false} FirstHitMeaning(getById: (ClassId, string) -> Result<Option<Entity>>, implementers: seq<ClassId>, id: string)
    ensures var r := FirstHit(getById, implementers, id);
            (r.Some? ==> exists k :: 0 <= k < |implementers| && getById(implementers[k], id) == Success(r) &&
                           forall j :: 0 <= j < k ==> getById(implementers[j], id).Failure? || getById(implementers[j], id).value.None?) &&
            (r.None? <==> forall k :: 0 <= k < |implementers| ==>
                            getById(implementers[k], id).Failure? || getById(implementers[k], id).value.None?)
  {
    if implementers != [] {
      var rest := implementers[1..];
      FirstHitMeaning(getById, rest, id);
      var attempt := getById(implementers[0], id);
      if !(attempt.Success? && attempt.value.Some?) {
        var r := FirstHit(getById, rest, id);
        if r.Some? {
          var k :| 0 <= k < |rest| && getById(rest[k], id) == Success(r) &&
                   forall j :: 0 <= j < k ==> getById(rest[j], id).Failure? || getById(rest[j], id).value.None?;
          assert implementers[k + 1] == rest[k];
          assert forall j :: 1 <= j < k + 1 ==> implementers[j] == rest[j - 1];
        }
        assert forall j :: 1 <= j < |implementers| ==> implementers[j] == rest[j - 1];
      }
    }
  }

  /** The members that have no meaning for an interface type. */
  datatype UnsupportedMember =
    | ReadManyToManyRelation | Save | Delete | GetIdsList | GetUpdatedValues
    | ExecuteNonQuery | ExecuteScalar | SupportValidationBypassing | BulkInsert | BulkUpdate

  /** Calling such a member always raises NotSupportedException, with the message InterfaceDataProvider gives it. */
  function Unsupported(m: UnsupportedMember): (r: Result<()>)
    ensures r.Failure? && r.error.kind == NotSupportedError && r.error.message != ""
  {
    Failure(Error(NotSupportedError,
      match m
      case ReadManyToManyRelation => "IDataProvider.ReadManyToManyRelation() is not supported for Interfaces"
      case Save => "IDataProvider.Save() is irrelevant to Interfaces"
      case Delete => "IDataProvider.Delete() is irrelevant to Interfaces"
      case GetIdsList => "IDataProvider.Delete() is irrelevant to Interfaces"
      case GetUpdatedValues => "GetUpdatedValues() is irrelevant to Interfaces"
      case ExecuteNonQuery => "ExecuteNonQuery() is irrelevant to Interfaces"
      case ExecuteScalar => "ExecuteScalar() is irrelevant to Interfaces"
      case SupportValidationBypassing => "SupportValidationBypassing() is irrelevant to Interfaces"
      case BulkInsert => "BulkInsert() is irrelevant to Interfaces"
      case BulkUpdate => "BulkInsert() is irrelevant to Interfaces"))
  }

  /** The records of every implementer, in implementer order. */
  function Collect(listOf: (ClassId, seq<QueryCriterion>, seq<QueryOption>) -> seq<Entity>, implementers: seq<ClassId>,
                   criteria: seq<QueryCriterion>, options: seq<QueryOption>): seq<Entity>
  {
    if implementers == [] then []
    else Collect(listOf, implementers[..|implementers| - 1], criteria, options) + listOf(implementers[|implementers| - 1], criteria, options)
  }

  /** The collected list is one block per implementer, so its length is the sum of theirs. */
  lemma {:induction false} CollectSplits(listOf: (ClassId, seq<QueryCriterion>, seq<QueryOption>) -> seq<Entity>, a: seq<ClassId>, b: seq<ClassId>,
                                        criteria: seq<QueryCriterion>, options: seq<QueryOption>)
    ensures Collect(listOf, a + b, criteria, options) == Collect(listOf, a, criteria, options) + Collect(listOf, b, criteria, options)
    decreases |b|
  {
    if b != [] {
      var init := b[..|b| - 1];
      assert (a + b)[..|a + b| - 1] == a + init;
      CollectSplits(listOf, a, init, criteria, options);
    } else {
      assert a + b == a;
    }
  }

  // ---------------------------------------------------------------------------
  // The provider
  // ---------------------------------------------------------------------------

  /**
   * The provider, with the static ImplementationsCache. `listOf(x, c, o)`
   * stands for Database.GetList(x, c, o) and `getById(x, id)` for
   * Database.Get(id, x), which may throw.
   */
  class InterfaceProvider {
    const universe: Universe
    const listOf: (ClassId, seq<QueryCriterion>, seq<QueryOption>) -> seq<Entity>
    const getById: (ClassId, string) -> Result<Option<Entity>>
    var implementations: map<ClassId, seq<ClassId>>

    ghost predicate Valid()
      reads this
    {
      universe.Valid() &&
      forall i :: i in implementations ==> i < |universe.types| && implementations[i] == Implementers(universe, i)
    }

    constructor (u: Universe, lists: (ClassId, seq<QueryCriterion>, seq<QueryOption>) -> seq<Entity>,
                 gets: (ClassId, string) -> Result<Option<Entity>>)
      requires u.Valid()
      ensures Valid() && universe == u && listOf == lists && getById == gets && implementations == map[]
    {
      universe := u;
      listOf := lists;
      getById := gets;
      implementations := map[];
    }

    /** FindImplementers: scan the referencing assemblies, then drop the types whose base type was found too. */
    method FindImplementers(iface: ClassId) returns (result: seq<ClassId>)
      requires Valid() && iface < |universe.types|
      ensures result == Implementers(universe, iface)
    {
      var found := ScanAssemblies(iface);
      ScanInUniverse(universe, iface, |universe.assemblies|);
      result := Prune(found, WithParentsIn(found, found, universe));
    }

    /** The first loop of FindImplementers: the candidates of every assembly that references the interface's. */
    method ScanAssemblies(iface: ClassId) returns (result: seq<ClassId>)
      requires Valid() && iface < |universe.types|
      ensures result == Scan(universe, iface, |universe.assemblies|)
    {
      result := [];
      var a := 0;
      while a < |universe.assemblies|
        invariant 0 <= a <= |universe.assemblies|
        invariant result == Scan(universe, iface, a)
      {
        var assembly := universe.assemblies[a];
        if Scanned(universe, iface, a) {
          var k := 0;
          while k < |assembly.types|
            invariant 0 <= k <= |assembly.types|
            invariant result == Scan(universe, iface, a) + ScanTypes(universe, iface, assembly.types[..k])
          {
            var t := assembly.types[k];
            assert assembly.types[..k + 1][..k] == assembly.types[..k];
            if t != iface && !universe.types[t].isInterface && iface in universe.types[t].interfaces {
              result := result + [t];
            }
            k := k + 1;
          }
          assert assembly.types[..|assembly.types|] == assembly.types;
        }
        a := a + 1;
      }
    }

    /** The second loop of FindImplementers: remove each type whose base type was also found. */
    static method Prune(found: seq<ClassId>, withParentsIn: seq<ClassId>) returns (result: seq<ClassId>)
      ensures result == RemoveEach(found, withParentsIn)
    {
      result := found;
      var j := 0;
      while j < |withParentsIn|
        invariant 0 <= j <= |withParentsIn|
        invariant result == RemoveEach(found, withParentsIn[..j])
      {
        assert withParentsIn[..j + 1][..j] == withParentsIn[..j];
        result := RemoveFirst(result, withParentsIn[j]);
        j := j + 1;
      }
      assert withParentsIn[..|withParentsIn|] == withParentsIn;
    }

    /** GetImplementers: FindImplementers once per interface, remembered afterwards. */
    method GetImplementers(iface: ClassId) returns (result: seq<ClassId>)
      requires Valid() && iface < |universe.types|
      modifies this
      ensures Valid() && result == Implementers(universe, iface)
      ensures implementations == old(implementations)[iface := result]
    {
      if iface in implementations {
        result := implementations[iface];
        return;
      }
      result := FindImplementers(iface);
      implementations := implementations[iface := result];
    }

    /** GetList: the records of each implementer, concatenated in implementer order. */
    method GetList(iface: ClassId, criteria: seq<QueryCriterion>, options: seq<QueryOption>) returns (result: seq<Entity>)
      requires Valid() && iface < |universe.types|
      modifies this
      ensures Valid()
      ensures result == Collect(listOf, Implementers(universe, iface), criteria, options)
      ensures implementations == old(implementations)[iface := Implementers(universe, iface)]
    {
      var implementers := GetImplementers(iface);
      result := CollectLists(implementers, criteria, options);
    }

    /** The SelectMany of GetList: each implementer's records, in implementer order. */
    method CollectLists(implementers: seq<ClassId>, criteria: seq<QueryCriterion>, options: seq<QueryOption>) returns (result: seq<Entity>)
      ensures result == Collect(listOf, implementers, criteria, options)
    {
      result := [];
      var i := 0;
      while i < |implementers|
        invariant 0 <= i <= |implementers|
        invariant result == Collect(listOf, implementers[..i], criteria, options)
      {
        assert implementers[..i + 1][..i] == implementers[..i];
        result := result + listOf(implementers[i], criteria, options);
        i := i + 1;
      }
      assert implementers[..|implementers|] == implementers;
    }

    /** Count: the length of GetList. */
    method Count(iface: ClassId, criteria: seq<QueryCriterion>, options: seq<QueryOption>) returns (result: nat)
      requires Valid() && iface < |universe.types|
      modifies this
      ensures Valid()
      ensures result == |Collect(listOf, Implementers(universe, iface), criteria, options)|
      ensures implementations == old(implementations)[iface := Implementers(universe, iface)]
    {
      var list := GetList(iface, criteria, options);
      result := |list|;
    }

    /** Get: the first implementer's record with that ID, or an error naming the type and the ID. */
    method Get(iface: ClassId, id: string) returns (result: Result<Entity>)
      requires Valid() && iface < |universe.types|
      modifies this
      ensures Valid()
      ensures FirstHit(getById, Implementers(universe, iface), id).Some? ==>
                result == Success(FirstHit(getById, Implementers(universe, iface), id).value)
      ensures FirstHit(getById, Implementers(universe, iface), id).None? ==>
                result == Failure(Error(GeneralError, "There is no " + universe.types[iface].name +
                                                      " record with the ID of '" + id + "'"))
      ensures implementations == old(implementations)[iface := Implementers(universe, iface)]
    {
      var implementers := GetImplementers(iface);
      var i := 0;
      while i < |implementers|
        invariant 0 <= i <= |implementers|
        invariant FirstHit(getById, implementers, id) == FirstHit(getById, implementers[i..], id)
      {
        var attempt := getById(implementers[i], id);
        if attempt.Success? && attempt.value.Some? {
          return Success(attempt.value.value);
        }
        assert implementers[i..][1..] == implementers[i + 1..];
        i := i + 1;
      }
      return Failure(Error(GeneralError, "There is no " + universe.types[iface].name +
                                         " record with the ID of '" + id + "'"));
    }
  }
}
