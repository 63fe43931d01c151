// SqlQueryBuilder<T>: renders a list of criteria and query options as a
// parameterised SQL SELECT or COUNT statement, collecting the bound values in
// the builder's Parameters dictionary.
//
// The module first defines each rendering step as a function that threads the
// parameter dictionary explicitly (the specification), then the builder class
// whose methods update `parameters` in place and are proved to agree with it.
module SqlQueryBuilder {
  import opened Wrappers
  import opened Text
  import opened Criteria
  import opened QueryOptions

  /** The Parameters dictionary: parameter name to bound value. */
  type Params = map<string, string>

  /** PropertySubqueryMapping: a "Prop.*" pattern, its EXISTS sub-query and its column mappings. */
  datatype SubqueryMapping = SubqueryMapping(properties: string, subquery: string, details: map<string, string>)

  /**
   * Everything the builder is configured with besides criteria and options:
   * the entity type's name, PropertyMappings, SubQueryMappings (None when
   * the data provider supplies no sub-query mappings), and the names of the
   * entity type's properties (those typeof(T).GetProperty finds).
   */
  datatype Mappings = Mappings(typeName: string, properties: map<string, string>,
                               subQueries: Option<seq<SubqueryMapping>>, typeProperties: set<string>)

  /** A piece of SQL together with the parameter dictionary after rendering it. */
  datatype Built = Built(sql: string, params: Params)

  /** Environment.NewLine, as StringBuilder.AppendLine writes it. */
  const NewLine: string := "\r\n"

  const KeyNotFound: Error := Error(KeyNotFoundError, "The given key was not present in the dictionary.")
  const DuplicateKey: Error := Error(ArgumentError, "An item with the same key has already been added.")
  const FullTextSearchNotSupported: Error := Error(GeneralError, "FullTextSearchQueryOption is not supported.")
  const RangeNotSupported: Error := Error(GeneralError, "RangeQueryOption is not supported.")
  const OrderByMandatory: Error :=
    Error(ArgumentError, "Invalid PagingQueryOption specified. OrderBy is mandatory.")
  const PageSizePositive: Error :=
    Error(ArgumentError, "Invalid PagingQueryOption specified. PageSize should be a positive number.")
  const DeepPath: Error := Error(NotModelled, "property paths of more than two segments")

  function NoMappingError(propertyName: string): Error
  {
    Error(GeneralError, "There is no property mapping for '" + propertyName +
      "'. Only mapped properties can be queried upon in the database layer. " +
      "Calculated properties should be evaluated in the application layer using .Where() method.")
  }

  function NoNestedQueriesError(typeName: string): Error
  {
    Error(NotSupportedError, "The data provider class for '" + typeName + "' does not support Nested queries.")
  }

  function NoSubqueryMappingError(typeName: string, first: string): Error
  {
    Error(NotSupportedError, "The data provider class for '" + typeName +
      "' does not provide a sub-query mapping for '" + first + "'.")
  }

  // ---------------------------------------------------------------------------
  // Constructor checks
  // ---------------------------------------------------------------------------

  /** The exception the constructor raises for the given options, if any. */
  function UnsupportedOption(options: seq<QueryOption>): (r: Option<Error>)
    ensures r.None? <==> forall i :: 0 <= i < |options| ==> !options[i].FullTextSearch? && !options[i].Range?
    ensures (exists i :: 0 <= i < |options| && options[i].FullTextSearch?) ==> r == Some(FullTextSearchNotSupported)
    ensures ((forall i :: 0 <= i < |options| ==> !options[i].FullTextSearch?) &&
             (exists i :: 0 <= i < |options| && options[i].Range?)) ==> r == Some(RangeNotSupported)
  {
    if exists i :: 0 <= i < |options| && options[i].FullTextSearch? then Some(FullTextSearchNotSupported)
    else if exists i :: 0 <= i < |options| && options[i].Range? then Some(RangeNotSupported)
    else None
  }

  // ---------------------------------------------------------------------------
  // GetUniqueParameterName
  // ---------------------------------------------------------------------------

  /** The column with every '[' and ']' removed and every '.' turned into '_'. */
  function ParameterBase(column: string): (r: string)
    ensures '[' !in r && ']' !in r && '.' !in r
    ensures var s := RemoveChar(RemoveChar(column, '['), ']');
            |r| == |s| && forall k :: 0 <= k < |s| ==> r[k] == if s[k] == '.' then '_' else s[k]
    ensures forall x :: x in column && x != '[' && x != ']' && x != '.' ==> x in r
    ensures '[' !in column && ']' !in column && '.' !in column ==> r == column
  {
    var s := RemoveChar(RemoveChar(column, '['), ']');
    RemoveCharKeeps(column, '[');
    RemoveCharKeeps(RemoveChar(column, '['), ']');
    assert forall x :: x in s && x != '.' ==> x in ReplaceChar(s, '.', '_') by {
      forall x | x in s && x != '.'
        ensures x in ReplaceChar(s, '.', '_')
      {
        var k :| 0 <= k < |s| && s[k] == x;
        assert ReplaceChar(s, '.', '_')[k] == x;
      }
    }
    ReplaceChar(s, '.', '_')
  }

  /** The i-th alternative name: base + "_" + i. */
  function Candidate(base: string, i: nat): string
  {
    base + "_" + NatToString(i)
  }

  lemma CandidateInjective(base: string, i: nat, j: nat)
    requires Candidate(base, i) == Candidate(base, j)
    ensures i == j
  {
    assert Candidate(base, i)[|base| + 1..] == NatToString(i);
    assert Candidate(base, j)[|base| + 1..] == NatToString(j);
    NatToStringInjective(i, j);
  }

  ghost function CandidateSet(base: string, i: nat): set<string>
  {
    set j: nat | 2 <= j < i :: Candidate(base, j)
  }

  lemma {:induction false} CandidateSetSize(base: string, i: nat)
    requires i >= 2
    ensures |CandidateSet(base, i)| == i - 2
  {
    if i == 2 {
      assert CandidateSet(base, i) == {};
    } else {
      CandidateSetSize(base, i - 1);
      assert CandidateSet(base, i) == CandidateSet(base, i - 1) + {Candidate(base, i - 1)};
      if Candidate(base, i - 1) in CandidateSet(base, i - 1) {
        var j: nat :| 2 <= j < i - 1 && Candidate(base, j) == Candidate(base, i - 1);
        CandidateInjective(base, j, i - 1);
        assert false;
      }
    }
  }

  /** When the first i - 2 alternatives are all taken, the dictionary has at least i - 2 entries. */
  lemma TakenBound(p: Params, base: string, i: nat)
    requires i >= 2
    requires forall j: nat :: 2 <= j < i ==> Candidate(base, j) in p
    ensures i - 2 <= |p|
  {
    CandidateSetSize(base, i);
    assert CandidateSet(base, i) <= p.Keys;
    SubsetSize(CandidateSet(base, i), p.Keys);
  }

  lemma {:induction false} SubsetSize<T>(a: set<T>, b: set<T>)
    requires a <= b
    ensures |a| <= |b|
  {
    if a != {} {
      var x :| x in a;
      SubsetSize(a - {x}, b - {x});
    }
  }

  /** The loop `for (i = 2; ; i++)` of GetUniqueParameterName, from position i on. */
  function FirstFree(p: Params, base: string, i: nat): (r: string)
    requires i >= 2
    requires forall j: nat :: 2 <= j < i ==> Candidate(base, j) in p
    ensures r !in p
    ensures exists k: nat :: k >= i && r == Candidate(base, k) &&
              forall j: nat :: 2 <= j < k ==> Candidate(base, j) in p
    decreases |p| + 2 - i
  {
    if Candidate(base, i) !in p then Candidate(base, i)
    else
      TakenBound(p, base, i + 1);
      FirstFree(p, base, i + 1)
  }

  /**
   * GetUniqueParameterName: a parameter name derived from the column that is
   * not yet in the dictionary; the plain derived name when it is free, otherwise
   * the first free alternative base_2, base_3, ...
   */
  function UniqueParameterName(p: Params, column: string): (r: string)
    ensures r !in p
    ensures ParameterBase(column) !in p ==> r == ParameterBase(column)
    ensures ParameterBase(column) in p ==>
              exists k: nat :: k >= 2 && r == Candidate(ParameterBase(column), k) &&
                forall j: nat :: 2 <= j < k ==> Candidate(ParameterBase(column), j) in p
  {
    var base := ParameterBase(column);
    if base in p then FirstFree(p, base, 2) else base
  }

  // ---------------------------------------------------------------------------
  // BuildCriteria(criterion, type, propertyMappings)
  // ---------------------------------------------------------------------------

  /** The mapping key: an unmapped name ending in "Id" is retried without it. */
  function MappingKey(name: string, mappings: map<string, string>): (key: string)
    ensures name in mappings ==> key == name
    ensures name !in mappings && Text.EndsWith(name, "Id") ==> key + "Id" == name
    ensures name !in mappings && !Text.EndsWith(name, "Id") ==> key == name
  {
    if name !in mappings && Text.EndsWith(name, "Id") then TrimSuffix(name, "Id") else name
  }

  /** The value bound for a filter: LIKE filters get their '%' wildcards. */
  function BoundValue(f: FilterFunction, v: string): string
  {
    match f
    case Contains => "%" + v + "%"
    case NotContains => "%" + v + "%"
    case BeginsWith => v + "%"
    case EndsWith => "%" + v
    case _ => v
  }

  /** BuildCriteria(criterion, type, propertyMappings) for one (property, filter, value). */
  function LeafSql(p: Params, name: string, f: FilterFunction, v: Option<string>,
                   mappings: map<string, string>): Result<Built>
  {
    var key := MappingKey(name, mappings);
    if key !in mappings then Failure(NoMappingError(name))
    else Success(ColumnSql(p, mappings[key], f, v))
  }

  /** The condition on a mapped column, once the column is found. */
  function ColumnSql(p: Params, column: string, f: FilterFunction, v: Option<string>): Built
  {
    match v
    case None => Built(column + " IS " + OnlyWhen("NOT", f != Is) + " NULL", p)
    case Some(value) =>
      if f == In then
        if value == "()" then Built("1 = 0 /*" + column + " IN ([empty])*/", p)
        else Built(column + " " + DatabaseOperator(f) + " " + value, p)
      else
        var parameterName := UniqueParameterName(p, column);
        Built(column + " " + DatabaseOperator(f) + " @" + parameterName,
              p[parameterName := BoundValue(f, value)])
  }

  /** What BuildCriteria renders for each kind of value, and the parameter it binds. */
  lemma LeafSqlCases(p: Params, name: string, f: FilterFunction, v: Option<string>, mappings: map<string, string>)
    // The column is looked up by name, then by the name without its "Id" suffix.
    ensures MappingKey(name, mappings) !in mappings <==> LeafSql(p, name, f, v, mappings).Failure?
    ensures LeafSql(p, name, f, v, mappings).Failure? ==> LeafSql(p, name, f, v, mappings).error == NoMappingError(name)
    // A null value is an IS [NOT] NULL test with no parameter.
    ensures LeafSql(p, name, f, v, mappings).Success? && v.None? ==>
              LeafSql(p, name, f, v, mappings).value == Built(mappings[MappingKey(name, mappings)] + " IS " +
                               (if f == Is then "" else "NOT") + " NULL", p)
    // An IN list is written inline, and "()" becomes an always-false condition.
    ensures LeafSql(p, name, f, v, mappings).Success? && v == Some("()") && f == In ==>
              LeafSql(p, name, f, v, mappings).value == Built("1 = 0 /*" + mappings[MappingKey(name, mappings)] + " IN ([empty])*/", p)
    ensures LeafSql(p, name, f, v, mappings).Success? && v.Some? && v.value != "()" && f == In ==>
              LeafSql(p, name, f, v, mappings).value == Built(mappings[MappingKey(name, mappings)] + " IN " + v.value, p)
    // Any other value is bound to exactly one new, previously unused parameter.
    ensures LeafSql(p, name, f, v, mappings).Success? && v.Some? && f != In ==>
              var column := mappings[MappingKey(name, mappings)];
              var n := UniqueParameterName(p, column);
              n !in p && LeafSql(p, name, f, v, mappings).value == Built(column + " " + DatabaseOperator(f) + " @" + n, p[n := BoundValue(f, v.value)])
  {
  }

  lemma LikeWildcards(v: string)
    ensures BoundValue(Contains, v) == "%" + v + "%" && BoundValue(NotContains, v) == "%" + v + "%"
    ensures BoundValue(BeginsWith, v) == v + "%" && BoundValue(EndsWith, v) == "%" + v
    ensures forall f :: f !in {Contains, NotContains, BeginsWith, EndsWith} ==> BoundValue(f, v) == v
  {
  }

  // ---------------------------------------------------------------------------
  // CreateSqlStatement / CreateSimpleSqlStatement
  // ---------------------------------------------------------------------------

  /** The first sub-query mapping whose Properties equal the key (FirstOrDefault). */
  function FindSubquery(ms: seq<SubqueryMapping>, key: string): (r: Option<SubqueryMapping>)
    ensures r.None? <==> forall i :: 0 <= i < |ms| ==> ms[i].properties != key
    ensures r.Some? ==> exists i :: 0 <= i < |ms| && ms[i] == r.value && ms[i].properties == key &&
                           forall j :: 0 <= j < i ==> ms[j].properties != key
  {
    if ms == [] then None
    else if ms[0].properties == key then Some(ms[0])
    else
      var r := FindSubquery(ms[1..], key);
      assert r.Some? ==> exists i :: 1 <= i < |ms| && ms[i] == r.value && ms[i].properties == key &&
                           forall j :: 0 <= j < i ==> ms[j].properties != key by {
        if r.Some? {
          var i :| 0 <= i < |ms[1..]| && ms[1..][i] == r.value && ms[1..][i].properties == key &&
                   forall j :: 0 <= j < i ==> ms[1..][j].properties != key;
          assert forall j :: 0 <= j < i + 1 ==> ms[j].properties != key by {
            forall j | 0 <= j < i + 1 ensures ms[j].properties != key {
              if j > 0 { assert ms[j] == ms[1..][j - 1]; }
            }
          }
        }
      }
      r
  }

  /** CreateSimpleSqlStatement for a simple criterion: a one- or two-segment property path. */
  function SimpleSql(m: Mappings, p: Params, name: string, f: FilterFunction, v: Option<string>): Result<Built>
  {
    if '.' in name then
      if m.subQueries.None? then Failure(NoNestedQueriesError(m.typeName))
      else
        var parts := Split(name, '.');
        SplitWith(name, '.');
        if |parts| > 2 then Failure(DeepPath)
        else
          match FindSubquery(m.subQueries.value, parts[0] + ".*")
          case None => Failure(NoSubqueryMappingError(m.typeName, parts[0]))
          case Some(sm) =>
            if parts[0] !in m.typeProperties then Failure(NullDereference)
            else
              var inner :- LeafSql(p, parts[1], f, v, sm.details);
              Success(Built("EXISTS (" + sm.subquery + WithPrefix(" AND ", inner.sql) + ")", inner.params))
    else LeafSql(p, name, f, v, m.properties)
  }

  /** CreateSqlStatement: a binary node renders as "(L OP R )"; a null side as "(1 = 1)". */
  function StatementSql(m: Mappings, p: Params, c: Option<Criterion>): Result<Built>
    decreases c
  {
    match c
    case None => Success(Built("(1 = 1)", p))
    case Some(Binary(l, op, r, _, _)) =>
      var left :- StatementSql(m, p, l);
      var right :- StatementSql(m, left.params, r);
      Success(Built("(" + left.sql + " " + OperatorName(op) + " " + right.sql + " )", right.params))
    case Some(Simple(name, f, v)) => SimpleSql(m, p, name, f, v)
  }

  /** BuildCriteria(ICriterion): a direct criterion adds its parameters and contributes its SQL. */
  function CriterionSql(m: Mappings, p: Params, c: QueryCriterion): Result<Built>
  {
    match c
    case Direct(sql, ps, _) =>
      if ps.Keys * p.Keys != {} then Failure(DuplicateKey) else Success(Built(sql, p + ps))
    case Condition(criterion) => StatementSql(m, p, Some(criterion))
  }

  /** The criteria rendered in order, each non-empty one prefixed by " AND ". */
  function ClausesSql(m: Mappings, p: Params, cs: seq<QueryCriterion>): Result<Built>
    decreases |cs|
  {
    if cs == [] then Success(Built("", p))
    else
      var init :- ClausesSql(m, p, cs[..|cs| - 1]);
      var last :- CriterionSql(m, init.params, cs[|cs| - 1]);
      Success(Built(init.sql + WithPrefix(" AND ", last.sql), last.params))
  }

  /** A failure among the first i criteria is the failure of the whole list. */
  lemma {:induction false} ClausesPrefixFailure(m: Mappings, p: Params, cs: seq<QueryCriterion>, i: nat)
    requires i <= |cs|
    requires ClausesSql(m, p, cs[..i]).Failure?
    ensures ClausesSql(m, p, cs) == ClausesSql(m, p, cs[..i])
    decreases |cs|
  {
    if i < |cs| {
      var init := cs[..|cs| - 1];
      assert init[..i] == cs[..i];
      ClausesPrefixFailure(m, p, init, i);
    } else {
      assert cs[..i] == cs;
    }
  }

  /** GenerateWhere. */
  function WhereSql(m: Mappings, p: Params, cs: seq<QueryCriterion>): Result<Built>
  {
    if "ID" !in m.properties then Failure(KeyNotFound)
    else
      var rest :- ClausesSql(m, p, cs);
      Success(Built(" WHERE " + m.properties["ID"] + " IS NOT NULL" + rest.sql, rest.params))
  }

  // ---------------------------------------------------------------------------
  // GenerateSort / GenerateTop
  // ---------------------------------------------------------------------------

  /** QueryOptions.OfType<SortQueryOption>(): the Sort options, in order. */
  function SortOptions(options: seq<QueryOption>): (r: seq<QueryOption>)
    ensures forall k :: 0 <= k < |r| ==> r[k].Sort? && r[k] in options
    ensures forall o :: o in options && o.Sort? ==> o in r
  {
    if options == [] then []
    else (if options[0].Sort? then [options[0]] else []) + SortOptions(options[1..])
  }

  /** QueryOptions.OfType<PagingQueryOption>(): the Paging options, in order. */
  function PagingOptions(options: seq<QueryOption>): (r: seq<QueryOption>)
    ensures forall k :: 0 <= k < |r| ==> r[k].Paging? && r[k] in options
    ensures forall o :: o in options && o.Paging? ==> o in r
  {
    if options == [] then []
    else (if options[0].Paging? then [options[0]] else []) + PagingOptions(options[1..])
  }

  /** GenerateSort(SortQueryOption). */
  function SortTerm(properties: map<string, string>, o: QueryOption): Result<string>
    requires o.Sort?
  {
    if o.property !in properties then Failure(KeyNotFound)
    else Success(properties[o.property] + OnlyWhen(" DESC", o.descending))
  }

  /** GenerateSort(PagingQueryOption). */
  function PagingTerm(o: QueryOption): (r: Result<string>)
    requires o.Paging?
    ensures o.orderBy == "" ==> r == Failure(OrderByMandatory)
    ensures o.orderBy != "" && o.pageSize < 1 ==> r == Failure(PageSizePositive)
    ensures r.Success? <==> o.orderBy != "" && o.pageSize >= 1
    ensures r.Success? ==> StartsWith(r.value, o.orderBy + " OFFSET ")
  {
    if o.orderBy == "" then Failure(OrderByMandatory)
    else if o.pageSize < 1 then Failure(PageSizePositive)
    else Success(o.orderBy + " OFFSET " + IntToString(o.startIndex) + " ROWS FETCH NEXT " +
                 IntToString(o.pageSize) + " ROWS ONLY")
  }

  /** The Sort options' terms, in option order; the first failing term's error otherwise. */
  function SortTerms(properties: map<string, string>, sorts: seq<QueryOption>): (r: Result<seq<string>>)
    requires forall k :: 0 <= k < |sorts| ==> sorts[k].Sort?
    ensures r.Success? <==> forall k :: 0 <= k < |sorts| ==> sorts[k].property in properties
    ensures r.Failure? ==> r.error == KeyNotFound
    ensures r.Success? ==> (|r.value| == |sorts| &&
              forall k :: 0 <= k < |sorts| ==> SortTerm(properties, sorts[k]) == Success(r.value[k]))
  {
    if sorts == [] then Success([])
    else
      var head :- SortTerm(properties, sorts[0]);
      var tail :- SortTerms(properties, sorts[1..]);
      assert forall k :: 1 <= k < |sorts| ==> sorts[k] == sorts[1..][k - 1];
      Success([head] + tail)
  }

  /** The Paging options' terms, in option order; the first invalid option's error otherwise. */
  function PagingTerms(pagings: seq<QueryOption>): (r: Result<seq<string>>)
    requires forall k :: 0 <= k < |pagings| ==> pagings[k].Paging?
    ensures r.Success? <==> forall k :: 0 <= k < |pagings| ==> pagings[k].orderBy != "" && pagings[k].pageSize >= 1
    ensures r.Failure? ==> r.error == OrderByMandatory || r.error == PageSizePositive
    ensures r.Success? ==> (|r.value| == |pagings| &&
              forall k :: 0 <= k < |pagings| ==> PagingTerm(pagings[k]) == Success(r.value[k]))
  {
    if pagings == [] then Success([])
    else
      var head :- PagingTerm(pagings[0]);
      var tail :- PagingTerms(pagings[1..]);
      assert forall k :: 1 <= k < |pagings| ==> pagings[k] == pagings[1..][k - 1];
      Success([head] + tail)
  }

  /** The framework's Trim() on a list of texts: the empty entries are dropped. */
  function NonEmpty(ts: seq<string>): (r: seq<string>)
    ensures forall k :: 0 <= k < |r| ==> r[k] != ""
    ensures (forall k :: 0 <= k < |ts| ==> ts[k] != "") ==> r == ts
  {
    if ts == [] then []
    else (if ts[0] == "" then [] else [ts[0]]) + NonEmpty(ts[1..])
  }

  /** GenerateSort: the Sort terms, then the Paging terms, joined by ", " after " ORDER BY ". */
  function OrderBySql(properties: map<string, string>, options: seq<QueryOption>): Result<string>
  {
    var sorts :- SortTerms(properties, SortOptions(options));
    var pagings :- PagingTerms(PagingOptions(options));
    Success(WithPrefix(" ORDER BY ", Join(NonEmpty(sorts + pagings), ", ")))
  }

  /** A nullable int in string concatenation: null renders as nothing. */
  function NumberText(n: Option<int>): string
  {
    match n
    case None => ""
    case Some(i) => IntToString(i)
  }

  predicate HasResultSetSize(options: seq<QueryOption>)
  {
    exists i :: 0 <= i < |options| && options[i].ResultSetSize?
  }

  /** GenerateTop; a null result appends nothing, so it is modelled as "". */
  function TopSql(options: seq<QueryOption>): (r: string)
    ensures !HasResultSetSize(options) ==> r == ""
    ensures forall i :: 0 <= i < |options| && options[i].ResultSetSize? &&
                        (forall j :: 0 <= j < i ==> !options[j].ResultSetSize?)
                        ==> r == "TOP " + NumberText(options[i].number) + " "
  {
    if HasResultSetSize(options) then "TOP " + NumberText(ResultsToFetch(options)) + " " else ""
  }

  /** GenerateQuery. */
  function QuerySql(m: Mappings, criteria: seq<QueryCriterion>, options: seq<QueryOption>,
                    p: Params, columns: string, from: string): Result<Built>
  {
    var where :- WhereSql(m, p, criteria);
    var sort :- OrderBySql(m.properties, options);
    Success(Built("SELECT " + TopSql(options) + columns + " FROM " + from + NewLine + where.sql + sort, where.params))
  }

  /** GenerateCountQuery. */
  function CountQuerySql(m: Mappings, criteria: seq<QueryCriterion>, p: Params, from: string): Result<Built>
  {
    if "ID" !in m.properties then Failure(KeyNotFound)
    else
      var where :- WhereSql(m, p, criteria);
      Success(Built("SELECT COUNT(" + m.properties["ID"] + ") FROM " + from + where.sql, where.params))
  }

  // ---------------------------------------------------------------------------
  // Properties of the rendering
  // ---------------------------------------------------------------------------

  /** Every entry of p is still in q with the same value. */
  predicate Extends(p: Params, q: Params)
  {
    forall k :: k in p ==> k in q && q[k] == p[k]
  }

  /** The number of parameters a criterion binds: one per simple leaf with a non-null, non-IN value. */
  function Bound(c: Option<Criterion>): nat
    decreases c
  {
    match c
    case None => 0
    case Some(Simple(_, f, v)) => if v.Some? && f != In then 1 else 0
    case Some(Binary(l, _, r, _, _)) => Bound(l) + Bound(r)
  }

  function Added(c: QueryCriterion): nat
  {
    match c
    case Direct(_, ps, _) => |ps|
    case Condition(criterion) => Bound(Some(criterion))
  }

  function AddedAll(cs: seq<QueryCriterion>): nat
  {
    if cs == [] then 0 else AddedAll(cs[..|cs| - 1]) + Added(cs[|cs| - 1])
  }

  lemma LeafParams(p: Params, name: string, f: FilterFunction, v: Option<string>, mappings: map<string, string>)
    requires LeafSql(p, name, f, v, mappings).Success?
    ensures var b := LeafSql(p, name, f, v, mappings).value;
            Extends(p, b.params) && |b.params| == |p| + (if v.Some? && f != In then 1 else 0) && b.sql != ""
  {
    LeafSqlCases(p, name, f, v, mappings);
  }

  lemma SimpleParams(m: Mappings, p: Params, name: string, f: FilterFunction, v: Option<string>)
    requires SimpleSql(m, p, name, f, v).Success?
    ensures var b := SimpleSql(m, p, name, f, v).value;
            Extends(p, b.params) && |b.params| == |p| + (if v.Some? && f != In then 1 else 0)
  {
    if '.' in name {
      var parts := Split(name, '.');
      SplitWith(name, '.');
      var sm := FindSubquery(m.subQueries.value, parts[0] + ".*").value;
      LeafParams(p, parts[1], f, v, sm.details);
    } else {
      LeafParams(p, name, f, v, m.properties);
    }
  }

  /**
   * Rendering a criterion keeps every existing parameter and adds exactly one
   * new parameter per bound leaf.
   */
  lemma {:induction false} StatementParams(m: Mappings, p: Params, c: Option<Criterion>)
    requires StatementSql(m, p, c).Success?
    ensures Extends(p, StatementSql(m, p, c).value.params)
    ensures |StatementSql(m, p, c).value.params| == |p| + Bound(c)
    decreases c
  {
    match c {
      case None =>
      case Some(Binary(l, op, r, _, _)) =>
        StatementParams(m, p, l);
        var left := StatementSql(m, p, l).value;
        StatementParams(m, left.params, r);
      case Some(Simple(name, f, v)) =>
        SimpleParams(m, p, name, f, v);
    }
  }

  lemma CriterionParams(m: Mappings, p: Params, c: QueryCriterion)
    requires CriterionSql(m, p, c).Success?
    ensures Extends(p, CriterionSql(m, p, c).value.params)
    ensures |CriterionSql(m, p, c).value.params| == |p| + Added(c)
  {
    match c {
      case Direct(sql, ps, _) =>
        assert (p + ps).Keys == p.Keys + ps.Keys;
        assert p.Keys * ps.Keys == {};
      case Condition(criterion) =>
        StatementParams(m, p, Some(criterion));
    }
  }

  lemma {:induction false} ClausesParams(m: Mappings, p: Params, cs: seq<QueryCriterion>)
    requires ClausesSql(m, p, cs).Success?
    ensures Extends(p, ClausesSql(m, p, cs).value.params)
    ensures |ClausesSql(m, p, cs).value.params| == |p| + AddedAll(cs)
    ensures var s := ClausesSql(m, p, cs).value.sql; s == "" || StartsWith(s, " AND ")
    decreases |cs|
  {
    if cs != [] {
      var init := ClausesSql(m, p, cs[..|cs| - 1]).value;
      ClausesParams(m, p, cs[..|cs| - 1]);
      CriterionParams(m, init.params, cs[|cs| - 1]);
      var last := CriterionSql(m, init.params, cs[|cs| - 1]).value;
      if init.sql == "" {
        assert init.sql + WithPrefix(" AND ", last.sql) == WithPrefix(" AND ", last.sql);
      } else {
        assert (init.sql + WithPrefix(" AND ", last.sql))[..5] == init.sql[..5];
      }
    }
  }

  /**
   * GenerateWhere: fails only when "ID" is unmapped (or a criterion fails);
   * the clause starts with "<ID column> IS NOT NULL", every further criterion
   * comes after " AND ", and the parameters grow by exactly what the criteria bind.
   */
  lemma WhereShape(m: Mappings, p: Params, cs: seq<QueryCriterion>)
    ensures "ID" !in m.properties ==> WhereSql(m, p, cs) == Failure(KeyNotFound)
    ensures "ID" in m.properties && cs == [] ==>
              WhereSql(m, p, cs) == Success(Built(" WHERE " + m.properties["ID"] + " IS NOT NULL", p))
    ensures WhereSql(m, p, cs).Success? ==>
              var w := WhereSql(m, p, cs).value;
              var prefix := " WHERE " + m.properties["ID"] + " IS NOT NULL";
              StartsWith(w.sql, prefix) &&
              (w.sql == prefix || StartsWith(w.sql[|prefix|..], " AND ")) &&
              Extends(p, w.params) && |w.params| == |p| + AddedAll(cs)
  {
    if "ID" in m.properties && cs == [] {
      assert " WHERE " + m.properties["ID"] + " IS NOT NULL" + "" == " WHERE " + m.properties["ID"] + " IS NOT NULL";
    }
    if WhereSql(m, p, cs).Success? {
      ClausesParams(m, p, cs);
      var prefix := " WHERE " + m.properties["ID"] + " IS NOT NULL";
      var rest := ClausesSql(m, p, cs).value.sql;
      assert (prefix + rest)[|prefix|..] == rest;
    }
  }

  /**
   * A two-segment path "a.b" renders as "EXISTS (<sub-query> AND <criterion on b>)"
   * using the first sub-query mapping for "a.*", and fails when the provider
   * supports no nested queries or has no mapping for "a".
   */
  lemma ExistsForm(m: Mappings, p: Params, a: string, b: string, f: FilterFunction, v: Option<string>)
    requires '.' !in a && '.' !in b
    ensures m.subQueries.None? ==>
              SimpleSql(m, p, a + "." + b, f, v) == Failure(NoNestedQueriesError(m.typeName))
    ensures m.subQueries.Some? && FindSubquery(m.subQueries.value, a + ".*").None? ==>
              SimpleSql(m, p, a + "." + b, f, v) == Failure(NoSubqueryMappingError(m.typeName, a))
    ensures m.subQueries.Some? && FindSubquery(m.subQueries.value, a + ".*").Some? && a !in m.typeProperties ==>
              SimpleSql(m, p, a + "." + b, f, v) == Failure(NullDereference)
    ensures m.subQueries.Some? && FindSubquery(m.subQueries.value, a + ".*").Some? && a in m.typeProperties ==>
              var sm := FindSubquery(m.subQueries.value, a + ".*").value;
              var inner := LeafSql(p, b, f, v, sm.details);
              SimpleSql(m, p, a + "." + b, f, v) ==
                (if inner.Failure? then Failure(inner.error)
                 else Success(Built("EXISTS (" + sm.subquery + (" AND " + inner.value.sql) + ")", inner.value.params)))
  {
    var name := a + "." + b;
    assert name == a + ['.'] + b;
    SplitTwo(a, '.', b);
    var parts := Split(name, '.');
    assert '.' in name && parts == [a, b];
    if m.subQueries.Some? {
      var found := FindSubquery(m.subQueries.value, parts[0] + ".*");
      if found.Some? {
        var inner := LeafSql(p, b, f, v, found.value.details);
        if inner.Success? {
          LeafParams(p, b, f, v, found.value.details);
          assert WithPrefix(" AND ", inner.value.sql) == " AND " + inner.value.sql;
        }
      }
    }
  }

  /** Without Sort or Paging options there is no ORDER BY clause. */
  lemma NoOrderByWithoutSorting(properties: map<string, string>, options: seq<QueryOption>)
    requires forall i :: 0 <= i < |options| ==> !options[i].Sort? && !options[i].Paging?
    ensures OrderBySql(properties, options) == Success("")
  {
  }

  /** An unmapped Sort property or an invalid Paging option makes GenerateSort fail. */
  lemma OrderByFailures(properties: map<string, string>, options: seq<QueryOption>, i: nat)
    requires i < |options|
    ensures options[i].Sort? && options[i].property !in properties ==>
              OrderBySql(properties, options) == Failure(KeyNotFound)
    ensures options[i].Paging? && (options[i].orderBy == "" || options[i].pageSize < 1) ==>
              OrderBySql(properties, options).Failure? &&
              OrderBySql(properties, options).error.kind in {KeyNotFoundError, ArgumentError}
  {
    var o := options[i];
    if o.Sort? {
      assert o in SortOptions(options);
    }
    if o.Paging? {
      assert o in PagingOptions(options);
    }
  }

  /** A Paging term follows the Sort terms even when it is listed first. */
  lemma PagingAfterSort(properties: map<string, string>, property: string, descending: bool,
                        orderBy: string, startIndex: int, pageSize: int)
    requires property in properties && properties[property] != ""
    requires orderBy != "" && pageSize >= 1
    ensures OrderBySql(properties, [Paging(orderBy, startIndex, pageSize), Sort(property, descending)]) ==
            Success(" ORDER BY " + (properties[property] + OnlyWhen(" DESC", descending)) + ", " +
                    (orderBy + " OFFSET " + IntToString(startIndex) + " ROWS FETCH NEXT " +
                     IntToString(pageSize) + " ROWS ONLY"))
  {
    var sort, paging := Sort(property, descending), Paging(orderBy, startIndex, pageSize);
    SplitOptions(paging, sort);
    var st := properties[property] + OnlyWhen(" DESC", descending);
    var pt := orderBy + " OFFSET " + IntToString(startIndex) + " ROWS FETCH NEXT " +
              IntToString(pageSize) + " ROWS ONLY";
    SingleTerms(properties, sort, paging);
    OrderByPair(st, pt);
  }

  /** Two non-empty terms make " ORDER BY first, second". */
  lemma OrderByPair(st: string, pt: string)
    requires st != "" && pt != ""
    ensures WithPrefix(" ORDER BY ", Join(NonEmpty([st] + [pt]), ", ")) == " ORDER BY " + st + ", " + pt
  {
    var both := [st] + [pt];
    assert both == [st, pt] && both[1..] == [pt];
    assert NonEmpty(both[1..]) == [pt];
    assert NonEmpty(both) == [st] + [pt];
    assert Join(both, ", ") == st + ", " + pt;
  }

  lemma SplitOptions(paging: QueryOption, sort: QueryOption)
    requires paging.Paging? && sort.Sort?
    ensures SortOptions([paging, sort]) == [sort]
    ensures PagingOptions([paging, sort]) == [paging]
  {
    var options := [paging, sort];
    var tail := options[1..];
    assert tail == [sort];
    assert tail[1..] == [];
    assert SortOptions(tail) == [sort] + [];
    assert PagingOptions(tail) == [] + [];
  }

  lemma SingleTerms(properties: map<string, string>, sort: QueryOption, paging: QueryOption)
    requires sort.Sort? && sort.property in properties && paging.Paging?
    requires paging.orderBy != "" && paging.pageSize >= 1
    ensures SortTerms(properties, [sort]) == Success([SortTerm(properties, sort).value])
    ensures PagingTerms([paging]) == Success([PagingTerm(paging).value])
  {
    var ss, ps := [sort], [paging];
    assert ss[0] == sort && ss[1..] == [];
    assert ps[0] == paging && ps[1..] == [];
    assert SortTerms(properties, ss[1..]) == Success([]);
    assert PagingTerms(ps[1..]) == Success([]);
    assert [SortTerm(properties, sort).value] + [] == [SortTerm(properties, sort).value];
    assert [PagingTerm(paging).value] + [] == [PagingTerm(paging).value];
  }

  /**
   * GenerateQuery: SELECT, TOP, the columns, FROM and a line break, then the
   * WHERE clause, then the ORDER BY clause; it binds the same parameters as the
   * COUNT query over the same criteria.
   */
  lemma QueryShape(m: Mappings, criteria: seq<QueryCriterion>, options: seq<QueryOption>,
                   p: Params, columns: string, from: string)
    requires QuerySql(m, criteria, options, p, columns, from).Success?
    ensures "ID" in m.properties
    ensures var head := "SELECT " + TopSql(options) + columns + " FROM " + from + NewLine;
            var q := QuerySql(m, criteria, options, p, columns, from).value;
            StartsWith(q.sql, head + (" WHERE " + m.properties["ID"] + " IS NOT NULL")) &&
            q.params == WhereSql(m, p, criteria).value.params
  {
    var head := "SELECT " + TopSql(options) + columns + " FROM " + from + NewLine;
    var w := WhereSql(m, p, criteria).value;
    var s := OrderBySql(m.properties, options).value;
    QueryParts(m, criteria, options, p, columns, from);
    WhereShape(m, p, criteria);
    var prefix := " WHERE " + m.properties["ID"] + " IS NOT NULL";
    StartsWithExtend(w.sql, prefix, s);
    StartsWithBehind(head, w.sql + s, prefix);
  }

  lemma QueryParts(m: Mappings, criteria: seq<QueryCriterion>, options: seq<QueryOption>,
                   p: Params, columns: string, from: string)
    requires QuerySql(m, criteria, options, p, columns, from).Success?
    ensures WhereSql(m, p, criteria).Success? && OrderBySql(m.properties, options).Success?
    ensures QuerySql(m, criteria, options, p, columns, from).value ==
            Built(("SELECT " + TopSql(options) + columns + " FROM " + from + NewLine) +
                  (WhereSql(m, p, criteria).value.sql + OrderBySql(m.properties, options).value),
                  WhereSql(m, p, criteria).value.params)
  {
    var head := "SELECT " + TopSql(options) + columns + " FROM " + from + NewLine;
    var w := WhereSql(m, p, criteria).value;
    var s := OrderBySql(m.properties, options).value;
    assert head + (w.sql + s) == head + w.sql + s;
  }

  /** Without Sort or Paging options the query ends with the WHERE clause. */
  lemma QueryWithoutSorting(m: Mappings, criteria: seq<QueryCriterion>, options: seq<QueryOption>,
                            p: Params, columns: string, from: string)
    requires QuerySql(m, criteria, options, p, columns, from).Success?
    requires forall i :: 0 <= i < |options| ==> !options[i].Sort? && !options[i].Paging?
    ensures QuerySql(m, criteria, options, p, columns, from).value.sql ==
            "SELECT " + TopSql(options) + columns + " FROM " + from + NewLine + WhereSql(m, p, criteria).value.sql
  {
    NoOrderByWithoutSorting(m.properties, options);
    var head := "SELECT " + TopSql(options) + columns + " FROM " + from + NewLine;
    var w := WhereSql(m, p, criteria).value;
    assert head + w.sql + "" == head + w.sql;
  }

  /** A successful query has a successful COUNT query binding the same parameters. */
  lemma QueryAndCountAgree(m: Mappings, criteria: seq<QueryCriterion>, options: seq<QueryOption>,
                           p: Params, columns: string, from: string)
    requires QuerySql(m, criteria, options, p, columns, from).Success?
    ensures CountQuerySql(m, criteria, p, from).Success?
    ensures CountQuerySql(m, criteria, p, from).value.params ==
            QuerySql(m, criteria, options, p, columns, from).value.params
  {
    WhereShape(m, p, criteria);
  }

  /** GenerateCountQuery: "SELECT COUNT(<ID column>) FROM <tables>" then the WHERE clause. */
  lemma CountQueryShape(m: Mappings, criteria: seq<QueryCriterion>, p: Params, from: string)
    requires CountQuerySql(m, criteria, p, from).Success?
    ensures StartsWith(CountQuerySql(m, criteria, p, from).value.sql,
                       "SELECT COUNT(" + m.properties["ID"] + ") FROM " + from +
                       (" WHERE " + m.properties["ID"] + " IS NOT NULL"))
  {
    var w := WhereSql(m, p, criteria).value;
    WhereShape(m, p, criteria);
    var head := "SELECT COUNT(" + m.properties["ID"] + ") FROM " + from;
    StartsWithBehind(head, w.sql, " WHERE " + m.properties["ID"] + " IS NOT NULL");
  }

  /** A method's result and new dictionary agree with a specification's outcome. */
  predicate Agrees(r: Result<string>, spec: Result<Built>, params: Params)
  {
    match spec
    case Success(b) => r == Success(b.sql) && params == b.params
    case Failure(e) => r == Failure(e)
  }

  // ---------------------------------------------------------------------------
  // The builder
  // ---------------------------------------------------------------------------

  class SqlQueryBuilder {
    const criteria: seq<QueryCriterion>
    const options: seq<QueryOption>
    const mappings: Mappings
    var parameters: Params

    constructor Init(criteria: seq<QueryCriterion>, options: seq<QueryOption>, mappings: Mappings)
      ensures this.criteria == criteria && this.options == options && this.mappings == mappings
      ensures parameters == map[]
    {
      this.criteria := criteria;
      this.options := options;
      this.mappings := mappings;
      parameters := map[];
    }

    /**
     * new SqlQueryBuilder(criteria, options, mappings): any FullTextSearch
     * option, then any Range option, is rejected; null criteria become empty.
     */
    static method Create(criteria: Option<seq<QueryCriterion>>, options: seq<QueryOption>, mappings: Mappings)
      returns (r: Result<SqlQueryBuilder>)
      ensures UnsupportedOption(options).Some? ==> r == Failure(UnsupportedOption(options).value)
      ensures UnsupportedOption(options).None? ==>
                r.Success? && fresh(r.value) && r.value.criteria == criteria.GetOr([]) &&
                r.value.options == options && r.value.mappings == mappings && r.value.parameters == map[]
    {
      var unsupported := UnsupportedOption(options);
      if unsupported.Some? {
        return Failure(unsupported.value);
      }
      var b := new SqlQueryBuilder.Init(criteria.GetOr([]), options, mappings);
      return Success(b);
    }

    method GetUniqueParameterName(column: string) returns (name: string)
      ensures name !in parameters
      ensures name == UniqueParameterName(parameters, column)
    {
      var result := ParameterBase(column);
      if result in parameters {
        var i: nat := 2;
        while Candidate(result, i) in parameters
          invariant i >= 2
          invariant forall j: nat :: 2 <= j < i ==> Candidate(result, j) in parameters
          invariant FirstFree(parameters, result, i) == FirstFree(parameters, result, 2)
          decreases |parameters| + 2 - i
        {
          TakenBound(parameters, result, i + 1);
          i := i + 1;
        }
        name := Candidate(result, i);
      } else {
        name := result;
      }
    }

    /** BuildCriteria(criterion, type, propertyMappings). */
    method BuildLeafCriteria(name: string, f: FilterFunction, v: Option<string>, columns: map<string, string>)
      returns (r: Result<string>)
      modifies this
      ensures Agrees(r, LeafSql(old(parameters), name, f, v, columns), parameters)
    {
      var key := MappingKey(name, columns);
      if key !in columns {
        return Failure(NoMappingError(name));
      }
      var sql := BuildColumnCriteria(columns[key], f, v);
      r := Success(sql);
    }

    /** The column part of BuildCriteria: the condition text, binding a parameter when needed. */
    method BuildColumnCriteria(column: string, f: FilterFunction, v: Option<string>) returns (sql: string)
      modifies this
      ensures sql == ColumnSql(old(parameters), column, f, v).sql
      ensures parameters == ColumnSql(old(parameters), column, f, v).params
    {
      if v.None? {
        return column + " IS " + OnlyWhen("NOT", f != Is) + " NULL";
      }
      var value := v.value;
      if f == In {
        if value == "()" {
          return "1 = 0 /*" + column + " IN ([empty])*/";
        }
        return column + " " + DatabaseOperator(f) + " " + value;
      }
      var valueData := BoundValue(f, value);
      var parameterName := GetUniqueParameterName(column);
      parameters := parameters[parameterName := valueData];
      sql := column + " " + DatabaseOperator(f) + " @" + parameterName;
    }

    /** CreateSimpleSqlStatement for a simple criterion. */
    method CreateSimpleSqlStatement(name: string, f: FilterFunction, v: Option<string>) returns (r: Result<string>)
      modifies this
      ensures Agrees(r, SimpleSql(mappings, old(parameters), name, f, v), parameters)
    {
      if '.' in name {
        var parts := Split(name, '.');
        SplitWith(name, '.');
        if mappings.subQueries.None? {
          return Failure(NoNestedQueriesError(mappings.typeName));
        }
        if |parts| > 2 {
          return Failure(DeepPath);
        }
        var mapping := FindSubquery(mappings.subQueries.value, parts[0] + ".*");
        if mapping.None? {
          return Failure(NoSubqueryMappingError(mappings.typeName, parts[0]));
        }
        if parts[0] !in mappings.typeProperties {
          return Failure(NullDereference);
        }
        var inner := BuildLeafCriteria(parts[1], f, v, mapping.value.details);
        if inner.Failure? {
          return Failure(inner.error);
        }
        r := Success("EXISTS (" + mapping.value.subquery + WithPrefix(" AND ", inner.value) + ")");
      } else {
        r := BuildLeafCriteria(name, f, v, mappings.properties);
      }
    }

    /** CreateSqlStatement; a null criterion (a side that could not be translated) is "(1 = 1)". */
    method CreateSqlStatement(c: Option<Criterion>) returns (r: Result<string>)
      modifies this
      ensures Agrees(r, StatementSql(mappings, old(parameters), c), parameters)
      decreases c
    {
      match c {
        case None =>
          r := Success("(1 = 1)");
        case Some(Binary(left, op, right, _, _)) =>
          var l := CreateSqlStatement(left);
          if l.Failure? {
            return Failure(l.error);
          }
          var rr := CreateSqlStatement(right);
          if rr.Failure? {
            return Failure(rr.error);
          }
          r := Success("(" + l.value + " " + OperatorName(op) + " " + rr.value + " )");
        case Some(Simple(name, f, v)) =>
          r := CreateSimpleSqlStatement(name, f, v);
      }
    }

    /** BuildCriteria(ICriterion). */
    method BuildCriteria(c: QueryCriterion) returns (r: Result<string>)
      modifies this
      ensures Agrees(r, CriterionSql(mappings, old(parameters), c), parameters)
    {
      match c {
        case Direct(sql, ps, _) =>
          if ps.Keys * parameters.Keys != {} {
            return Failure(DuplicateKey);
          }
          parameters := parameters + ps;
          r := Success(sql);
        case Condition(criterion) =>
          r := CreateSqlStatement(Some(criterion));
      }
    }

    method GenerateWhere() returns (r: Result<string>)
      modifies this
      ensures Agrees(r, WhereSql(mappings, old(parameters), criteria), parameters)
    {
      if "ID" !in mappings.properties {
        return Failure(KeyNotFound);
      }
      ghost var start := parameters;
      var clauses := "";
      var i := 0;
      while i < |criteria|
        invariant 0 <= i <= |criteria|
        invariant ClausesSql(mappings, start, criteria[..i]) == Success(Built(clauses, parameters))
      {
        assert criteria[..i + 1][..i] == criteria[..i];
        var c := BuildCriteria(criteria[i]);
        if c.Failure? {
          ClausesPrefixFailure(mappings, start, criteria, i + 1);
          return Failure(c.error);
        }
        clauses := clauses + WithPrefix(" AND ", c.value);
        i := i + 1;
      }
      assert criteria[..|criteria|] == criteria;
      r := Success(" WHERE " + mappings.properties["ID"] + " IS NOT NULL" + clauses);
    }

    method GenerateQuery(columnsList: string, fromTables: string) returns (r: Result<string>)
      modifies this
      ensures Agrees(r, QuerySql(mappings, criteria, options, old(parameters), columnsList, fromTables), parameters)
    {
      var text := "SELECT ";
      text := text + TopSql(options);
      text := text + columnsList;
      text := text + " FROM " + fromTables + NewLine;
      var where := GenerateWhere();
      if where.Failure? {
        return Failure(where.error);
      }
      text := text + where.value;
      var sort := OrderBySql(mappings.properties, options);
      if sort.Failure? {
        return Failure(sort.error);
      }
      r := Success(text + sort.value);
    }

    method GenerateCountQuery(fromTables: string) returns (r: Result<string>)
      modifies this
      ensures Agrees(r, CountQuerySql(mappings, criteria, old(parameters), fromTables), parameters)
    {
      if "ID" !in mappings.properties {
        return Failure(KeyNotFound);
      }
      var where := GenerateWhere();
      if where.Failure? {
        return Failure(where.error);
      }
      r := Success("SELECT COUNT(" + mappings.properties["ID"] + ") FROM " + fromTables + where.value);
    }
  }
}
