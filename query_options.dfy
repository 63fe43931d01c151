// Query options (QueryOption and its subclasses) and their static factories.
module QueryOptions {
  import opened Wrappers

  /**
   * The option classes: SortQueryOption, ResultSetSizeQueryOption (a nullable
   * Number), RangeQueryOption, PagingQueryOption and FullTextSearchQueryOption.
   */
  datatype QueryOption =
    | Sort(property: string, descending: bool)
    | ResultSetSize(number: Option<int>)
    | Range(from: int, count: int)
    | Paging(orderBy: string, startIndex: int, pageSize: int)
    | FullTextSearch(keyword: string, properties: seq<string>)

  function Take(number: int): (r: QueryOption)
    ensures r.ResultSetSize? && r.number == Some(number)
  {
    ResultSetSize(Some(number))
  }

  function MakeRange(startRecordIndex: int, numberOfRecords: int): (r: QueryOption)
    ensures r.Range? && r.from == startRecordIndex && r.count == numberOfRecords
  {
    Range(startRecordIndex, numberOfRecords)
  }

  function OrderByDirection(property: string, descending: bool): (r: QueryOption)
    ensures r.Sort? && r.property == property && r.descending == descending
  {
    Sort(property, descending)
  }

  function OrderBy(property: string): (r: QueryOption)
    ensures r == Sort(property, false)
  {
    OrderByDirection(property, false)
  }

  function OrderByDescending(property: string): (r: QueryOption)
    ensures r == Sort(property, true)
  {
    OrderByDirection(property, true)
  }

  /**
   * FullTextSearch(keyword, properties): an empty (or null) keyword and a null
   * or empty property list are rejected with ArgumentNullException, in that
   * order; otherwise both are stored unchanged.
   */
  function MakeFullTextSearch(keyword: string, properties: Option<seq<string>>): (r: Result<QueryOption>)
    ensures keyword == "" ==> r == Failure(Error(ArgumentNullError, "keyword"))
    ensures keyword != "" && (properties.None? || properties.value == []) ==>
              r == Failure(Error(ArgumentNullError, "properties"))
    ensures r.Success? <==> keyword != "" && properties.Some? && properties.value != []
    ensures r.Success? ==> r.value == FullTextSearch(keyword, properties.value)
  {
    if keyword == "" then Failure(Error(ArgumentNullError, "keyword"))
    else if properties.None? || |properties.value| == 0 then Failure(Error(ArgumentNullError, "properties"))
    else Success(FullTextSearch(keyword, properties.value))
  }

  function MakePaging(orderBy: string, startIndex: int, pageSize: int): (r: QueryOption)
    ensures r.Paging? && r.orderBy == orderBy && r.startIndex == startIndex && r.pageSize == pageSize
  {
    Paging(orderBy, startIndex, pageSize)
  }

  /**
   * The framework's GetResultsToFetch (its definition is not part of this
   * model): the Number of the first ResultSetSize option, if any.
   */
  function ResultsToFetch(options: seq<QueryOption>): (r: Option<int>)
    ensures (forall i :: 0 <= i < |options| ==> !options[i].ResultSetSize?) ==> r == None
    ensures forall i :: 0 <= i < |options| && options[i].ResultSetSize? &&
                        (forall j :: 0 <= j < i ==> !options[j].ResultSetSize?)
                        ==> r == options[i].number
  {
    if options == [] then None
    else if options[0].ResultSetSize? then options[0].number
    else ResultsToFetch(options[1..])
  }

  predicate HasSortOrPaging(options: seq<QueryOption>)
  {
    exists i :: 0 <= i < |options| && (options[i].Sort? || options[i].Paging?)
  }

  // ---------------------------------------------------------------------------
  // What the factories mean to a query
  // ---------------------------------------------------------------------------

  /** A leading Take(n) fixes the number of records to fetch, and imposes no order. */
  lemma TakeSetsResultsToFetch(n: int, rest: seq<QueryOption>)
    ensures ResultsToFetch([Take(n)] + rest) == Some(n)
    ensures !HasSortOrPaging([Take(n)])
  {
    assert ([Take(n)] + rest)[0] == Take(n);
  }

  /** The two sort factories differ only in direction; both order the query and fix no count. */
  lemma SortFactories(property: string)
    ensures OrderBy(property) != OrderByDescending(property)
    ensures OrderBy(property).property == OrderByDescending(property).property == property
    ensures HasSortOrPaging([OrderBy(property)]) && HasSortOrPaging([OrderByDescending(property)])
    ensures ResultsToFetch([OrderBy(property)]) == None && ResultsToFetch([OrderByDescending(property)]) == None
  {
    assert [OrderBy(property)][0].Sort?;
    assert [OrderByDescending(property)][0].Sort?;
  }

  /** A paging option orders the query and fixes no count; a range does neither. */
  lemma PagingAndRange(orderBy: string, startIndex: int, pageSize: int, from: int, count: int)
    ensures HasSortOrPaging([MakePaging(orderBy, startIndex, pageSize)])
    ensures !HasSortOrPaging([MakeRange(from, count)])
    ensures ResultsToFetch([MakePaging(orderBy, startIndex, pageSize), MakeRange(from, count)]) == None
  {
    assert [MakePaging(orderBy, startIndex, pageSize)][0].Paging?;
  }
}
