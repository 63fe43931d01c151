# MSharp data layer, modelled in Dafny

This project models the data-access core of MSharp.Framework 2.1.0.629, the
framework vendored in the Recording-Monitor repository.

The modelled path starts with a LINQ predicate `x => ...`:

- ExpressionRunner turns the predicate into criteria a provider can run as SQL
  and keeps the untranslatable rest for in-memory filtering.
- BinaryCriterion builds the criteria for `||` predicates.
- QueryOption supplies the query options.
- SqlQueryBuilder renders criteria and options as a parameterised SQL statement.
- The Database facade decides whether a query may be answered from the Cache.
  It reconciles fetched rows with the session and the cache, and counts.
- The Cache files entities by type and ID and query results by query key.
  Adding or removing an entity expires the cached lists up the base-type chain.

Beside that path, the project models:

- InterfaceDataProvider, which answers queries on an interface type through its
  implementing classes;
- the provider-independent parts of the ADO.NET DataProvider;
- the lazy ID generation of IntEntity;
- nested keyed ProcessContext values;
- the IHierarchy extensions: full paths, and parent and child closures;
- the FileInfo helpers ToSafeFileName and GetMimeType;
- the Yes/No texts of booleans.

Files and modules:

- `wrappers.dfy`: Option, Result and the error kinds. A .NET exception becomes
  a `Failure` carrying its kind and message.
- `lists.dfy` and `text.dfy`: the .NET list and string operations the code relies on.
- `expressions.dfy`, `criteria.dfy` and `entity_types.dfy`: the data model.
  These are the expression tree, the criteria and query criteria, and the
  registry of entity types with their attributes.
- One file per core source file. Pure code becomes functions and lemmas.
  Code that updates state becomes a class with the source's fields, whose
  methods are proved against those functions:
  - `Cache.Cache`
  - `SqlQueryBuilder.SqlQueryBuilder`
  - `ExpressionRunner.ExpressionRunner`
  - `Database.Database`
  - `InterfaceDataProvider.InterfaceProvider`
  - `IntEntity.IntEntity` and `IntEntity.IdGenerator`
  - `ProcessContext.Context` and `ProcessContext.ContextStore`
  - `DataProvider.BulkSaver`

These things are taken as parameters or as data:

- Reflection is data. This covers base types, attributes, assemblies and the
  types they declare, and property getters.
- The database, the session memory and the row comparer are function
  parameters of `Database.Environment`.
- The truth of a leaf of a predicate on a record is given by the `leaf`
  parameter. The truth of a simple SQL criterion is given by the `sat`
  parameter.
- Nothing models time, threads or I/O.

Where the code and its documentation disagree, the model follows the code:

- `GetIdsList` reports the message of `Delete()`, and `BulkUpdate` reports the
  message of `BulkInsert()`, as the code does.
- A NULL test renders as `"{0} IS {1} NULL"`. For `Is` this gives
  `col IS  NULL`, with two spaces.
- GetAllParents sorts an already sorted closure a second time, as the code does.
- BinaryCriterion sets the completeness flag as written (see Findings). The
  flag rule is the `propagate` parameter: false is the rule as written, true the
  corrected rule. The runner's class methods and the Database follow the code
  and pass false. The corrected rule's guarantees are proved beside them.

## Model

| member | source | states |
|---|---|---|
| BinaryCriterion.Combine | packages/MSharp.Framework.2.1.0.629/src/Data/API/BinaryCriterion.cs:59-77 | Two null sides give null. One null side gives an incomplete AND node under `&&` and null under `\|\|`. Two sides give a node with those sides, OR exactly for `\|\|`, and no SQL condition. It is complete always as written, and under the corrected rule exactly when both sides are complete. |
| BinaryCriterion.SideSuperset | packages/MSharp.Framework.2.1.0.629/src/Data/API/BinaryCriterion.cs:45-77 | Under either flag rule, the criterion translated from a faithful predicate holds for every record the predicate holds for, so pushing it to SQL never loses rows. |
| BinaryCriterion.LeafHolds | packages/MSharp.Framework.2.1.0.629/src/Data/Engine/ExpressionRunner.cs:183-257 | The criterion of a faithful leaf holds exactly when the leaf does. |
| BinaryCriterion.SideExact | packages/MSharp.Framework.2.1.0.629/src/Data/API/BinaryCriterion.cs:45-77 | Under the corrected flag rule, a translation flagged complete holds for exactly the records the predicate holds for. |
| BinaryCriterion.OrElseAlwaysComplete | packages/MSharp.Framework.2.1.0.629/src/Data/API/BinaryCriterion.cs:73-77 | As written, an `\|\|` expression that translates is never flagged incomplete. |
| BinaryCriterion.AsWrittenLosesIncompleteness | packages/MSharp.Framework.2.1.0.629/src/Data/API/BinaryCriterion.cs:54-77 | For `x.A == 1 && x.Calc == 2 \|\| x.B == 3`, with Calc calculated, the record A = 1, Calc != 2, B != 3 fails the predicate. The as-written SQL still holds for it, and the translation is flagged complete. |
| BinaryCriterion.CorrectedFlagsIncompleteness | packages/MSharp.Framework.2.1.0.629/src/Data/API/BinaryCriterion.cs:59-77 | The corrected rule flags that same translation incomplete. |
| BinaryCriterion.ToString | packages/MSharp.Framework.2.1.0.629/src/Data/API/BinaryCriterion.cs:80-84 | A non-empty SQL condition is the text. Otherwise the text is `(` + left + `-` + operator name + `-` + right + `)`. |
| BinaryCriterion.ToStringShowsOperator | packages/MSharp.Framework.2.1.0.629/src/Data/API/BinaryCriterion.cs:83 | Without an SQL condition, an AND node and an OR node over the same sides have different texts. |
| Boolean.ToYesNoString | packages/MSharp.Framework.2.1.0.629/src/System.Extensions/Boolean.cs:16-19 | The result is the yes text or the no text. If the two texts differ, it is the yes text exactly when the value is true. |
| Boolean.ToYesNoStringNullable | packages/MSharp.Framework.2.1.0.629/src/System.Extensions/Boolean.cs:24-30 | Null gives the empty string. A value gives what ToYesNoString gives. |
| Boolean.DefaultTexts | packages/MSharp.Framework.2.1.0.629/src/System.Extensions/Boolean.cs:16-30 | With the default texts, the answers are exactly "Yes", "No" and "". |
| Expressions.ValueText | packages/MSharp.Framework.2.1.0.629/src/Data/Engine/ExpressionRunner.cs:197-198 | `value?.ToString()` is null exactly for a null value. |
| ExpressionTranslation.Units | packages/MSharp.Framework.2.1.0.629/src/Data/Engine/ExpressionRunner.cs:92-101 | There is at least one unit. A non-`&&` node is its own only unit. The last unit of `a && b` is `b`. |
| ExpressionTranslation.UnitsTruth | packages/MSharp.Framework.2.1.0.629/src/Data/Engine/ExpressionRunner.cs:92-101 | A predicate holds exactly when all of its units hold. |
| ExpressionTranslation.RightConjunctionIsOneUnit | packages/MSharp.Framework.2.1.0.629/src/Data/Engine/ExpressionRunner.cs:94-98 | `a && (b && c)` splits into `a` and `b && c`. A right-hand conjunction is not split. |
| ExpressionTranslation.PropertyPath | packages/MSharp.Framework.2.1.0.629/src/Data/Engine/ExpressionRunner.cs:127-162 | Only a non-calculated property has a path. A member of a Nullable has its own name. A property not declared on an entity type has no path. On the parameter, a Guid `XId` gives `X` and any other property its name. An owner that is neither the parameter nor a member gives no path. Any path is the name, the name without "Id", or ends in "." + name. |
| ExpressionTranslation.NestedPath | packages/MSharp.Framework.2.1.0.629/src/Data/Engine/ExpressionRunner.cs:150-159 | `x.A.B` over entity properties has the path "A.B". |
| ExpressionTranslation.GuidIdPath | packages/MSharp.Framework.2.1.0.629/src/Data/Engine/ExpressionRunner.cs:144-146 | A Guid property `XId` of the parameter has the path "X". |
| ExpressionTranslation.ToOperator | packages/MSharp.Framework.2.1.0.629/src/Data/Engine/ExpressionRunner.cs:332-349 | Exactly the six comparisons map to a filter. Any other node raises NotSupported with "<kind> is still not supported." |
| ExpressionTranslation.ToOperatorInjective | packages/MSharp.Framework.2.1.0.629/src/Data/Engine/ExpressionRunner.cs:332-349 | Different comparisons map to different filters. |
| ExpressionTranslation.ValueOf | packages/MSharp.Framework.2.1.0.629/src/Data/Engine/ExpressionRunner.cs:260-288 | A constant or captured value is extracted as it is. Other operands are not modelled. |
| ExpressionTranslation.CriterionShapes | packages/MSharp.Framework.2.1.0.629/src/Data/Engine/ExpressionRunner.cs:183-257 | The criterion for each unit shape: `!x.P` gives P Is False. A bool member gives Is True. `x.P.HasValue` gives IsNot null. `x == v` gives the ID criterion. `x.P op v` gives (path, filter, value). An unsupported operator fails. |
| ExpressionTranslation.UntranslatableMember | packages/MSharp.Framework.2.1.0.629/src/Data/Engine/ExpressionRunner.cs:189-195 | A comparison on a member without a path gives no criterion. |
| ExpressionTranslation.LogicalNotTranslated | packages/MSharp.Framework.2.1.0.629/src/Data/Engine/ExpressionRunner.cs:183-210 | A `&&` or `\|\|` node is never one simple criterion. |
| ExpressionTranslation.UnitsFaithful | packages/MSharp.Framework.2.1.0.629/src/Data/Engine/ExpressionRunner.cs:92-101 | Every unit of a faithful predicate is faithful. |
| ExpressionRunner.ProcessUnit | packages/MSharp.Framework.2.1.0.629/src/Data/Engine/ExpressionRunner.cs:164-181 | Under either flag rule, a unit that is not `\|\|` is complete. Under the rule as written (`propagate` false), every translated unit is complete. |
| ExpressionRunner.TranslateUnitsExact | packages/MSharp.Framework.2.1.0.629/src/Data/Engine/ExpressionRunner.cs:72-85 | Under either flag rule, Evaluate succeeds exactly when every unit translates. The conditions are then the non-null translations in order. The conversion is complete exactly when every unit gave a complete, non-null criterion. |
| ExpressionRunner.PrefixFailure | packages/MSharp.Framework.2.1.0.629/src/Data/Engine/ExpressionRunner.cs:78-83 | An exception in an earlier unit is the outcome of the whole loop. |
| ExpressionRunner.TranslationSound | packages/MSharp.Framework.2.1.0.629/src/Data/Engine/ExpressionRunner.cs:72-85 | Under either flag rule, for faithful units, the conditions hold whenever all units hold. Under the corrected rule, when the conversion is complete, they hold only then. |
| ExpressionRunner.UnitSound | packages/MSharp.Framework.2.1.0.629/src/Data/Engine/ExpressionRunner.cs:164-181 | Under either flag rule, a faithful unit's criterion holds whenever the unit holds. Under the corrected rule, a complete criterion holds exactly then. |
| ExpressionRunner.Run | packages/MSharp.Framework.2.1.0.629/src/Data/Engine/ExpressionRunner.cs:26-41 | Under either flag rule, DynamicCriteria is set exactly when the conversion is incomplete, and it is then the predicate itself. A translation error is passed on. An incomplete conversion with enforcement on raises "The specified criteria cannot be converted to SQL." |
| ExpressionRunner.RunKeepsMatches | packages/MSharp.Framework.2.1.0.629/src/Data/Engine/ExpressionRunner.cs:26-41 | Under either flag rule, a record that satisfies a faithful predicate satisfies every SQL condition and any dynamic criteria. |
| ExpressionRunner.RunSound | packages/MSharp.Framework.2.1.0.629/src/Data/Engine/ExpressionRunner.cs:26-41 | Under the corrected flag rule, for a faithful predicate, a record satisfies it exactly when it satisfies every SQL condition and any dynamic criteria. |
| ExpressionRunner.AsWrittenRunnerAdmitsRejected | packages/MSharp.Framework.2.1.0.629/src/Data/Engine/ExpressionRunner.cs:26-41 | Under the rule as written, with enforcement on, `x.A == 1 && x.Calc == 2 \|\| x.B == 3` runs complete with no dynamic criteria. Its conditions hold for a record the predicate rejects. |
| ExpressionRunner.CorrectedRunnerRejectsMixed | packages/MSharp.Framework.2.1.0.629/src/Data/Engine/ExpressionRunner.cs:26-41 | Under the corrected rule, the same predicate raises the enforcement error. Without enforcement, it keeps the predicate as dynamic criteria. |
| ExpressionRunner.ConjunctionOfComparisons | packages/MSharp.Framework.2.1.0.629/src/Data/Engine/ExpressionRunner.cs:72-101 | Under either flag rule, `a && b` over two translatable leaves gives their two criteria, complete, with no dynamic criteria. |
| ExpressionRunner.ExpressionRunner.Init | packages/MSharp.Framework.2.1.0.629/src/Data/Engine/ExpressionRunner.cs:18-21 | A new runner has no conditions and no dynamic criteria, and ConvertedCompletely is true. |
| ExpressionRunner.ExpressionRunner.ProcessCriteria | packages/MSharp.Framework.2.1.0.629/src/Data/Engine/ExpressionRunner.cs:164-181 | Uses the flag rule as written. Returns ProcessUnit's criterion or error. It clears ConvertedCompletely exactly when the unit is incomplete, and changes nothing else. |
| ExpressionRunner.ExpressionRunner.Evaluate | packages/MSharp.Framework.2.1.0.629/src/Data/Engine/ExpressionRunner.cs:72-85 | The loop leaves Conditions, ConvertedCompletely and the error as TranslateUnits gives them under the flag rule as written. |
| ExpressionRunner.ExpressionRunner.CreateRunner | packages/MSharp.Framework.2.1.0.629/src/Data/Engine/ExpressionRunner.cs:26-41 | Either the error Run gives under the flag rule as written, or a fresh runner whose state is that Run's. |
| QueryOptions.Take | packages/MSharp.Framework.2.1.0.629/src/Data/API/QueryOptions/QueryOption.cs:10-13 | A result-set-size option with the given number. |
| QueryOptions.TakeSetsResultsToFetch | packages/MSharp.Framework.2.1.0.629/src/Data/API/QueryOptions/QueryOption.cs:10-13 | A leading Take(n) makes n the number of results to fetch, and orders nothing. |
| QueryOptions.MakeRange | packages/MSharp.Framework.2.1.0.629/src/Data/API/QueryOptions/QueryOption.cs:18-21 | A range option with that start and count. |
| QueryOptions.OrderByDirection | packages/MSharp.Framework.2.1.0.629/src/Data/API/QueryOptions/QueryOption.cs:40-43 | A sort option on that property and direction. |
| QueryOptions.SortFactories | packages/MSharp.Framework.2.1.0.629/src/Data/API/QueryOptions/QueryOption.cs:30-38 | OrderBy and OrderByDescending on one property differ. Both order the query, and neither fixes a count. |
| QueryOptions.MakeFullTextSearch | packages/MSharp.Framework.2.1.0.629/src/Data/API/QueryOptions/QueryOption.cs:101-110 | An empty keyword raises ArgumentNull("keyword"). Then null or empty properties raise ArgumentNull("properties"). Otherwise the option succeeds, holding both unchanged. |
| QueryOptions.MakePaging | packages/MSharp.Framework.2.1.0.629/src/Data/API/QueryOptions/QueryOption.cs:155-158 | A paging option with that order, start index and page size. |
| QueryOptions.PagingAndRange | packages/MSharp.Framework.2.1.0.629/src/Data/API/QueryOptions/QueryOption.cs:18-21 | Paging orders the query and a range does not. Neither fixes a count. |
| QueryOptions.ResultsToFetch | packages/MSharp.Framework.2.1.0.629/src/Data/Ado.Net/SqlQueryBuilder.cs:348 | The number of the first result-set-size option, or null when there is none. |
| SqlQueryBuilder.UnsupportedOption | packages/MSharp.Framework.2.1.0.629/src/Data/Ado.Net/SqlQueryBuilder.cs:25-29 | No error exactly when there is no full-text or range option. A full-text option reports its error first, then a range option. |
| SqlQueryBuilder.ParameterBase | packages/MSharp.Framework.2.1.0.629/src/Data/Ado.Net/SqlQueryBuilder.cs:329 | The column with '[' and ']' removed, then each '.' turned into '_' position by position. Every other character of the column is kept. A column with none of the three comes back unchanged. |
| SqlQueryBuilder.FirstFree | packages/MSharp.Framework.2.1.0.629/src/Data/Ado.Net/SqlQueryBuilder.cs:333-340 | The loop stops at the first free `base_k`, and every alternative before it is taken. |
| SqlQueryBuilder.UniqueParameterName | packages/MSharp.Framework.2.1.0.629/src/Data/Ado.Net/SqlQueryBuilder.cs:327-344 | The name is not yet a parameter. It is the derived name when that is free, otherwise the first free `base_k` with k >= 2. |
| SqlQueryBuilder.MappingKey | packages/MSharp.Framework.2.1.0.629/src/Data/Ado.Net/SqlQueryBuilder.cs:79-81 | A mapped name is its own key. An unmapped name ending in "Id" is retried without the suffix. |
| SqlQueryBuilder.LeafSqlCases | packages/MSharp.Framework.2.1.0.629/src/Data/Ado.Net/SqlQueryBuilder.cs:75-130 | It fails exactly when the column is unmapped. Null renders `IS [NOT] NULL`. `In "()"` renders `1 = 0`. Other In lists are inline. Any other value binds exactly one new, unused parameter. |
| SqlQueryBuilder.LikeWildcards | packages/MSharp.Framework.2.1.0.629/src/Data/Ado.Net/SqlQueryBuilder.cs:103-106 | Contains and NotContains wrap the value in '%'. BeginsWith appends '%' and EndsWith prepends it. Other filters keep the value. |
| SqlQueryBuilder.FindSubquery | packages/MSharp.Framework.2.1.0.629/src/Data/Ado.Net/SqlQueryBuilder.cs:310 | The first mapping whose Properties equal the key, or none when no mapping has it. |
| SqlQueryBuilder.ClausesPrefixFailure | packages/MSharp.Framework.2.1.0.629/src/Data/Ado.Net/SqlQueryBuilder.cs:69-73 | A failing criterion makes the whole WHERE clause fail. |
| SqlQueryBuilder.SortOptions | packages/MSharp.Framework.2.1.0.629/src/Data/Ado.Net/SqlQueryBuilder.cs:43 | Exactly the sort options. |
| SqlQueryBuilder.PagingOptions | packages/MSharp.Framework.2.1.0.629/src/Data/Ado.Net/SqlQueryBuilder.cs:45 | Exactly the paging options. |
| SqlQueryBuilder.PagingTerm | packages/MSharp.Framework.2.1.0.629/src/Data/Ado.Net/SqlQueryBuilder.cs:55-64 | An empty OrderBy, then a page size below 1, is rejected with its message. A valid term starts with "orderBy OFFSET ". |
| SqlQueryBuilder.SortTerms | packages/MSharp.Framework.2.1.0.629/src/Data/Ado.Net/SqlQueryBuilder.cs:50-53 | Succeeds exactly when every sort property is mapped, otherwise KeyNotFound. There is one term per option, in order. |
| SqlQueryBuilder.PagingTerms | packages/MSharp.Framework.2.1.0.629/src/Data/Ado.Net/SqlQueryBuilder.cs:55-64 | Succeeds exactly when every paging option is valid. There is one term per option, in order. |
| SqlQueryBuilder.NonEmpty | packages/MSharp.Framework.2.1.0.629/src/Data/Ado.Net/SqlQueryBuilder.cs:47 | Trim drops only empty texts. |
| SqlQueryBuilder.TopSql | packages/MSharp.Framework.2.1.0.629/src/Data/Ado.Net/SqlQueryBuilder.cs:346-351 | "TOP n " from the first result-set-size option, and nothing without one. |
| SqlQueryBuilder.LeafParams | packages/MSharp.Framework.2.1.0.629/src/Data/Ado.Net/SqlQueryBuilder.cs:125-129 | A leaf keeps every parameter. It adds one exactly for a non-null, non-In value, and its SQL is not empty. |
| SqlQueryBuilder.SimpleParams | packages/MSharp.Framework.2.1.0.629/src/Data/Ado.Net/SqlQueryBuilder.cs:252-323 | The same, for one- and two-segment paths. |
| SqlQueryBuilder.StatementParams | packages/MSharp.Framework.2.1.0.629/src/Data/Ado.Net/SqlQueryBuilder.cs:243-250 | A criterion tree keeps every parameter and adds exactly one per bound leaf. |
| SqlQueryBuilder.CriterionParams | packages/MSharp.Framework.2.1.0.629/src/Data/Ado.Net/SqlQueryBuilder.cs:135-159 | The same, for a criterion or a direct SQL criterion. |
| SqlQueryBuilder.ClausesParams | packages/MSharp.Framework.2.1.0.629/src/Data/Ado.Net/SqlQueryBuilder.cs:69-73 | The criteria's clauses keep every parameter and add what each criterion binds. They are empty or start with " AND ". |
| SqlQueryBuilder.WhereShape | packages/MSharp.Framework.2.1.0.629/src/Data/Ado.Net/SqlQueryBuilder.cs:69-73 | An unmapped ID fails. Otherwise the clause is " WHERE <ID> IS NOT NULL", then " AND " and each further criterion. The parameters grow by what the criteria bind. |
| SqlQueryBuilder.ExistsForm | packages/MSharp.Framework.2.1.0.629/src/Data/Ado.Net/SqlQueryBuilder.cs:308-318 | "a.b" renders as "EXISTS (<sub-query> AND <b criterion>)" through the first "a.*" mapping. It fails with no nested-query support or no mapping, and with NullReferenceException when "a" is not a property of the entity type. |
| SqlQueryBuilder.NoOrderByWithoutSorting | packages/MSharp.Framework.2.1.0.629/src/Data/Ado.Net/SqlQueryBuilder.cs:41-48 | With no sort or paging option, there is no ORDER BY. |
| SqlQueryBuilder.OrderByFailures | packages/MSharp.Framework.2.1.0.629/src/Data/Ado.Net/SqlQueryBuilder.cs:50-64 | An unmapped sort property, or an invalid paging option, makes GenerateSort fail. |
| SqlQueryBuilder.PagingAfterSort | packages/MSharp.Framework.2.1.0.629/src/Data/Ado.Net/SqlQueryBuilder.cs:41-48 | Sort terms come before paging terms, even when the paging option is listed first. |
| SqlQueryBuilder.QueryShape | packages/MSharp.Framework.2.1.0.629/src/Data/Ado.Net/SqlQueryBuilder.cs:353-368 | A query starts with "SELECT TOP columns FROM tables", a line break and the WHERE prefix. It binds the WHERE clause's parameters. |
| SqlQueryBuilder.QueryParts | packages/MSharp.Framework.2.1.0.629/src/Data/Ado.Net/SqlQueryBuilder.cs:353-368 | A query is the head, then the WHERE clause, then ORDER BY. Both parts succeed. |
| SqlQueryBuilder.QueryWithoutSorting | packages/MSharp.Framework.2.1.0.629/src/Data/Ado.Net/SqlQueryBuilder.cs:353-368 | Without sorting, the query ends with the WHERE clause. |
| SqlQueryBuilder.QueryAndCountAgree | packages/MSharp.Framework.2.1.0.629/src/Data/Ado.Net/SqlQueryBuilder.cs:353-373 | A successful query has a successful COUNT query that binds the same parameters. |
| SqlQueryBuilder.CountQueryShape | packages/MSharp.Framework.2.1.0.629/src/Data/Ado.Net/SqlQueryBuilder.cs:370-373 | "SELECT COUNT(<ID>) FROM tables" then the WHERE clause. |
| SqlQueryBuilder.SqlQueryBuilder.Init | packages/MSharp.Framework.2.1.0.629/src/Data/Ado.Net/SqlQueryBuilder.cs:23-36 | A new builder holds its inputs and no parameters. |
| SqlQueryBuilder.SqlQueryBuilder.Create | packages/MSharp.Framework.2.1.0.629/src/Data/Ado.Net/SqlQueryBuilder.cs:23-36 | Rejects with UnsupportedOption's error. Otherwise a fresh builder in which null criteria become empty. |
| SqlQueryBuilder.SqlQueryBuilder.GetUniqueParameterName | packages/MSharp.Framework.2.1.0.629/src/Data/Ado.Net/SqlQueryBuilder.cs:327-344 | The loop returns UniqueParameterName, which is unused. |
| SqlQueryBuilder.SqlQueryBuilder.BuildLeafCriteria | packages/MSharp.Framework.2.1.0.629/src/Data/Ado.Net/SqlQueryBuilder.cs:75-130 | The text, error and new Parameters are those of LeafSql. |
| SqlQueryBuilder.SqlQueryBuilder.BuildColumnCriteria | packages/MSharp.Framework.2.1.0.629/src/Data/Ado.Net/SqlQueryBuilder.cs:95-129 | The text and the new Parameters are those of ColumnSql: the condition on the found column, with a new parameter for a bound value. |
| SqlQueryBuilder.SqlQueryBuilder.CreateSimpleSqlStatement | packages/MSharp.Framework.2.1.0.629/src/Data/Ado.Net/SqlQueryBuilder.cs:252-323 | The same, for SimpleSql. |
| SqlQueryBuilder.SqlQueryBuilder.CreateSqlStatement | packages/MSharp.Framework.2.1.0.629/src/Data/Ado.Net/SqlQueryBuilder.cs:243-250 | The same, for StatementSql. |
| SqlQueryBuilder.SqlQueryBuilder.BuildCriteria | packages/MSharp.Framework.2.1.0.629/src/Data/Ado.Net/SqlQueryBuilder.cs:135-159 | The same, for CriterionSql. |
| SqlQueryBuilder.SqlQueryBuilder.GenerateWhere | packages/MSharp.Framework.2.1.0.629/src/Data/Ado.Net/SqlQueryBuilder.cs:69-73 | The same, for WhereSql. |
| SqlQueryBuilder.SqlQueryBuilder.GenerateQuery | packages/MSharp.Framework.2.1.0.629/src/Data/Ado.Net/SqlQueryBuilder.cs:353-368 | The same, for QuerySql. |
| SqlQueryBuilder.SqlQueryBuilder.GenerateCountQuery | packages/MSharp.Framework.2.1.0.629/src/Data/Ado.Net/SqlQueryBuilder.cs:370-373 | The same, for CountQuerySql. |
| Cache.ClearChainMeaning | packages/MSharp.Framework.2.1.0.629/src/Data/Engine/Cache.cs:281-287 | The expiry loop keeps every key. It clears exactly the list maps of the chain below Entity, and leaves the others. |
| Cache.ExpireMeaning | packages/MSharp.Framework.2.1.0.629/src/Data/Engine/Cache.cs:277-291 | ExpireLists(t) clears t's chain for a cacheable t, and clears nothing otherwise. |
| Cache.FindSound | packages/MSharp.Framework.2.1.0.629/src/Data/Engine/Cache.cs:150-179 | A hit is an entity filed under the requested ID in a type Get searches: t, or a cacheable subtype reached from t. An entity cached under t itself is returned. Null means no searched type holds the ID. A lookup adds only empty maps, and an uncacheable type yields nothing and changes nothing. |
| Cache.FindAmongSound | packages/MSharp.Framework.2.1.0.629/src/Data/Engine/Cache.cs:171-176 | The subtype search from the i-th subtype on: a hit lies in a type searched below those subtypes, and null means none of those types holds the ID. |
| Cache.AddThenGet | packages/MSharp.Framework.2.1.0.629/src/Data/Engine/Cache.cs:184-203 | After Add(e) for a cacheable type, Get by e's type and ID returns e. |
| Cache.AddMeaning | packages/MSharp.Framework.2.1.0.629/src/Data/Engine/Cache.cs:184-203 | Add files e, replaces and invalidates the old entry, keeps every other entry, and expires exactly the lists of e's chain. |
| Cache.RemoveTypeShrinks | packages/MSharp.Framework.2.1.0.629/src/Data/Engine/Cache.cs:242-275 | Remove(t) adds no type and keeps the maps of the types it keeps. A cacheable t is dropped. Only t and its descendants are dropped. |
| Cache.RemoveTypeDropsChildren | packages/MSharp.Framework.2.1.0.629/src/Data/Engine/Cache.cs:248-251 | Every cacheable direct subtype in the dictionary is dropped. |
| Cache.RemoveTypeExpires | packages/MSharp.Framework.2.1.0.629/src/Data/Engine/Cache.cs:254-265 | Removing a cacheable type that has a map clears the lists of its chain. |
| Cache.RemoveAllDrops | packages/MSharp.Framework.2.1.0.629/src/Data/Engine/Cache.cs:214-216 | Every cacheable dependent type is dropped, and nothing is added. |
| Cache.RemoveMeaning | packages/MSharp.Framework.2.1.0.629/src/Data/Engine/Cache.cs:208-237 | After Remove(e), e is invalidated. A cacheable e is gone from its map, and its chain's lists are cleared. Unless e is an application event, the other cacheable dependents are purged. |
| Cache.AddListThenGetList | packages/MSharp.Framework.2.1.0.629/src/Data/Engine/Cache.cs:293-321 | AddList, then GetList with the same key, returns the list (for a cacheable type). Every other key reads as before. |
| Cache.AddListOverwrites | packages/MSharp.Framework.2.1.0.629/src/Data/Engine/Cache.cs:306-321 | A second AddList with the same key overwrites the first. |
| Cache.QueryKeyShape | packages/MSharp.Framework.2.1.0.629/src/Data/Engine/Cache.cs:323-344 | The key starts with "Type:". It ends with "\|N:n" when n is given, and otherwise is exactly the conditions' text. |
| Cache.ConditionsTextLength | packages/MSharp.Framework.2.1.0.629/src/Data/Engine/Cache.cs:330-335 | Each condition is followed by exactly one '\|'. |
| Cache.QueryKeySeparatesLimits | packages/MSharp.Framework.2.1.0.629/src/Data/Engine/Cache.cs:337-341 | Keys that differ only in the record limit are different. |
| Cache.CountBelowZero | packages/MSharp.Framework.2.1.0.629/src/Data/Engine/Cache.cs:355-358 | The count is zero exactly when every map is empty. |
| Cache.Cache.GetEntities | packages/MSharp.Framework.2.1.0.629/src/Data/Engine/Cache.cs:87-106 | Creates t's empty map when it is missing, and changes nothing else. |
| Cache.Cache.Get | packages/MSharp.Framework.2.1.0.629/src/Data/Engine/Cache.cs:150-179 | The result and the new Types are Find's. The lists are unchanged. |
| Cache.Cache.Add | packages/MSharp.Framework.2.1.0.629/src/Data/Engine/Cache.cs:184-203 | The new state is AddSpec's. |
| Cache.Cache.Remove | packages/MSharp.Framework.2.1.0.629/src/Data/Engine/Cache.cs:208-237 | The new state is RemoveSpec's. |
| Cache.Cache.RemoveType | packages/MSharp.Framework.2.1.0.629/src/Data/Engine/Cache.cs:242-275 | The new state is RemoveTypeSpec's. |
| Cache.Cache.ExpireLists | packages/MSharp.Framework.2.1.0.629/src/Data/Engine/Cache.cs:277-291 | The lists become Expire's. The entities are unchanged. |
| Cache.Cache.GetList | packages/MSharp.Framework.2.1.0.629/src/Data/Engine/Cache.cs:293-304 | Returns the stored list, and creates t's list map for a cacheable t. |
| Cache.Cache.AddList | packages/MSharp.Framework.2.1.0.629/src/Data/Engine/Cache.cs:306-321 | The lists become StoreList's. |
| Cache.Cache.ClearAll | packages/MSharp.Framework.2.1.0.629/src/Data/Engine/Cache.cs:346-353 | Both dictionaries are empty, and CountAllObjects is 0. |
| Cache.Cache.CountAllObjects | packages/MSharp.Framework.2.1.0.629/src/Data/Engine/Cache.cs:355-358 | Zero exactly when every entity map is empty. |
| Database.WithSoftDelete | packages/MSharp.Framework.2.1.0.629/src/Data/API/Database/Database.GetList.cs:129-130 | A soft-delete type gets IsMarkedSoftDeleted = False appended last. Other types keep the criteria. |
| Database.CacheEligibleMeaning | packages/MSharp.Framework.2.1.0.629/src/Data/API/Database/Database.GetList.cs:132-140 | A query may use the cache exactly when it has no options or only Take(1), every direct criterion is cache-safe, and no other criterion is on a dotted property. |
| Database.DirectSafeMeaning | packages/MSharp.Framework.2.1.0.629/src/Data/API/Database/Database.GetList.cs:134 | Every direct criterion is cache-safe. |
| Database.DottedMeaning | packages/MSharp.Framework.2.1.0.629/src/Data/API/Database/Database.GetList.cs:136-140 | Some non-direct criterion has a '.' in its property name. |
| Database.Filter | packages/MSharp.Framework.2.1.0.629/src/Data/API/Database/Database.GetList.cs:214 | Exactly the fetched records the predicate holds for. |
| Database.Truncate | packages/MSharp.Framework.2.1.0.629/src/Data/API/Database/Database.GetList.cs:216-218 | The list is unchanged unless more than n records are given. Otherwise it is the first n records (none for a negative n). |
| Database.TruncatePrefix | packages/MSharp.Framework.2.1.0.629/src/Data/API/Database/Database.GetList.cs:216-218 | Truncation is a prefix and never longer than n. |
| Database.Count | packages/MSharp.Framework.2.1.0.629/src/Data/API/Database/Database.Count.cs:16-24 | The provider's count over the criteria, with the soft-delete criterion appended for a soft-delete type. |
| Database.RowKeepsFiled | packages/MSharp.Framework.2.1.0.629/src/Data/API/Database/Database.GetList.cs:53-81 | Reconciling a row keeps every cached entity filed under its own type and ID. |
| Database.RowKeepsEntries | packages/MSharp.Framework.2.1.0.629/src/Data/API/Database/Database.GetList.cs:61-77 | Reconciling a row never drops or replaces a cached entity. |
| Database.ReconcileKeepsEntries | packages/MSharp.Framework.2.1.0.629/src/Data/API/Database/Database.GetList.cs:53-81 | Reconciling all rows never drops or replaces an entity cached beforehand. |
| Database.RowPrefersCached | packages/MSharp.Framework.2.1.0.629/src/Data/API/Database/Database.GetList.cs:61-79 | A row whose entity is still cached reconciles to the cached entity. |
| Database.ReconcileRows | packages/MSharp.Framework.2.1.0.629/src/Data/API/Database/Database.GetList.cs:53-81 | There is one result per fetched row: the in-session object if there is one, otherwise an entity with the row's ID. With no session object, an entity cached beforehand under the row's cacheable type and ID is returned instead of the raw row. |
| Database.ReconcileInTransaction | packages/MSharp.Framework.2.1.0.629/src/Data/API/Database/Database.GetList.cs:71-75 | Inside a transaction, nothing is cached, no list changes and nothing is invalidated. |
| Database.ProviderCriteria | packages/MSharp.Framework.2.1.0.629/src/Data/API/Database/Database.GetList.cs:83-153 | An uncached query returns the reconciled rows fetched for the criteria, soft delete included. They are sorted unless a sort or paging option is given. |
| Database.CacheHit | packages/MSharp.Framework.2.1.0.629/src/Data/API/Database/Database.GetList.cs:142-151 | On a hit, the cached list is returned and no entity changes. |
| Database.ListStoredOnlyWhenAllowed | packages/MSharp.Framework.2.1.0.629/src/Data/API/Database/Database.GetList.cs:155-166 | A result is cached under its key when the query is eligible, non-polymorphic and outside a transaction. Inside a transaction, no cached list changes. |
| Database.DynamicResultsSatisfy | packages/MSharp.Framework.2.1.0.629/src/Data/API/Database/Database.GetList.cs:211-220 | Every record returned for a partly translated predicate was fetched and satisfies it. |
| Database.Database.GetConcreteList | packages/MSharp.Framework.2.1.0.629/src/Data/API/Database/Database.GetList.cs:31-91 | The loop's result and cache state are ConcreteList's. |
| Database.Database.GetList | packages/MSharp.Framework.2.1.0.629/src/Data/API/Database/Database.GetList.cs:120-169 | The result and cache state are GetListSpec's. |
| Database.Database.GetListWhere | packages/MSharp.Framework.2.1.0.629/src/Data/API/Database/Database.GetList.cs:201-222 | Translates the predicate with the flag rule as written. A translation error is passed on. A full translation queries with the options. Otherwise the records are fetched without options, filtered by the predicate and truncated. |
| Database.Database.CountWhere | packages/MSharp.Framework.2.1.0.629/src/Data/API/Database/Database.Count.cs:29-46 | Translates the predicate with the flag rule as written. A full translation is the provider's count with soft delete appended, and leaves the cache unchanged. Otherwise it is the length of GetList's filtered, truncated result. |
| DataProvider.NonEmpty | packages/MSharp.Framework.2.1.0.629/src/Data/Ado.Net/DataProvider.cs:71 | RemoveEmptyEntries keeps exactly the non-empty pieces. |
| DataProvider.ExtractIds | packages/MSharp.Framework.2.1.0.629/src/Data/Ado.Net/DataProvider.cs:69-72 | No extracted ID is empty. |
| DataProvider.ExtractIdsRoundTrip | packages/MSharp.Framework.2.1.0.629/src/Data/Ado.Net/DataProvider.cs:37-72 | `<Id>a</Id><Id>b</Id>...` reads back as [a, b, ...] for non-empty IDs without '<'. |
| DataProvider.ExtractIdsPlain | packages/MSharp.Framework.2.1.0.629/src/Data/Ado.Net/DataProvider.cs:69-72 | Text without tags is one ID, or none when empty. |
| DataProvider.DbValue | packages/MSharp.Framework.2.1.0.629/src/Data/Ado.Net/DataProvider.cs:202-203 | Null becomes DBNull.Value, and a value is kept. |
| DataProvider.CreateParameter | packages/MSharp.Framework.2.1.0.629/src/Data/Ado.Net/DataProvider.cs:200-216 | The name has no spaces and otherwise the given characters. Null is bound as DBNull. The column type is kept. |
| DataProvider.GenerateParameter | packages/MSharp.Framework.2.1.0.629/src/Data/Ado.Net/DataProvider.cs:255-258 | The name has no spaces. The value is kept, and null stays null. |
| DataProvider.GenerateParameters | packages/MSharp.Framework.2.1.0.629/src/Data/Ado.Net/DataProvider.cs:247-250 | One parameter per entry, in order. |
| DataProvider.UpdatedValuesMeaning | packages/MSharp.Framework.2.1.0.629/src/Data/Ado.Net/DataProvider.cs:145-195 | A property is reported exactly when both getters succeed and either there is no updated record or the texts differ. Its entry is (original, updated). |
| DataProvider.UpdatedValuesWithoutUpdate | packages/MSharp.Framework.2.1.0.629/src/Data/Ado.Net/DataProvider.cs:190-191 | With no updated record, every readable property is reported. |
| DataProvider.UpdatedValuesOfSame | packages/MSharp.Framework.2.1.0.629/src/Data/Ado.Net/DataProvider.cs:190-191 | A record compared with itself reports nothing. |
| DataProvider.GetUpdatedValues | packages/MSharp.Framework.2.1.0.629/src/Data/Ado.Net/DataProvider.cs:145-195 | A null original raises ArgumentNull("original"). Otherwise the loop builds UpdatedValues. |
| DataProvider.BulkSaver.BulkInsert | packages/MSharp.Framework.2.1.0.629/src/Data/Ado.Net/DataProvider.cs:51-57 | Every entity is saved once, in order, with BypassAll, and earlier saves are kept. |
| DataProvider.BulkSaver.BulkUpdate | packages/MSharp.Framework.2.1.0.629/src/Data/Ado.Net/DataProvider.cs:59-65 | The same, for BulkUpdate. |
| DataProvider.BulkSaver.SaveAll | packages/MSharp.Framework.2.1.0.629/src/Data/Ado.Net/DataProvider.cs:53-56 | The shared save loop. |
| InterfaceDataProvider.ScanTypes | packages/MSharp.Framework.2.1.0.629/src/Data/Ado.Net/InterfaceDataProvider.cs:28-37 | Exactly the assembly's types that are not the interface, not interfaces, and implement it. |
| InterfaceDataProvider.WithParentsIn | packages/MSharp.Framework.2.1.0.629/src/Data/Ado.Net/InterfaceDataProvider.cs:47 | Exactly the found types whose base type was found too. |
| InterfaceDataProvider.ScanInUniverse | packages/MSharp.Framework.2.1.0.629/src/Data/Ado.Net/InterfaceDataProvider.cs:24-43 | Every found type is a candidate from an assembly that references the interface's assembly and loads. |
| InterfaceDataProvider.ScanDistinct | packages/MSharp.Framework.2.1.0.629/src/Data/Ado.Net/InterfaceDataProvider.cs:24-43 | No type is found twice. |
| InterfaceDataProvider.RemoveEachDistinct | packages/MSharp.Framework.2.1.0.629/src/Data/Ado.Net/InterfaceDataProvider.cs:49-50 | The remove loop drops exactly the listed items. |
| InterfaceDataProvider.ImplementersMeaning | packages/MSharp.Framework.2.1.0.629/src/Data/Ado.Net/InterfaceDataProvider.cs:20-53 | Implementers are distinct, found and implementing classes. A found type is kept exactly when its base type was not found. |
| InterfaceDataProvider.FirstHitMeaning | packages/MSharp.Framework.2.1.0.629/src/Data/Ado.Net/InterfaceDataProvider.cs:64-80 | A hit is the first implementer's record, after earlier implementers gave none or threw. There is no hit exactly when none gives one. |
| InterfaceDataProvider.Unsupported | packages/MSharp.Framework.2.1.0.629/src/Data/Ado.Net/InterfaceDataProvider.cs:82-133 | Each such member raises NotSupported with its message. |
| InterfaceDataProvider.CollectSplits | packages/MSharp.Framework.2.1.0.629/src/Data/Ado.Net/InterfaceDataProvider.cs:59-62 | Collecting over a + b is collecting over a, then over b. |
| InterfaceDataProvider.InterfaceProvider.FindImplementers | packages/MSharp.Framework.2.1.0.629/src/Data/Ado.Net/InterfaceDataProvider.cs:20-53 | The two loops compute Implementers. |
| InterfaceDataProvider.InterfaceProvider.ScanAssemblies | packages/MSharp.Framework.2.1.0.629/src/Data/Ado.Net/InterfaceDataProvider.cs:24-43 | The nested scan loop computes Scan. |
| InterfaceDataProvider.InterfaceProvider.Prune | packages/MSharp.Framework.2.1.0.629/src/Data/Ado.Net/InterfaceDataProvider.cs:47-50 | The remove loop computes RemoveEach. |
| InterfaceDataProvider.InterfaceProvider.GetImplementers | packages/MSharp.Framework.2.1.0.629/src/Data/Ado.Net/InterfaceDataProvider.cs:13-18 | Returns Implementers and remembers them for the interface. |
| InterfaceDataProvider.InterfaceProvider.GetList | packages/MSharp.Framework.2.1.0.629/src/Data/Ado.Net/InterfaceDataProvider.cs:59-62 | Each implementer's records, in implementer order. |
| InterfaceDataProvider.InterfaceProvider.CollectLists | packages/MSharp.Framework.2.1.0.629/src/Data/Ado.Net/InterfaceDataProvider.cs:61 | The SelectMany loop computes Collect. |
| InterfaceDataProvider.InterfaceProvider.Count | packages/MSharp.Framework.2.1.0.629/src/Data/Ado.Net/InterfaceDataProvider.cs:55-58 | The length of GetList. |
| InterfaceDataProvider.InterfaceProvider.Get | packages/MSharp.Framework.2.1.0.629/src/Data/Ado.Net/InterfaceDataProvider.cs:64-80 | The first hit, otherwise "There is no <Type> record with the ID of '<id>'". |
| IntEntity.Increment | packages/MSharp.Framework.2.1.0.629/src/Entity/IntEntity.cs:58 | Unchecked `+ 1`: int.MaxValue wraps to int.MinValue. |
| IntEntity.IdRoot | packages/MSharp.Framework.2.1.0.629/src/Entity/IntEntity.cs:45-48 | The ancestor that directly extends IntEntity: the type itself when it does, else its base type's root. |
| IntEntity.NextIdMeaning | packages/MSharp.Framework.2.1.0.629/src/Entity/IntEntity.cs:43-59 | The first ID is 1 (transient or no record) or the stored maximum + 1. Later IDs are the last + 1. Only the root's counter changes, and it holds the new ID. |
| IntEntity.SharedCounter | packages/MSharp.Framework.2.1.0.629/src/Entity/IntEntity.cs:45-48 | A subclass and its base type draw from one counter. |
| IntEntity.GenerateIncreases | packages/MSharp.Framework.2.1.0.629/src/Entity/IntEntity.cs:58 | Successive IDs of one hierarchy are consecutive until int.MaxValue. |
| IntEntity.IdGenerator.NewId | packages/MSharp.Framework.2.1.0.629/src/Entity/IntEntity.cs:43-59 | For a class derived from IntEntity, the ID and the new counters are NextId's. For IntEntity itself it raises NullReferenceException and changes no counter. |
| IntEntity.IntEntity.GetID | packages/MSharp.Framework.2.1.0.629/src/Entity/IntEntity.cs:20-31 | A loaded ID is returned unchanged. Otherwise one is generated and kept, and for IntEntity itself the NullReferenceException is raised and the ID stays unloaded. |
| IntEntity.IntEntity.SetID | packages/MSharp.Framework.2.1.0.629/src/Entity/IntEntity.cs:32-36 | The value is kept as the loaded ID. |
| IntEntity.IntEntity.Equals | packages/MSharp.Framework.2.1.0.629/src/Entity/IntEntity.cs:77-79 | A null or other-typed object is unequal, and no ID is read. Otherwise the result is whether the two IDs are equal; it is NullReferenceException exactly for IntEntity itself when an ID is still unloaded. |
| IntEntity.IntEntity.GetHashCode | packages/MSharp.Framework.2.1.0.629/src/Entity/IntEntity.cs:81 | The hash is the ID. It fails exactly when the ID is unloaded and the instance is IntEntity itself. |
| IntEntity.EqualsId | packages/MSharp.Framework.2.1.0.629/src/Entity/IntEntity.cs:61-64 | A null entity equals only a null id. Otherwise the entity is equal exactly when its ID is the id, and the comparison fails exactly for an unloaded IntEntity itself. |
| IntEntity.EqualsInt | packages/MSharp.Framework.2.1.0.629/src/Entity/IntEntity.cs:65-68 | A null entity is never equal. Otherwise the entity is equal exactly when its ID is the id, and the comparison fails exactly for an unloaded IntEntity itself. |
| ProcessContext.Push | packages/MSharp.Framework.2.1.0.629/src/Services/System/ProcessContext.cs:25-30 | The new context goes last in its slot. Other slots are unchanged. |
| ProcessContext.Withdraw | packages/MSharp.Framework.2.1.0.629/src/Services/System/ProcessContext.cs:99-103 | The context leaves its slot's list. Other slots are unchanged. |
| ProcessContext.PushThenWithdraw | packages/MSharp.Framework.2.1.0.629/src/Services/System/ProcessContext.cs:25-103 | Disposing the context just created restores every slot's list. |
| ProcessContext.SlotKeyMeaning | packages/MSharp.Framework.2.1.0.629/src/Services/System/ProcessContext.cs:32-35 | Two keys of one data type share a slot exactly when their texts are equal, with null read as "". |
| ProcessContext.SameSlotSameCurrent | packages/MSharp.Framework.2.1.0.629/src/Services/System/ProcessContext.cs:32-35 | Keys with equal texts, null read as "", see the same current data. The "" key sees Current's data. |
| ProcessContext.ContextStore.GetCurrent | packages/MSharp.Framework.2.1.0.629/src/Services/System/ProcessContext.cs:90-94 | The data of the innermost live context in the key's slot, otherwise the default expression's value. Null and "" name the same slot. |
| ProcessContext.ContextStore.SetDefaultDataExpression | packages/MSharp.Framework.2.1.0.629/src/Services/System/ProcessContext.cs:40-46 | Null resets the expression to default(T). Otherwise the given expression is used. |
| ProcessContext.Context.constructor | packages/MSharp.Framework.2.1.0.629/src/Services/System/ProcessContext.cs:25-30 | Registers the context last in its key's slot, making its data current under that key. When the key is null or "", its data is also Current. |
| ProcessContext.Context.Dispose | packages/MSharp.Framework.2.1.0.629/src/Services/System/ProcessContext.cs:99-103 | Withdraws the context. |
| Hierarchy.GetFullPath | packages/MSharp.Framework.2.1.0.629/src/System.Extensions/IHierarchy.cs:27-33 | Null has no path. A node at the top has its Name. |
| Hierarchy.RootPath | packages/MSharp.Framework.2.1.0.629/src/System.Extensions/IHierarchy.cs:19-33 | A root has no parent, and its path is its Name. |
| Hierarchy.FullPathIsJoinedNames | packages/MSharp.Framework.2.1.0.629/src/System.Extensions/IHierarchy.cs:27-33 | The path is the Names from the top down to the node, joined by the separator. |
| Hierarchy.SortByPath | packages/MSharp.Framework.2.1.0.629/src/System.Extensions/IHierarchy.cs:40 | OrderBy by full path: sorted, and a permutation of its input. |
| Hierarchy.GetAllParents | packages/MSharp.Framework.2.1.0.629/src/System.Extensions/IHierarchy.cs:62-68 | Sorted, only nodes above the node, and empty at the top. |
| Hierarchy.WithAllParents | packages/MSharp.Framework.2.1.0.629/src/System.Extensions/IHierarchy.cs:54-57 | Sorted, holding the node and only nodes above it. |
| Hierarchy.ParentsAreAncestry | packages/MSharp.Framework.2.1.0.629/src/System.Extensions/IHierarchy.cs:54-68 | The node and its parents are exactly its chain to the top, each once. |
| Hierarchy.OtherChildren | packages/MSharp.Framework.2.1.0.629/src/System.Extensions/IHierarchy.cs:48 | Holds each child other than the node exactly once, and nothing else. |
| Hierarchy.GetAllChildren | packages/MSharp.Framework.2.1.0.629/src/System.Extensions/IHierarchy.cs:46-49 | Sorted, numbered after the node, and holding every direct child. |
| Hierarchy.WithAllChildren | packages/MSharp.Framework.2.1.0.629/src/System.Extensions/IHierarchy.cs:38-41 | Sorted: the node once, plus GetAllChildren's members. |
| Hierarchy.DescendMembers | packages/MSharp.Framework.2.1.0.629/src/System.Extensions/IHierarchy.cs:48 | SelectMany over some children holds exactly those children and their descendants. |
| Hierarchy.ChildrenAreDescendants | packages/MSharp.Framework.2.1.0.629/src/System.Extensions/IHierarchy.cs:38-49 | GetAllChildren holds exactly the node's descendants. WithAllChildren holds exactly the node and its descendants. |
| Hierarchy.ClosureHoldsNodeOnce | packages/MSharp.Framework.2.1.0.629/src/System.Extensions/IHierarchy.cs:38-68 | The node is once in each of its closures. At the top, WithAllParents is just the node. |
| FileInfo.StripDot | packages/MSharp.Framework.2.1.0.629/src/System.Extensions/FileInfo.cs:334 | A leading '.' is dropped. |
| FileInfo.MimeTypeOfListed | packages/MSharp.Framework.2.1.0.629/src/System.Extensions/FileInfo.cs:332-385 | A listed extension, with or without its dot, gets its table entry. |
| FileInfo.MimeTypeOfUnlisted | packages/MSharp.Framework.2.1.0.629/src/System.Extensions/FileInfo.cs:383 | Anything else, including another letter case, gets application/octet-stream. |
| FileInfo.MimeTypeExamples | packages/MSharp.Framework.2.1.0.629/src/System.Extensions/FileInfo.cs:332-385 | ".docx" and "doc" are msword. ".DOC" and "" are octet-stream. |
| FileInfo.ControlCharacters | packages/MSharp.Framework.2.1.0.629/src/System.Extensions/FileInfo.cs:240 | Exactly the name's control characters. |
| FileInfo.Sanitized | packages/MSharp.Framework.2.1.0.629/src/System.Extensions/FileInfo.cs:242-247 | Every invalid character is replaced, and every other is kept. |
| FileInfo.CollapseMeaning | packages/MSharp.Framework.2.1.0.629/src/System.Extensions/FileInfo.cs:249-250 | ReplaceAll leaves no doubled replacement and adds no character. |
| FileInfo.CollapseKeeps | packages/MSharp.Framework.2.1.0.629/src/System.Extensions/FileInfo.cs:249-250 | A name without doubles is unchanged. |
| FileInfo.Summarized | packages/MSharp.Framework.2.1.0.629/src/System.Extensions/FileInfo.cs:252 | At most 255 characters, and a prefix of the input. |
| FileInfo.SafeFileNameMeaning | packages/MSharp.Framework.2.1.0.629/src/System.Extensions/FileInfo.cs:236-253 | Empty gives empty. Otherwise at most 255 characters, no doubled replacement, and no invalid character but the replacement. |
| FileInfo.SafeNameKept | packages/MSharp.Framework.2.1.0.629/src/System.Extensions/FileInfo.cs:236-253 | A short, already safe name is unchanged. |
| FileInfo.ToSafeFileName | packages/MSharp.Framework.2.1.0.629/src/System.Extensions/FileInfo.cs:236-253 | The replace loop, collapse and summarise compute SafeFileName. |

## Left out

- Cache:
  - Cache.Get(id) without a type is left out.
  - Locks, the cache strategy and the cascades for `this != Current` are left out.
  - Dictionary key order is modelled as ascending type number.
- Cache.Cache.Remove: does not model `SessionMemory.Remove(entity)` (Cache.cs:212), because the session memory is a fixed parameter of `Database.Environment`.
- Cache.RemoveTypeDropsChildren: states the drop for direct subtypes only, not for deeper descendants.
- Database:
  - Provider resolution and the concatenation of polymorphic results are folded into the `fetch` parameter.
  - The entity comparer used by `Sort()` is the `sortList` parameter.
  - The reflection-based `GetList(Type, ...)` overloads and `ResolveDataProviders` are left out.
  - RaiseOnLoaded is left out, because it is an event with no state here.
- ExpressionRunner:
  - Values that need `Compile()` become NotModelled errors.
  - RecordCustomQuery (file logging) and the static runner cache are left out.
- QueryOptions:
  - The expression-based OrderBy<T> and FullTextSearch<T> overloads (QueryOption.cs:49-92, 112-151) are left out. They only extract member names by reflection.
- Definitions that are not part of this model are given simple ones:
  - GetDatabaseOperator tokens, OnlyWhen, WithPrefix and FormatWith;
  - GetResultsToFetch, taken as the first ResultSetSize option.
- SqlQueryBuilder:
  - The DateTime value detection is left out.
  - Paths of more than two segments return a NotModelled error.
  - A DirectDatabaseCriterion's MapSqlCriteria is a fixed SQL text with given parameters.
- InterfaceDataProvider:
  - Database.GetList and Database.Get are the parameters `listOf` and `getById`.
  - Assemblies and their types are data.
  - The ConnectionString properties are left out.
- DataProvider:
  - Choosing the data properties by reflection is taken as given: a distinct list of names plus readable values.
  - Connection strings, GetIdsList, and ExecuteNonQuery/Reader/Scalar are left out, because they are I/O.
  - SupportValidationBypassing is left out, because it is a constant.
- IntEntity:
  - Replacing NewIdGenerator is left out.
  - The concurrency of AddOrUpdate is left out; the counter update is modelled as atomic.
- ProcessContext:
  - CallContext is a map from slot text to the live contexts.
  - default(T) is a constructor parameter.
  - The `ProcessContext.Create` facade is left out; it only calls the constructor.
  - Current is GetCurrent(null) and has no contract of its own.
- Hierarchy:
  - Only self-parent cycles are allowed, because parents are numbered before their children.
  - Comparison is ordinal.
  - The typed `WithAllParents<T>` and `GetAllParents<T>` casts are left out.
  - Hierarchy.SortByPath: stability of OrderBy is not stated.
  - Hierarchy.OtherChildren: the order of the result is not stated. Except yields first occurrences in order, and the contract states only the members, each once.
- FileInfo:
  - Summarize, ReplaceAll, TrimEnd(string), IsEmpty and HasValue are not part of this model. They are given the definitions the code implies: cut to 255 and append "...", collapse doubled replacements, drop one trailing "...".
  - The file's Extension is taken as given.
- Boolean: the ToString(format) overload is left out.

## Findings

| source | as written | input that shows it | evidently intended | confidence | as-written member | corrected member |
|---|---|---|---|---|---|---|
| packages/MSharp.Framework.2.1.0.629/src/Data/API/BinaryCriterion.cs:73-77 | When both sides translate, the node is built with IsConvertedCompletely left true. An incomplete AND side inside an OR is forgotten, so ExpressionRunner adds no in-memory filter. | `x => x.A == 1 && x.Calc == 2 \|\| x.B == 3`, with Calc a calculated property. The record A = 1, Calc != 2, B != 3 is returned although the predicate is false for it. | The node is complete only when both sides are complete, so the predicate is re-checked in memory. | not executed | BinaryCriterion.AsWrittenLosesIncompleteness, ExpressionRunner.AsWrittenRunnerAdmitsRejected | BinaryCriterion.SideExact, ExpressionRunner.RunSound |
