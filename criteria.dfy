// The query criteria the data layer passes around: a simple condition on one
// property, a binary AND/OR node built from a LINQ predicate, and a direct SQL
// criterion supplied by the application.
module Criteria {
  import opened Wrappers

  /** MSharp.Framework.Data.FilterFunction. */
  datatype FilterFunction =
    | Is | IsNot | Contains | NotContains | BeginsWith | EndsWith
    | MoreThan | MoreThanOrEqual | LessThan | LessThanOrEqual | In

  /**
   * The framework's GetDatabaseOperator extension on FilterFunction (its
   * definition is not part of this model; the SQL tokens below are the ones
   * each filter stands for).
   */
  function DatabaseOperator(f: FilterFunction): string
  {
    match f
    case Is => "="
    case IsNot => "<>"
    case Contains => "LIKE"
    case NotContains => "NOT LIKE"
    case BeginsWith => "LIKE"
    case EndsWith => "LIKE"
    case MoreThan => ">"
    case MoreThanOrEqual => ">="
    case LessThan => "<"
    case LessThanOrEqual => "<="
    case In => "IN"
  }

  /** BinaryOperator { OR, AND }; an enum renders as its member name. */
  datatype BinaryOperator = OR | AND

  function OperatorName(op: BinaryOperator): string
  {
    match op
    case OR => "OR"
    case AND => "AND"
  }

  /**
   * A Criterion. `Simple` is the plain (property, filter, value) criterion with a
   * possibly null value; `Binary` is a BinaryCriterion whose sides may be null,
   * with its IsConvertedCompletely flag and its SqlCondition.
   */
  datatype Criterion =
    | Simple(propertyName: string, filter: FilterFunction, value: Option<string>)
    | Binary(left: Option<Criterion>, op: BinaryOperator, right: Option<Criterion>,
             isConvertedCompletely: bool, sqlCondition: Option<string>)

  /** A BinaryCriterion is built with the placeholder property name "N/A". */
  function PropertyName(c: Criterion): string
  {
    match c
    case Simple(name, _, _) => name
    case Binary(_, _, _, _, _) => "N/A"
  }

  /**
   * An element of the criteria list handed to a data provider: either a
   * criterion, or a DirectDatabaseCriterion. The SQL a direct criterion maps to
   * (MapSqlCriteria) is taken as given, as are its parameters and whether it
   * is safe to cache.
   */
  datatype QueryCriterion =
    | Condition(criterion: Criterion)
    | Direct(sql: string, parameters: map<string, string>, isCacheSafe: bool)
}
