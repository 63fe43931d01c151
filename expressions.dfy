// The LINQ predicate `x => ...` that the data layer translates into criteria,
// as a small expression tree, and the meaning of predicates and criteria
// against one record.
module Expressions {
  import opened Wrappers
  import opened Text
  import opened Criteria

  /**
   * A value that a constant or a captured variable holds. An entity stands for
   * its ID (GetExpressionValue replaces an Entity by its ID).
   */
  datatype Value =
    | NullValue
    | Text(text: string)
    | Boolean(flag: bool)
    | Number(number: int)
    | EntityRef(id: string)

  /** value?.ToString(): null stays null; a bool renders as True/False. */
  function ValueText(v: Value): (r: Option<string>)
    ensures r.None? <==> v.NullValue?
  {
    match v
    case NullValue => None
    case Text(s) => Some(s)
    case Boolean(b) => Some(if b then "True" else "False")
    case Number(i) => Some(IntToString(i))
    case EntityRef(id) => Some(id)
  }

  /** The declared type of a property, as far as the translation looks at it. */
  datatype PropertyType = BoolType | GuidType | NullableGuidType | OtherType

  /**
   * The member a MemberExpression accesses: a property (with whether it is
   * marked [Calculated] and whether its declaring type implements IEntity) or
   * a field.
   */
  datatype MemberKind =
    | Property(propertyType: PropertyType, isCalculated: bool, declaredOnEntity: bool)
    | Field

  /** ExpressionType values of the binary nodes the translation distinguishes. */
  datatype BinaryKind =
    | AndAlso | OrElse
    | Equal | NotEqual | GreaterThan | GreaterThanOrEqual | LessThan | LessThanOrEqual
    | OtherBinary(name: string)

  datatype UnaryKind = Not | Convert | OtherUnary(name: string)

  /**
   * An expression node. `Constant` is any operand whose value the framework
   * extracts without the lambda parameter (a ConstantExpression or a captured
   * local); `Member` records whether the owner expression's type is a
   * Nullable<T>; `Call` is a method call with the criterion Criterion.From
   * makes of it (null when it cannot).
   */
  datatype Expr =
    | Parameter
    | Constant(value: Value)
    | Member(owner: Expr, name: string, info: MemberKind, ownerIsNullable: bool)
    | Unary(unaryKind: UnaryKind, operand: Expr)
    | Binary(kind: BinaryKind, left: Expr, right: Expr)
    | Call(translation: Option<Criterion>)

  predicate IsLogical(e: Expr)
  {
    e.Binary? && (e.kind == AndAlso || e.kind == OrElse)
  }

  /**
   * The truth of a predicate for one record: && and || are structural, and
   * every other node (a comparison, a boolean member, a negation, a call) is
   * evaluated by `leaf`.
   */
  function Truth(e: Expr, leaf: Expr -> bool): bool
  {
    if e.Binary? && e.kind == AndAlso then Truth(e.left, leaf) && Truth(e.right, leaf)
    else if e.Binary? && e.kind == OrElse then Truth(e.left, leaf) || Truth(e.right, leaf)
    else leaf(e)
  }

  /**
   * The truth of a criterion for one record, as its SQL rendering states it: a
   * simple criterion by `sat`, an AND/OR node by its sides, and a null side
   * renders "(1 = 1)", which always holds.
   */
  function Holds(c: Option<Criterion>, sat: Criterion -> bool): bool
  {
    match c
    case None => true
    case Some(Simple(_, _, _)) => sat(c.value)
    case Some(Binary(l, op, r, _, _)) =>
      if op == AND then Holds(l, sat) && Holds(r, sat) else Holds(l, sat) || Holds(r, sat)
  }

  /** Every criterion of a list holds (the list stands for their conjunction). */
  predicate AllHold(cs: seq<Criterion>, sat: Criterion -> bool)
  {
    forall k :: 0 <= k < |cs| ==> Holds(Some(cs[k]), sat)
  }
}
