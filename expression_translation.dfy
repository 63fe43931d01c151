// The static translation rules of ExpressionRunner: splitting a predicate into
// AND-ed units, naming the property a member expression stands for, mapping a
// comparison node to a filter function, and turning one unit into a criterion.
module ExpressionTranslation {
  import opened Wrappers
  import opened Text
  import opened Criteria
  import opened Expressions

  // ---------------------------------------------------------------------------
  // GetUnitExpressions
  // ---------------------------------------------------------------------------

  /** The units of an AND chain: only the left operand of && is split further. */
  function Units(e: Expr): (r: seq<Expr>)
    ensures |r| >= 1
    ensures !(e.Binary? && e.kind == AndAlso) ==> r == [e]
    ensures e.Binary? && e.kind == AndAlso ==> r[|r| - 1] == e.right
  {
    if e.Binary? && e.kind == AndAlso then Units(e.left) + [e.right] else [e]
  }

  /** The predicate holds exactly when every unit holds. */
  lemma {:induction false} UnitsTruth(e: Expr, leaf: Expr -> bool)
    ensures Truth(e, leaf) ==> forall k :: 0 <= k < |Units(e)| ==> Truth(Units(e)[k], leaf)
    ensures (forall k :: 0 <= k < |Units(e)| ==> Truth(Units(e)[k], leaf)) ==> Truth(e, leaf)
  {
    if e.Binary? && e.kind == AndAlso {
      UnitsTruth(e.left, leaf);
      var us, all := Units(e.left), Units(e);
      assert all == us + [e.right];
      assert forall k :: 0 <= k < |us| ==> all[k] == us[k];
      assert all[|us|] == e.right;
      assert Truth(e, leaf) == (Truth(e.left, leaf) && Truth(e.right, leaf));
      if forall k :: 0 <= k < |all| ==> Truth(all[k], leaf) {
        assert forall k :: 0 <= k < |us| ==> Truth(us[k], leaf) by {
          forall k | 0 <= k < |us| ensures Truth(us[k], leaf) {
            assert all[k] == us[k];
          }
        }
      }
      if Truth(e, leaf) {
        forall k | 0 <= k < |all| ensures Truth(all[k], leaf) {
          if k < |us| {
            assert all[k] == us[k];
          }
        }
      }
    } else {
      assert Units(e)[0] == e;
    }
  }

  /** `a && (b && c)` with a simple `a` has two units: the right-hand conjunction is not split. */
  lemma RightConjunctionIsOneUnit(a: Expr, b: Expr, c: Expr)
    requires !(a.Binary? && a.kind == AndAlso)
    ensures Units(Expr.Binary(AndAlso, a, Expr.Binary(AndAlso, b, c))) == [a, Expr.Binary(AndAlso, b, c)]
  {
  }

  // ---------------------------------------------------------------------------
  // GetPropertyExpression
  // ---------------------------------------------------------------------------

  /** The lambda parameter itself, or a Convert of something. */
  predicate IsSimpleParameter(e: Expr)
  {
    e.Parameter? || (e.Unary? && e.unaryKind == Convert)
  }

  predicate IsGuid(t: PropertyType)
  {
    t == GuidType || t == NullableGuidType
  }

  /**
   * The property path a member expression denotes, or None (null). A field, a
   * calculated property and a property not declared on an entity give None; a
   * member of a Nullable<T> gives its own name; a Guid-typed `XId` on the
   * parameter gives `X`; a member of a member gives "parent.name".
   */
  function PropertyPath(e: Expr): (r: Option<string>)
    requires e.Member?
    decreases e
    ensures r.Some? ==> e.info.Property? && !e.info.isCalculated
    ensures e.info.Property? && !e.info.isCalculated && e.ownerIsNullable ==> r == Some(e.name)
    ensures e.info.Property? && !e.info.isCalculated && !e.ownerIsNullable && !e.info.declaredOnEntity ==> r.None?
    ensures e.info.Property? && !e.info.isCalculated && !e.ownerIsNullable && e.info.declaredOnEntity &&
            IsSimpleParameter(e.owner) ==>
              r == if Text.EndsWith(e.name, "Id") && IsGuid(e.info.propertyType) then Some(e.name[..|e.name| - 2])
                   else Some(e.name)
    ensures !e.ownerIsNullable && !IsSimpleParameter(e.owner) && !e.owner.Member? ==> r.None?
    ensures r.Some? ==> (r.value == e.name || r.value + "Id" == e.name || Text.EndsWith(r.value, "." + e.name))
  {
    if !e.info.Property? || e.info.isCalculated then None
    else if e.ownerIsNullable then Some(e.name)
    else if !e.info.declaredOnEntity then None
    else if IsSimpleParameter(e.owner) then
      if Text.EndsWith(e.name, "Id") && IsGuid(e.info.propertyType) then
        var short := e.name[..|e.name| - 2];
        assert short + "Id" == e.name;
        Some(short)
      else Some(e.name)
    else if e.owner.Member? then
      match PropertyPath(e.owner)
      case None => None
      case Some(parent) =>
        assert (parent + "." + e.name)[|parent + "." + e.name| - |"." + e.name|..] == "." + e.name;
        Some(parent + "." + e.name)
    else None
  }

  /** The framework's IsEmpty on a string that may be null. */
  predicate IsEmpty(s: Option<string>)
  {
    s.None? || s.value == ""
  }

  /** A member chain `x.A.B` of entity properties maps to the path "A.B". */
  lemma NestedPath(a: string, b: string, ta: PropertyType, tb: PropertyType)
    requires !(Text.EndsWith(a, "Id") && IsGuid(ta))
    ensures var inner := Member(Parameter, a, Property(ta, false, true), false);
            PropertyPath(Member(inner, b, Property(tb, false, true), false)) == Some(a + "." + b)
  {
  }

  /** A Guid property `XId` of the parameter maps to the association name `X`. */
  lemma GuidIdPath(x: string, t: PropertyType)
    requires IsGuid(t)
    ensures PropertyPath(Member(Parameter, x + "Id", Property(t, false, true), false)) == Some(x)
  {
    var name := x + "Id";
    assert name[..|name| - 2] == x;
    assert name[|name| - 2..] == "Id";
  }

  // ---------------------------------------------------------------------------
  // ToOperator
  // ---------------------------------------------------------------------------

  /** The ExpressionType member name of a binary node kind. */
  function KindName(k: BinaryKind): string
  {
    match k
    case AndAlso => "AndAlso"
    case OrElse => "OrElse"
    case Equal => "Equal"
    case NotEqual => "NotEqual"
    case GreaterThan => "GreaterThan"
    case GreaterThanOrEqual => "GreaterThanOrEqual"
    case LessThan => "LessThan"
    case LessThanOrEqual => "LessThanOrEqual"
    case OtherBinary(name) => name
  }

  predicate IsComparison(k: BinaryKind)
  {
    k == Equal || k == NotEqual || k == GreaterThan || k == GreaterThanOrEqual ||
    k == BinaryKind.LessThan || k == BinaryKind.LessThanOrEqual
  }

  /** ToOperator: the six comparisons map to filters; anything else is NotSupported. */
  function ToOperator(k: BinaryKind): (r: Result<FilterFunction>)
    ensures r.Success? <==> IsComparison(k)
    ensures r.Failure? ==> r.error == Error(NotSupportedError, KindName(k) + " is still not supported.")
  {
    match k
    case Equal => Success(Is)
    case NotEqual => Success(IsNot)
    case GreaterThan => Success(MoreThan)
    case GreaterThanOrEqual => Success(MoreThanOrEqual)
    case LessThan => Success(FilterFunction.LessThan)
    case LessThanOrEqual => Success(FilterFunction.LessThanOrEqual)
    case _ => Failure(Error(NotSupportedError, KindName(k) + " is still not supported."))
  }

  /** Different comparisons map to different filters. */
  lemma ToOperatorInjective(j: BinaryKind, k: BinaryKind)
    requires IsComparison(j) && IsComparison(k) && j != k
    ensures ToOperator(j).value != ToOperator(k).value
  {
  }

  // ---------------------------------------------------------------------------
  // CreateCriterion
  // ---------------------------------------------------------------------------

  /**
   * GetExpressionValue for the operands the model extracts: the value of a
   * constant or captured local. Anything else is evaluated by compiling it,
   * which is not part of this model.
   */
  function ValueOf(e: Expr): (r: Result<Value>)
    ensures r.Success? <==> e.Constant?
    ensures e.Constant? ==> r.value == e.value
  {
    if e.Constant? then Success(e.value)
    else Failure(Error(NotModelled, "value extraction by compilation"))
  }

  /**
   * CreateCriterion: the criterion one unit stands for, None when it cannot be
   * translated, or the exception the translation raises.
   */
  function CreateCriterion(e: Expr): Result<Option<Criterion>>
  {
    match e
    case Binary(kind, left, right) =>
      if left.Member? then
        var property := PropertyPath(left);
        if IsEmpty(property) then Success(None)
        else
          var value :- ValueOf(right);
          var f :- ToOperator(kind);
          Success(Some(Simple(property.value, f, ValueText(value))))
      else if left.Parameter? then
        var f :- ToOperator(kind);
        var value :- ValueOf(right);
        Success(Some(Simple("ID", f, ValueText(value))))
      else Success(None)
    case Unary(kind, operand) =>
      if kind != Not || !operand.Member? then Success(None)
      else
        var property := PropertyPath(operand);
        if IsEmpty(property) then Success(None)
        else Success(Some(Simple(property.value, Is, Some("False"))))
    case Member(owner, _, info, _) =>
      var property := PropertyPath(e);
      if IsEmpty(property) then Success(None)
      else if property.value == "HasValue" then
        if owner.Member? && owner.name != "" then Success(Some(Simple(owner.name, IsNot, None)))
        else Success(None)
      else if info.propertyType != BoolType then Success(None)
      else Success(Some(Simple(property.value, Is, Some("True"))))
    case Call(translation) => Success(translation)
    case _ => Success(None)
  }

  /** The translations of the unit shapes the framework supports. */
  lemma CriterionShapes(e: Expr)
    ensures e.Unary? && e.unaryKind == Not && e.operand.Member? && !IsEmpty(PropertyPath(e.operand)) ==>
              CreateCriterion(e) == Success(Some(Simple(PropertyPath(e.operand).value, Is, Some("False"))))
    ensures e.Member? && !IsEmpty(PropertyPath(e)) && PropertyPath(e).value != "HasValue" ==>
              CreateCriterion(e) ==
                (if e.info.propertyType == BoolType then Success(Some(Simple(PropertyPath(e).value, Is, Some("True"))))
                 else Success(None))
    ensures e.Member? && PropertyPath(e) == Some("HasValue") ==>
              CreateCriterion(e) ==
                (if e.owner.Member? && e.owner.name != "" then Success(Some(Simple(e.owner.name, IsNot, None)))
                 else Success(None))
    ensures e.Binary? && e.left.Parameter? ==>
              CreateCriterion(e) ==
                (if !IsComparison(e.kind) then Failure(ToOperator(e.kind).error)
                 else if !e.right.Constant? then Failure(ValueOf(e.right).error)
                 else Success(Some(Simple("ID", ToOperator(e.kind).value, ValueText(e.right.value)))))
    ensures e.Binary? && e.left.Member? && !IsEmpty(PropertyPath(e.left)) && e.right.Constant? ==>
              CreateCriterion(e) ==
                (if IsComparison(e.kind)
                 then Success(Some(Simple(PropertyPath(e.left).value, ToOperator(e.kind).value, ValueText(e.right.value))))
                 else Failure(ToOperator(e.kind).error))
    ensures (e.Parameter? || e.Constant?) ==> CreateCriterion(e) == Success(None)
  {
  }

  /** An untranslatable member (calculated, a field, or not on an entity) gives no criterion. */
  lemma UntranslatableMember(e: Expr)
    requires e.Binary? && e.left.Member? && PropertyPath(e.left).None?
    ensures CreateCriterion(e) == Success(None)
  {
  }

  /** A && or || node is never translated as one simple criterion. */
  lemma LogicalNotTranslated(e: Expr)
    requires IsLogical(e)
    ensures CreateCriterion(e) == Success(None) || CreateCriterion(e).Failure?
  {
    if e.left.Member? && !IsEmpty(PropertyPath(e.left)) && e.right.Constant? {
      assert !IsComparison(e.kind);
    }
  }

  /**
   * Translation of a leaf is exact for a record when the criterion it gives
   * holds exactly when the leaf does; Faithful says so for every leaf of a
   * predicate.
   */
  predicate Faithful(e: Expr, leaf: Expr -> bool, sat: Criterion -> bool)
  {
    if IsLogical(e) then Faithful(e.left, leaf, sat) && Faithful(e.right, leaf, sat)
    else
      match CreateCriterion(e)
      case Success(Some(c)) => Holds(Some(c), sat) == leaf(e)
      case _ => true
  }

  /** Every unit of a faithful predicate is faithful. */
  lemma {:induction false} UnitsFaithful(e: Expr, leaf: Expr -> bool, sat: Criterion -> bool)
    requires Faithful(e, leaf, sat)
    ensures forall k :: 0 <= k < |Units(e)| ==> Faithful(Units(e)[k], leaf, sat)
  {
    if e.Binary? && e.kind == AndAlso {
      UnitsFaithful(e.left, leaf, sat);
      var us := Units(e.left);
      assert Units(e) == us + [e.right];
      assert forall k :: 0 <= k < |us| ==> Units(e)[k] == us[k];
    }
  }
}
