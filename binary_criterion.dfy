// BinaryCriterion: the AND/OR criterion tree built from an || (or nested &&)
// predicate, its completeness flag, and its text form.
module BinaryCriterion {
  import opened Wrappers
  import opened Criteria
  import opened Expressions
  import opened ExpressionTranslation

  /** A criterion is complete unless it is a binary node flagged incomplete; null counts as complete. */
  predicate Complete(c: Option<Criterion>)
  {
    c.Some? && c.value.Binary? ==> c.value.isConvertedCompletely
  }

  /**
   * The combination step of CreateByExpression for node kind `kind` and the
   * two translated sides. `propagate` selects the completeness flag of a node
   * whose two sides are both present: as written (false) it is always set; the
   * corrected rule (true) sets it only when both sides are complete.
   */
  function Combine(kind: BinaryKind, left: Option<Criterion>, right: Option<Criterion>, propagate: bool): (r: Option<Criterion>)
    ensures left.None? && right.None? ==> r.None?
    ensures left.None? != right.None? && kind == AndAlso ==>
              r == Some(Criterion.Binary(left, AND, right, false, None))
    ensures left.None? != right.None? && kind != AndAlso ==> r.None?
    ensures left.Some? && right.Some? ==>
              r.Some? && r.value.Binary? && r.value.left == left && r.value.right == right &&
              (r.value.op == OR <==> kind == OrElse) && r.value.sqlCondition.None? &&
              (r.value.isConvertedCompletely <==> !propagate || (Complete(left) && Complete(right)))
  {
    if left.None? && right.None? then None
    else if left.None? != right.None? then
      if kind == AndAlso then Some(Criterion.Binary(left, AND, right, false, None)) else None
    else
      var op := if kind == OrElse then OR else AND;
      Some(Criterion.Binary(left, op, right, !propagate || (Complete(left) && Complete(right)), None))
  }

  /**
   * One side of a binary expression: a nested && or || is combined
   * recursively, anything else is translated as a simple criterion.
   */
  function Side(e: Expr, propagate: bool): Result<Option<Criterion>>
    decreases e, 1
  {
    if IsLogical(e) then CreateByExpression(e, propagate) else CreateCriterion(e)
  }

  /** CreateByExpression(BinaryExpression), which BinaryCriterion.From calls. */
  function CreateByExpression(e: Expr, propagate: bool): Result<Option<Criterion>>
    requires e.Binary?
    decreases e, 0
  {
    var left :- Side(e.left, propagate);
    var right :- Side(e.right, propagate);
    Success(Combine(e.kind, left, right, propagate))
  }

  /**
   * Whatever the flag rule, the criterion a translation yields holds for
   * every record the predicate holds for: pushing it to SQL never loses rows.
   */
  lemma {:induction false} SideSuperset(e: Expr, propagate: bool, leaf: Expr -> bool, sat: Criterion -> bool)
    requires Faithful(e, leaf, sat)
    requires Side(e, propagate).Success?
    ensures Truth(e, leaf) ==> Holds(Side(e, propagate).value, sat)
    decreases e
  {
    if IsLogical(e) {
      SideSuperset(e.left, propagate, leaf, sat);
      SideSuperset(e.right, propagate, leaf, sat);
    } else if CreateCriterion(e).value.Some? {
      LeafHolds(e, leaf, sat);
    }
  }

  /** A faithful leaf's criterion holds exactly when the leaf does. */
  lemma LeafHolds(e: Expr, leaf: Expr -> bool, sat: Criterion -> bool)
    requires !IsLogical(e) && Faithful(e, leaf, sat)
    requires CreateCriterion(e).Success? && CreateCriterion(e).value.Some?
    ensures Holds(CreateCriterion(e).value, sat) == Truth(e, leaf)
  {
  }

  /**
   * With the corrected flag rule, a translation marked complete holds for
   * exactly the records the predicate holds for.
   */
  lemma {:induction false} SideExact(e: Expr, leaf: Expr -> bool, sat: Criterion -> bool)
    requires Faithful(e, leaf, sat)
    requires Side(e, true).Success? && Side(e, true).value.Some? && Complete(Side(e, true).value)
    ensures Holds(Side(e, true).value, sat) == Truth(e, leaf)
    decreases e
  {
    if IsLogical(e) {
      var l, r := Side(e.left, true).value, Side(e.right, true).value;
      if l.Some? {
        SideExact(e.left, leaf, sat);
      }
      if r.Some? {
        SideExact(e.right, leaf, sat);
      }
    } else {
      LeafHolds(e, leaf, sat);
    }
  }

  /**
   * As written, the criterion made of an || expression is never flagged
   * incomplete, so the check in ExpressionRunner.ProcessCriteria never fires.
   */
  lemma OrElseAlwaysComplete(e: Expr)
    requires e.Binary? && e.kind == OrElse
    requires CreateByExpression(e, false).Success? && CreateByExpression(e, false).value.Some?
    ensures Complete(CreateByExpression(e, false).value)
  {
  }

  // The predicate `x.A == 1 && x.Calc == 2 || x.B == 3` with a calculated Calc.
  const PropertyA: Expr := Member(Parameter, "A", Property(OtherType, false, true), false)
  const PropertyCalc: Expr := Member(Parameter, "Calc", Property(OtherType, true, true), false)
  const PropertyB: Expr := Member(Parameter, "B", Property(OtherType, false, true), false)
  const LeafA: Expr := Expr.Binary(Equal, PropertyA, Constant(Number(1)))
  const LeafCalc: Expr := Expr.Binary(Equal, PropertyCalc, Constant(Number(2)))
  const LeafB: Expr := Expr.Binary(Equal, PropertyB, Constant(Number(3)))
  const Mixed: Expr := Expr.Binary(OrElse, Expr.Binary(AndAlso, LeafA, LeafCalc), LeafB)

  const CriterionA: Criterion := Simple("A", Is, Some("1"))
  const CriterionB: Criterion := Simple("B", Is, Some("3"))

  /**
   * The record with A = 1, Calc != 2, B != 3: the predicate is false, yet the
   * as-written translation is flagged complete and its SQL condition
   * `(A = @A AND (1 = 1) ) OR B = @B` holds, so the record is returned unfiltered.
   */
  lemma AsWrittenLosesIncompleteness()
    ensures var leaf := (u: Expr) => u == LeafA;
            var sat := (c: Criterion) => c == CriterionA;
            var t := CreateByExpression(Mixed, false);
            Faithful(Mixed, leaf, sat) &&
            t.Success? && t.value.Some? && Complete(t.value) &&
            Holds(t.value, sat) && !Truth(Mixed, leaf)
  {
    var leaf := (u: Expr) => u == LeafA;
    var sat := (c: Criterion) => c == CriterionA;
    assert PropertyPath(PropertyA) == Some("A");
    assert PropertyPath(PropertyCalc) == None;
    assert PropertyPath(PropertyB) == Some("B");
    assert ValueText(Number(1)) == Some("1") && ValueText(Number(3)) == Some("3");
    assert CreateCriterion(LeafA) == Success(Some(CriterionA));
    assert CreateCriterion(LeafCalc) == Success(None);
    assert CreateCriterion(LeafB) == Success(Some(CriterionB));
    var inner := Criterion.Binary(Some(CriterionA), AND, None, false, None);
    assert CreateByExpression(Expr.Binary(AndAlso, LeafA, LeafCalc), false) == Success(Some(inner));
    assert CreateByExpression(Mixed, false) ==
           Success(Some(Criterion.Binary(Some(inner), OR, Some(CriterionB), true, None)));
    assert LeafB != LeafA && CriterionB != CriterionA;
  }

  /** The corrected rule flags the same translation incomplete. */
  lemma CorrectedFlagsIncompleteness()
    ensures CreateByExpression(Mixed, true).Success? && CreateByExpression(Mixed, true).value.Some? &&
            !Complete(CreateByExpression(Mixed, true).value)
  {
    assert PropertyPath(PropertyA) == Some("A");
    assert PropertyPath(PropertyCalc) == None;
    assert PropertyPath(PropertyB) == Some("B");
    assert ValueText(Number(1)) == Some("1") && ValueText(Number(3)) == Some("3");
    var inner := Criterion.Binary(Some(CriterionA), AND, None, false, None);
    assert CreateByExpression(Expr.Binary(AndAlso, LeafA, LeafCalc), true) == Success(Some(inner));
  }

  // ---------------------------------------------------------------------------
  // ToString
  // ---------------------------------------------------------------------------

  /** The framework's HasValue on a string that may be null. */
  predicate HasValue(s: Option<string>)
  {
    s.Some? && s.value != ""
  }

  /**
   * A criterion's text: a binary node by ToString below, a simple criterion by
   * `simpleText` (Criterion.ToString, which is not part of this model), and a
   * null side by the empty text, as string interpolation renders null.
   */
  function SideText(c: Option<Criterion>, simpleText: Criterion -> string): string
    decreases c, 1
  {
    match c
    case None => ""
    case Some(Simple(_, _, _)) => simpleText(c.value)
    case Some(Binary(_, _, _, _, _)) => ToString(c.value, simpleText)
  }

  /** ToString: the SQL condition when it has a value, otherwise "(Left-Operator-Right)". */
  function ToString(c: Criterion, simpleText: Criterion -> string): (r: string)
    requires c.Binary?
    ensures HasValue(c.sqlCondition) ==> r == c.sqlCondition.value
    ensures !HasValue(c.sqlCondition) ==>
              |r| >= 2 && r[0] == '(' && r[|r| - 1] == ')' &&
              r[1..|r| - 1] == SideText(c.left, simpleText) + "-" + OperatorName(c.op) + "-" + SideText(c.right, simpleText)
    decreases c, 0
  {
    if HasValue(c.sqlCondition) then c.sqlCondition.value
    else
      var inner := SideText(c.left, simpleText) + "-" + OperatorName(c.op) + "-" + SideText(c.right, simpleText);
      assert ("(" + inner + ")")[1..|inner| + 1] == inner;
      "(" + inner + ")"
  }

  /** Without an SQL condition, nodes that differ only in their operator have different texts. */
  lemma ToStringShowsOperator(l: Option<Criterion>, r: Option<Criterion>, complete: bool, simpleText: Criterion -> string)
    ensures ToString(Criterion.Binary(l, AND, r, complete, None), simpleText) !=
            ToString(Criterion.Binary(l, OR, r, complete, None), simpleText)
  {
    var a := ToString(Criterion.Binary(l, AND, r, complete, None), simpleText);
    var o := ToString(Criterion.Binary(l, OR, r, complete, None), simpleText);
    assert |a| == |o| + 1;
  }
}
