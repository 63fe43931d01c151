// ExpressionRunner: translates a predicate into the criteria a data provider
// can run in SQL and, when part of it cannot be translated, keeps the
// predicate itself to filter the fetched records.
module ExpressionRunner {
  import opened Wrappers
  import opened Criteria
  import opened Expressions
  import opened ExpressionTranslation
  import BinaryCriterion

  /** What ProcessCriteria yields for one unit: its criterion (or null) and whether it translated completely. */
  datatype UnitResult = UnitResult(criterion: Option<Criterion>, complete: bool)

  /**
   * ProcessCriteria: an || unit goes to BinaryCriterion and is incomplete when
   * the node it makes is flagged so; any other unit goes to CreateCriterion.
   * `propagate` is the flag rule of BinaryCriterion: false is the rule as
   * written, true the corrected one (see BinaryCriterion.Combine).
   */
  function ProcessUnit(u: Expr, propagate: bool): (r: Result<UnitResult>)
    ensures r.Success? && !(u.Binary? && u.kind == OrElse) ==> r.value.complete
    ensures r.Success? && !propagate ==> r.value.complete
  {
    if u.Binary? && u.kind == OrElse then
      var c :- BinaryCriterion.CreateByExpression(u, propagate);
      Success(UnitResult(c, BinaryCriterion.Complete(c)))
    else
      var c :- CreateCriterion(u);
      Success(UnitResult(c, true))
  }

  /** The conditions collected so far and whether every unit so far was converted. */
  datatype Translation = Translation(conditions: seq<Criterion>, complete: bool)

  /** The Evaluate loop over a list of units, one unit at a time from the front. */
  function TranslateUnits(us: seq<Expr>, propagate: bool): Result<Translation>
  {
    if us == [] then Success(Translation([], true))
    else
      var before :- TranslateUnits(us[..|us| - 1], propagate);
      var last :- ProcessUnit(us[|us| - 1], propagate);
      Success(Translation(before.conditions + (if last.criterion.Some? then [last.criterion.value] else []),
                          before.complete && last.complete && last.criterion.Some?))
  }

  /** The non-null translations of a list of units, in order (an independent reference for TranslateUnits). */
  function Translated(us: seq<Expr>, propagate: bool): seq<Criterion>
    requires forall k :: 0 <= k < |us| ==> ProcessUnit(us[k], propagate).Success?
  {
    if us == [] then []
    else
      var c := ProcessUnit(us[0], propagate).value.criterion;
      (if c.Some? then [c.value] else []) + Translated(us[1..], propagate)
  }

  /** Every unit translated to a non-null, complete criterion. */
  predicate AllConverted(us: seq<Expr>, propagate: bool)
    requires forall k :: 0 <= k < |us| ==> ProcessUnit(us[k], propagate).Success?
  {
    forall k :: 0 <= k < |us| ==>
      ProcessUnit(us[k], propagate).value.criterion.Some? && ProcessUnit(us[k], propagate).value.complete
  }

  lemma {:induction false} TranslatedAppend(us: seq<Expr>, propagate: bool)
    requires us != []
    requires forall k :: 0 <= k < |us| ==> ProcessUnit(us[k], propagate).Success?
    ensures var c := ProcessUnit(us[|us| - 1], propagate).value.criterion;
            Translated(us, propagate) == Translated(us[..|us| - 1], propagate) + (if c.Some? then [c.value] else [])
  {
    if |us| > 1 {
      var tail := us[1..];
      assert tail[..|tail| - 1] == us[..|us| - 1][1..];
      assert tail[|tail| - 1] == us[|us| - 1];
      TranslatedAppend(tail, propagate);
      var c0 := ProcessUnit(us[0], propagate).value.criterion;
      var head := if c0.Some? then [c0.value] else [];
      var c := ProcessUnit(us[|us| - 1], propagate).value.criterion;
      var last := if c.Some? then [c.value] else [];
      assert Translated(us[..|us| - 1], propagate) == head + Translated(us[..|us| - 1][1..], propagate);
      assert head + (Translated(tail[..|tail| - 1], propagate) + last) ==
             head + Translated(tail[..|tail| - 1], propagate) + last;
    } else {
      assert us[..0] == [];
    }
  }

  /**
   * Evaluate succeeds exactly when every unit translates without an exception;
   * then Conditions holds exactly the non-null translations in order, and the
   * conversion is complete exactly when no unit failed.
   */
  lemma {:induction false} TranslateUnitsExact(us: seq<Expr>, propagate: bool)
    ensures TranslateUnits(us, propagate).Success? <==> forall k :: 0 <= k < |us| ==> ProcessUnit(us[k], propagate).Success?
    ensures TranslateUnits(us, propagate).Success? ==>
              TranslateUnits(us, propagate).value == Translation(Translated(us, propagate), AllConverted(us, propagate))
  {
    if us != [] {
      var init := us[..|us| - 1];
      TranslateUnitsExact(init, propagate);
      assert forall k :: 0 <= k < |init| ==> init[k] == us[k];
      if forall k :: 0 <= k < |us| ==> ProcessUnit(us[k], propagate).Success? {
        TranslatedAppend(us, propagate);
        var last := ProcessUnit(us[|us| - 1], propagate).value;
        assert AllConverted(us, propagate) == (AllConverted(init, propagate) && last.criterion.Some? && last.complete);
      }
    }
  }

  /** A failing prefix makes the whole list fail with the same error. */
  lemma {:induction false} PrefixFailure(us: seq<Expr>, n: nat, propagate: bool)
    requires n <= |us| && TranslateUnits(us[..n], propagate).Failure?
    ensures TranslateUnits(us, propagate) == Failure(TranslateUnits(us[..n], propagate).error)
    decreases |us| - n
  {
    if n < |us| {
      var next := us[..n + 1];
      assert next[..|next| - 1] == us[..n];
      PrefixFailure(us, n + 1, propagate);
    } else {
      assert us[..n] == us;
    }
  }

  /**
   * For faithful units, the conditions hold for every record all units hold
   * for, under either flag rule. Under the corrected rule, a complete
   * conversion also holds for no other record.
   */
  lemma {:induction false} TranslationSound(us: seq<Expr>, propagate: bool, leaf: Expr -> bool, sat: Criterion -> bool)
    requires forall k :: 0 <= k < |us| ==> Faithful(us[k], leaf, sat)
    requires TranslateUnits(us, propagate).Success?
    ensures (forall k :: 0 <= k < |us| ==> Truth(us[k], leaf)) ==> AllHold(TranslateUnits(us, propagate).value.conditions, sat)
    ensures propagate && TranslateUnits(us, propagate).value.complete ==>
              (AllHold(TranslateUnits(us, propagate).value.conditions, sat) ==> forall k :: 0 <= k < |us| ==> Truth(us[k], leaf))
  {
    if us != [] {
      var init, u := us[..|us| - 1], us[|us| - 1];
      assert forall k :: 0 <= k < |init| ==> init[k] == us[k];
      TranslationSound(init, propagate, leaf, sat);
      var before := TranslateUnits(init, propagate).value;
      var last := ProcessUnit(u, propagate).value;
      UnitSound(u, propagate, leaf, sat);
      var cs := TranslateUnits(us, propagate).value.conditions;
      assert cs == before.conditions + (if last.criterion.Some? then [last.criterion.value] else []);
      assert forall k :: 0 <= k < |before.conditions| ==> cs[k] == before.conditions[k];
      if last.criterion.Some? {
        assert cs[|before.conditions|] == last.criterion.value;
      }
      if AllHold(cs, sat) {
        assert AllHold(before.conditions, sat) by {
          forall k | 0 <= k < |before.conditions| ensures Holds(Some(before.conditions[k]), sat) {
            assert cs[k] == before.conditions[k];
          }
        }
      }
    }
  }

  /**
   * One faithful unit: its criterion holds when the unit does, under either
   * flag rule; under the corrected rule, a complete criterion holds exactly then.
   */
  lemma UnitSound(u: Expr, propagate: bool, leaf: Expr -> bool, sat: Criterion -> bool)
    requires Faithful(u, leaf, sat) && ProcessUnit(u, propagate).Success?
    ensures Truth(u, leaf) ==> Holds(ProcessUnit(u, propagate).value.criterion, sat)
    ensures propagate && ProcessUnit(u, propagate).value.criterion.Some? && ProcessUnit(u, propagate).value.complete ==>
              Holds(ProcessUnit(u, propagate).value.criterion, sat) == Truth(u, leaf)
  {
    if u.Binary? && u.kind == OrElse {
      BinaryCriterion.SideSuperset(u, propagate, leaf, sat);
      if propagate && ProcessUnit(u, propagate).value.criterion.Some? && ProcessUnit(u, propagate).value.complete {
        BinaryCriterion.SideExact(u, leaf, sat);
      }
    } else if IsLogical(u) {
      LogicalNotTranslated(u);
    } else if CreateCriterion(u).value.Some? {
      BinaryCriterion.LeafHolds(u, leaf, sat);
    }
  }

  /** The runner's observable state after construction. */
  datatype RunnerState = RunnerState(conditions: seq<Criterion>, convertedCompletely: bool, dynamicCriteria: Option<Expr>)

  const EnforceMessage: string := "The specified criteria cannot be converted to SQL."

  /**
   * The constructor: evaluate the units; an incomplete conversion raises an
   * error when optimised queries are enforced, and otherwise keeps the
   * predicate (compiled) as DynamicCriteria.
   */
  function Run(criteria: Expr, enforceOptimizedQueries: bool, propagate: bool): (r: Result<RunnerState>)
    ensures r.Success? ==> (r.value.dynamicCriteria.None? <==> r.value.convertedCompletely)
    ensures r.Success? && r.value.dynamicCriteria.Some? ==> r.value.dynamicCriteria.value == criteria
    ensures TranslateUnits(Units(criteria), propagate).Failure? ==>
              r == Failure(TranslateUnits(Units(criteria), propagate).error)
    ensures TranslateUnits(Units(criteria), propagate).Success? && !TranslateUnits(Units(criteria), propagate).value.complete &&
            enforceOptimizedQueries ==>
              r == Failure(Error(GeneralError, EnforceMessage))
    ensures TranslateUnits(Units(criteria), propagate).Success? && (TranslateUnits(Units(criteria), propagate).value.complete ||
            !enforceOptimizedQueries) ==>
              r.Success? && r.value.conditions == TranslateUnits(Units(criteria), propagate).value.conditions &&
              r.value.convertedCompletely == TranslateUnits(Units(criteria), propagate).value.complete
  {
    var t :- TranslateUnits(Units(criteria), propagate);
    if !t.complete then
      if enforceOptimizedQueries then Failure(Error(GeneralError, EnforceMessage))
      else Success(RunnerState(t.conditions, false, Some(criteria)))
    else Success(RunnerState(t.conditions, true, None))
  }

  /**
   * Under either flag rule, a record that satisfies a faithful predicate
   * satisfies every condition pushed to SQL and any dynamic criteria.
   */
  lemma RunKeepsMatches(criteria: Expr, enforceOptimizedQueries: bool, propagate: bool, leaf: Expr -> bool, sat: Criterion -> bool)
    requires Faithful(criteria, leaf, sat)
    requires Run(criteria, enforceOptimizedQueries, propagate).Success?
    ensures var s := Run(criteria, enforceOptimizedQueries, propagate).value;
            Truth(criteria, leaf) ==>
              AllHold(s.conditions, sat) && (s.dynamicCriteria.None? || Truth(s.dynamicCriteria.value, leaf))
  {
    var us := Units(criteria);
    UnitsFaithful(criteria, leaf, sat);
    UnitsTruth(criteria, leaf);
    TranslationSound(us, propagate, leaf, sat);
  }

  /**
   * Under the corrected flag rule, for a faithful predicate, a record
   * satisfies it exactly when it satisfies every condition pushed to SQL and,
   * when there is one, the dynamic criteria applied afterwards in memory.
   */
  lemma RunSound(criteria: Expr, enforceOptimizedQueries: bool, leaf: Expr -> bool, sat: Criterion -> bool)
    requires Faithful(criteria, leaf, sat)
    requires Run(criteria, enforceOptimizedQueries, true).Success?
    ensures var s := Run(criteria, enforceOptimizedQueries, true).value;
            Truth(criteria, leaf) <==>
              AllHold(s.conditions, sat) && (s.dynamicCriteria.None? || Truth(s.dynamicCriteria.value, leaf))
  {
    var us := Units(criteria);
    UnitsFaithful(criteria, leaf, sat);
    UnitsTruth(criteria, leaf);
    TranslationSound(us, true, leaf, sat);
  }

  /**
   * As written, the runner for `x.A == 1 && x.Calc == 2 || x.B == 3` is
   * complete even with optimised queries enforced: it raises nothing, keeps no
   * dynamic criteria, and its one SQL condition holds for the record
   * A = 1, Calc != 2, B != 3, which the predicate rejects.
   */
  lemma AsWrittenRunnerAdmitsRejected()
    ensures var leaf := (u: Expr) => u == BinaryCriterion.LeafA;
            var sat := (c: Criterion) => c == BinaryCriterion.CriterionA;
            var r := Run(BinaryCriterion.Mixed, true, false);
            Faithful(BinaryCriterion.Mixed, leaf, sat) &&
            r.Success? && r.value.convertedCompletely && r.value.dynamicCriteria.None? &&
            AllHold(r.value.conditions, sat) && !Truth(BinaryCriterion.Mixed, leaf)
  {
    var leaf := (u: Expr) => u == BinaryCriterion.LeafA;
    var sat := (c: Criterion) => c == BinaryCriterion.CriterionA;
    BinaryCriterion.AsWrittenLosesIncompleteness();
    var c := BinaryCriterion.CreateByExpression(BinaryCriterion.Mixed, false).value;
    var us := Units(BinaryCriterion.Mixed);
    assert us == [BinaryCriterion.Mixed];
    assert ProcessUnit(BinaryCriterion.Mixed, false) == Success(UnitResult(c, true));
    assert us[..0] == [];
    assert TranslateUnits(us, false) == Success(Translation([] + [c.value], true));
    assert [] + [c.value] == [c.value];
    var r := Run(BinaryCriterion.Mixed, true, false);
    assert r.value.conditions == [c.value];
    assert AllHold([c.value], sat) by {
      assert forall k :: 0 <= k < |[c.value]| ==> [c.value][k] == c.value;
    }
  }

  /** Under the corrected rule the same runner is incomplete, so enforcing optimised queries raises the error. */
  lemma CorrectedRunnerRejectsMixed()
    ensures Run(BinaryCriterion.Mixed, true, true) == Failure(Error(GeneralError, EnforceMessage))
    ensures Run(BinaryCriterion.Mixed, false, true).Success? &&
            Run(BinaryCriterion.Mixed, false, true).value.dynamicCriteria == Some(BinaryCriterion.Mixed)
  {
    BinaryCriterion.CorrectedFlagsIncompleteness();
    var c := BinaryCriterion.CreateByExpression(BinaryCriterion.Mixed, true).value;
    var us := Units(BinaryCriterion.Mixed);
    assert us == [BinaryCriterion.Mixed];
    assert ProcessUnit(BinaryCriterion.Mixed, true) == Success(UnitResult(c, false));
    assert us[..0] == [];
    assert TranslateUnits(us, true) == Success(Translation([] + [c.value], false));
  }

  /** A conjunction of simple comparisons on mapped properties translates completely, under either rule. */
  lemma ConjunctionOfComparisons(a: Expr, b: Expr, propagate: bool)
    requires !IsLogical(a) && !IsLogical(b)
    requires CreateCriterion(a).Success? && CreateCriterion(a).value.Some?
    requires CreateCriterion(b).Success? && CreateCriterion(b).value.Some?
    ensures Run(Expr.Binary(AndAlso, a, b), true, propagate) ==
            Success(RunnerState([CreateCriterion(a).value.value, CreateCriterion(b).value.value], true, None))
  {
    var us := Units(Expr.Binary(AndAlso, a, b));
    assert us == [a, b];
    var ca, cb := CreateCriterion(a).value.value, CreateCriterion(b).value.value;
    assert ProcessUnit(a, propagate) == Success(UnitResult(Some(ca), true));
    assert ProcessUnit(b, propagate) == Success(UnitResult(Some(cb), true));
    assert us[..|us| - 1] == [a] && us[|us| - 1] == b && [a][..0] == [];
    assert TranslateUnits([a], propagate) == Success(Translation([] + [ca], true));
    assert [] + [ca] == [ca];
    assert TranslateUnits(us[..|us| - 1], propagate) == Success(Translation([ca], true));
    assert TranslateUnits(us, propagate) == Success(Translation([ca] + [cb], true));
    assert [ca] + [cb] == [ca, cb];
  }

  /**
   * The runner object. Its methods call BinaryCriterion.From as the framework
   * does, so they use the flag rule as written (`propagate` false).
   */
  class ExpressionRunner {
    const criteria: Expr
    var conditions: seq<Criterion>
    var dynamicCriteria: Option<Expr>
    var convertedCompletely: bool

    constructor Init(criteria: Expr)
      ensures this.criteria == criteria
      ensures conditions == [] && dynamicCriteria.None? && convertedCompletely
    {
      this.criteria := criteria;
      conditions := [];
      dynamicCriteria := None;
      convertedCompletely := true;
    }

    /** ProcessCriteria: translate one unit; an || node flagged incomplete clears ConvertedCompletely. */
    method ProcessCriteria(u: Expr) returns (r: Result<Option<Criterion>>)
      modifies this
      ensures conditions == old(conditions) && dynamicCriteria == old(dynamicCriteria)
      ensures ProcessUnit(u, false).Failure? ==>
                r == Failure(ProcessUnit(u, false).error) && convertedCompletely == old(convertedCompletely)
      ensures ProcessUnit(u, false).Success? ==>
                r == Success(ProcessUnit(u, false).value.criterion) &&
                convertedCompletely == (old(convertedCompletely) && ProcessUnit(u, false).value.complete)
    {
      if u.Binary? && u.kind == OrElse {
        var criterion := BinaryCriterion.CreateByExpression(u, false);
        if criterion.Failure? {
          return Failure(criterion.error);
        }
        if criterion.value.Some? && criterion.value.value.Binary? && !criterion.value.value.isConvertedCompletely {
          convertedCompletely := false;
        }
        return Success(criterion.value);
      }
      r := CreateCriterion(u);
    }

    /** Evaluate: collect the non-null translations of the units; a null one clears ConvertedCompletely. */
    method Evaluate() returns (error: Option<Error>)
      modifies this
      ensures dynamicCriteria == old(dynamicCriteria)
      ensures TranslateUnits(Units(criteria), false).Failure? ==> error == Some(TranslateUnits(Units(criteria), false).error)
      ensures TranslateUnits(Units(criteria), false).Success? ==>
                error.None? &&
                conditions == TranslateUnits(Units(criteria), false).value.conditions &&
                convertedCompletely == (old(convertedCompletely) && TranslateUnits(Units(criteria), false).value.complete)
    {
      conditions := [];
      var units := Units(criteria);
      ghost var start := convertedCompletely;
      var i := 0;
      assert units[..0] == [];
      while i < |units|
        invariant 0 <= i <= |units|
        invariant dynamicCriteria == old(dynamicCriteria)
        invariant TranslateUnits(units[..i], false).Success?
        invariant conditions == TranslateUnits(units[..i], false).value.conditions
        invariant convertedCompletely == (start && TranslateUnits(units[..i], false).value.complete)
      {
        assert units[..i + 1][..i] == units[..i] && units[..i + 1][i] == units[i];
        var condition := ProcessCriteria(units[i]);
        if condition.Failure? {
          PrefixFailure(units, i + 1, false);
          return Some(condition.error);
        }
        if condition.value.Some? {
          conditions := conditions + [condition.value.value];
        } else {
          convertedCompletely := false;
        }
        i := i + 1;
      }
      assert units[..i] == units;
      return None;
    }

    /** CreateRunner, i.e. the constructor: Evaluate, then the enforce check or the dynamic criteria. */
    static method CreateRunner(criteria: Expr, enforceOptimizedQueries: bool) returns (r: Result<ExpressionRunner>)
      ensures Run(criteria, enforceOptimizedQueries, false).Failure? ==>
                r == Failure(Run(criteria, enforceOptimizedQueries, false).error)
      ensures Run(criteria, enforceOptimizedQueries, false).Success? ==>
                r.Success? && fresh(r.value) && r.value.criteria == criteria &&
                RunnerState(r.value.conditions, r.value.convertedCompletely, r.value.dynamicCriteria) ==
                  Run(criteria, enforceOptimizedQueries, false).value
    {
      var runner := new ExpressionRunner.Init(criteria);
      var error := runner.Evaluate();
      if error.Some? {
        return Failure(error.value);
      }
      if !runner.convertedCompletely {
        if enforceOptimizedQueries {
          return Failure(Error(GeneralError, EnforceMessage));
        }
        runner.dynamicCriteria := Some(criteria);
      }
      return Success(runner);
    }
  }
}
