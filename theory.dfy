/**
 * The interpreted vocabulary (src/logic/Theory.cpp): integer literals and
 * arithmetic, integer comparisons, boolean constants, and the time domain's
 * zero, successor, predecessor and "less than" predicate.
 */
module Theory {
  import opened Sorts
  import opened Logic
  import Decimal

  /** The range of a C++ `int`, the parameter type of `Theory::intConstant`. */
  type Int32 = i: int | -0x8000_0000 <= i < 0x8000_0000

  /** The symbol names the integer operators use. */
  const IntOperatorNames: set<string> := {"int_plus", "int_minus", "int_multiply", "int_unary_minus"}

  /** `Theory::intConstant`: the nullary interpreted integer symbol named by the decimal rendering of `i`. */
  function IntConstant(i: Int32): (t: Term)
    ensures t.FuncApp? && t.args == [] && t.symbol.argSorts == []
    ensures SortOf(t) == IntSort && t.symbol.interpreted
    ensures t.symbol.name == Decimal.IntToString(i) && Decimal.IsCanonicalIntText(t.symbol.name)
    ensures Decimal.IsIntText(t.symbol.name) && Decimal.ParseInt(t.symbol.name) == i
  {
    Decimal.ParseIntToString(i);
    FuncTerm(IntSort, Decimal.IntToString(i), [], true)
  }

  /** `Theory::intAddition`: `int_plus(t1, t2)`. */
  function IntAddition(t1: Term, t2: Term): (t: Term)
    ensures t.FuncApp? && t.symbol.name == "int_plus" && t.args == [t1, t2]
    ensures SortOf(t) == IntSort && t.symbol.interpreted && WellSorted(t)
  {
    FuncTerm(IntSort, "int_plus", [t1, t2], true)
  }

  /** `Theory::intSubtraction`: `int_minus(t1, t2)`. */
  function IntSubtraction(t1: Term, t2: Term): (t: Term)
    ensures t.FuncApp? && t.symbol.name == "int_minus" && t.args == [t1, t2]
    ensures SortOf(t) == IntSort && t.symbol.interpreted && WellSorted(t)
  {
    FuncTerm(IntSort, "int_minus", [t1, t2], true)
  }

  /** `Theory::intMultiplication`: `int_multiply(t1, t2)`. */
  function IntMultiplication(t1: Term, t2: Term): (t: Term)
    ensures t.FuncApp? && t.symbol.name == "int_multiply" && t.args == [t1, t2]
    ensures SortOf(t) == IntSort && t.symbol.interpreted && WellSorted(t)
  {
    FuncTerm(IntSort, "int_multiply", [t1, t2], true)
  }

  /** `Theory::intUnaryMinus`: `int_unary_minus(t)`. */
  function IntUnaryMinus(t1: Term): (t: Term)
    ensures t.FuncApp? && t.symbol.name == "int_unary_minus" && t.args == [t1]
    ensures SortOf(t) == IntSort && t.symbol.interpreted && WellSorted(t)
  {
    FuncTerm(IntSort, "int_unary_minus", [t1], true)
  }

  /** `Theory::intLess`: the interpreted predicate `int_less(t1, t2)`. */
  function IntLess(t1: Term, t2: Term): (f: Formula)
    ensures f.PredicateFormula? && f.symbol.name == "int_less" && f.args == [t1, t2] && f.symbol.interpreted
  {
    Predicate("int_less", [t1, t2], true)
  }

  /** `Theory::intLessEqual`: the interpreted predicate `int_less_eq(t1, t2)`. */
  function IntLessEqual(t1: Term, t2: Term): (f: Formula)
    ensures f.PredicateFormula? && f.symbol.name == "int_less_eq" && f.args == [t1, t2] && f.symbol.interpreted
  {
    Predicate("int_less_eq", [t1, t2], true)
  }

  /** `Theory::intGreater`: the interpreted predicate `int_greater(t1, t2)`. */
  function IntGreater(t1: Term, t2: Term): (f: Formula)
    ensures f.PredicateFormula? && f.symbol.name == "int_greater" && f.args == [t1, t2] && f.symbol.interpreted
  {
    Predicate("int_greater", [t1, t2], true)
  }

  /** `Theory::intGreaterEqual`: the interpreted predicate `int_greater_eq(t1, t2)`. */
  function IntGreaterEqual(t1: Term, t2: Term): (f: Formula)
    ensures f.PredicateFormula? && f.symbol.name == "int_greater_eq" && f.args == [t1, t2] && f.symbol.interpreted
  {
    Predicate("int_greater_eq", [t1, t2], true)
  }

  /** `Theory::boolTrue`: the nullary interpreted predicate `bool_true`. */
  function BoolTrue(): (f: Formula)
    ensures f.PredicateFormula? && f.symbol.name == "bool_true" && f.args == [] && f.symbol.interpreted
  {
    Predicate("bool_true", [], true)
  }

  /** `Theory::boolFalse`: the nullary interpreted predicate `bool_false`. */
  function BoolFalse(): (f: Formula)
    ensures f.PredicateFormula? && f.symbol.name == "bool_false" && f.args == [] && f.symbol.interpreted
  {
    Predicate("bool_false", [], true)
  }

  /** `Theory::timeZero`: the time constant `time_zero`. */
  function TimeZero(): (t: Term)
    ensures t.FuncApp? && t.symbol.name == "time_zero" && t.args == []
    ensures SortOf(t) == TimeSort && t.symbol.interpreted && WellSorted(t)
  {
    FuncTerm(TimeSort, "time_zero", [], true)
  }

  /** `Theory::timeSucc`: the successor `time_succ(t)`. */
  function TimeSucc(t1: Term): (t: Term)
    ensures t.FuncApp? && t.symbol.name == "time_succ" && t.args == [t1]
    ensures SortOf(t) == TimeSort && t.symbol.interpreted && WellSorted(t)
  {
    FuncTerm(TimeSort, "time_succ", [t1], true)
  }

  /** `Theory::timePre`: the predecessor `time_pre(t)`. */
  function TimePre(t1: Term): (t: Term)
    ensures t.FuncApp? && t.symbol.name == "time_pre" && t.args == [t1]
    ensures SortOf(t) == TimeSort && t.symbol.interpreted && WellSorted(t)
  {
    FuncTerm(TimeSort, "time_pre", [t1], true)
  }

  /**
   * `Theory::timeSub`: the interpreted predicate `time_sub(t1, t2)`, "t1 comes
   * before t2" over the time domain. The generator's `natSub` is this predicate.
   */
  function TimeSub(t1: Term, t2: Term): (f: Formula)
    ensures f.PredicateFormula? && f.symbol.name == "time_sub" && f.args == [t1, t2] && f.symbol.interpreted
  {
    Predicate("time_sub", [t1, t2], true)
  }

  /** Integer literals are determined by their value: different values give different terms. */
  lemma IntConstantInjective(i: Int32, j: Int32)
    ensures IntConstant(i) == IntConstant(j) <==> i == j
  {
    var ti, tj := IntConstant(i), IntConstant(j);
    if ti == tj {
      assert Decimal.ParseInt(ti.symbol.name) == i;
      assert Decimal.ParseInt(tj.symbol.name) == j;
    }
  }

  /** No integer literal collides with an operator symbol: a literal's name starts with a digit or `-`. */
  lemma IntConstantIsNoOperator(i: Int32)
    ensures IntConstant(i).symbol.name !in IntOperatorNames
    ensures IntConstant(i).symbol.name !in {"time_zero", "time_succ", "time_pre"}
  {
    var name := IntConstant(i).symbol.name;
    assert name == Decimal.IntToString(i);
    Decimal.IntToStringFirstChar(i);
    assert name[0] != 'i' && name[0] != 't';
    assert forall w :: w in IntOperatorNames ==> |w| > 0 && w[0] == 'i';
    assert forall w :: w in {"time_zero", "time_succ", "time_pre"} ==> |w| > 0 && w[0] == 't';
  }
}
