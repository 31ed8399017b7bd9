/**
 * The formula shapes the semantics generator (src/analysis/Semantics.cpp)
 * assembles, independently of where the time-points and variables come from:
 * frame conditions, the update formulas of assignments, the entry and merge
 * parts of an if-else and the five parts of a loop. Each shape comes with a
 * lemma that spells out its conjuncts in order.
 *
 * The generator's collaborators whose code is not part of this model
 * (`toTerm`, `toFormula`, the iterator, last-iteration and location symbol
 * helpers, the trace sort) are the fields of `Helpers`: arbitrary functions
 * the results are stated in terms of.
 */
module SemanticFormulas {
  import opened Sorts
  import opened Logic
  import opened Theory
  import opened Programs
  import opened VariableSets

  datatype Helpers = Helpers(
    expressionTerm: (IntExpr, Term) -> Term,    // toTerm(expression, timepoint)
    variableTerm: (Variable, Term) -> Term,     // toTerm(variable, timepoint)
    arrayTerm: (Variable, Term, Term) -> Term,  // toTerm(array, timepoint, position)
    conditionFormula: (BoolExpr, Term) -> Formula,  // toFormula(condition, timepoint)
    iteratorSymbol: string -> Symbol,           // iteratorSymbol(loop)
    iteratorTerm: string -> Term,               // iteratorTermForLoop(loop)
    lastIterationTerm: (string, bool) -> Term,  // lastIterationTermForLoop(loop, twoTraces)
    locationSymbol: string -> Symbol,           // locationSymbolForStatement(statement)
    traceSort: Sort)                            // Sorts::traceSort()
  // ---------------------------------------------------------------------
  // Frame conditions
  // ---------------------------------------------------------------------

  /** The symbol `pos` the array frames quantify over. */
  const PosSymbol := VarSymbol("pos", IntSort)

  /**
   * "`v` keeps its value from `lFrom` to `lTo`": `v(lTo) = v(lFrom)` for a
   * scalar, `forall pos. v(lTo, pos) = v(lFrom, pos)` for an array.
   */
  function Frame(h: Helpers, v: Variable, lTo: Term, lFrom: Term): Formula {
    if !v.isArray then
      Equality(h.variableTerm(v, lTo), h.variableTerm(v, lFrom), "")
    else
      var p := Var(PosSymbol);
      Universal([PosSymbol], Equality(h.arrayTerm(v, lTo, p), h.arrayTerm(v, lFrom, p), ""), "")
  }

  /**
   * The variable a frame loop skips besides the constants: none (branch
   * entry and merge, loop entry and exit), the assigned scalar, or the
   * assigned array.
   */
  datatype Exclusion = NoExclusion | ExcludeScalar(scalar: Variable) | ExcludeArray(arrayVariable: Variable)

  /** Whether a frame loop emits a frame for `v`: the tests at Semantics.cpp:105-110, 152-163, 202, 222, 255, 276, 347, 391. */
  predicate Framed(v: Variable, ex: Exclusion) {
    !v.isConstant &&
    match ex
    case NoExclusion => true
    case ExcludeScalar(x) => v.isArray || v != x
    case ExcludeArray(a) => !v.isArray || v != a
  }

  /** The variables of `vs` that get a frame, in the order of `vs`. */
  function FramedVars(vs: seq<Variable>, ex: Exclusion): (r: seq<Variable>)
    ensures forall v :: v in r <==> v in vs && Framed(v, ex)
    ensures |r| <= |vs|
    decreases |vs|
  {
    if vs == [] then []
    else
      var init := FramedVars(vs[..|vs| - 1], ex);
      var last := vs[|vs| - 1];
      if Framed(last, ex) then init + [last] else init
  }

  /** Frame selection keeps the order of the active variables. */
  lemma {:induction false} FramedVarsSorted(vs: seq<Variable>, ex: Exclusion)
    requires SortedById(vs)
    ensures SortedById(FramedVars(vs, ex))
    decreases |vs|
  {
    if vs != [] {
      var init := vs[..|vs| - 1];
      var last := vs[|vs| - 1];
      assert SortedById(init);
      FramedVarsSorted(init, ex);
      var fi := FramedVars(init, ex);
      if Framed(last, ex) {
        forall y | y in fi ensures y.id <= last.id {
          var k :| 0 <= k < |init| && init[k] == y;
          assert vs[k] == y;
        }
        SortedSnoc(fi, last);
      }
    }
  }

  /** Frame selection never emits a variable twice when the active variables are duplicate-free. */
  lemma {:induction false} FramedVarsDistinct(vs: seq<Variable>, ex: Exclusion)
    requires Distinct(vs)
    ensures Distinct(FramedVars(vs, ex))
    decreases |vs|
  {
    if vs != [] {
      var init := vs[..|vs| - 1];
      var last := vs[|vs| - 1];
      assert vs == init + [last];
      DistinctSnoc(init, last);
      FramedVarsDistinct(init, ex);
      DistinctSnoc(FramedVars(init, ex), last);
    }
  }

  /** One frame per variable, in order. */
  function Frames(h: Helpers, vs: seq<Variable>, lTo: Term, lFrom: Term): seq<Formula> {
    seq(|vs|, k requires 0 <= k < |vs| => Frame(h, vs[k], lTo, lFrom))
  }

  /** Each formula of `fs` under the premise `c`. */
  function Guarded(c: Formula, fs: seq<Formula>): seq<Formula> {
    seq(|fs|, k requires 0 <= k < |fs| => Implication(c, fs[k]))
  }

  /** The iterator terms of the enclosing loops, outermost first. */
  function IteratorTerms(h: Helpers, loops: seq<string>): seq<Term> {
    seq(|loops|, k requires 0 <= k < |loops| => h.iteratorTerm(loops[k]))
  }
  /** A loop's time-point: its location applied to the enclosing iterators, outermost first, and then `last`. */
  function LoopTimePoint(h: Helpers, location: string, enclosingLoops: seq<string>, last: Term): (t: Term)
    ensures t.FuncApp? && t.symbol == h.locationSymbol(location)
    ensures |t.args| == |enclosingLoops| + 1 && t.args[|enclosingLoops|] == last
    ensures forall k :: 0 <= k < |enclosingLoops| ==> t.args[k] == h.iteratorTerm(enclosingLoops[k])
  {
    FuncApp(h.locationSymbol(location), IteratorTerms(h, enclosingLoops) + [last])
  }

  // ---------------------------------------------------------------------
  // The formulas of the statement kinds
  // ---------------------------------------------------------------------

  // The labels the generator attaches to its formulas (provenance text only).
  const UpdateVariableLabel := "Update variable "
  const UpdateArrayLabel := "Update array variable "
  const AtLocation := " at location "
  const BranchEntryLabel := "Jumping into any branch doesn't change the variable values"
  const BranchMergeLabel := "The branching-condition determines which values to use after the if-statement"
  const IfElseLabel := "Semantics of IfElse at location "
  const BodyEntryLabel := "Jumping into the body doesn't change the variable values"
  const BodyLabel := "Semantics of the body"
  const ConditionLabel := "The loop-condition holds always before the last iteration"
  const LastIterationLabel := "The loop-condition doesn't hold in the last iteration"
  const ExitLabel := "The values after the while-loop are the values from the last iteration"
  const LoopLabel := "Loop at location "
  const SkipLabel := "Ignore any skip statement"
  const FunctionLabel := "Semantics of function "

  /**
   * A scalar assignment `x := e` from `l1` to `l2`: `x(l2) = e(l1)`, then the
   * frames of `vars`, labelled with the variable and the location.
   */
  function ScalarUpdate(h: Helpers, lhs: IntExpr, rhs: IntExpr, l1: Term, l2: Term, vars: seq<Variable>, location: string): Formula
    requires lhs.IntVariableAccess?
  {
    Conjunction([Equality(h.expressionTerm(lhs, l2), h.expressionTerm(rhs, l1), "")] + Frames(h, vars, l2, l1),
                UpdateVariableLabel + lhs.variable.name + AtLocation + location)
  }

  /**
   * An array assignment `a[e] := rhs` from `l1` to `l2`: the written cell,
   * every other cell unchanged, then the frames of `vars`.
   */
  function ArrayUpdate(h: Helpers, lhs: IntExpr, rhs: IntExpr, l1: Term, l2: Term, vars: seq<Variable>, location: string): Formula
    requires lhs.IntArrayApplication?
  {
    var a := lhs.arrayVariable;
    var index := h.expressionTerm(lhs.index, l1);
    var p := Var(PosSymbol);
    Conjunction([Equality(h.arrayTerm(a, l2, index), h.expressionTerm(rhs, l1), ""),
                 Universal([PosSymbol], Implication(Disequality(p, index),
                                                    Equality(h.arrayTerm(a, l2, p), h.arrayTerm(a, l1, p), "")), "")]
                + Frames(h, vars, l2, l1),
                UpdateArrayLabel + a.name + AtLocation + location)
  }

  /** If-else part 1: the frames of `vars` from `lStart` into the left branch, then into the right branch. */
  function EntryPart(h: Helpers, vars: seq<Variable>, lLeftStart: Term, lRightStart: Term, lStart: Term): Formula {
    Conjunction(Frames(h, vars, lLeftStart, lStart) + Frames(h, vars, lRightStart, lStart),
                BranchEntryLabel)
  }

  /** If-else part 2: under `c` the left branch's values reach `lEnd`, under `!c` the right branch's. */
  function MergePart(h: Helpers, c: Formula, lEnd: Term, left: seq<Variable>, lLeftEnd: Term,
                     right: seq<Variable>, lRightEnd: Term): Formula {
    Conjunction(Guarded(c, Frames(h, left, lEnd, lLeftEnd)) + Guarded(Negation(c, ""), Frames(h, right, lEnd, lRightEnd)),
                BranchMergeLabel)
  }

  /** An if-else: its two parts, then the formulas of the if statements and of the else statements. */
  function IfElseFormula(entry: Formula, merge: Formula, ifs: seq<Formula>, els: seq<Formula>, location: string): Formula {
    Conjunction([entry, merge] + ifs + els, IfElseLabel + location)
  }

  /**
   * A loop with iterator `i` (the symbol `iSymbol`) and last iteration `n`:
   * the entry frames into the body, the body, the condition before the last
   * iteration, its negation in the last iteration, and the exit frames.
   */
  function LoopFormula(h: Helpers, iSymbol: Symbol, n: Term, lStartIt: Term, lStartN: Term, condition: BoolExpr,
                       vars: seq<Variable>, lBodyStart: Term, lEnd: Term, body: seq<Formula>, location: string): Formula {
    var i := Var(iSymbol);
    Conjunction([
      Universal([iSymbol], Conjunction(Frames(h, vars, lBodyStart, lStartIt), ""),
                BodyEntryLabel),
      Universal([iSymbol], Conjunction(body, ""), BodyLabel),
      Universal([iSymbol], Implication(TimeSub(i, n), h.conditionFormula(condition, lStartIt)),
                ConditionLabel),
      Negation(h.conditionFormula(condition, lStartN), LastIterationLabel),
      Conjunction(Frames(h, vars, lEnd, lStartN),
                  ExitLabel)
    ], LoopLabel + location)
  }

  // ---------------------------------------------------------------------
  // What the formulas say
  // ---------------------------------------------------------------------

  /** Where a run of frames sits inside a list of conjuncts. */
  lemma FramesWithin(cs: seq<Formula>, pre: seq<Formula>, h: Helpers, vs: seq<Variable>, lTo: Term, lFrom: Term, post: seq<Formula>)
    requires cs == pre + Frames(h, vs, lTo, lFrom) + post
    ensures |cs| == |pre| + |vs| + |post|
    ensures forall k :: 0 <= k < |vs| ==> cs[|pre| + k] == Frame(h, vs[k], lTo, lFrom)
  {
    forall k | 0 <= k < |vs| ensures cs[|pre| + k] == Frame(h, vs[k], lTo, lFrom) {
      assert cs[|pre| + k] == Frames(h, vs, lTo, lFrom)[k];
    }
  }

  /** A constant variable never gets a frame, whichever loop selects the frames. */
  lemma ConstantsNeverFramed(vs: seq<Variable>, ex: Exclusion, v: Variable)
    requires v.isConstant
    ensures v !in FramedVars(vs, ex)
  {
  }

  /** A scalar frame is an equation between the variable's two values; an array frame quantifies over `pos`. */
  lemma FrameShape(h: Helpers, v: Variable, lTo: Term, lFrom: Term)
    ensures var f := Frame(h, v, lTo, lFrom);
            (!v.isArray ==> f.Equality? && f.left == h.variableTerm(v, lTo) && f.right == h.variableTerm(v, lFrom)) &&
            (v.isArray ==> f.Universal? && f.vars == [PosSymbol] && f.body.Equality? &&
                           f.body.left == h.arrayTerm(v, lTo, Var(PosSymbol)) && f.body.right == h.arrayTerm(v, lFrom, Var(PosSymbol)))
  {
  }

  /** Scalar assignment `x := e`: first `x(l2) = e(l1)`, then one frame per variable of `vars`, in order. */
  lemma ScalarUpdateConjuncts(h: Helpers, lhs: IntExpr, rhs: IntExpr, l1: Term, l2: Term, vars: seq<Variable>, location: string)
    requires lhs.IntVariableAccess?
    ensures var f := ScalarUpdate(h, lhs, rhs, l1, l2, vars, location);
            f.Conjunction? && |f.conjuncts| == 1 + |vars| &&
            f.conjuncts[0] == Equality(h.expressionTerm(lhs, l2), h.expressionTerm(rhs, l1), "") &&
            forall k :: 0 <= k < |vars| ==> f.conjuncts[1 + k] == Frame(h, vars[k], l2, l1)
  {
    var eq := Equality(h.expressionTerm(lhs, l2), h.expressionTerm(rhs, l1), "");
    var cs := ScalarUpdate(h, lhs, rhs, l1, l2, vars, location).conjuncts;
    assert cs == [eq] + Frames(h, vars, l2, l1) + [];
    FramesWithin(cs, [eq], h, vars, l2, l1, []);
  }

  /**
   * Array assignment `a[e] := rhs`: first `a(l2, e(l1)) = rhs(l1)`, then
   * `forall pos. pos != e(l1) ==> a(l2, pos) = a(l1, pos)`, then one frame
   * per variable of `vars`, in order.
   */
  lemma ArrayUpdateConjuncts(h: Helpers, lhs: IntExpr, rhs: IntExpr, l1: Term, l2: Term, vars: seq<Variable>, location: string)
    requires lhs.IntArrayApplication?
    ensures var f := ArrayUpdate(h, lhs, rhs, l1, l2, vars, location);
            var a, index, p := lhs.arrayVariable, h.expressionTerm(lhs.index, l1), Var(PosSymbol);
            f.Conjunction? && |f.conjuncts| == 2 + |vars| &&
            f.conjuncts[0] == Equality(h.arrayTerm(a, l2, index), h.expressionTerm(rhs, l1), "") &&
            f.conjuncts[1].Universal? && f.conjuncts[1].vars == [PosSymbol] &&
            f.conjuncts[1].body == Implication(Disequality(p, index), Equality(h.arrayTerm(a, l2, p), h.arrayTerm(a, l1, p), "")) &&
            forall k :: 0 <= k < |vars| ==> f.conjuncts[2 + k] == Frame(h, vars[k], l2, l1)
  {
    var a, index, p := lhs.arrayVariable, h.expressionTerm(lhs.index, l1), Var(PosSymbol);
    var eq1 := Equality(h.arrayTerm(a, l2, index), h.expressionTerm(rhs, l1), "");
    var eq2 := Universal([PosSymbol], Implication(Disequality(p, index), Equality(h.arrayTerm(a, l2, p), h.arrayTerm(a, l1, p), "")), "");
    var cs := ArrayUpdate(h, lhs, rhs, l1, l2, vars, location).conjuncts;
    assert cs == [eq1, eq2] + Frames(h, vars, l2, l1) + [];
    FramesWithin(cs, [eq1, eq2], h, vars, l2, l1, []);
  }

  /** If-else part 1: the frames into the left branch, then the frames into the right branch, over the same variables. */
  lemma EntryPartConjuncts(h: Helpers, vars: seq<Variable>, lLeftStart: Term, lRightStart: Term, lStart: Term)
    ensures var f := EntryPart(h, vars, lLeftStart, lRightStart, lStart);
            f.Conjunction? && |f.conjuncts| == 2 * |vars| &&
            forall k :: 0 <= k < |vars| ==>
              f.conjuncts[k] == Frame(h, vars[k], lLeftStart, lStart) &&
              f.conjuncts[|vars| + k] == Frame(h, vars[k], lRightStart, lStart)
  {
    var left := Frames(h, vars, lLeftStart, lStart);
    var right := Frames(h, vars, lRightStart, lStart);
    var cs := EntryPart(h, vars, lLeftStart, lRightStart, lStart).conjuncts;
    assert cs == [] + left + right;
    FramesWithin(cs, [], h, vars, lLeftStart, lStart, right);
    FramesWithin(cs, left, h, vars, lRightStart, lStart, []);
  }

  /**
   * If-else part 2: first `c ==> v(lEnd) = v(lLeftEnd)` for each variable of
   * `left`, then `!c ==> v(lEnd) = v(lRightEnd)` for each variable of `right`.
   */
  lemma MergePartConjuncts(h: Helpers, c: Formula, lEnd: Term, left: seq<Variable>, lLeftEnd: Term,
                           right: seq<Variable>, lRightEnd: Term)
    ensures var f := MergePart(h, c, lEnd, left, lLeftEnd, right, lRightEnd);
            f.Conjunction? && |f.conjuncts| == |left| + |right| &&
            (forall k :: 0 <= k < |left| ==> f.conjuncts[k] == Implication(c, Frame(h, left[k], lEnd, lLeftEnd))) &&
            (forall k :: 0 <= k < |right| ==>
               f.conjuncts[|left| + k] == Implication(Negation(c, ""), Frame(h, right[k], lEnd, lRightEnd)))
  {
    var g1 := Guarded(c, Frames(h, left, lEnd, lLeftEnd));
    var g2 := Guarded(Negation(c, ""), Frames(h, right, lEnd, lRightEnd));
    var cs := MergePart(h, c, lEnd, left, lLeftEnd, right, lRightEnd).conjuncts;
    assert cs == g1 + g2;
    forall k | 0 <= k < |right| ensures cs[|left| + k] == Implication(Negation(c, ""), Frame(h, right[k], lEnd, lRightEnd)) {
      assert cs[|left| + k] == g2[k];
    }
  }

  /** If-else, in order: the entry part, the merge part, the if statements' formulas, the else statements' formulas. */
  lemma IfElseFormulaConjuncts(entry: Formula, merge: Formula, ifs: seq<Formula>, els: seq<Formula>, location: string)
    ensures var f := IfElseFormula(entry, merge, ifs, els, location);
            f.Conjunction? && |f.conjuncts| == 2 + |ifs| + |els| &&
            f.conjuncts[0] == entry && f.conjuncts[1] == merge &&
            (forall k :: 0 <= k < |ifs| ==> f.conjuncts[2 + k] == ifs[k]) &&
            (forall k :: 0 <= k < |els| ==> f.conjuncts[2 + |ifs| + k] == els[k])
  {
    var cs := IfElseFormula(entry, merge, ifs, els, location).conjuncts;
    assert cs == [entry, merge] + ifs + els;
    forall k | 0 <= k < |els| ensures cs[2 + |ifs| + k] == els[k] {
      assert cs[2 + |ifs| + k] == ([entry, merge] + ifs + els)[2 + |ifs| + k];
    }
  }

  /**
   * A loop, in order: under `forall i`, the entry frames from `lStartIt` into
   * the body; under `forall i`, the body's formulas; under `forall i`,
   * `time_sub(i, n) ==> c(lStartIt)`; `!c(lStartN)`; the exit frames from
   * `lStartN` to `lEnd`.
   */
  lemma LoopFormulaConjuncts(h: Helpers, iSymbol: Symbol, n: Term, lStartIt: Term, lStartN: Term, condition: BoolExpr,
                             vars: seq<Variable>, lBodyStart: Term, lEnd: Term, body: seq<Formula>, location: string)
    ensures var f := LoopFormula(h, iSymbol, n, lStartIt, lStartN, condition, vars, lBodyStart, lEnd, body, location);
            f.Conjunction? && |f.conjuncts| == 5 &&
            f.conjuncts[0].Universal? && f.conjuncts[0].vars == [iSymbol] &&
            f.conjuncts[0].body.Conjunction? && |f.conjuncts[0].body.conjuncts| == |vars| &&
            (forall k :: 0 <= k < |vars| ==> f.conjuncts[0].body.conjuncts[k] == Frame(h, vars[k], lBodyStart, lStartIt)) &&
            f.conjuncts[1].Universal? && f.conjuncts[1].vars == [iSymbol] &&
            f.conjuncts[1].body.Conjunction? && f.conjuncts[1].body.conjuncts == body &&
            f.conjuncts[2].Universal? && f.conjuncts[2].vars == [iSymbol] &&
            f.conjuncts[2].body == Implication(TimeSub(Var(iSymbol), n), h.conditionFormula(condition, lStartIt)) &&
            f.conjuncts[3].Negation? && f.conjuncts[3].operand == h.conditionFormula(condition, lStartN) &&
            f.conjuncts[4].Conjunction? && |f.conjuncts[4].conjuncts| == |vars| &&
            (forall k :: 0 <= k < |vars| ==> f.conjuncts[4].conjuncts[k] == Frame(h, vars[k], lEnd, lStartN))
  {
    var cs := LoopFormula(h, iSymbol, n, lStartIt, lStartN, condition, vars, lBodyStart, lEnd, body, location).conjuncts;
    FramesWithin(cs[0].body.conjuncts, [], h, vars, lBodyStart, lStartIt, []);
    FramesWithin(cs[4].conjuncts, [], h, vars, lEnd, lStartN, []);
  }
}
