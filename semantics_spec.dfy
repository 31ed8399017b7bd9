/**
 * What the semantics generator (src/analysis/Semantics.cpp) produces for a
 * program, as functions on values: the formula of each statement kind at the
 * time-points the generator's context assigns, of a function and of a whole
 * program, together with lemmas that spell out which conjuncts appear, in
 * which order, and which variables they mention.
 */
module SemanticsSpec {
  import opened Sorts
  import opened Logic
  import opened Theory
  import opened Programs
  import opened VariableSets
  import opened SemanticFormulas


  /**
   * The generator's state: the start and end time-point of every statement
   * (keyed by the statement's location), the variables active at each
   * time-point (keyed by the time-point's symbol name), and the trace mode.
   */
  datatype Context = Context(
    startTimePoint: map<string, Term>,
    endTimePoint: map<string, Term>,
    activeVars: map<string, seq<Variable>>,
    twoTraces: bool,
    helpers: Helpers)

  predicate HasActive(ctx: Context, tp: Term) {
    tp.symbol.name in ctx.activeVars
  }

  /**
   * The active variables at `a` and at `b` exist and agree on identities, so
   * that `intersection` (which orders by identity) can be taken of them.
   */
  predicate Intersectable(ctx: Context, a: Term, b: Term) {
    HasActive(ctx, a) && HasActive(ctx, b) &&
    IdsIdentify(ctx.activeVars[a.symbol.name] + ctx.activeVars[b.symbol.name])
  }

  function ActiveAt(ctx: Context, tp: Term): seq<Variable>
    requires HasActive(ctx, tp)
  {
    ctx.activeVars[tp.symbol.name]
  }

  predicate HasTimePoints(ctx: Context, s: Statement) {
    s.location in ctx.startTimePoint && s.location in ctx.endTimePoint
  }

  function StartOf(ctx: Context, s: Statement): Term
    requires HasTimePoints(ctx, s)
  {
    ctx.startTimePoint[s.location]
  }

  function EndOf(ctx: Context, s: Statement): Term
    requires HasTimePoints(ctx, s)
  {
    ctx.endTimePoint[s.location]
  }

  /**
   * What an assignment's own lookups demand: its time-points, a variable or
   * an array cell on the left, and the active variables at both time-points.
   */
  predicate AssignmentLookups(ctx: Context, s: Statement) {
    s.IntAssignment? && HasTimePoints(ctx, s) &&
    (s.lhs.IntVariableAccess? || s.lhs.IntArrayApplication?) &&
    Intersectable(ctx, StartOf(ctx, s), EndOf(ctx, s))
  }

  /**
   * What an if-else's own lookups demand: non-empty branches (`front()` and
   * `back()` are taken of them), the time-points of the statement and of the
   * branches' first and last statements, the active variables at the start,
   * and those at the end of each branch and after the statement.
   */
  predicate IfElseLookups(ctx: Context, s: Statement) {
    s.IfElse? && HasTimePoints(ctx, s) &&
    |s.ifStatements| > 0 && |s.elseStatements| > 0 &&
    HasTimePoints(ctx, s.ifStatements[0]) && HasTimePoints(ctx, s.elseStatements[0]) &&
    HasTimePoints(ctx, s.ifStatements[|s.ifStatements| - 1]) &&
    HasTimePoints(ctx, s.elseStatements[|s.elseStatements| - 1]) &&
    HasActive(ctx, StartOf(ctx, s)) &&
    Intersectable(ctx, EndOf(ctx, s.ifStatements[|s.ifStatements| - 1]), EndOf(ctx, s)) &&
    Intersectable(ctx, EndOf(ctx, s.elseStatements[|s.elseStatements| - 1]), EndOf(ctx, s))
  }

  /**
   * What a loop's own lookups demand: a non-empty body, the time-points of
   * the loop and of the body's first statement, and the active variables at
   * the loop's start.
   */
  predicate WhileLookups(ctx: Context, s: Statement) {
    s.WhileStatement? && HasTimePoints(ctx, s) &&
    |s.bodyStatements| > 0 && HasTimePoints(ctx, s.bodyStatements[0]) &&
    HasActive(ctx, StartOf(ctx, s))
  }

  /**
   * What the generator's `.at()` lookups and `assert`s demand of a statement
   * and of every statement nested in it.
   */
  predicate WellFormed(ctx: Context, s: Statement)
    decreases s
  {
    HasTimePoints(ctx, s) &&
    (s.IntAssignment? ==> AssignmentLookups(ctx, s)) &&
    (s.IfElse? ==>
       IfElseLookups(ctx, s) &&
       (forall k :: 0 <= k < |s.ifStatements| ==> WellFormed(ctx, s.ifStatements[k])) &&
       (forall k :: 0 <= k < |s.elseStatements| ==> WellFormed(ctx, s.elseStatements[k]))) &&
    (s.WhileStatement? ==>
       WhileLookups(ctx, s) &&
       (forall k :: 0 <= k < |s.bodyStatements| ==> WellFormed(ctx, s.bodyStatements[k])))
  }

  predicate ProgramWellFormed(ctx: Context, p: Program) {
    forall k, j :: 0 <= k < |p.functions| && 0 <= j < |p.functions[k].statements| ==>
      WellFormed(ctx, p.functions[k].statements[j])
  }

  function ActiveBoth(ctx: Context, a: Term, b: Term): (r: seq<Variable>)
    requires Intersectable(ctx, a, b)
    ensures SortedById(r)
    ensures forall v :: v in r <==> v in ActiveAt(ctx, a) && v in ActiveAt(ctx, b)
    ensures Distinct(ActiveAt(ctx, a)) ==> Distinct(r)
  {
    Intersection(ActiveAt(ctx, a), ActiveAt(ctx, b))
  }

  // ---------------------------------------------------------------------
  // Statement semantics
  // ---------------------------------------------------------------------

  /** The variables an assignment frames: active at both of its time-points, not constant, not the target. */
  function AssignmentFramedVars(ctx: Context, s: Statement): seq<Variable>
    requires AssignmentLookups(ctx, s)
  {
    var active := ActiveBoth(ctx, StartOf(ctx, s), EndOf(ctx, s));
    if s.lhs.IntVariableAccess? then FramedVars(active, ExcludeScalar(s.lhs.variable))
    else FramedVars(active, ExcludeArray(s.lhs.arrayVariable))
  }

  /** `generateSemantics(IntAssignment)`, Semantics.cpp:84-175. */
  function AssignmentSemantics(ctx: Context, s: Statement): Formula
    requires AssignmentLookups(ctx, s)
  {
    var l1, l2 := StartOf(ctx, s), EndOf(ctx, s);
    if s.lhs.IntVariableAccess? then
      ScalarUpdate(ctx.helpers, s.lhs, s.rhs, l1, l2, AssignmentFramedVars(ctx, s), s.location)
    else
      ArrayUpdate(ctx.helpers, s.lhs, s.rhs, l1, l2, AssignmentFramedVars(ctx, s), s.location)
  }

  /** The start time-points of the first statements of the two branches. */
  function LeftStart(ctx: Context, s: Statement): Term
    requires IfElseLookups(ctx, s)
  {
    StartOf(ctx, s.ifStatements[0])
  }

  function RightStart(ctx: Context, s: Statement): Term
    requires IfElseLookups(ctx, s)
  {
    StartOf(ctx, s.elseStatements[0])
  }

  /** The non-constant variables active at the start of an if-else or a loop. */
  function EntryVars(ctx: Context, s: Statement): seq<Variable>
    requires IfElseLookups(ctx, s) || WhileLookups(ctx, s)
  {
    FramedVars(ActiveAt(ctx, StartOf(ctx, s)), NoExclusion)
  }

  /** Part 1 of an if-else, Semantics.cpp:194-241. */
  function IfEntry(ctx: Context, s: Statement): Formula
    requires IfElseLookups(ctx, s)
  {
    EntryPart(ctx.helpers, EntryVars(ctx, s), LeftStart(ctx, s), RightStart(ctx, s), StartOf(ctx, s))
  }

  /** The end time-points of the last statements of the two branches. */
  function LeftEnd(ctx: Context, s: Statement): Term
    requires IfElseLookups(ctx, s)
  {
    EndOf(ctx, s.ifStatements[|s.ifStatements| - 1])
  }

  function RightEnd(ctx: Context, s: Statement): Term
    requires IfElseLookups(ctx, s)
  {
    EndOf(ctx, s.elseStatements[|s.elseStatements| - 1])
  }

  /** The non-constant variables active both at the end of a branch and after the if-else. */
  function LeftMergeVars(ctx: Context, s: Statement): seq<Variable>
    requires IfElseLookups(ctx, s)
  {
    FramedVars(ActiveBoth(ctx, LeftEnd(ctx, s), EndOf(ctx, s)), NoExclusion)
  }

  function RightMergeVars(ctx: Context, s: Statement): seq<Variable>
    requires IfElseLookups(ctx, s)
  {
    FramedVars(ActiveBoth(ctx, RightEnd(ctx, s), EndOf(ctx, s)), NoExclusion)
  }

  /** The branching condition, evaluated at the start of the if-else. */
  function BranchCondition(ctx: Context, s: Statement): Formula
    requires IfElseLookups(ctx, s)
  {
    ctx.helpers.conditionFormula(s.condition, StartOf(ctx, s))
  }

  /** Part 2 of an if-else, Semantics.cpp:243-295. */
  function IfMerge(ctx: Context, s: Statement): Formula
    requires IfElseLookups(ctx, s)
  {
    MergePart(ctx.helpers, BranchCondition(ctx, s), EndOf(ctx, s),
              LeftMergeVars(ctx, s), LeftEnd(ctx, s), RightMergeVars(ctx, s), RightEnd(ctx, s))
  }

  /** The start time-point of a loop body's first statement. */
  function BodyStart(ctx: Context, s: Statement): Term
    requires WhileLookups(ctx, s)
  {
    StartOf(ctx, s.bodyStatements[0])
  }

  /** A loop's iterator symbol `i` and its last iteration `n`. */
  function IteratorOf(ctx: Context, s: Statement): Symbol
    requires s.WhileStatement?
  {
    ctx.helpers.iteratorSymbol(s.location)
  }

  function LastIterationOf(ctx: Context, s: Statement): Term
    requires s.WhileStatement?
  {
    ctx.helpers.lastIterationTerm(s.location, ctx.twoTraces)
  }

  /** The loop's time-point in iteration `it`. */
  function LoopAt(ctx: Context, s: Statement, it: Term): Term
    requires s.WhileStatement?
  {
    LoopTimePoint(ctx.helpers, s.location, s.enclosingLoops, it)
  }

  /** `generateSemantics(Statement)`, the dispatch of Semantics.cpp:59-82; skip is Semantics.cpp:414-422. */
  function StatementSemantics(ctx: Context, s: Statement): Formula
    requires WellFormed(ctx, s)
    decreases s, 2
  {
    match s
    case IntAssignment(_, _, _) => AssignmentSemantics(ctx, s)
    case IfElse(_, _, _, _) => IfElseSemantics(ctx, s)
    case WhileStatement(_, _, _, _) => WhileSemantics(ctx, s)
    case SkipStatement(_) => Equality(StartOf(ctx, s), EndOf(ctx, s), SkipLabel)
  }

  /** Part 3 of an if-else: the formulas of the if statements, in order. */
  function IfBranchSemantics(ctx: Context, s: Statement): seq<Formula>
    requires s.IfElse? && forall k :: 0 <= k < |s.ifStatements| ==> WellFormed(ctx, s.ifStatements[k])
    decreases s, 0
  {
    seq(|s.ifStatements|, k requires 0 <= k < |s.ifStatements| => StatementSemantics(ctx, s.ifStatements[k]))
  }

  /** Part 3 of an if-else: the formulas of the else statements, in order. */
  function ElseBranchSemantics(ctx: Context, s: Statement): seq<Formula>
    requires s.IfElse? && forall k :: 0 <= k < |s.elseStatements| ==> WellFormed(ctx, s.elseStatements[k])
    decreases s, 0
  {
    seq(|s.elseStatements|, k requires 0 <= k < |s.elseStatements| => StatementSemantics(ctx, s.elseStatements[k]))
  }

  /** `generateSemantics(IfElse)`, Semantics.cpp:177-310. */
  function IfElseSemantics(ctx: Context, s: Statement): Formula
    requires s.IfElse? && WellFormed(ctx, s)
    decreases s, 1
  {
    IfElseFormula(IfEntry(ctx, s), IfMerge(ctx, s), IfBranchSemantics(ctx, s), ElseBranchSemantics(ctx, s), s.location)
  }

  /** The formulas of a loop body's statements, in order. */
  function BodySemantics(ctx: Context, s: Statement): seq<Formula>
    requires s.WhileStatement? && forall k :: 0 <= k < |s.bodyStatements| ==> WellFormed(ctx, s.bodyStatements[k])
    decreases s, 0
  {
    seq(|s.bodyStatements|, k requires 0 <= k < |s.bodyStatements| => StatementSemantics(ctx, s.bodyStatements[k]))
  }

  /** `generateSemantics(WhileStatement)`, Semantics.cpp:312-412. */
  function WhileSemantics(ctx: Context, s: Statement): Formula
    requires s.WhileStatement? && WellFormed(ctx, s)
    decreases s, 1
  {
    var iSymbol := IteratorOf(ctx, s);
    var n := LastIterationOf(ctx, s);
    LoopFormula(ctx.helpers, iSymbol, n, LoopAt(ctx, s, Var(iSymbol)), LoopAt(ctx, s, n), s.condition,
                EntryVars(ctx, s), BodyStart(ctx, s), EndOf(ctx, s), BodySemantics(ctx, s), s.location)
  }

  /** A statement's formula as its function's conjunct: under `forall tr` in two-trace mode. */
  function TraceWrapped(ctx: Context, f: Formula): Formula {
    if ctx.twoTraces then Universal([VarSymbol("tr", ctx.helpers.traceSort)], f, "") else f
  }

  /** The formula of one function: its statements' formulas, in order. */
  function FunctionSemantics(ctx: Context, fn: Function): Formula
    requires forall j :: 0 <= j < |fn.statements| ==> WellFormed(ctx, fn.statements[j])
  {
    Conjunction(seq(|fn.statements|, j requires 0 <= j < |fn.statements| => TraceWrapped(ctx, StatementSemantics(ctx, fn.statements[j]))),
                FunctionLabel + fn.name)
  }

  /** `generateSemantics()`, Semantics.cpp:32-57: one formula per function, in order. */
  function ProgramSemantics(ctx: Context, p: Program): seq<Formula>
    requires ProgramWellFormed(ctx, p)
  {
    seq(|p.functions|, k requires 0 <= k < |p.functions| => FunctionSemantics(ctx, p.functions[k]))
  }

  // ---------------------------------------------------------------------
  // What the formulas say
  // ---------------------------------------------------------------------

  /**
   * The variables a scalar assignment `x := e` frames: exactly the
   * non-constant ones active at both of its time-points other than `x` —
   * every such array included — each once, in identity order.
   */
  lemma ScalarAssignmentFramedVars(ctx: Context, s: Statement)
    requires AssignmentLookups(ctx, s) && s.lhs.IntVariableAccess?
    ensures var vs, l1, l2 := AssignmentFramedVars(ctx, s), StartOf(ctx, s), EndOf(ctx, s);
            (forall v :: v in vs <==>
               v in ActiveAt(ctx, l1) && v in ActiveAt(ctx, l2) && !v.isConstant && (v.isArray || v != s.lhs.variable)) &&
            SortedById(vs) &&
            (Distinct(ActiveAt(ctx, l1)) ==> Distinct(vs))
  {
    var active := ActiveBoth(ctx, StartOf(ctx, s), EndOf(ctx, s));
    FramedVarsSorted(active, ExcludeScalar(s.lhs.variable));
    if Distinct(ActiveAt(ctx, StartOf(ctx, s))) {
      FramedVarsDistinct(active, ExcludeScalar(s.lhs.variable));
    }
  }

  /**
   * The variables an array assignment `a[e] := rhs` frames: exactly the
   * non-constant ones active at both of its time-points, except the array
   * `a` itself, each once, in identity order; so `a` never gets a blanket
   * frame.
   */
  lemma ArrayAssignmentFramedVars(ctx: Context, s: Statement)
    requires AssignmentLookups(ctx, s) && s.lhs.IntArrayApplication?
    ensures var vs, l1, l2, a := AssignmentFramedVars(ctx, s), StartOf(ctx, s), EndOf(ctx, s), s.lhs.arrayVariable;
            (forall v :: v in vs <==>
               v in ActiveAt(ctx, l1) && v in ActiveAt(ctx, l2) && !v.isConstant && (!v.isArray || v != a)) &&
            (a.isArray ==> a !in vs) &&
            SortedById(vs) &&
            (Distinct(ActiveAt(ctx, l1)) ==> Distinct(vs))
  {
    var active := ActiveBoth(ctx, StartOf(ctx, s), EndOf(ctx, s));
    FramedVarsSorted(active, ExcludeArray(s.lhs.arrayVariable));
    if Distinct(ActiveAt(ctx, StartOf(ctx, s))) {
      FramedVarsDistinct(active, ExcludeArray(s.lhs.arrayVariable));
    }
  }

  /**
   * The formula of a scalar assignment `x := e`, conjunct by conjunct:
   * first `x(l2) = e(l1)`, then one frame from `l1` to `l2` for each
   * non-constant variable active at both time-points other than `x`, in
   * identity order, each once when the active variables are, and nothing else.
   */
  lemma ScalarAssignmentConjuncts(ctx: Context, s: Statement)
    requires WellFormed(ctx, s) && s.IntAssignment? && s.lhs.IntVariableAccess?
    ensures var f, vs, h, l1, l2 := StatementSemantics(ctx, s), AssignmentFramedVars(ctx, s), ctx.helpers, StartOf(ctx, s), EndOf(ctx, s);
            f.Conjunction? && |f.conjuncts| == 1 + |vs| &&
            f.conjuncts[0] == Equality(h.expressionTerm(s.lhs, l2), h.expressionTerm(s.rhs, l1), "") &&
            (forall k :: 0 <= k < |vs| ==> f.conjuncts[1 + k] == Frame(h, vs[k], l2, l1)) &&
            (forall v :: v in vs <==>
               v in ActiveAt(ctx, l1) && v in ActiveAt(ctx, l2) && !v.isConstant && (v.isArray || v != s.lhs.variable)) &&
            (Distinct(ActiveAt(ctx, l1)) ==> Distinct(vs))
  {
    var vs, l1, l2 := AssignmentFramedVars(ctx, s), StartOf(ctx, s), EndOf(ctx, s);
    ScalarAssignmentFramedVars(ctx, s);
    ScalarUpdateConjuncts(ctx.helpers, s.lhs, s.rhs, l1, l2, vs, s.location);
  }

  /**
   * The formula of an array assignment `a[e] := rhs`, conjunct by conjunct:
   * first `a(l2, e(l1)) = rhs(l1)`, then `forall pos. pos != e(l1) ==>
   * a(l2, pos) = a(l1, pos)`, then one frame for each non-constant variable
   * active at both time-points except `a`, in identity order, and nothing else.
   */
  lemma ArrayAssignmentConjuncts(ctx: Context, s: Statement)
    requires WellFormed(ctx, s) && s.IntAssignment? && s.lhs.IntArrayApplication?
    ensures var f, vs, h, l1, l2 := StatementSemantics(ctx, s), AssignmentFramedVars(ctx, s), ctx.helpers, StartOf(ctx, s), EndOf(ctx, s);
            var a, index, p := s.lhs.arrayVariable, h.expressionTerm(s.lhs.index, l1), Var(PosSymbol);
            f.Conjunction? && |f.conjuncts| == 2 + |vs| &&
            f.conjuncts[0] == Equality(h.arrayTerm(a, l2, index), h.expressionTerm(s.rhs, l1), "") &&
            f.conjuncts[1] == Universal([PosSymbol], Implication(Disequality(p, index), Equality(h.arrayTerm(a, l2, p), h.arrayTerm(a, l1, p), "")), "") &&
            (forall k :: 0 <= k < |vs| ==> f.conjuncts[2 + k] == Frame(h, vs[k], l2, l1)) &&
            (forall v :: v in vs <==>
               v in ActiveAt(ctx, l1) && v in ActiveAt(ctx, l2) && !v.isConstant && (!v.isArray || v != a)) &&
            (Distinct(ActiveAt(ctx, l1)) ==> Distinct(vs))
  {
    var vs, l1, l2 := AssignmentFramedVars(ctx, s), StartOf(ctx, s), EndOf(ctx, s);
    ArrayAssignmentFramedVars(ctx, s);
    ArrayUpdateConjuncts(ctx.helpers, s.lhs, s.rhs, l1, l2, vs, s.location);
  }

  /**
   * The variables framed on entry into the branches of an if-else or the body
   * of a loop, and on exit from a loop: exactly the non-constant ones active
   * at the statement's start, in their order there, each once when the active
   * variables are.
   */
  lemma EntryVarsMembers(ctx: Context, s: Statement)
    requires IfElseLookups(ctx, s) || WhileLookups(ctx, s)
    ensures var vs, active := EntryVars(ctx, s), ActiveAt(ctx, StartOf(ctx, s));
            (forall v :: v in vs <==> v in active && !v.isConstant) &&
            (SortedById(active) ==> SortedById(vs)) &&
            (Distinct(active) ==> Distinct(vs))
  {
    var active := ActiveAt(ctx, StartOf(ctx, s));
    if SortedById(active) {
      FramedVarsSorted(active, NoExclusion);
    }
    if Distinct(active) {
      FramedVarsDistinct(active, NoExclusion);
    }
  }

  /**
   * The variables merged after an if-else: for each branch, exactly the
   * non-constant ones active both at the branch's end and after the
   * statement, each once, in identity order.
   */
  lemma IfMergeVars(ctx: Context, s: Statement)
    requires IfElseLookups(ctx, s)
    ensures var left, right, lEnd := LeftMergeVars(ctx, s), RightMergeVars(ctx, s), EndOf(ctx, s);
            (forall v :: v in left <==> v in ActiveAt(ctx, LeftEnd(ctx, s)) && v in ActiveAt(ctx, lEnd) && !v.isConstant) &&
            (forall v :: v in right <==> v in ActiveAt(ctx, RightEnd(ctx, s)) && v in ActiveAt(ctx, lEnd) && !v.isConstant) &&
            SortedById(left) && SortedById(right) &&
            (Distinct(ActiveAt(ctx, LeftEnd(ctx, s))) ==> Distinct(left)) &&
            (Distinct(ActiveAt(ctx, RightEnd(ctx, s))) ==> Distinct(right))
  {
    var al := ActiveBoth(ctx, LeftEnd(ctx, s), EndOf(ctx, s));
    var ar := ActiveBoth(ctx, RightEnd(ctx, s), EndOf(ctx, s));
    FramedVarsSorted(al, NoExclusion);
    FramedVarsSorted(ar, NoExclusion);
    if Distinct(ActiveAt(ctx, LeftEnd(ctx, s))) {
      FramedVarsDistinct(al, NoExclusion);
    }
    if Distinct(ActiveAt(ctx, RightEnd(ctx, s))) {
      FramedVarsDistinct(ar, NoExclusion);
    }
  }

  /** Skip identifies its two time-points and says nothing else. */
  lemma SkipIsIdentification(ctx: Context, s: Statement)
    requires s.SkipStatement? && WellFormed(ctx, s)
    ensures var f := StatementSemantics(ctx, s);
            f.Equality? && f.left == StartOf(ctx, s) && f.right == EndOf(ctx, s)
  {
  }

  /**
   * One conjunction per function, in function order, with one conjunct per
   * statement in statement order: `forall tr` over the statement's formula in
   * two-trace mode, the formula itself otherwise.
   */
  lemma ProgramConjuncts(ctx: Context, p: Program)
    requires ProgramWellFormed(ctx, p)
    ensures var r := ProgramSemantics(ctx, p);
            |r| == |p.functions| &&
            forall k :: 0 <= k < |p.functions| ==>
              var sts := p.functions[k].statements;
              r[k].Conjunction? && |r[k].conjuncts| == |sts| &&
              forall j :: 0 <= j < |sts| ==>
                (ctx.twoTraces ==> r[k].conjuncts[j] == Universal([VarSymbol("tr", ctx.helpers.traceSort)], StatementSemantics(ctx, sts[j]), "")) &&
                (!ctx.twoTraces ==> r[k].conjuncts[j] == StatementSemantics(ctx, sts[j]))
  {
  }
}
