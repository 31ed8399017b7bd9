/**
 * The semantics generator (src/analysis/Semantics.cpp) as it runs: methods
 * that look up the time-points, walk the active variables and the statement
 * lists with loops, and push conjuncts one by one. Each method is proved to
 * return exactly the formula the corresponding function of `SemanticsSpec`
 * describes.
 */
module Semantics {
  import opened Sorts
  import opened Logic
  import opened Theory
  import opened Programs
  import opened VariableSets
  import opened SemanticFormulas
  import opened SemanticsSpec

  /** Adding one more variable adds its frame at the end. */
  lemma FramesSnoc(h: Helpers, vs: seq<Variable>, v: Variable, lTo: Term, lFrom: Term)
    ensures Frames(h, vs + [v], lTo, lFrom) == Frames(h, vs, lTo, lFrom) + [Frame(h, v, lTo, lFrom)]
  {
    var a, b := Frames(h, vs + [v], lTo, lFrom), Frames(h, vs, lTo, lFrom) + [Frame(h, v, lTo, lFrom)];
    assert |a| == |b|;
    forall k | 0 <= k < |a| ensures a[k] == b[k] {
      if k < |vs| {
        assert (vs + [v])[k] == vs[k];
      }
    }
  }

  /** Selecting and framing one more variable adds its frame at the end exactly when it is framed. */
  lemma FramesStep(h: Helpers, vs: seq<Variable>, i: nat, ex: Exclusion, lTo: Term, lFrom: Term)
    requires i < |vs|
    ensures Frames(h, FramedVars(vs[..i + 1], ex), lTo, lFrom) ==
            Frames(h, FramedVars(vs[..i], ex), lTo, lFrom) +
            (if Framed(vs[i], ex) then [Frame(h, vs[i], lTo, lFrom)] else [])
  {
    assert vs[..i + 1][..i] == vs[..i];
    if Framed(vs[i], ex) {
      FramesSnoc(h, FramedVars(vs[..i], ex), vs[i], lTo, lFrom);
    }
  }

  /** Guarded frames over one more variable add its guarded frame at the end exactly when it is framed. */
  lemma GuardedFramesStep(h: Helpers, c: Formula, vs: seq<Variable>, i: nat, lTo: Term, lFrom: Term)
    requires i < |vs|
    ensures Guarded(c, Frames(h, FramedVars(vs[..i + 1], NoExclusion), lTo, lFrom)) ==
            Guarded(c, Frames(h, FramedVars(vs[..i], NoExclusion), lTo, lFrom)) +
            (if Framed(vs[i], NoExclusion) then [Implication(c, Frame(h, vs[i], lTo, lFrom))] else [])
  {
    FramesStep(h, vs, i, NoExclusion, lTo, lFrom);
    if Framed(vs[i], NoExclusion) {
      GuardedSnoc(c, Frames(h, FramedVars(vs[..i], NoExclusion), lTo, lFrom), Frame(h, vs[i], lTo, lFrom));
    }
  }

  /**
   * The body of a frame loop for one variable `v`: nothing for a constant or
   * the excluded variable, `v(lTo) = v(lFrom)` for a scalar,
   * `forall pos. v(lTo, pos) = v(lFrom, pos)` for an array.
   */
  method PushFrame(h: Helpers, v: Variable, ex: Exclusion, lTo: Term, lFrom: Term, acc: seq<Formula>)
    returns (r: seq<Formula>)
    ensures r == acc + if Framed(v, ex) then [Frame(h, v, lTo, lFrom)] else []
  {
    r := acc;
    if !v.isConstant {
      if !v.isArray {
        if !(ex.ExcludeScalar? && v == ex.scalar) {
          r := r + [Equality(h.variableTerm(v, lTo), h.variableTerm(v, lFrom), "")];
        }
      } else {
        if !(ex.ExcludeArray? && v == ex.arrayVariable) {
          var p := Var(PosSymbol);
          r := r + [Universal([PosSymbol], Equality(h.arrayTerm(v, lTo, p), h.arrayTerm(v, lFrom, p), ""), "")];
        }
      }
    }
  }

  /** One frame loop of the generator: the frames of the variables of `vs`, in order, pushed onto `acc`. */
  method PushFrames(h: Helpers, vs: seq<Variable>, ex: Exclusion, lTo: Term, lFrom: Term, acc: seq<Formula>)
    returns (r: seq<Formula>)
    ensures r == acc + Frames(h, FramedVars(vs, ex), lTo, lFrom)
  {
    r := acc;
    for i := 0 to |vs|
      invariant r == acc + Frames(h, FramedVars(vs[..i], ex), lTo, lFrom)
    {
      FramesStep(h, vs, i, ex, lTo, lFrom);
      r := PushFrame(h, vs[i], ex, lTo, lFrom, r);
    }
    assert vs[..|vs|] == vs;
  }

  /** The body of a merge loop for one variable `v`: nothing for a constant, otherwise its frame under `c`. */
  method PushGuardedFrame(h: Helpers, c: Formula, v: Variable, lTo: Term, lFrom: Term, acc: seq<Formula>)
    returns (r: seq<Formula>)
    ensures r == acc + if Framed(v, NoExclusion) then [Implication(c, Frame(h, v, lTo, lFrom))] else []
  {
    r := acc;
    if !v.isConstant {
      if !v.isArray {
        r := r + [Implication(c, Equality(h.variableTerm(v, lTo), h.variableTerm(v, lFrom), ""))];
      } else {
        var p := Var(PosSymbol);
        r := r + [Implication(c, Universal([PosSymbol], Equality(h.arrayTerm(v, lTo, p), h.arrayTerm(v, lFrom, p), ""), ""))];
      }
    }
  }

  /** The merge loops of an if-else: the frames of the variables of `vs` under the premise `c`, pushed onto `acc`. */
  method PushGuardedFrames(h: Helpers, c: Formula, vs: seq<Variable>, lTo: Term, lFrom: Term, acc: seq<Formula>)
    returns (r: seq<Formula>)
    ensures r == acc + Guarded(c, Frames(h, FramedVars(vs, NoExclusion), lTo, lFrom))
  {
    r := acc;
    for i := 0 to |vs|
      invariant r == acc + Guarded(c, Frames(h, FramedVars(vs[..i], NoExclusion), lTo, lFrom))
    {
      GuardedFramesStep(h, c, vs, i, lTo, lFrom);
      r := PushGuardedFrame(h, c, vs[i], lTo, lFrom, r);
    }
    assert vs[..|vs|] == vs;
  }

  /** Guarding one more formula adds its implication at the end. */
  lemma GuardedSnoc(c: Formula, fs: seq<Formula>, f: Formula)
    ensures Guarded(c, fs + [f]) == Guarded(c, fs) + [Implication(c, f)]
  {
    var a, b := Guarded(c, fs + [f]), Guarded(c, fs) + [Implication(c, f)];
    assert |a| == |b|;
    forall k | 0 <= k < |a| ensures a[k] == b[k] {
      if k < |fs| {
        assert (fs + [f])[k] == fs[k];
      }
    }
  }

  /** `generateSemantics(Statement)`: dispatch on the statement's kind. */
  method GenerateStatement(ctx: Context, s: Statement) returns (f: Formula)
    requires WellFormed(ctx, s)
    ensures f == StatementSemantics(ctx, s)
    decreases s, 2
  {
    if s.IntAssignment? {
      f := GenerateAssignment(ctx, s);
    } else if s.IfElse? {
      f := GenerateIfElse(ctx, s);
    } else if s.WhileStatement? {
      f := GenerateWhile(ctx, s);
    } else {
      f := GenerateSkip(ctx, s);
    }
  }

  /** The scalar case of `generateSemantics(IntAssignment)`: the update of `lhs`, then the frames of `activeVars`. */
  method BuildScalarUpdate(h: Helpers, lhs: IntExpr, rhs: IntExpr, l1: Term, l2: Term, activeVars: seq<Variable>, location: string)
    returns (f: Formula)
    requires lhs.IntVariableAccess?
    ensures f == ScalarUpdate(h, lhs, rhs, l1, l2, FramedVars(activeVars, ExcludeScalar(lhs.variable)), location)
  {
    var conjuncts := [Equality(h.expressionTerm(lhs, l2), h.expressionTerm(rhs, l1), "")];
    conjuncts := PushFrames(h, activeVars, ExcludeScalar(lhs.variable), l2, l1, conjuncts);
    f := Conjunction(conjuncts, UpdateVariableLabel + lhs.variable.name + AtLocation + location);
  }

  /** The array case of `generateSemantics(IntAssignment)`: the cell, the rest of the array, then the frames. */
  method BuildArrayUpdate(h: Helpers, lhs: IntExpr, rhs: IntExpr, l1: Term, l2: Term, activeVars: seq<Variable>, location: string)
    returns (f: Formula)
    requires lhs.IntArrayApplication?
    ensures f == ArrayUpdate(h, lhs, rhs, l1, l2, FramedVars(activeVars, ExcludeArray(lhs.arrayVariable)), location)
  {
    var a := lhs.arrayVariable;
    var index := h.expressionTerm(lhs.index, l1);
    var p := Var(PosSymbol);
    var conjuncts := [Equality(h.arrayTerm(a, l2, index), h.expressionTerm(rhs, l1), "")];
    var premise := Disequality(p, index);
    var eq2 := Equality(h.arrayTerm(a, l2, p), h.arrayTerm(a, l1, p), "");
    conjuncts := conjuncts + [Universal([PosSymbol], Implication(premise, eq2), "")];
    conjuncts := PushFrames(h, activeVars, ExcludeArray(a), l2, l1, conjuncts);
    f := Conjunction(conjuncts, UpdateArrayLabel + a.name + AtLocation + location);
  }

  /** `generateSemantics(IntAssignment)`. */
  method GenerateAssignment(ctx: Context, s: Statement) returns (f: Formula)
    requires AssignmentLookups(ctx, s)
    ensures f == AssignmentSemantics(ctx, s)
  {
    var l1 := ctx.startTimePoint[s.location];
    var l2 := ctx.endTimePoint[s.location];
    var activeVars := Intersection(ctx.activeVars[l1.symbol.name], ctx.activeVars[l2.symbol.name]);
    if s.lhs.IntVariableAccess? {
      f := BuildScalarUpdate(ctx.helpers, s.lhs, s.rhs, l1, l2, activeVars, s.location);
    } else {
      f := BuildArrayUpdate(ctx.helpers, s.lhs, s.rhs, l1, l2, activeVars, s.location);
    }
  }

  /** Part 3 of `generateSemantics(IfElse)`, first loop: the if statements' formulas, in order. */
  method GenerateIfBranch(ctx: Context, s: Statement) returns (fs: seq<Formula>)
    requires s.IfElse? && forall k :: 0 <= k < |s.ifStatements| ==> WellFormed(ctx, s.ifStatements[k])
    ensures fs == IfBranchSemantics(ctx, s)
    decreases s, 0
  {
    fs := [];
    for i := 0 to |s.ifStatements|
      invariant |fs| == i
      invariant forall k :: 0 <= k < i ==> fs[k] == StatementSemantics(ctx, s.ifStatements[k])
    {
      var conjunct := GenerateStatement(ctx, s.ifStatements[i]);
      fs := fs + [conjunct];
    }
  }

  /** Part 3 of `generateSemantics(IfElse)`, second loop: the else statements' formulas, in order. */
  method GenerateElseBranch(ctx: Context, s: Statement) returns (fs: seq<Formula>)
    requires s.IfElse? && forall k :: 0 <= k < |s.elseStatements| ==> WellFormed(ctx, s.elseStatements[k])
    ensures fs == ElseBranchSemantics(ctx, s)
    decreases s, 0
  {
    fs := [];
    for i := 0 to |s.elseStatements|
      invariant |fs| == i
      invariant forall k :: 0 <= k < i ==> fs[k] == StatementSemantics(ctx, s.elseStatements[k])
    {
      var conjunct := GenerateStatement(ctx, s.elseStatements[i]);
      fs := fs + [conjunct];
    }
  }

  /** Part 2 of `generateSemantics(WhileStatement)`: the body statements' formulas, in order. */
  method GenerateBody(ctx: Context, s: Statement) returns (fs: seq<Formula>)
    requires s.WhileStatement? && forall k :: 0 <= k < |s.bodyStatements| ==> WellFormed(ctx, s.bodyStatements[k])
    ensures fs == BodySemantics(ctx, s)
    decreases s, 0
  {
    fs := [];
    for i := 0 to |s.bodyStatements|
      invariant |fs| == i
      invariant forall k :: 0 <= k < i ==> fs[k] == StatementSemantics(ctx, s.bodyStatements[k])
    {
      var conjunct := GenerateStatement(ctx, s.bodyStatements[i]);
      fs := fs + [conjunct];
    }
  }

  /** Part 1 of `generateSemantics(IfElse)`: the frames into the left branch, then into the right one. */
  method BuildEntryPart(h: Helpers, activeVars: seq<Variable>, lLeftStart: Term, lRightStart: Term, lStart: Term)
    returns (f: Formula)
    ensures f == EntryPart(h, FramedVars(activeVars, NoExclusion), lLeftStart, lRightStart, lStart)
  {
    var conjuncts := PushFrames(h, activeVars, NoExclusion, lLeftStart, lStart, []);
    conjuncts := PushFrames(h, activeVars, NoExclusion, lRightStart, lStart, conjuncts);
    f := Conjunction(conjuncts, BranchEntryLabel);
  }

  /** Part 2 of `generateSemantics(IfElse)`: the left branch's frames under `c`, the right one's under `!c`. */
  method BuildMergePart(h: Helpers, c: Formula, lEnd: Term, leftVars: seq<Variable>, lLeftEnd: Term,
                        rightVars: seq<Variable>, lRightEnd: Term)
    returns (f: Formula)
    ensures f == MergePart(h, c, lEnd, FramedVars(leftVars, NoExclusion), lLeftEnd,
                           FramedVars(rightVars, NoExclusion), lRightEnd)
  {
    var conjuncts := PushGuardedFrames(h, c, leftVars, lEnd, lLeftEnd, []);
    conjuncts := PushGuardedFrames(h, Negation(c, ""), rightVars, lEnd, lRightEnd, conjuncts);
    f := Conjunction(conjuncts, BranchMergeLabel);
  }

  /** `generateSemantics(IfElse)`. */
  method GenerateIfElse(ctx: Context, s: Statement) returns (f: Formula)
    requires s.IfElse? && WellFormed(ctx, s)
    ensures f == IfElseSemantics(ctx, s)
    decreases s, 1
  {
    var h := ctx.helpers;
    var lStart := ctx.startTimePoint[s.location];
    var lLeftStart := ctx.startTimePoint[s.ifStatements[0].location];
    var lRightStart := ctx.startTimePoint[s.elseStatements[0].location];
    var lEnd := ctx.endTimePoint[s.location];
    var lLeftEnd := ctx.endTimePoint[s.ifStatements[|s.ifStatements| - 1].location];
    var lRightEnd := ctx.endTimePoint[s.elseStatements[|s.elseStatements| - 1].location];

    // Part 1: entering either branch changes no value.
    var activeVars1 := ctx.activeVars[lStart.symbol.name];
    var entry := BuildEntryPart(h, activeVars1, lLeftStart, lRightStart, lStart);

    // Part 2: the condition selects the branch whose values reach the end.
    var c := h.conditionFormula(s.condition, lStart);
    var activeVars2 := Intersection(ctx.activeVars[lLeftEnd.symbol.name], ctx.activeVars[lEnd.symbol.name]);
    var activeVars3 := Intersection(ctx.activeVars[lRightEnd.symbol.name], ctx.activeVars[lEnd.symbol.name]);
    var merge := BuildMergePart(h, c, lEnd, activeVars2, lLeftEnd, activeVars3, lRightEnd);

    // Part 3: the branches' own formulas.
    var ifs := GenerateIfBranch(ctx, s);
    var els := GenerateElseBranch(ctx, s);
    f := Conjunction([entry, merge] + ifs + els, IfElseLabel + s.location);
  }

  /** The iterator terms of the enclosing loops, collected one by one. */
  method CollectIterators(h: Helpers, loops: seq<string>) returns (ts: seq<Term>)
    ensures ts == IteratorTerms(h, loops)
  {
    ts := [];
    for i := 0 to |loops|
      invariant ts == IteratorTerms(h, loops[..i])
    {
      ts := ts + [h.iteratorTerm(loops[i])];
    }
    assert loops[..|loops|] == loops;
  }

  /**
   * `generateSemantics(WhileStatement)` once the body's formulas `body` are
   * known: the iterator terms, then the five parts.
   */
  method BuildLoop(h: Helpers, iSymbol: Symbol, n: Term, location: string, enclosingLoops: seq<string>,
                   condition: BoolExpr, activeVars: seq<Variable>, lBodyStart: Term, lEnd: Term, body: seq<Formula>)
    returns (f: Formula)
    ensures f == LoopFormula(h, iSymbol, n, LoopTimePoint(h, location, enclosingLoops, Var(iSymbol)),
                             LoopTimePoint(h, location, enclosingLoops, n), condition,
                             FramedVars(activeVars, NoExclusion), lBodyStart, lEnd, body, location)
  {
    var i := Var(iSymbol);
    var enclosing := CollectIterators(h, enclosingLoops);
    var lStartIt := FuncApp(h.locationSymbol(location), enclosing + [i]);
    var lStartN := FuncApp(h.locationSymbol(location), enclosing + [n]);
    assert lStartIt == LoopTimePoint(h, location, enclosingLoops, i);
    assert lStartN == LoopTimePoint(h, location, enclosingLoops, n);

    // Part 1: entering the body changes no value.
    var conjuncts1 := PushFrames(h, activeVars, NoExclusion, lBodyStart, lStartIt, []);
    assert conjuncts1 == Frames(h, FramedVars(activeVars, NoExclusion), lBodyStart, lStartIt);
    var part1 := Universal([iSymbol], Conjunction(conjuncts1, ""), BodyEntryLabel);

    // Part 2: the body's own formulas.
    var part2 := Universal([iSymbol], Conjunction(body, ""), BodyLabel);

    // Part 3: the condition holds before the last iteration and fails in it.
    var part3 := Universal([iSymbol], Implication(TimeSub(i, n), h.conditionFormula(condition, lStartIt)), ConditionLabel);
    var part4 := Negation(h.conditionFormula(condition, lStartN), LastIterationLabel);

    // Part 4: the values after the loop are those of the last iteration.
    var conjuncts3 := PushFrames(h, activeVars, NoExclusion, lEnd, lStartN, []);
    assert conjuncts3 == Frames(h, FramedVars(activeVars, NoExclusion), lEnd, lStartN);
    var part5 := Conjunction(conjuncts3, ExitLabel);

    f := Conjunction([part1, part2, part3, part4, part5], LoopLabel + location);
  }

  /** `generateSemantics(WhileStatement)`. */
  method GenerateWhile(ctx: Context, s: Statement) returns (f: Formula)
    requires s.WhileStatement? && WellFormed(ctx, s)
    ensures f == WhileSemantics(ctx, s)
    decreases s, 1
  {
    var h := ctx.helpers;
    var lStart := ctx.startTimePoint[s.location];
    var lBodyStart := ctx.startTimePoint[s.bodyStatements[0].location];
    var lEnd := ctx.endTimePoint[s.location];
    var body := GenerateBody(ctx, s);
    f := BuildLoop(h, h.iteratorSymbol(s.location), h.lastIterationTerm(s.location, ctx.twoTraces), s.location,
                   s.enclosingLoops, s.condition, ctx.activeVars[lStart.symbol.name], lBodyStart, lEnd, body);
  }

  /** `generateSemantics(SkipStatement)`. */
  method GenerateSkip(ctx: Context, s: Statement) returns (f: Formula)
    requires s.SkipStatement? && WellFormed(ctx, s)
    ensures f == StatementSemantics(ctx, s)
  {
    var l1 := ctx.startTimePoint[s.location];
    var l2 := ctx.endTimePoint[s.location];
    f := Equality(l1, l2, SkipLabel);
  }

  /** The formula of one function: each statement's formula, under `forall tr` in two-trace mode. */
  method GenerateFunction(ctx: Context, fn: Function) returns (f: Formula)
    requires forall j :: 0 <= j < |fn.statements| ==> WellFormed(ctx, fn.statements[j])
    ensures f == FunctionSemantics(ctx, fn)
  {
    var conjunctsFunction: seq<Formula> := [];
    for j := 0 to |fn.statements|
      invariant |conjunctsFunction| == j
      invariant forall k :: 0 <= k < j ==> conjunctsFunction[k] == TraceWrapped(ctx, StatementSemantics(ctx, fn.statements[k]))
    {
      var semantics := GenerateStatement(ctx, fn.statements[j]);
      if ctx.twoTraces {
        var tr := VarSymbol("tr", ctx.helpers.traceSort);
        conjunctsFunction := conjunctsFunction + [Universal([tr], semantics, "")];
      } else {
        conjunctsFunction := conjunctsFunction + [semantics];
      }
    }
    f := Conjunction(conjunctsFunction, FunctionLabel + fn.name);
  }

  /** `generateSemantics()`: one formula per function of the program, in order. */
  method GenerateProgram(ctx: Context, p: Program) returns (conjuncts: seq<Formula>)
    requires ProgramWellFormed(ctx, p)
    ensures conjuncts == ProgramSemantics(ctx, p)
  {
    conjuncts := [];
    for k := 0 to |p.functions|
      invariant |conjuncts| == k
      invariant forall m :: 0 <= m < k ==> conjuncts[m] == FunctionSemantics(ctx, p.functions[m])
    {
      var fn := p.functions[k];
      var f := GenerateFunction(ctx, fn);
      conjuncts := conjuncts + [f];
    }
  }
}
