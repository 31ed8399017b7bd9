# A Dafny model of Spectre's semantics generator and SMT-LIB output

Spectre is a verifier for small imperative programs that works on a
trace logic. Its semantics generator turns each statement of a function into
a first-order formula over symbolic time-points:

- an assignment becomes the assignment equation plus frame conditions for the
  other active non-constant variables;
- an if-else becomes entry equalities, merge implications guarded by the
  branch condition, and the branches' own formulas;
- a loop becomes five conjuncts over an iterator `i` and a last-iteration
  term `n`. Three are quantified over `i`: the body-entry frames, the body's
  formulas, and the condition before the last iteration. The negated
  condition at `n` and the exit frames are not;
- a skip becomes an identification of its two time-points.

Those formulas are built from the interpreted vocabulary of the theory
(integer and time symbols). They live over sorts kept in a find-or-insert
registry and are written out by the problem serializer as one SMT-LIB 2
script.

The model has these modules:

- `Decimal` (`decimal.dfy`): the decimal rendering `std::to_string` gives an
  integer, with its parser and the round trip between the two.
- `Sorts` (`sorts.dfy`): `Sort::toSMTLIB`, `declareSortSMTLIB`,
  `Sort::operator==`, and the registry `Sorts::fetchOrDeclare` as a class whose
  `map` field the method updates.
- `Logic` (`logic.dfy`): symbols, terms and formulas as datatypes, with the
  term and predicate constructors the theory uses.
- `Theory` (`theory.dfy`): every `Theory::*` constructor.
- `Programs` (`program.dfy`): the program the generator reads (variables,
  expressions, statements, functions).
- `VariableSets` (`varsets.dfy`): `intersection`, which sorts both vectors by
  identity and takes their sorted intersection.
- `SemanticFormulas` (`semantic_formulas.dfy`): the formula shapes the
  generator assembles, each with a lemma listing its conjuncts in order.
- `SemanticsSpec` (`semantics_spec.dfy`): the formula of each statement kind,
  of a function and of a program, at the time-points the generator's maps
  assign. These are stated as recursive functions, with lemmas on which
  variables are framed.
- `Semantics` (`semantics.dfy`): the generator as it runs. The methods push
  conjuncts in `for` loops over active variables and statement lists, and
  dispatch recursively. Each method is proved equal to its specification
  function.
- `Problems` (`problem.dfy`): `Problem::outputSMTLIB` as a method that writes
  the script piece by piece. It keeps the counter `ctr`, which the axiom loop
  never increments. There are lemmas on the order of the sections and on the
  names of the assertions.

Choices made where the code leaves something open:

- The generator's `natSub` (src/analysis/Semantics.cpp:378) is taken to be the
  theory's `timeSub`, the interpreted predicate `time_sub`.
- Collaborators whose code is not part of this model are fields of the
  `Helpers` and `Printers` datatypes. These are `toTerm`, `toFormula`,
  `iteratorSymbol`, `iteratorTermForLoop`, `lastIterationTermForLoop`,
  `locationSymbolForStatement`, `Sorts::traceSort`, and the formula and symbol
  printers. Every result is stated in terms of these arbitrary functions.

## Model

| member | source | states |
|---|---|---|
| Sorts.ToSMTLIB | src/logic/Sort.cpp:10-24 | `int` is printed `Int`, `bool` is printed `Bool`, every other name as itself |
| Sorts.DeclareSortSMTLIB | src/logic/Sort.cpp:26-41 | empty exactly for the built-ins Int and Bool; exactly the `Time` datatype declaration (`zero`, `s (p Time)`) for `Time`; `(declare-sort name 0)` otherwise |
| Sorts.DeclarationDeterminesSort | src/logic/Sort.cpp:26-41 | two sorts with the same non-empty declaration are the same sort |
| Sorts.Equal | src/logic/Sort.cpp:43-46 | sorts are equal if and only if their names are |
| Sorts.Registry.constructor | src/logic/Sort.cpp:55 | the registry starts empty |
| Sorts.Registry.FetchOrDeclare | src/logic/Sort.cpp:57-70 | returns the sort of that name, which is in the registry afterwards; a known name leaves the registry unchanged and returns the stored sort; a new name adds exactly that one entry; every other entry is unchanged |
| Sorts.FetchTwice | src/logic/Sort.cpp:57-70 | two calls with the same name return the same sort, and the registry then differs from the old one only by that entry |
| Decimal.NatToString | src/logic/Theory.cpp:9 | the rendering of a natural number is a non-empty digit string with no leading zero |
| Decimal.IntToString | src/logic/Theory.cpp:9 | the rendering is the canonical text of the integer: not empty, a leading `0` only in `0` itself, a minus sign exactly for a negative value and never followed by `0` |
| Decimal.NatToStringParseNat | src/logic/Theory.cpp:9 | a digit string without leading zeros is the rendering of the number it stands for |
| Decimal.CanonicalTextIsRendering | src/logic/Theory.cpp:9 | every canonical integer text is the rendering of its value, so the renderings are exactly the canonical texts |
| Decimal.ParseNatToString | src/logic/Theory.cpp:9 | parsing the rendering of a natural number gives it back |
| Decimal.ParseIntToString | src/logic/Theory.cpp:9 | the rendering of an integer is an integer text, and parsing it gives the integer back |
| Decimal.IntToStringInjective | src/logic/Problem.cpp:39 | different integers have different renderings |
| Decimal.IntToStringFirstChar | src/logic/Theory.cpp:9 | a rendering starts with a digit or `-` |
| Logic.FuncTerm | src/logic/Theory.cpp:9 | a function term has the given name, arguments, sort and interpreted flag, and its symbol's argument sorts are those of its arguments |
| Logic.Predicate | src/logic/Theory.cpp:34 | a predicate formula has the given name, arguments and interpreted flag, a Bool range, and argument sorts matching its arguments |
| Theory.IntConstant | src/logic/Theory.cpp:7-10 | a nullary interpreted Int term named by the `std::to_string` text of the 32-bit value, a canonical integer text that parses back to it |
| Theory.IntAddition | src/logic/Theory.cpp:12-15 | the interpreted Int term `int_plus` with the two arguments in order |
| Theory.IntSubtraction | src/logic/Theory.cpp:17-20 | the interpreted Int term `int_minus` with the two arguments in order |
| Theory.IntMultiplication | src/logic/Theory.cpp:22-25 | the interpreted Int term `int_multiply` with the two arguments in order |
| Theory.IntUnaryMinus | src/logic/Theory.cpp:27-30 | the unary interpreted Int term `int_unary_minus` |
| Theory.IntLess | src/logic/Theory.cpp:32-35 | the interpreted predicate `int_less`, arguments in order |
| Theory.IntLessEqual | src/logic/Theory.cpp:37-40 | the interpreted predicate `int_less_eq`, arguments in order |
| Theory.IntGreater | src/logic/Theory.cpp:42-45 | the interpreted predicate `int_greater`, arguments in order |
| Theory.IntGreaterEqual | src/logic/Theory.cpp:47-50 | the interpreted predicate `int_greater_eq`, arguments in order |
| Theory.BoolTrue | src/logic/Theory.cpp:52-55 | the nullary interpreted predicate `bool_true` |
| Theory.BoolFalse | src/logic/Theory.cpp:57-60 | the nullary interpreted predicate `bool_false` |
| Theory.TimeZero | src/logic/Theory.cpp:62-65 | the nullary interpreted Time term `time_zero` |
| Theory.TimeSucc | src/logic/Theory.cpp:67-70 | the unary interpreted Time term `time_succ` |
| Theory.TimePre | src/logic/Theory.cpp:72-75 | the unary interpreted Time term `time_pre` |
| Theory.TimeSub | src/logic/Theory.cpp:77-80 | the binary interpreted predicate `time_sub`, arguments in order |
| Theory.IntConstantInjective | src/logic/Theory.cpp:7-10 | two integer literals are the same term if and only if their values are equal |
| Theory.IntConstantIsNoOperator | src/logic/Theory.cpp:7-30 | no integer literal has the name of an integer operator or a time symbol |
| VariableSets.SortById | src/analysis/Semantics.cpp:23-24 | the sorted vector is ordered by identity and is a permutation of the input |
| VariableSets.Insert | src/analysis/Semantics.cpp:23-24 | inserting into a sorted vector keeps it sorted and adds exactly that element |
| VariableSets.SortDistinct | src/analysis/Semantics.cpp:23-24 | sorting a duplicate-free vector leaves it duplicate-free |
| VariableSets.SetIntersection | src/analysis/Semantics.cpp:26-28 | the merge of two sorted vectors is sorted and draws its elements from the first |
| VariableSets.SetIntersectionMembers | src/analysis/Semantics.cpp:26-28 | an element is in the merge if and only if it is in both inputs |
| VariableSets.SetIntersectionDistinct | src/analysis/Semantics.cpp:26-28 | the merge has no duplicates when the first input has none |
| VariableSets.IntersectionDistinct | src/analysis/Semantics.cpp:18-30 | the intersection is duplicate-free when the first vector is |
| VariableSets.Intersection | src/analysis/Semantics.cpp:18-30 | sorted by identity; an element is in the result if and only if it is in both vectors; no duplicates for a duplicate-free first vector |
| SemanticFormulas.FramedVars | src/analysis/Semantics.cpp:103-125 | a variable gets a frame if and only if it is listed and passes the loop's tests (non-constant, not the assigned variable of its kind) |
| SemanticFormulas.FramedVarsSorted | src/analysis/Semantics.cpp:103-125 | the framed variables keep the identity order of the active variables |
| SemanticFormulas.FramedVarsDistinct | src/analysis/Semantics.cpp:103-125 | the framed variables are duplicate-free when the active variables are |
| SemanticFormulas.ConstantsNeverFramed | src/analysis/Semantics.cpp:103-125 | a constant variable gets no frame; all eight frame loops (lines 103, 150, 200, 220, 253, 274, 345, 389) share this test |
| SemanticFormulas.FrameShape | src/analysis/Semantics.cpp:107-123 | a scalar frame is `v(lTo) = v(lFrom)`, an array frame is `forall pos. v(lTo, pos) = v(lFrom, pos)` |
| SemanticFormulas.LoopTimePoint | src/analysis/Semantics.cpp:322-334 | the loop location applied to the enclosing loops' iterators, outermost first, followed by the given last argument |
| SemanticFormulas.ScalarUpdateConjuncts | src/analysis/Semantics.cpp:95-127 | first `x(l2) = e(l1)`, then one frame per framed variable, in order, and nothing else |
| SemanticFormulas.ArrayUpdateConjuncts | src/analysis/Semantics.cpp:130-173 | first `a(l2, e(l1)) = rhs(l1)`, then `forall pos. pos != e(l1) ==> a(l2, pos) = a(l1, pos)`, then one frame per framed variable |
| SemanticFormulas.EntryPartConjuncts | src/analysis/Semantics.cpp:194-241 | the frames into the left branch, then the same frames into the right branch |
| SemanticFormulas.MergePartConjuncts | src/analysis/Semantics.cpp:243-295 | `c ==> v(lEnd) = v(lLeftEnd)` for the left variables, then `!c ==> v(lEnd) = v(lRightEnd)` for the right ones |
| SemanticFormulas.IfElseFormulaConjuncts | src/analysis/Semantics.cpp:297-309 | entry part, merge part, the if statements' formulas, then the else statements' formulas |
| SemanticFormulas.LoopFormulaConjuncts | src/analysis/Semantics.cpp:343-411 | exactly five conjuncts: `forall i` body-entry frames; `forall i` body formulas; `forall i. time_sub(i, n) ==> c(lStartIt)`; `!c(lStartN)`; exit frames from `lStartN` to `lEnd` |
| SemanticsSpec.ActiveBoth | src/analysis/Semantics.cpp:92 | the variables active at both time-points, sorted, each once when those at the first are |
| SemanticsSpec.ScalarAssignmentFramedVars | src/analysis/Semantics.cpp:88-127 | a scalar assignment frames exactly the non-constant variables active at both time-points other than the assigned scalar, every such array included, sorted and each once |
| SemanticsSpec.ArrayAssignmentFramedVars | src/analysis/Semantics.cpp:130-172 | an array assignment frames exactly the non-constant active variables except the assigned array, which never gets a blanket frame |
| SemanticsSpec.ScalarAssignmentConjuncts | src/analysis/Semantics.cpp:95-127 | a scalar assignment's formula is `x(l2) = e(l1)` followed by exactly one frame per non-constant variable active at both time-points other than `x`, in identity order, and nothing else |
| SemanticsSpec.ArrayAssignmentConjuncts | src/analysis/Semantics.cpp:130-173 | an array assignment's formula is the written cell, the point-wise rule for the other cells, then exactly one frame per non-constant variable active at both time-points except the array, and nothing else |
| SemanticsSpec.EntryVarsMembers | src/analysis/Semantics.cpp:198-219 | branch and body entry and loop exit frame exactly the non-constant variables active at the statement's start |
| SemanticsSpec.IfMergeVars | src/analysis/Semantics.cpp:250-294 | each branch merges exactly the non-constant variables active at both its end and the statement's end, sorted and each once |
| SemanticsSpec.SkipIsIdentification | src/analysis/Semantics.cpp:414-422 | skip's formula is the single equation `start = end` of its two time-points |
| SemanticsSpec.ProgramConjuncts | src/analysis/Semantics.cpp:32-57 | one conjunction per function, in order, one conjunct per statement, in order: `forall tr.` over the statement's formula in two-trace mode, the formula itself otherwise |
| Semantics.PushFrame | src/analysis/Semantics.cpp:103-125 | one variable's step of a frame loop pushes its frame exactly when the variable passes the loop's tests |
| Semantics.PushFrames | src/analysis/Semantics.cpp:103-125 | a frame loop appends the frames of the framed variables, in order |
| Semantics.PushGuardedFrame | src/analysis/Semantics.cpp:253-273 | one step of a merge loop pushes `c ==> frame` exactly for a non-constant variable |
| Semantics.PushGuardedFrames | src/analysis/Semantics.cpp:253-294 | a merge loop appends the guarded frames of the non-constant variables, in order |
| Semantics.BuildScalarUpdate | src/analysis/Semantics.cpp:95-127 | the scalar case builds the scalar update over the framed active variables |
| Semantics.BuildArrayUpdate | src/analysis/Semantics.cpp:130-173 | the array case builds the array update over the framed active variables |
| Semantics.GenerateAssignment | src/analysis/Semantics.cpp:84-175 | the assignment's formula at its two time-points over the intersection of their active variables |
| Semantics.BuildEntryPart | src/analysis/Semantics.cpp:195-241 | the two entry loops build the entry part over the framed variables |
| Semantics.BuildMergePart | src/analysis/Semantics.cpp:245-295 | the two merge loops build the merge part over the framed variables of both intersections |
| Semantics.GenerateIfBranch | src/analysis/Semantics.cpp:298-302 | the if statements' formulas, in order |
| Semantics.GenerateElseBranch | src/analysis/Semantics.cpp:303-307 | the else statements' formulas, in order |
| Semantics.GenerateIfElse | src/analysis/Semantics.cpp:177-310 | the if-else's specified formula |
| Semantics.CollectIterators | src/analysis/Semantics.cpp:324-329 | the iterator terms of the enclosing loops, in order |
| Semantics.GenerateBody | src/analysis/Semantics.cpp:368-373 | the body statements' formulas, in order |
| Semantics.BuildLoop | src/analysis/Semantics.cpp:330-411 | the loop formula at `lStartIt` and `lStartN`, the location over the enclosing iterators then `i`, respectively `n` |
| Semantics.GenerateWhile | src/analysis/Semantics.cpp:312-412 | the loop's specified formula |
| Semantics.GenerateSkip | src/analysis/Semantics.cpp:414-422 | the skip's specified formula |
| Semantics.GenerateStatement | src/analysis/Semantics.cpp:59-82 | dispatch on the statement kind gives the statement's specified formula |
| Semantics.GenerateFunction | src/analysis/Semantics.cpp:38-53 | one conjunct per statement, wrapped in `forall tr` in two-trace mode |
| Semantics.GenerateProgram | src/analysis/Semantics.cpp:32-57 | one conjunction per function, equal to the program's specified semantics |
| Problems.WriteSortDeclarations | src/logic/Problem.cpp:15-18 | one declaration per registered sort, in registry order |
| Problems.WriteSymbolDeclarations | src/logic/Problem.cpp:21-24 | one declaration per symbol, in signature order |
| Problems.WriteAxioms | src/logic/Problem.cpp:27-31 | one named assertion per axiom, with the counter left at 0 for every one |
| Problems.WriteLemmas | src/logic/Problem.cpp:34-41 | one named assertion per lemma, the k-th under counter k |
| Problems.OutputSMTLIB | src/logic/Problem.cpp:10-49 | given the registry's entries in its key order, the text written is the rendering of the script's commands in order |
| Problems.SortsDeclaredOnce | src/logic/Problem.cpp:15-18 | over the registry's entries in key order, every registered sort is declared, each declaration is a registry entry, and no name is declared twice |
| Problems.SectionAt | src/logic/Problem.cpp:13-48 | which section each position of the script belongs to |
| Problems.ScriptInSectionOrder | src/logic/Problem.cpp:13-48 | option, sorts, symbols, axioms, lemmas, negated conjecture, `check-sat`, `get-unsat-core`: no command follows one of a later section |
| Problems.ScriptFrame | src/logic/Problem.cpp:13-48 | starts with the option; sorts and symbols are declared in order; ends with the negated conjecture, `check-sat`, `get-unsat-core`; exactly one `assert-not` |
| Problems.LemmaAssertions | src/logic/Problem.cpp:34-41 | the k-th lemma is asserted with counter k |
| Problems.AxiomAssertions | src/logic/Problem.cpp:27-31 | every axiom is asserted with counter 0 |
| Problems.AxiomNameIsAixiom0 | src/logic/Problem.cpp:30 | the axioms' common name is `aixiom0` |
| Problems.LemmaNameInjective | src/logic/Problem.cpp:39 | different counters give different lemma names |
| Problems.LemmaNameIsNoAxiomName | src/logic/Problem.cpp:30-39 | no lemma name is an axiom name |
| Problems.AssertionNames | src/logic/Problem.cpp:27-41 | a lemma assertion at script position i lies in the lemma section and has counter i minus the section's start; an axiom assertion has counter 0 |
| Problems.LemmaNamesDistinct | src/logic/Problem.cpp:34-41 | two different lemma assertions have different names |
| Problems.LemmaNamesAreNoAxiomNames | src/logic/Problem.cpp:27-41 | no lemma assertion shares its name with an axiom assertion |
| Problems.AxiomNamesCollide | src/logic/Problem.cpp:27-31 | with two axioms or more, two assertions share a name |
| Problems.OutputFrame | src/logic/Problem.cpp:13-48 | the text opens with `(set-option :produce-unsat-cores true)` and ends with the negated conjecture, `(check-sat)` and `(get-unsat-core)` |
| Problems.OutputLemmaTexts | src/logic/Problem.cpp:34-41 | the k-th lemma is written as the named assertion of its formula under `lemma<k>` |

## Left out

- Problems.WriteSortDeclarations: the registry is iterated in ascending
  order of the names as `std::string`'s `<` orders them. The model compares
  characters as code points, which is the same order for ASCII names only.
- Variables are compared as whole values (identity, name, kind) where the
  generator skips the assigned variable. The code uses
  `program::Variable::operator!=` (src/analysis/Semantics.cpp:110, 163),
  which is not part of this model. If that operator compares names only, two
  different variables with the same name would be framed differently from
  the model.
- The branches of an if-else and the body of a loop must not be empty. The
  code takes `front()` and `back()` of them without a check
  (src/analysis/Semantics.cpp:182-187, 336), which is undefined for an empty
  list; the model requires them to be non-empty.
- src/util/Options.hpp: command-line configuration. The generator's only
  option, `twoTraces`, is a field of the context instead.
- Stream output: the serializer's `std::ostream` is the sequence of the text
  pieces written into it, one piece per `<<` group.
- Pointer identity: statements are identified by their location label. A
  variable's address is its `id`, and `intersection` orders by it.
- VariableSets.Intersection: `std::sort` and `std::set_intersection` are
  library calls with no loop in this code. They are modelled as functions on
  sequences, not as in-place updates of the two vectors.
- The generator's `startTimePointMap`, `endTimePointMap` and
  `locationToActiveVars` lookups use `.at()`. The asserts on the statement
  kind and on a non-null conjecture are preconditions (the lookups predicates
  and `conjecture.Some?`), not exceptions.
- Problems.WriteAxioms, Problems.WriteLemmas: `ctr` is a C++ `int`. The model
  uses an unbounded integer, so a problem with more than 2^31 - 1 lemmas,
  where the counter would overflow, is not modelled.
- The signature's iteration order is given as a sequence of symbols. The
  registry's map is passed together with the sequence of its entries, which is
  required to list them once each in key order. The signature's contents and
  the interning of symbols are not modelled.
- Formula labels are kept as strings where the code writes them, but no
  property depends on their text.
- The meaning of the emitted formulas, satisfiability and unsat cores are not
  modelled.
