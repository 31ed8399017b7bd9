/**
 * Symbols, terms and formulas of the logic. Term.cpp, Formula.cpp and
 * Signature.cpp are not part of this model: these are plain immutable value
 * trees, compared structurally, with the constructors the core calls.
 */
module Logic {
  import opened Sorts

  /** A function or predicate symbol: name, domain sorts, range sort, and whether it is interpreted. */
  datatype Symbol = Symbol(name: string, argSorts: seq<Sort>, rangeSort: Sort, interpreted: bool)

  datatype Term =
    | Var(symbol: Symbol)
    | FuncApp(symbol: Symbol, args: seq<Term>)

  /** Labels are provenance text only; nothing in the model depends on them. */
  datatype Formula =
    | Equality(left: Term, right: Term, annotation: string)
    | Disequality(left: Term, right: Term)
    | PredicateFormula(symbol: Symbol, args: seq<Term>)
    | Negation(operand: Formula, annotation: string)
    | Implication(premise: Formula, conclusion: Formula)
    | Conjunction(conjuncts: seq<Formula>, annotation: string)
    | Disjunction(disjuncts: seq<Formula>)
    | Universal(vars: seq<Symbol>, body: Formula, annotation: string)
    | Existential(vars: seq<Symbol>, body: Formula)

  function SortOf(t: Term): Sort {
    t.symbol.rangeSort
  }

  function SortsOf(ts: seq<Term>): (r: seq<Sort>)
    ensures |r| == |ts| && forall k :: 0 <= k < |ts| ==> r[k] == SortOf(ts[k])
  {
    if ts == [] then [] else SortsOf(ts[..|ts| - 1]) + [SortOf(ts[|ts| - 1])]
  }

  /** A function application whose arguments have the sorts its symbol declares. */
  predicate WellSorted(t: Term) {
    t.FuncApp? ==> SortsOf(t.args) == t.symbol.argSorts
  }

  /** `Signature::varSymbol`: a free constant of the given sort. */
  function VarSymbol(name: string, sort: Sort): Symbol {
    Symbol(name, [], sort, false)
  }

  /** `Terms::funcTerm`: an application of a symbol whose domain is the sorts of the arguments. */
  function FuncTerm(sort: Sort, name: string, args: seq<Term>, interpreted: bool): (t: Term)
    ensures t.FuncApp? && WellSorted(t) && SortOf(t) == sort
    ensures t.symbol.name == name && t.args == args && t.symbol.interpreted == interpreted
  {
    FuncApp(Symbol(name, SortsOf(args), sort, interpreted), args)
  }

  /** `Formulas::predicateFormula`: a predicate applied to terms, its symbol ranging over booleans. */
  function Predicate(name: string, args: seq<Term>, interpreted: bool): (f: Formula)
    ensures f.PredicateFormula? && f.symbol.rangeSort == BoolSort && SortsOf(f.args) == f.symbol.argSorts
    ensures f.symbol.name == name && f.args == args && f.symbol.interpreted == interpreted
  {
    PredicateFormula(Symbol(name, SortsOf(args), BoolSort, interpreted), args)
  }
}
