/**
 * Sorts of the logic and the process-wide sort registry (src/logic/Sort.cpp).
 * A sort is identified by its name; the registry hands out one sort per name.
 */
module Sorts {

  datatype Sort = Sort(name: string)

  /** The built-in sorts that Sort.cpp singles out by name. */
  const IntSort := Sort("int")
  const BoolSort := Sort("bool")
  const TimeSort := Sort("Time")

  /** The declaration SMT-LIB needs for the time sort: an inductive datatype with `zero` and `s (p Time)`. */
  const TimeDatatypeDeclaration := "(declare-datatypes" + " ((Time 0))" + " (( (zero)" + " (s (p Time))" + " )) )\n"

  /** `Sort::toSMTLIB`: the SMT-LIB name of a sort. */
  function ToSMTLIB(s: Sort): (r: string)
    ensures r == "Int" <==> s.name in {"int", "Int"}
    ensures r == "Bool" <==> s.name in {"bool", "Bool"}
    ensures s.name != "int" && s.name != "bool" ==> r == s.name
  {
    if s.name == "int" then "Int"
    else if s.name == "bool" then "Bool"
    else s.name
  }

  /** `declareSortSMTLIB`: nothing for the sorts SMT-LIB knows, a datatype for time, an opaque sort otherwise. */
  function DeclareSortSMTLIB(s: Sort): (r: string)
    ensures r == "" <==> s.name in {"int", "bool", "Int", "Bool"}
    ensures r == TimeDatatypeDeclaration <==> s.name == "Time"
    ensures r != "" && s.name != "Time" ==> r == "(declare-sort " + s.name + " 0)\n"
  {
    var smt := ToSMTLIB(s);
    if smt == "Int" || smt == "Bool" then ""
    else if smt == "Time" then TimeDatatypeDeclaration
    else
      var r := "(declare-sort " + smt + " 0)\n";
      assert r[9] == 's';
      assert TimeDatatypeDeclaration[9] == 'd';
      r
  }

  /** `Sort::operator==`: two sorts are equal exactly when their names are. */
  function Equal(a: Sort, b: Sort): (r: bool)
    ensures r <==> a == b
  {
    a.name == b.name
  }

  /**
   * Two sorts that are declared at all get different declarations unless they
   * are the same sort: the serializer never declares one sort under two texts
   * nor two sorts under one.
   */
  lemma DeclarationDeterminesSort(a: Sort, b: Sort)
    requires DeclareSortSMTLIB(a) != ""
    requires DeclareSortSMTLIB(a) == DeclareSortSMTLIB(b)
    ensures a == b
  {
    var r := DeclareSortSMTLIB(a);
    if a.name == "Time" || b.name == "Time" {
      assert a.name == "Time" && b.name == "Time";
    } else {
      assert r == "(declare-sort " + a.name + " 0)\n";
      assert r == "(declare-sort " + b.name + " 0)\n";
      assert a.name == r[14..|r| - 4];
      assert b.name == r[14..|r| - 4];
    }
  }

  /** `Sorts::_sorts`, the registry: a map from name to sort, filled on demand. */
  class Registry {
    var sorts: map<string, Sort>

    /** Every entry is keyed by the name of its sort. */
    ghost predicate Valid()
      reads this
    {
      forall n :: n in sorts ==> sorts[n].name == n
    }

    constructor ()
      ensures Valid() && sorts == map[]
    {
      sorts := map[];
    }

    /**
     * `Sorts::fetchOrDeclare`: find the sort registered under `name`, or
     * register a new sort of that name and return it.
     */
    method FetchOrDeclare(name: string) returns (s: Sort)
      requires Valid()
      modifies this
      ensures Valid()
      ensures s.name == name && name in sorts && sorts[name] == s
      ensures name in old(sorts) ==> sorts == old(sorts) && s == old(sorts)[name]
      ensures name !in old(sorts) ==> sorts == old(sorts)[name := Sort(name)]
      ensures sorts.Keys == old(sorts).Keys + {name}
      ensures forall n :: n in old(sorts) ==> n in sorts && sorts[n] == old(sorts)[n]
    {
      if name !in sorts {
        s := Sort(name);
        sorts := sorts[name := s];
      } else {
        s := sorts[name];
      }
    }
  }

  /** Fetching the same name twice yields the same sort, and the second call changes nothing. */
  method FetchTwice(registry: Registry, name: string) returns (first: Sort, second: Sort)
    requires registry.Valid()
    modifies registry
    ensures registry.Valid()
    ensures first == second && first.name == name
    ensures registry.sorts == old(registry.sorts)[name := first]
  {
    first := registry.FetchOrDeclare(name);
    ghost var between := registry.sorts;
    second := registry.FetchOrDeclare(name);
    assert registry.sorts == between;
  }
}
