/**
 * The problem serializer (src/logic/Problem.cpp): a problem's axioms, lemmas
 * and conjecture written out as one SMT-LIB 2 script. The script is described
 * twice: as the commands it consists of, in order (`Script`), and as the text
 * `outputSMTLIB` writes (`Output`, the commands' texts one after the other).
 *
 * The stream is the string built up; the formula and symbol printers
 * (`Formula::toSMTLIB`, `Symbol::declareSymbolSMTLIB`) are the fields of
 * `Printers`; the sort registry and the signature are given as the sequences
 * of their entries in iteration order.
 */
module Problems {
  import opened Sorts
  import opened Logic
  import Decimal

  datatype Option<T> = None | Some(value: T)

  /** A problem: axioms and lemmas in insertion order, and the conjecture (`None` is a null pointer). */
  datatype Problem = Problem(axioms: seq<Formula>, lemmas: seq<Formula>, conjecture: Option<Formula>)

  datatype Printers = Printers(
    formula: (Formula, nat) -> string,  // Formula::toSMTLIB(indentation)
    declareSymbol: Symbol -> string)    // Symbol::declareSymbolSMTLIB()

  /** The commands of an SMT-LIB script as the serializer writes them. */
  datatype Command =
    | SetProduceUnsatCores
    | DeclareSort(sort: Sort)
    | DeclareSymbol(symbol: Symbol)
    | AssertAxiom(formula: Formula, ctr: int)  // named after its counter value
    | AssertLemma(formula: Formula, ctr: int)
    | AssertNot(conjecture: Formula)
    | CheckSat
    | GetUnsatCore

  /** The section of the script a command belongs to, numbered in the order the sections are written. */
  function SectionOf(c: Command): nat {
    match c
    case SetProduceUnsatCores => 0
    case DeclareSort(_) => 1
    case DeclareSymbol(_) => 2
    case AssertAxiom(_, _) => 3
    case AssertLemma(_, _) => 4
    case AssertNot(_) => 5
    case CheckSat => 6
    case GetUnsatCore => 7
  }

  /** The fixed pieces of text the serializer writes. */
  const SetOptionText := "(set-option :produce-unsat-cores true)\n"
  const AssertOpen := "\n(assert\n (!\n"
  const NamedInfix := "\n :named "
  const AssertClose := "))\n"
  const AssertNotOpen := "\n(assert-not\n"
  const AssertNotClose := "\n)\n"
  const CheckSatText := "(check-sat)\n"
  const GetUnsatCoreText := "(get-unsat-core)\n"
  const AxiomPrefix := "aixiom"
  const LemmaPrefix := "lemma"

  /** The name of an axiom's assertion: `aixiom` (sic) followed by the counter. */
  function AxiomName(ctr: int): string {
    AxiomPrefix + Decimal.IntToString(ctr)
  }

  /** The name of a lemma's assertion: `lemma` followed by the counter. */
  function LemmaName(ctr: int): string {
    LemmaPrefix + Decimal.IntToString(ctr)
  }

  /** The name a named assertion is given. */
  function AssertionName(c: Command): string
    requires c.AssertAxiom? || c.AssertLemma?
  {
    if c.AssertAxiom? then AxiomName(c.ctr) else LemmaName(c.ctr)
  }

  /** `std::string`'s `<`: lexicographic order on the characters, a proper prefix first. */
  predicate NameBefore(a: string, b: string)
    decreases |a|
  {
    if |a| == 0 then |b| > 0
    else |b| > 0 && (a[0] < b[0] || (a[0] == b[0] && NameBefore(a[1..], b[1..])))
  }

  /** No name comes before itself. */
  lemma {:induction false} NameBeforeIrreflexive(a: string)
    ensures !NameBefore(a, a)
    decreases |a|
  {
    if |a| > 0 {
      NameBeforeIrreflexive(a[1..]);
    }
  }

  /**
   * `sorts` is how `Sorts::nameToSort()` iterates the registry's `std::map`:
   * each entry once, in ascending order of the names.
   */
  predicate ListsRegistry(sorts: seq<Sort>, registry: map<string, Sort>) {
    (forall i, j :: 0 <= i < j < |sorts| ==> NameBefore(sorts[i].name, sorts[j].name)) &&
    (forall k :: 0 <= k < |sorts| ==> sorts[k].name in registry && registry[sorts[k].name] == sorts[k]) &&
    (forall n :: n in registry ==> registry[n] in sorts)
  }

  function SortSection(sorts: seq<Sort>): seq<Command> {
    seq(|sorts|, k requires 0 <= k < |sorts| => DeclareSort(sorts[k]))
  }

  function SymbolSection(symbols: seq<Symbol>): seq<Command> {
    seq(|symbols|, k requires 0 <= k < |symbols| => DeclareSymbol(symbols[k]))
  }

  /** The axiom loop reads its counter without ever incrementing it: every axiom is named after 0. */
  function AxiomSection(axioms: seq<Formula>): seq<Command> {
    seq(|axioms|, k requires 0 <= k < |axioms| => AssertAxiom(axioms[k], 0))
  }

  /** The lemma loop counts from 0: the k-th lemma is named after k. */
  function LemmaSection(lemmas: seq<Formula>): seq<Command> {
    seq(|lemmas|, k requires 0 <= k < |lemmas| => AssertLemma(lemmas[k], k))
  }

  /** The commands `outputSMTLIB` writes, in order. */
  function Script(p: Problem, sorts: seq<Sort>, symbols: seq<Symbol>): seq<Command>
    requires p.conjecture.Some?
  {
    [SetProduceUnsatCores] + SortSection(sorts) + SymbolSection(symbols) +
    AxiomSection(p.axioms) + LemmaSection(p.lemmas) +
    [AssertNot(p.conjecture.value), CheckSat, GetUnsatCore]
  }

  /** A named assertion: the formula printed at indentation 3 inside `(assert (! ... :named name))`. */
  function NamedAssertion(pr: Printers, f: Formula, name: string): string {
    AssertOpen + pr.formula(f, 3) + NamedInfix + name + AssertClose
  }

  /** The text of one command. */
  function Render(pr: Printers, c: Command): string {
    match c
    case SetProduceUnsatCores => SetOptionText
    case DeclareSort(s) => DeclareSortSMTLIB(s)
    case DeclareSymbol(sym) => pr.declareSymbol(sym)
    case AssertAxiom(f, ctr) => NamedAssertion(pr, f, AxiomName(ctr))
    case AssertLemma(f, ctr) => NamedAssertion(pr, f, LemmaName(ctr))
    case AssertNot(f) => AssertNotOpen + pr.formula(f, 3) + AssertNotClose
    case CheckSat => CheckSatText
    case GetUnsatCore => GetUnsatCoreText
  }

  /** The texts of the commands, in order: what is written to the stream, one piece per command. */
  function Writes(pr: Printers, cs: seq<Command>): seq<string> {
    seq(|cs|, k requires 0 <= k < |cs| => Render(pr, cs[k]))
  }

  /** `Problem::outputSMTLIB`: the pieces of text of the script; the stream receives them one after the other. */
  function Output(p: Problem, sorts: seq<Sort>, symbols: seq<Symbol>, pr: Printers): seq<string>
    requires p.conjecture.Some?
  {
    Writes(pr, Script(p, sorts, symbols))
  }

  // ---------------------------------------------------------------------
  // The serializer as it runs
  // ---------------------------------------------------------------------

  /** Writing one more command appends its text. */
  lemma WritesSnoc(pr: Printers, cs: seq<Command>, c: Command)
    ensures Writes(pr, cs + [c]) == Writes(pr, cs) + [Render(pr, c)]
  {
    var a, b := Writes(pr, cs + [c]), Writes(pr, cs) + [Render(pr, c)];
    assert |a| == |b|;
    forall k | 0 <= k < |a| ensures a[k] == b[k] {
      if k < |cs| {
        assert (cs + [c])[k] == cs[k];
      }
    }
  }

  /** The sort loop of `outputSMTLIB`: one declaration per registered sort, in registry order. */
  method WriteSortDeclarations(sorts: seq<Sort>, pr: Printers, out0: seq<string>, ghost written: seq<Command>)
    returns (out: seq<string>)
    requires out0 == Writes(pr, written)
    ensures out == Writes(pr, written + SortSection(sorts))
  {
    out := out0;
    for k := 0 to |sorts|
      invariant out == Writes(pr, written + SortSection(sorts[..k]))
    {
      assert written + SortSection(sorts[..k + 1]) == written + SortSection(sorts[..k]) + [DeclareSort(sorts[k])];
      WritesSnoc(pr, written + SortSection(sorts[..k]), DeclareSort(sorts[k]));
      out := out + [DeclareSortSMTLIB(sorts[k])];
    }
    assert sorts[..|sorts|] == sorts;
  }

  /** The symbol loop of `outputSMTLIB`: one declaration per symbol of the signature, in its order. */
  method WriteSymbolDeclarations(symbols: seq<Symbol>, pr: Printers, out0: seq<string>, ghost written: seq<Command>)
    returns (out: seq<string>)
    requires out0 == Writes(pr, written)
    ensures out == Writes(pr, written + SymbolSection(symbols))
  {
    out := out0;
    for k := 0 to |symbols|
      invariant out == Writes(pr, written + SymbolSection(symbols[..k]))
    {
      assert written + SymbolSection(symbols[..k + 1]) == written + SymbolSection(symbols[..k]) + [DeclareSymbol(symbols[k])];
      WritesSnoc(pr, written + SymbolSection(symbols[..k]), DeclareSymbol(symbols[k]));
      out := out + [pr.declareSymbol(symbols[k])];
    }
    assert symbols[..|symbols|] == symbols;
  }

  /** The axiom loop of `outputSMTLIB`: its counter starts at 0 and is never incremented. */
  method WriteAxioms(axioms: seq<Formula>, pr: Printers, out0: seq<string>, ghost written: seq<Command>)
    returns (out: seq<string>)
    requires out0 == Writes(pr, written)
    ensures out == Writes(pr, written + AxiomSection(axioms))
  {
    out := out0;
    var ctr := 0;
    for k := 0 to |axioms|
      invariant ctr == 0
      invariant out == Writes(pr, written + AxiomSection(axioms[..k]))
    {
      var axiom := axioms[k];
      assert written + AxiomSection(axioms[..k + 1]) == written + AxiomSection(axioms[..k]) + [AssertAxiom(axiom, ctr)];
      WritesSnoc(pr, written + AxiomSection(axioms[..k]), AssertAxiom(axiom, ctr));
      var text := AssertOpen + pr.formula(axiom, 3) + NamedInfix + AxiomPrefix + Decimal.IntToString(ctr) + AssertClose;
      assert text == NamedAssertion(pr, axiom, AxiomName(ctr));
      out := out + [text];
    }
    assert axioms[..|axioms|] == axioms;
  }

  /** The lemma loop of `outputSMTLIB`: its counter starts again at 0 and counts the lemmas. */
  method WriteLemmas(lemmas: seq<Formula>, pr: Printers, out0: seq<string>, ghost written: seq<Command>)
    returns (out: seq<string>)
    requires out0 == Writes(pr, written)
    ensures out == Writes(pr, written + LemmaSection(lemmas))
  {
    out := out0;
    var ctr := 0;
    for k := 0 to |lemmas|
      invariant ctr == k
      invariant out == Writes(pr, written + LemmaSection(lemmas[..k]))
    {
      var l := lemmas[k];
      assert written + LemmaSection(lemmas[..k + 1]) == written + LemmaSection(lemmas[..k]) + [AssertLemma(l, ctr)];
      WritesSnoc(pr, written + LemmaSection(lemmas[..k]), AssertLemma(l, ctr));
      var text := AssertOpen + pr.formula(l, 3) + NamedInfix + LemmaPrefix + Decimal.IntToString(ctr) + AssertClose;
      assert text == NamedAssertion(pr, l, LemmaName(ctr));
      out := out + [text];
      ctr := ctr + 1;
    }
    assert lemmas[..|lemmas|] == lemmas;
  }

  /**
   * `Problem::outputSMTLIB`: write the option, the sort declarations, the
   * symbol declarations, each axiom, each lemma, the negated conjecture and
   * the two commands.
   */
  method OutputSMTLIB(p: Problem, registry: map<string, Sort>, sorts: seq<Sort>, symbols: seq<Symbol>, pr: Printers)
    returns (out: seq<string>)
    requires p.conjecture.Some?
    requires ListsRegistry(sorts, registry)
    ensures out == Output(p, sorts, symbols, pr)
  {
    out := [SetOptionText];
    ghost var written := [SetProduceUnsatCores];
    out := WriteSortDeclarations(sorts, pr, out, written);
    written := written + SortSection(sorts);
    out := WriteSymbolDeclarations(symbols, pr, out, written);
    written := written + SymbolSection(symbols);
    out := WriteAxioms(p.axioms, pr, out, written);
    written := written + AxiomSection(p.axioms);
    out := WriteLemmas(p.lemmas, pr, out, written);
    written := written + LemmaSection(p.lemmas);

    var conjecture := p.conjecture.value;
    WritesSnoc(pr, written, AssertNot(conjecture));
    out := out + [AssertNotOpen + pr.formula(conjecture, 3) + AssertNotClose];
    written := written + [AssertNot(conjecture)];
    WritesSnoc(pr, written, CheckSat);
    out := out + [CheckSatText];
    written := written + [CheckSat];
    WritesSnoc(pr, written, GetUnsatCore);
    out := out + [GetUnsatCoreText];
    written := written + [GetUnsatCore];
    assert written == Script(p, sorts, symbols);
  }

  // ---------------------------------------------------------------------
  // What the script says
  // ---------------------------------------------------------------------

  /**
   * The section of each position of the script: the option first, then the
   * sorts, the symbols, the axioms, the lemmas, the negated conjecture and
   * the two commands.
   */
  lemma SectionAt(p: Problem, sorts: seq<Sort>, symbols: seq<Symbol>, i: nat)
    requires p.conjecture.Some?
    requires i < |Script(p, sorts, symbols)|
    ensures var ns, nsy, na, nl := |sorts|, |symbols|, |p.axioms|, |p.lemmas|;
            SectionOf(Script(p, sorts, symbols)[i]) ==
              if i == 0 then 0
              else if i < 1 + ns then 1
              else if i < 1 + ns + nsy then 2
              else if i < 1 + ns + nsy + na then 3
              else if i < 1 + ns + nsy + na + nl then 4
              else i - (ns + nsy + na + nl) + 4
  {
    var ns, nsy, na, nl := |sorts|, |symbols|, |p.axioms|, |p.lemmas|;
    var s := Script(p, sorts, symbols);
    var s1 := [SetProduceUnsatCores] + SortSection(sorts);
    var s2 := s1 + SymbolSection(symbols);
    var s3 := s2 + AxiomSection(p.axioms);
    var s4 := s3 + LemmaSection(p.lemmas);
    assert s == s4 + [AssertNot(p.conjecture.value), CheckSat, GetUnsatCore];
    if i < |s1| {
      assert s[i] == s1[i];
    } else if i < |s2| {
      assert s[i] == s2[i] == SymbolSection(symbols)[i - |s1|];
    } else if i < |s3| {
      assert s[i] == s3[i] == AxiomSection(p.axioms)[i - |s2|];
    } else if i < |s4| {
      assert s[i] == s4[i] == LemmaSection(p.lemmas)[i - |s3|];
    }
  }

  /** The sections appear in their fixed order: no command follows one of a later section. */
  lemma ScriptInSectionOrder(p: Problem, sorts: seq<Sort>, symbols: seq<Symbol>)
    requires p.conjecture.Some?
    ensures var s := Script(p, sorts, symbols);
            forall i, j :: 0 <= i <= j < |s| ==> SectionOf(s[i]) <= SectionOf(s[j])
  {
    var s := Script(p, sorts, symbols);
    forall i, j | 0 <= i <= j < |s| ensures SectionOf(s[i]) <= SectionOf(s[j]) {
      SectionAt(p, sorts, symbols, i);
      SectionAt(p, sorts, symbols, j);
    }
  }

  /**
   * The script opens with the option, declares the sorts and the symbols in
   * registry order, and closes with the negated conjecture, `check-sat` and
   * `get-unsat-core`; the negated conjecture is the only `assert-not`.
   */
  lemma ScriptFrame(p: Problem, sorts: seq<Sort>, symbols: seq<Symbol>)
    requires p.conjecture.Some?
    ensures var s := Script(p, sorts, symbols);
            |s| == 4 + |sorts| + |symbols| + |p.axioms| + |p.lemmas| &&
            s[0] == SetProduceUnsatCores &&
            (forall k :: 0 <= k < |sorts| ==> s[1 + k] == DeclareSort(sorts[k])) &&
            (forall k :: 0 <= k < |symbols| ==> s[1 + |sorts| + k] == DeclareSymbol(symbols[k])) &&
            s[|s| - 3] == AssertNot(p.conjecture.value) && s[|s| - 2] == CheckSat && s[|s| - 1] == GetUnsatCore &&
            (forall i :: 0 <= i < |s| ==> (s[i].AssertNot? <==> i == |s| - 3))
  {
    var s := Script(p, sorts, symbols);
    var s1 := [SetProduceUnsatCores] + SortSection(sorts);
    assert s == s1 + SymbolSection(symbols) + AxiomSection(p.axioms) + LemmaSection(p.lemmas) +
                [AssertNot(p.conjecture.value), CheckSat, GetUnsatCore];
    forall k | 0 <= k < |sorts| ensures s[1 + k] == DeclareSort(sorts[k]) {
      assert s[1 + k] == s1[1 + k];
    }
    forall i | 0 <= i < |s| ensures s[i].AssertNot? <==> i == |s| - 3 {
      SectionAt(p, sorts, symbols, i);
    }
  }

  /**
   * The sort section declares every registered sort, and each registered
   * name once: the declarations are of pairwise different names.
   */
  lemma SortsDeclaredOnce(p: Problem, registry: map<string, Sort>, sorts: seq<Sort>, symbols: seq<Symbol>)
    requires p.conjecture.Some? && ListsRegistry(sorts, registry)
    ensures var s := Script(p, sorts, symbols);
            (forall k :: 0 <= k < |sorts| ==> s[1 + k] == DeclareSort(sorts[k]) && sorts[k] == registry[sorts[k].name]) &&
            (forall n :: n in registry ==> exists k :: 0 <= k < |sorts| && sorts[k] == registry[n]) &&
            (forall k, k' :: 0 <= k < k' < |sorts| ==> sorts[k].name != sorts[k'].name)
  {
    ScriptFrame(p, sorts, symbols);
    forall n | n in registry ensures exists k :: 0 <= k < |sorts| && sorts[k] == registry[n] {
      var k :| 0 <= k < |sorts| && sorts[k] == registry[n];
    }
    forall k, k' | 0 <= k < k' < |sorts| ensures sorts[k].name != sorts[k'].name {
      NameBeforeIrreflexive(sorts[k].name);
    }
  }

  /** The k-th lemma, counted from 0 in insertion order, is asserted with counter k, that is under the name `lemma<k>`. */
  lemma LemmaAssertions(p: Problem, sorts: seq<Sort>, symbols: seq<Symbol>)
    requires p.conjecture.Some?
    ensures var s, base := Script(p, sorts, symbols), 1 + |sorts| + |symbols| + |p.axioms|;
            forall k :: 0 <= k < |p.lemmas| ==> s[base + k] == AssertLemma(p.lemmas[k], k)
  {
    var s := Script(p, sorts, symbols);
    var s3 := [SetProduceUnsatCores] + SortSection(sorts) + SymbolSection(symbols) + AxiomSection(p.axioms);
    assert s == s3 + LemmaSection(p.lemmas) + [AssertNot(p.conjecture.value), CheckSat, GetUnsatCore];
    forall k | 0 <= k < |p.lemmas|
      ensures s[|s3| + k] == AssertLemma(p.lemmas[k], k)
    {
      assert s[|s3| + k] == LemmaSection(p.lemmas)[k];
    }
  }

  /** The axioms' common name is `aixiom0`. */
  lemma AxiomNameIsAixiom0()
    ensures AxiomName(0) == "aixiom0"
  {
    assert Decimal.NatToString(0) == "0";
  }

  /** Every axiom is asserted with counter 0, that is under the same name `AxiomName(0)`. */
  lemma AxiomAssertions(p: Problem, sorts: seq<Sort>, symbols: seq<Symbol>)
    requires p.conjecture.Some?
    ensures var s, base := Script(p, sorts, symbols), 1 + |sorts| + |symbols|;
            forall k :: 0 <= k < |p.axioms| ==> s[base + k] == AssertAxiom(p.axioms[k], 0)
  {
    var s := Script(p, sorts, symbols);
    var s2 := [SetProduceUnsatCores] + SortSection(sorts) + SymbolSection(symbols);
    assert s == s2 + AxiomSection(p.axioms) + LemmaSection(p.lemmas) + [AssertNot(p.conjecture.value), CheckSat, GetUnsatCore];
    forall k | 0 <= k < |p.axioms| ensures s[|s2| + k] == AssertAxiom(p.axioms[k], 0) {
      assert s[|s2| + k] == AxiomSection(p.axioms)[k];
    }
  }

  /** Different counters give different lemma names. */
  lemma LemmaNameInjective(i: int, j: int)
    ensures i != j ==> LemmaName(i) != LemmaName(j)
  {
    var ni, nj := Decimal.IntToString(i), Decimal.IntToString(j);
    assert LemmaName(i)[|LemmaPrefix|..] == ni;
    assert LemmaName(j)[|LemmaPrefix|..] == nj;
    Decimal.IntToStringInjective(i, j);
  }

  /** No lemma name is an axiom name: they begin with different letters. */
  lemma LemmaNameIsNoAxiomName(i: int, j: int)
    ensures LemmaName(i) != AxiomName(j)
  {
    assert LemmaName(i)[0] == 'l';
    assert AxiomName(j)[0] == 'a';
  }

  /** Where the script's assertions are, and what they are named. */
  lemma AssertionNames(p: Problem, sorts: seq<Sort>, symbols: seq<Symbol>, i: nat)
    requires p.conjecture.Some? && i < |Script(p, sorts, symbols)|
    ensures var s, base := Script(p, sorts, symbols), 1 + |sorts| + |symbols| + |p.axioms|;
            (s[i].AssertLemma? ==> base <= i < base + |p.lemmas| && s[i].ctr == i - base) &&
            (s[i].AssertAxiom? ==> s[i].ctr == 0)
  {
    SectionAt(p, sorts, symbols, i);
    LemmaAssertions(p, sorts, symbols);
    AxiomAssertions(p, sorts, symbols);
  }

  /** Two different lemma assertions of the script have different names. */
  lemma LemmaNamesDistinct(p: Problem, sorts: seq<Sort>, symbols: seq<Symbol>, i: nat, j: nat)
    requires p.conjecture.Some?
    requires i < |Script(p, sorts, symbols)| && j < |Script(p, sorts, symbols)| && i != j
    requires Script(p, sorts, symbols)[i].AssertLemma? && Script(p, sorts, symbols)[j].AssertLemma?
    ensures AssertionName(Script(p, sorts, symbols)[i]) != AssertionName(Script(p, sorts, symbols)[j])
  {
    var base := 1 + |sorts| + |symbols| + |p.axioms|;
    AssertionNames(p, sorts, symbols, i);
    AssertionNames(p, sorts, symbols, j);
    LemmaNameInjective(i - base, j - base);
  }

  /** No lemma assertion of the script shares its name with an axiom assertion. */
  lemma LemmaNamesAreNoAxiomNames(p: Problem, sorts: seq<Sort>, symbols: seq<Symbol>, i: nat, j: nat)
    requires p.conjecture.Some?
    requires i < |Script(p, sorts, symbols)| && j < |Script(p, sorts, symbols)|
    requires Script(p, sorts, symbols)[i].AssertLemma? && Script(p, sorts, symbols)[j].AssertAxiom?
    ensures AssertionName(Script(p, sorts, symbols)[i]) != AssertionName(Script(p, sorts, symbols)[j])
  {
    var base := 1 + |sorts| + |symbols| + |p.axioms|;
    AssertionNames(p, sorts, symbols, i);
    AssertionNames(p, sorts, symbols, j);
    LemmaNameIsNoAxiomName(i - base, 0);
  }

  /** With two axioms or more, two assertions of the script share a name. */
  lemma AxiomNamesCollide(p: Problem, sorts: seq<Sort>, symbols: seq<Symbol>)
    requires p.conjecture.Some? && |p.axioms| >= 2
    ensures var s := Script(p, sorts, symbols);
            exists i, j :: 0 <= i < j < |s| && s[i].AssertAxiom? && s[j].AssertAxiom? && AssertionName(s[i]) == AssertionName(s[j])
  {
    var base := 1 + |sorts| + |symbols|;
    AxiomAssertions(p, sorts, symbols);
    ScriptFrame(p, sorts, symbols);
    var s := Script(p, sorts, symbols);
    assert s[base].AssertAxiom? && s[base + 1].AssertAxiom? && AssertionName(s[base]) == AssertionName(s[base + 1]);
  }

  /**
   * The text opens with the unsat-core option and ends with the negated
   * conjecture, `check-sat` and `get-unsat-core`, one piece per command.
   */
  lemma OutputFrame(p: Problem, sorts: seq<Sort>, symbols: seq<Symbol>, pr: Printers)
    requires p.conjecture.Some?
    ensures var out := Output(p, sorts, symbols, pr);
            |out| == 4 + |sorts| + |symbols| + |p.axioms| + |p.lemmas| &&
            out[0] == SetOptionText &&
            out[|out| - 3] == AssertNotOpen + pr.formula(p.conjecture.value, 3) + AssertNotClose &&
            out[|out| - 2] == CheckSatText && out[|out| - 1] == GetUnsatCoreText
  {
    var s, out := Script(p, sorts, symbols), Output(p, sorts, symbols, pr);
    ScriptFrame(p, sorts, symbols);
    assert out[|out| - 3] == Render(pr, s[|s| - 3]);
  }

  /** In the text, the k-th lemma is written as a named assertion of its formula under `lemma<k>`. */
  lemma OutputLemmaTexts(p: Problem, sorts: seq<Sort>, symbols: seq<Symbol>, pr: Printers)
    requires p.conjecture.Some?
    ensures var out, base := Output(p, sorts, symbols, pr), 1 + |sorts| + |symbols| + |p.axioms|;
            |out| == base + |p.lemmas| + 3 &&
            forall k :: 0 <= k < |p.lemmas| ==> out[base + k] == NamedAssertion(pr, p.lemmas[k], LemmaName(k))
  {
    var s, out := Script(p, sorts, symbols), Output(p, sorts, symbols, pr);
    LemmaAssertions(p, sorts, symbols);
    var base := 1 + |sorts| + |symbols| + |p.axioms|;
    forall k | 0 <= k < |p.lemmas| ensures out[base + k] == NamedAssertion(pr, p.lemmas[k], LemmaName(k)) {
      assert out[base + k] == Render(pr, s[base + k]);
    }
  }
}
