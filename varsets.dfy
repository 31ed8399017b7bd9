/**
 * `intersection` (src/analysis/Semantics.cpp): both argument vectors are
 * sorted with `std::sort` and merged with `std::set_intersection`. The
 * variables are ordered by `id`, an abstract total order standing for the
 * object addresses the source sorts by.
 */
module VariableSets {
  import opened Programs

  predicate SortedById(s: seq<Variable>) {
    forall i, j :: 0 <= i < j < |s| ==> s[i].id <= s[j].id
  }

  predicate Distinct(s: seq<Variable>) {
    forall i, j :: 0 <= i < j < |s| ==> s[i] != s[j]
  }

  /** Every id belongs to one variable only, as every address holds one object. */
  predicate IdsIdentify(s: seq<Variable>) {
    forall i, j :: 0 <= i < |s| && 0 <= j < |s| && s[i].id == s[j].id ==> s[i] == s[j]
  }

  /** In an ascending sequence no element has a smaller id than the first. */
  lemma SortedBounds(s: seq<Variable>)
    requires SortedById(s) && |s| > 0
    ensures SortedById(s[1..])
    ensures forall y :: y in s ==> s[0].id <= y.id
  {
  }

  function Insert(x: Variable, s: seq<Variable>): (r: seq<Variable>)
    requires SortedById(s)
    ensures SortedById(r)
    ensures forall y :: y in r <==> y == x || y in s
    ensures multiset(r) == multiset(s) + multiset{x}
  {
    if s == [] then [x]
    else if x.id <= s[0].id then
      SortedBounds(s);
      SortedCons(x, s);
      [x] + s
    else
      SortedBounds(s);
      assert s == [s[0]] + s[1..];
      var t := Insert(x, s[1..]);
      SortedCons(s[0], t);
      assert multiset([s[0]] + t) == multiset{s[0]} + multiset(t);
      [s[0]] + t
  }

  lemma SortedCons(a: Variable, t: seq<Variable>)
    requires SortedById(t) && forall y :: y in t ==> a.id <= y.id
    ensures SortedById([a] + t)
  {
    var s := [a] + t;
    forall i, j | 0 <= i < j < |s| ensures s[i].id <= s[j].id {
      assert s[j] == t[j - 1];
      if i > 0 { assert s[i] == t[i - 1]; }
    }
  }

  /** Appending an element no smaller than the rest keeps a sequence ascending. */
  lemma SortedSnoc(t: seq<Variable>, a: Variable)
    requires SortedById(t) && forall y :: y in t ==> y.id <= a.id
    ensures SortedById(t + [a])
  {
    var s := t + [a];
    forall i, j | 0 <= i < j < |s| ensures s[i].id <= s[j].id {
      assert s[i] == t[i];
      if j < |t| { assert s[j] == t[j]; }
    }
  }

  /** Appending an element keeps a sequence duplicate-free exactly when it is new. */
  lemma DistinctSnoc(t: seq<Variable>, a: Variable)
    ensures Distinct(t + [a]) <==> a !in t && Distinct(t)
  {
    var s := t + [a];
    if a !in t && Distinct(t) {
      forall i, j | 0 <= i < j < |s| ensures s[i] != s[j] {
        assert s[i] == t[i];
        if j < |t| { assert s[j] == t[j]; }
      }
    }
    if Distinct(s) {
      forall i, j | 0 <= i < j < |t| ensures t[i] != t[j] {
        assert t[i] == s[i] && t[j] == s[j];
      }
      forall k | 0 <= k < |t| ensures t[k] != a {
        assert s[k] == t[k] && s[|t|] == a;
      }
    }
  }

  lemma DistinctCons(a: Variable, t: seq<Variable>)
    ensures Distinct([a] + t) <==> a !in t && Distinct(t)
  {
    var s := [a] + t;
    if a !in t && Distinct(t) {
      forall i, j | 0 <= i < j < |s| ensures s[i] != s[j] {
        if i == 0 { assert s[j] == t[j - 1]; } else { assert s[i] == t[i - 1] && s[j] == t[j - 1]; }
      }
    }
    if Distinct(s) {
      forall i, j | 0 <= i < j < |t| ensures t[i] != t[j] {
        assert t[i] == s[i + 1] && t[j] == s[j + 1];
      }
      forall k | 0 <= k < |t| ensures t[k] != a {
        assert s[0] == a && s[k + 1] == t[k];
      }
    }
  }

  lemma {:induction false} InsertDistinct(x: Variable, s: seq<Variable>)
    requires SortedById(s) && Distinct(s) && x !in s
    ensures Distinct(Insert(x, s))
  {
    if s == [] {
    } else if x.id <= s[0].id {
      DistinctCons(x, s);
    } else {
      assert s == [s[0]] + s[1..];
      SortedBounds(s);
      DistinctCons(s[0], s[1..]);
      InsertDistinct(x, s[1..]);
      DistinctCons(s[0], Insert(x, s[1..]));
    }
  }

  /** `std::sort` on a copy: a permutation of the elements, ascending by id. */
  function SortById(s: seq<Variable>): (r: seq<Variable>)
    ensures SortedById(r) && multiset(r) == multiset(s)
    ensures forall y :: y in r <==> y in s
  {
    if s == [] then []
    else
      assert s == [s[0]] + s[1..];
      Insert(s[0], SortById(s[1..]))
  }

  lemma {:induction false} SortDistinct(s: seq<Variable>)
    requires Distinct(s)
    ensures Distinct(SortById(s))
  {
    if s != [] {
      assert s == [s[0]] + s[1..];
      DistinctCons(s[0], s[1..]);
      SortDistinct(s[1..]);
      InsertDistinct(s[0], SortById(s[1..]));
    }
  }

  lemma IdsIdentifySubset(a: seq<Variable>, b: seq<Variable>)
    requires IdsIdentify(a) && forall x :: x in b ==> x in a
    ensures IdsIdentify(b)
  {
    forall i, j | 0 <= i < |b| && 0 <= j < |b| && b[i].id == b[j].id ensures b[i] == b[j] {
      assert b[i] in a && b[j] in a;
      var p :| 0 <= p < |a| && a[p] == b[i];
      var q :| 0 <= q < |a| && a[q] == b[j];
    }
  }

  /**
   * `std::set_intersection` of two ascending ranges: walking both, dropping
   * the element with the smaller id and keeping the first range's element
   * when the ids agree.
   */
  function SetIntersection(s1: seq<Variable>, s2: seq<Variable>): (r: seq<Variable>)
    requires SortedById(s1) && SortedById(s2)
    ensures SortedById(r)
    ensures forall x :: x in r ==> x in s1
    decreases |s1| + |s2|
  {
    if |s1| == 0 || |s2| == 0 then []
    else
      SortedBounds(s1);
      SortedBounds(s2);
      if s1[0].id < s2[0].id then SetIntersection(s1[1..], s2)
      else if s2[0].id < s1[0].id then SetIntersection(s1, s2[1..])
      else
        var rest := SetIntersection(s1[1..], s2[1..]);
        SortedCons(s1[0], rest);
        [s1[0]] + rest
  }

  /** When ids identify variables, the merge keeps exactly the common elements. */
  lemma {:induction false} SetIntersectionMembers(s1: seq<Variable>, s2: seq<Variable>)
    requires SortedById(s1) && SortedById(s2) && IdsIdentify(s1 + s2)
    ensures forall x :: x in SetIntersection(s1, s2) <==> x in s1 && x in s2
    decreases |s1| + |s2|
  {
    if |s1| > 0 && |s2| > 0 {
      SortedBounds(s1);
      SortedBounds(s2);
      assert s1 == [s1[0]] + s1[1..];
      assert s2 == [s2[0]] + s2[1..];
      if s1[0].id < s2[0].id {
        IdsIdentifySubset(s1 + s2, s1[1..] + s2);
        SetIntersectionMembers(s1[1..], s2);
      } else if s2[0].id < s1[0].id {
        IdsIdentifySubset(s1 + s2, s1 + s2[1..]);
        SetIntersectionMembers(s1, s2[1..]);
      } else {
        assert (s1 + s2)[0] == s1[0] && (s1 + s2)[|s1|] == s2[0];
        assert s1[0] == s2[0];
        IdsIdentifySubset(s1 + s2, s1[1..] + s2[1..]);
        SetIntersectionMembers(s1[1..], s2[1..]);
      }
    }
  }

  lemma {:induction false} SetIntersectionDistinct(s1: seq<Variable>, s2: seq<Variable>)
    requires SortedById(s1) && SortedById(s2) && Distinct(s1)
    ensures Distinct(SetIntersection(s1, s2))
    decreases |s1| + |s2|
  {
    if |s1| > 0 && |s2| > 0 {
      SortedBounds(s1);
      SortedBounds(s2);
      assert s1 == [s1[0]] + s1[1..];
      DistinctCons(s1[0], s1[1..]);
      if s1[0].id < s2[0].id {
        SetIntersectionDistinct(s1[1..], s2);
      } else if s2[0].id < s1[0].id {
        SetIntersectionDistinct(s1, s2[1..]);
      } else {
        SetIntersectionDistinct(s1[1..], s2[1..]);
        DistinctCons(s1[0], SetIntersection(s1[1..], s2[1..]));
      }
    }
  }

  lemma IntersectionDistinct(v1: seq<Variable>, s1: seq<Variable>, s2: seq<Variable>)
    requires s1 == SortById(v1) && SortedById(s2)
    ensures Distinct(v1) ==> Distinct(SetIntersection(s1, s2))
  {
    if Distinct(v1) {
      SortDistinct(v1);
      SetIntersectionDistinct(s1, s2);
    }
  }

  /**
   * `intersection(v1, v2)`: ascending by id, holding exactly the variables
   * that occur in both inputs, and no variable twice when `v1` has none twice.
   */
  function Intersection(v1: seq<Variable>, v2: seq<Variable>): (r: seq<Variable>)
    requires IdsIdentify(v1 + v2)
    ensures SortedById(r)
    ensures forall x :: x in r <==> x in v1 && x in v2
    ensures Distinct(v1) ==> Distinct(r)
  {
    var s1, s2 := SortById(v1), SortById(v2);
    IdsIdentifySubset(v1 + v2, s1 + s2);
    SetIntersectionMembers(s1, s2);
    IntersectionDistinct(v1, s1, s2);
    SetIntersection(s1, s2)
  }
}
