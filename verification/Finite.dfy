/** Greatest and least elements of finite sets of numbers, and finite sets of names in ascending order. */
module Finite {
  import Sorting
  import Strings

  ghost predicate IsGreatest(s: set<nat>, m: nat) {
    m in s && forall x | x in s :: x <= m
  }

  ghost predicate IsLeast(s: set<nat>, m: nat) {
    m in s && forall x | x in s :: m <= x
  }

  lemma {:induction false} GreatestExists(s: set<nat>)
    requires s != {}
    ensures exists m :: IsGreatest(s, m)
  {
    var m :| m in s;
    var rest := s - {m};
    assert s == rest + {m};
    if rest == {} {
      assert IsGreatest(s, m);
    } else {
      GreatestExists(rest);
      var k :| IsGreatest(rest, k);
      assert IsGreatest(s, if k > m then k else m);
    }
  }

  lemma {:induction false} LeastExists(s: set<nat>)
    requires s != {}
    ensures exists m :: IsLeast(s, m)
  {
    var m :| m in s;
    var rest := s - {m};
    assert s == rest + {m};
    if rest == {} {
      assert IsLeast(s, m);
    } else {
      LeastExists(rest);
      var k :| IsLeast(rest, k);
      assert IsLeast(s, if k < m then k else m);
    }
  }

  ghost function Greatest(s: set<nat>): (m: nat)
    ensures s == {} ==> m == 0
    ensures s != {} ==> m in s
    ensures forall x | x in s :: x <= m
  {
    if s == {} then 0
    else
      GreatestExists(s);
      var m: nat :| IsGreatest(s, m);
      m
  }

  ghost function Least(s: set<nat>): (m: nat)
    requires s != {}
    ensures m in s && forall x | x in s :: m <= x
  {
    LeastExists(s);
    var m: nat :| IsLeast(s, m);
    m
  }

  /** The numbers from `lo` up to but not including `hi`. */
  function Range(lo: nat, hi: nat): (s: set<nat>)
    requires lo <= hi
    ensures forall u :: u in s <==> lo <= u < hi
    ensures |s| == hi - lo
    decreases hi - lo
  {
    if lo == hi then {} else {lo} + Range(lo + 1, hi)
  }

  predicate ByName(a: string, b: string) {
    Strings.Less(a, b)
  }

  ghost predicate IsSortedNames(names: set<string>, r: seq<string>) {
    Sorting.Sorted(r, ByName) && forall x :: x in r <==> x in names
  }

  /** The names in ascending order. */
  ghost function SortedNames(names: set<string>): (r: seq<string>)
    ensures IsSortedNames(names, r)
  {
    SortedNamesExist(names);
    var r :| IsSortedNames(names, r);
    r
  }

  lemma NameOrder(s: seq<string>)
    ensures Sorting.StrictOn(s, ByName)
  {
    forall a, b | a in s && b in s
      ensures !(ByName(a, b) && ByName(b, a))
      ensures a == b || ByName(a, b) || ByName(b, a)
    {
      Strings.LessTotal(a, b);
    }
    forall a, b, c | a in s && b in s && c in s && ByName(a, b) && ByName(b, c)
      ensures ByName(a, c)
    {
      Strings.LessTrans(a, b, c);
    }
  }

  lemma {:induction false} SortedNamesExist(names: set<string>)
    ensures exists r :: IsSortedNames(names, r)
  {
    if names == {} {
      assert IsSortedNames(names, []);
    } else {
      var x :| x in names;
      SortedNamesExist(names - {x});
      var r :| IsSortedNames(names - {x}, r);
      InsertName(names, r, x);
    }
  }

  lemma InsertName(names: set<string>, r: seq<string>, x: string)
    requires x in names && IsSortedNames(names - {x}, r)
    ensures exists t :: IsSortedNames(names, t)
  {
    var k := 0;
    while k < |r| && ByName(r[k], x)
      invariant k <= |r| && forall j | 0 <= j < k :: ByName(r[j], x)
    {
      k := k + 1;
    }
    NameOrder(r + [x]);
    assert forall y | y in r :: y in r + [x];
    assert (r + [x])[|r|] == x;
    Sorting.InsertSorted(r, k, x, r + [x], ByName);
    assert IsSortedNames(names, r[..k] + [x] + r[k..]);
  }

  lemma SortedNamesUnique(names: set<string>, r: seq<string>)
    requires IsSortedNames(names, r)
    ensures r == SortedNames(names)
  {
    NameOrder(r);
    Sorting.SortedUnique(r, SortedNames(names), ByName);
  }
}
