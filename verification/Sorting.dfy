/** Sorting by a strict order, as Go's `sort.Sort` and `sort.Strings` are used: sort keys are never equal. */
module Sorting {

  predicate NoDuplicates<T(==)>(s: seq<T>) {
    forall i, j | 0 <= i < j < |s| :: s[i] != s[j]
  }

  ghost predicate Sorted<T>(s: seq<T>, less: (T, T) -> bool) {
    forall i, j | 0 <= i < j < |s| :: less(s[i], s[j])
  }

  /** `less` is a strict total order on the elements of `s`. */
  ghost predicate StrictOn<T>(s: seq<T>, less: (T, T) -> bool) {
    && (forall a, b | a in s && b in s :: !(less(a, b) && less(b, a)))
    && (forall a, b | a in s && b in s :: a == b || less(a, b) || less(b, a))
    && (forall a, b, c | a in s && b in s && c in s && less(a, b) && less(b, c) :: less(a, c))
  }

  predicate SameElements<T(==)>(s: seq<T>, t: seq<T>) {
    (forall x | x in s :: x in t) && (forall x | x in t :: x in s)
  }

  /** The elements of a set in no particular order, as ranging over a Go map yields them. */
  method Listed<T(==)>(elements: set<T>) returns (r: seq<T>)
    ensures NoDuplicates(r) && forall x :: x in r <==> x in elements
  {
    r := [];
    var left := elements;
    while left != {}
      invariant NoDuplicates(r)
      invariant forall x :: x in elements <==> x in r || x in left
      invariant forall x | x in r :: x !in left
      decreases left
    {
      var x :| x in left;
      r := r + [x];
      left := left - {x};
    }
  }

  method SortBy<T(==)>(s: seq<T>, less: (T, T) -> bool) returns (r: seq<T>)
    requires NoDuplicates(s)
    requires StrictOn(s, less)
    ensures |r| == |s| && SameElements(r, s)
    ensures Sorted(r, less)
  {
    r := [];
    for i := 0 to |s|
      invariant |r| == i && SameElements(r, s[..i])
      invariant Sorted(r, less)
    {
      var x := s[i];
      assert s[..i + 1] == s[..i] + [x];
      assert x in s && x !in s[..i] && forall y | y in r :: y in s;
      var k := 0;
      while k < |r| && less(r[k], x)
        invariant k <= |r|
        invariant forall j | 0 <= j < k :: less(r[j], x)
      {
        k := k + 1;
      }
      InsertSorted(r, k, x, s, less);
      r := r[..k] + [x] + r[k..];
    }
    assert s[..|s|] == s;
  }

  lemma InsertSorted<T>(r: seq<T>, k: nat, x: T, s: seq<T>, less: (T, T) -> bool)
    requires k <= |r| && Sorted(r, less)
    requires StrictOn(s, less) && x in s && x !in r && forall y | y in r :: y in s
    requires forall j | 0 <= j < k :: less(r[j], x)
    requires k < |r| ==> !less(r[k], x)
    ensures Sorted(r[..k] + [x] + r[k..], less)
    ensures forall y :: y in r[..k] + [x] + r[k..] <==> y in r || y == x
  {
    var t := r[..k] + [x] + r[k..];
    assert r == r[..k] + r[k..];
    forall j | k <= j < |r| ensures less(x, r[j]) {
      assert r[k] in r && less(x, r[k]);
      assert r[j] in r && (j == k || less(r[k], r[j]));
    }
    forall i, j | 0 <= i < j < |t| ensures less(t[i], t[j]) {
      Inserted(r, k, x, i);
      Inserted(r, k, x, j);
    }
  }

  lemma Inserted<T>(r: seq<T>, k: nat, x: T, i: nat)
    requires k <= |r| && i <= |r|
    ensures (r[..k] + [x] + r[k..])[i] == if i < k then r[i] else if i == k then x else r[i - 1]
  {
  }

  lemma HeadIsLeast<T>(s: seq<T>, x: T, less: (T, T) -> bool)
    requires s != [] && Sorted(s, less) && x in s && x != s[0]
    ensures less(s[0], x)
  {
    var i :| 0 <= i < |s| && s[i] == x;
  }

  lemma TailElements<T>(s: seq<T>, x: T, less: (T, T) -> bool)
    requires s != [] && Sorted(s, less) && !less(s[0], s[0])
    ensures x in s[1..] <==> x in s && x != s[0]
  {
    if x in s[1..] {
      var i :| 0 <= i < |s[1..]| && s[1..][i] == x;
      assert s[i + 1] == x && less(s[0], x);
    }
    assert s == [s[0]] + s[1..];
  }

  /** Sorting has one result only. */
  lemma {:induction false} SortedUnique<T>(s: seq<T>, t: seq<T>, less: (T, T) -> bool)
    requires Sorted(s, less) && Sorted(t, less) && SameElements(s, t)
    requires StrictOn(s, less)
    ensures s == t
    decreases |s|
  {
    assert s != [] ==> s[0] in t;
    assert t != [] ==> t[0] in s;
    if s != [] {
      if s[0] != t[0] {
        HeadIsLeast(s, t[0], less);
        HeadIsLeast(t, s[0], less);
        assert false;
      }
      forall x ensures x in s[1..] <==> x in t[1..] {
        TailElements(s, x, less);
        TailElements(t, x, less);
      }
      assert forall x | x in s[1..] :: x in s;
      SortedUnique(s[1..], t[1..], less);
      assert s == [s[0]] + s[1..];
      assert t == [t[0]] + t[1..];
    }
  }
}
