/**
 * Orders and sorted lists. Python compares strings code point by code point
 * and sorts with a stable merge sort; the indexes turn sets of urls into
 * sorted lists, and the search engine sorts its ranked results by a key.
 */
module Ordering {

  /** The elements of a sequence, as a set. */
  function Elems<T>(xs: seq<T>): set<T> {
    set x | x in xs
  }

  lemma ElemsEmpty<T>(xs: seq<T>)
    ensures Elems(xs) == {} <==> xs == []
  {
    if xs != [] {
      assert xs[0] in Elems(xs);
    }
  }

  /** No element occurs twice. */
  predicate Distinct<T(==)>(xs: seq<T>) {
    forall i, j :: 0 <= i < j < |xs| ==> xs[i] != xs[j]
  }

  /** Python's `a < b` on strings: lexicographic order on code points. */
  predicate Less(a: string, b: string) {
    if a == [] then b != []
    else if b == [] then false
    else a[0] < b[0] || (a[0] == b[0] && Less(a[1..], b[1..]))
  }

  lemma {:induction false} LessIrreflexive(a: string)
    ensures !Less(a, a)
  {
    if a != [] {
      LessIrreflexive(a[1..]);
    }
  }

  lemma {:induction false} LessTransitive(a: string, b: string, c: string)
    requires Less(a, b) && Less(b, c)
    ensures Less(a, c)
  {
    if a != [] && b != [] && c != [] && a[0] == b[0] == c[0] {
      LessTransitive(a[1..], b[1..], c[1..]);
    }
  }

  lemma {:induction false} LessTotal(a: string, b: string)
    ensures a == b || Less(a, b) || Less(b, a)
  {
    if a != [] && b != [] && a[0] == b[0] {
      LessTotal(a[1..], b[1..]);
      if a[1..] == b[1..] {
        assert a == [a[0]] + a[1..] && b == [b[0]] + b[1..];
      }
    }
  }

  /** `Less` is a strict total order on strings. */
  lemma LessIsStrictTotalOrder()
    ensures forall a :: !Less(a, a)
    ensures forall a, b, c :: Less(a, b) && Less(b, c) ==> Less(a, c)
    ensures forall a, b :: a == b || Less(a, b) || Less(b, a)
  {
    forall a ensures !Less(a, a) {
      LessIrreflexive(a);
    }
    forall a, b, c | Less(a, b) && Less(b, c) ensures Less(a, c) {
      LessTransitive(a, b, c);
    }
    forall a, b ensures a == b || Less(a, b) || Less(b, a) {
      LessTotal(a, b);
    }
  }

  /** Strictly increasing under `Less`: sorted and duplicate-free. */
  predicate StrictlySorted(xs: seq<string>) {
    forall i, j :: 0 <= i < j < |xs| ==> Less(xs[i], xs[j])
  }

  /** Strictly increasing under an arbitrary relation. */
  predicate SortedBy<T>(lt: (T, T) -> bool, xs: seq<T>) {
    forall i, j :: 0 <= i < j < |xs| ==> lt(xs[i], xs[j])
  }

  /**
   * A strictly sorted list is determined by its elements: two lists sorted
   * strictly by the same irreflexive, transitive relation that hold the same
   * elements are equal. This is why sorting gives a deterministic order
   * whatever order a set is iterated in.
   */
  lemma {:induction false} SortedUnique<T>(lt: (T, T) -> bool, a: seq<T>, b: seq<T>)
    requires forall x :: !lt(x, x)
    requires forall x, y, z :: lt(x, y) && lt(y, z) ==> lt(x, z)
    requires SortedBy(lt, a) && SortedBy(lt, b)
    requires Elems(a) == Elems(b)
    ensures a == b
  {
    if a == [] {
      ElemsEmpty(b);
    } else {
      assert a[0] in Elems(b);
      assert b[0] in Elems(a);
      var k :| 0 <= k < |b| && b[k] == a[0];
      var m :| 0 <= m < |a| && a[m] == b[0];
      assert a[0] == b[0];
      assert Elems(a[1..]) == Elems(b[1..]) by {
        forall x ensures x in Elems(a[1..]) <==> x in Elems(b[1..]) {
          if x in Elems(a[1..]) {
            var i :| 1 <= i < |a| && a[i] == x;
            assert x != a[0] by { assert lt(a[0], a[i]); }
            assert x in Elems(b);
          }
          if x in Elems(b[1..]) {
            var i :| 1 <= i < |b| && b[i] == x;
            assert x != b[0] by { assert lt(b[0], b[i]); }
            assert x in Elems(a);
          }
        }
      }
      SortedUnique(lt, a[1..], b[1..]);
      assert a == [a[0]] + a[1..] && b == [b[0]] + b[1..];
    }
  }

  /** The number of elements of a duplicate-free list is its length. */
  lemma {:induction false} DistinctCard<T>(xs: seq<T>)
    requires Distinct(xs)
    ensures |Elems(xs)| == |xs|
  {
    if xs != [] {
      DistinctCard(xs[1..]);
      assert Elems(xs) == {xs[0]} + Elems(xs[1..]);
      assert xs[0] !in Elems(xs[1..]);
    }
  }

  /** Insert `x` into a strictly sorted list, unless it is already there. */
  function InsertSorted(xs: seq<string>, x: string): (r: seq<string>)
    requires StrictlySorted(xs)
    ensures StrictlySorted(r)
    ensures Elems(r) == Elems(xs) + {x}
  {
    LessIsStrictTotalOrder();
    if xs == [] then [x]
    else if x == xs[0] then xs
    else if Less(x, xs[0]) then [x] + xs
    else
      var rest := InsertSorted(xs[1..], x);
      assert xs == [xs[0]] + xs[1..];
      assert Elems(xs) == {xs[0]} + Elems(xs[1..]);
      assert Elems([xs[0]] + rest) == {xs[0]} + Elems(rest);
      assert forall k :: 0 <= k < |rest| ==> Less(xs[0], rest[k]) by {
        forall k | 0 <= k < |rest| ensures Less(xs[0], rest[k]) {
          assert rest[k] in Elems(rest);
        }
      }
      [xs[0]] + rest
  }

  /** `sorted(list(s))` for a set of strings. */
  method SortedList(s: set<string>) returns (r: seq<string>)
    ensures StrictlySorted(r)
    ensures Elems(r) == s
  {
    r := [];
    var rest := s;
    while rest != {}
      invariant StrictlySorted(r)
      invariant Elems(r) + rest == s
      decreases rest
    {
      var x :| x in rest;
      r := InsertSorted(r, x);
      rest := rest - {x};
    }
  }

  /** A strictly sorted list has no duplicates. */
  lemma StrictlySortedDistinct(xs: seq<string>)
    requires StrictlySorted(xs)
    ensures Distinct(xs)
  {
    forall i, j | 0 <= i < j < |xs| ensures xs[i] != xs[j] {
      LessIrreflexive(xs[i]);
    }
  }

  /** The canonical sorted list of a set of strings is unique. */
  lemma SortedListUnique(a: seq<string>, b: seq<string>)
    requires StrictlySorted(a) && StrictlySorted(b)
    requires Elems(a) == Elems(b)
    ensures a == b
  {
    LessIsStrictTotalOrder();
    var lt := (x: string, y: string) => Less(x, y);
    assert SortedBy(lt, a) && SortedBy(lt, b);
    SortedUnique(lt, a, b);
  }
}
