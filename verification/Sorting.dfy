/** Sorting distinct values by a strict total order (`[...new Set(xs)].toSorted(order)`). */
module Sorting {

  ghost predicate StrictTotalOrder<T(!new)>(less: (T, T) -> bool) {
    && (forall a :: !less(a, a))
    && (forall a, b :: a != b ==> less(a, b) || less(b, a))
    && (forall a, b, c :: less(a, b) && less(b, c) ==> less(a, c))
  }

  ghost predicate Ascending<T>(s: seq<T>, less: (T, T) -> bool) {
    forall i, j :: 0 <= i < j < |s| ==> less(s[i], s[j])
  }

  predicate Distinct<T(==)>(s: seq<T>) {
    forall i, j :: 0 <= i < j < |s| ==> s[i] != s[j]
  }

  function Insert<T(==, !new)>(x: T, s: seq<T>, less: (T, T) -> bool): (r: seq<T>)
    ensures forall y :: y in r <==> y == x || y in s
  {
    if s == [] then [x]
    else if s[0] == x then s
    else if less(x, s[0]) then [x] + s
    else
      var r := [s[0]] + Insert(x, s[1..], less);
      assert forall y :: y in s <==> y == s[0] || y in s[1..];
      r
  }

  function SortDistinct<T(==, !new)>(s: seq<T>, less: (T, T) -> bool): (r: seq<T>)
    ensures forall y :: y in r <==> y in s
  {
    if s == [] then [] else Insert(s[0], SortDistinct(s[1..], less), less)
  }

  lemma InsertAscending<T(!new)>(x: T, s: seq<T>, less: (T, T) -> bool)
    requires StrictTotalOrder(less) && Ascending(s, less)
    ensures Ascending(Insert(x, s, less), less)
  {
    if s != [] && s[0] != x && !less(x, s[0]) {
      InsertAscending(x, s[1..], less);
      var r := Insert(x, s[1..], less);
      assert forall y :: y in s[1..] ==> less(s[0], y);
      assert forall y :: y in r ==> less(s[0], y);
    }
  }

  lemma SortAscending<T(!new)>(s: seq<T>, less: (T, T) -> bool)
    requires StrictTotalOrder(less)
    ensures Ascending(SortDistinct(s, less), less)
  {
    if s != [] {
      SortAscending(s[1..], less);
      InsertAscending(s[0], SortDistinct(s[1..], less), less);
    }
  }

  /** A set has one ascending listing. */
  lemma AscendingUnique<T(!new)>(a: seq<T>, b: seq<T>, less: (T, T) -> bool)
    requires StrictTotalOrder(less) && Ascending(a, less) && Ascending(b, less)
    requires forall x :: x in a <==> x in b
    ensures a == b
  {
    assert a != [] ==> a[0] in b;
    assert b != [] ==> b[0] in a;
    if a != [] && b != [] {
      assert a[0] == b[0];
      forall x ensures x in a[1..] <==> x in b[1..] {
        assert x in a <==> x == a[0] || x in a[1..];
        assert x in b <==> x == b[0] || x in b[1..];
        assert a[0] !in a[1..] && b[0] !in b[1..];
      }
      AscendingUnique(a[1..], b[1..], less);
    }
  }

  /** Sorting forgets the order and the repetitions of its input. */
  lemma SortCanonical<T(!new)>(s: seq<T>, t: seq<T>, less: (T, T) -> bool)
    requires StrictTotalOrder(less)
    requires forall x :: x in s <==> x in t
    ensures SortDistinct(s, less) == SortDistinct(t, less)
  {
    SortAscending(s, less);
    SortAscending(t, less);
    AscendingUnique(SortDistinct(s, less), SortDistinct(t, less), less);
  }

  lemma AscendingDistinct<T(!new)>(s: seq<T>, less: (T, T) -> bool)
    requires StrictTotalOrder(less) && Ascending(s, less)
    ensures Distinct(s)
  {
  }

  lemma DistinctInit<T>(init: seq<T>, last: T)
    requires Distinct(init + [last])
    ensures Distinct(init) && last !in init
  {
    var s := init + [last];
    forall i | 0 <= i < |init| ensures init[i] != last {
      assert s[i] == init[i] && s[|init|] == last;
    }
    forall i, j | 0 <= i < j < |init| ensures init[i] != init[j] {
      assert s[i] == init[i] && s[j] == init[j];
    }
  }

  lemma DistinctTail<T>(head: T, tail: seq<T>)
    requires Distinct([head] + tail)
    ensures Distinct(tail) && head !in tail
  {
    var s := [head] + tail;
    forall i | 0 <= i < |tail| ensures tail[i] != head {
      assert s[i + 1] == tail[i] && s[0] == head;
    }
    forall i, j | 0 <= i < j < |tail| ensures tail[i] != tail[j] {
      assert s[i + 1] == tail[i] && s[j + 1] == tail[j];
    }
  }
}
