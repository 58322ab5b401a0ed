/** Stable sorting by a comparison, as `Array.prototype.sort` does it, and when its result is unique. */
module Sorting {
  import opened Foundations

  /** Places `x` after every element it does not precede. */
  function Insert<T>(s: seq<T>, x: T, less: (T, T) -> bool): (r: seq<T>)
    ensures multiset(r) == multiset(s) + multiset{x}
  {
    if s == [] then [x] else
    var front, last := s[..|s| - 1], s[|s| - 1];
    assert s == front + [last];
    if less(x, last) then Insert(front, x, less) + [last] else s + [x]
  }

  function SortBy<T(!new)>(s: seq<T>, less: (T, T) -> bool): (r: seq<T>)
    ensures multiset(r) == multiset(s)
    ensures |r| == |s| && forall x :: x in r <==> x in s
  {
    if s == [] then [] else
    var front, last := s[..|s| - 1], s[|s| - 1];
    assert s == front + [last];
    var r := Insert(SortBy(front, less), last, less);
    SameMultiset(r, s);
    r
  }

  lemma SameMultiset<T(!new)>(a: seq<T>, b: seq<T>)
    requires multiset(a) == multiset(b)
    ensures |a| == |b| && forall x :: x in a <==> x in b
  {
    assert |multiset(a)| == |a| && |multiset(b)| == |b|;
    assert forall x :: x in a <==> x in multiset(a);
    assert forall x :: x in b <==> x in multiset(b);
  }

  /** No later element precedes an earlier one. */
  ghost predicate Ordered<T>(s: seq<T>, less: (T, T) -> bool) {
    forall i, j :: 0 <= i < j < |s| ==> !less(s[j], s[i])
  }

  /** Sorting leaves an ordered list as it is. */
  lemma {:induction false} SortingOrdered<T(!new)>(s: seq<T>, less: (T, T) -> bool)
    requires Ordered(s, less)
    ensures SortBy(s, less) == s
  {
    if s != [] {
      var front, last := s[..|s| - 1], s[|s| - 1];
      assert s == front + [last];
      SortingOrdered(front, less);
      assert front != [] ==> !less(s[|s| - 1], s[|s| - 2]);
    }
  }

  /** A strict order in which any two different elements of interest are comparable. */
  ghost predicate StrictlyOrders<T(!new)>(less: (T, T) -> bool, among: iset<T>) {
    && (forall x :: !less(x, x))
    && (forall x, y, z :: less(x, y) && less(y, z) ==> less(x, z))
    && (forall x, y :: x in among && y in among && x != y ==> less(x, y) || less(y, x))
  }

  ghost predicate Rising<T>(s: seq<T>, less: (T, T) -> bool) {
    forall i, j :: 0 <= i < j < |s| ==> less(s[i], s[j])
  }

  lemma InsertHolds<T(!new)>(s: seq<T>, x: T, less: (T, T) -> bool)
    ensures forall y :: y in Insert(s, x, less) <==> y == x || y in s
  {
    var r := Insert(s, x, less);
    assert forall y :: y in r <==> y in multiset(r);
    assert forall y :: y in s <==> y in multiset(s);
  }

  ghost predicate AllBefore<T(!new)>(s: seq<T>, x: T, less: (T, T) -> bool) {
    forall y :: y in s ==> less(y, x)
  }

  /** In a rising list the last element comes after all the others. */
  lemma RisingFront<T(!new)>(s: seq<T>, less: (T, T) -> bool)
    requires Rising(s, less) && s != []
    ensures Rising(s[..|s| - 1], less)
    ensures AllBefore(s[..|s| - 1], s[|s| - 1], less)
  {
    var front, last := s[..|s| - 1], s[|s| - 1];
    forall i, j | 0 <= i < j < |front| ensures less(front[i], front[j]) {
      assert less(s[i], s[j]);
    }
    forall i | 0 <= i < |front| ensures less(front[i], last) {
      assert less(s[i], s[|s| - 1]);
    }
  }

  lemma RisingSnoc<T(!new)>(s: seq<T>, x: T, less: (T, T) -> bool)
    requires Rising(s, less) && AllBefore(s, x, less)
    ensures Rising(s + [x], less)
  {
    assert forall i :: 0 <= i < |s| ==> s[i] in s;
  }

  lemma {:induction false} InsertRises<T(!new)>(s: seq<T>, x: T, less: (T, T) -> bool, among: iset<T>)
    requires StrictlyOrders(less, among) && Rising(s, less)
    requires x in among && x !in s && forall y :: y in s ==> y in among
    ensures Rising(Insert(s, x, less), less)
    ensures forall y :: y in Insert(s, x, less) <==> y == x || y in s
  {
    InsertHolds(s, x, less);
    if s != [] {
      var front, last := s[..|s| - 1], s[|s| - 1];
      assert s == front + [last] && last in s;
      RisingFront(s, less);
      hide Rising;
      if less(x, last) {
        InsertRises(front, x, less, among);
        RisingSnoc(Insert(front, x, less), last, less);
      } else {
        assert less(last, x);
        RisingSnoc(s, x, less);
      }
    }
  }

  /** Different comparable elements come out strictly rising. */
  lemma {:induction false} SortRises<T(!new)>(s: seq<T>, less: (T, T) -> bool, among: iset<T>)
    requires StrictlyOrders(less, among) && Distinct(s) && forall y :: y in s ==> y in among
    ensures Rising(SortBy(s, less), less)
  {
    if s != [] {
      var front, last := s[..|s| - 1], s[|s| - 1];
      assert s == front + [last];
      assert forall i, j :: 0 <= i < j < |front| ==> front[i] == s[i] && front[j] == s[j];
      assert forall k :: 0 <= k < |front| ==> front[k] != last;
      assert Distinct(front) by {
        forall i, j | 0 <= i < j < |front| ensures front[i] != front[j] {
          assert s[i] != s[j];
        }
      }
      SortRises(front, less, among);
      InsertRises(SortBy(front, less), last, less, among);
    }
  }

  /** Two strictly rising lists of the same elements are the same list. */
  lemma {:induction false} RisingIsUnique<T(!new)>(a: seq<T>, b: seq<T>, less: (T, T) -> bool, among: iset<T>)
    requires StrictlyOrders(less, among) && Rising(a, less) && Rising(b, less)
    requires |a| == |b| && forall x :: x in a <==> x in b
    ensures a == b
  {
    if a != [] {
      var n := |a| - 1;
      assert a[n] in b && b[n] in a;
      LastIsGreatest(a, b[n], less);
      LastIsGreatest(b, a[n], less);
      forall x ensures x in a[..n] <==> x in b[..n] {
        LastIsElsewhere(a, x, less, among);
        LastIsElsewhere(b, x, less, among);
      }
      RisingIsUnique(a[..n], b[..n], less, among);
      assert a == a[..n] + [a[n]] && b == b[..n] + [b[n]];
    }
  }

  lemma LastIsGreatest<T>(s: seq<T>, x: T, less: (T, T) -> bool)
    requires Rising(s, less) && x in s
    ensures x == s[|s| - 1] || less(x, s[|s| - 1])
  {
    var k :| 0 <= k < |s| && s[k] == x;
    assert k < |s| - 1 ==> less(s[k], s[|s| - 1]);
  }

  lemma LastIsElsewhere<T(!new)>(s: seq<T>, x: T, less: (T, T) -> bool, among: iset<T>)
    requires StrictlyOrders(less, among) && Rising(s, less) && s != []
    ensures x in s[..|s| - 1] <==> x in s && x != s[|s| - 1]
  {
    var n := |s| - 1;
    if x in s[..n] {
      var k :| 0 <= k < n && s[k] == x;
      assert less(s[k], s[n]);
    }
  }

  /** Sorting different comparable elements forgets the order they were given in. */
  lemma SortForgetsOrder<T(!new)>(s: seq<T>, t: seq<T>, less: (T, T) -> bool, among: iset<T>)
    requires StrictlyOrders(less, among) && Distinct(s) && Distinct(t) && |s| == |t|
    requires forall x :: x in s <==> x in t
    requires forall y :: y in s ==> y in among
    ensures SortBy(s, less) == SortBy(t, less)
  {
    SortRises(s, less, among);
    SortRises(t, less, among);
    RisingIsUnique(SortBy(s, less), SortBy(t, less), less, among);
  }
}
