/** Stable insertion sort as a function, and the uniqueness of strictly sorted sequences. */
module Sorting {
  import opened Text

  /** Insert x after every element it is not less than. */
  function Insert<T>(s: seq<T>, x: T, less: (T, T) -> bool): seq<T> {
    if s == [] then [x]
    else
      var m := |s| - 1;
      if less(x, s[m]) then Insert(s[..m], x, less) + [s[m]] else s + [x]
  }

  function Sort<T>(s: seq<T>, less: (T, T) -> bool): seq<T> {
    if s == [] then [] else Insert(Sort(s[..|s| - 1], less), s[|s| - 1], less)
  }

  predicate StrictlySorted<T>(s: seq<T>, less: (T, T) -> bool) {
    forall i, j :: 0 <= i < j < |s| ==> less(s[i], s[j])
  }

  ghost predicate StrictOrder<T(!new)>(less: (T, T) -> bool) {
    && (forall x :: !less(x, x))
    && (forall x, y, z :: less(x, y) && less(y, z) ==> less(x, z))
  }

  /** Any two different positions hold comparable elements. */
  predicate Comparable<T>(s: seq<T>, less: (T, T) -> bool) {
    forall i, j :: 0 <= i < j < |s| ==> less(s[i], s[j]) || less(s[j], s[i])
  }

  lemma {:induction false} InsertSorted<T(!new)>(s: seq<T>, x: T, less: (T, T) -> bool)
    requires StrictOrder(less) && StrictlySorted(s, less)
    requires forall i :: 0 <= i < |s| ==> less(s[i], x) || less(x, s[i])
    ensures StrictlySorted(Insert(s, x, less), less)
    ensures forall y :: y in Insert(s, x, less) <==> y == x || y in s
    decreases |s|
  {
    if s != [] {
      var m := |s| - 1;
      if less(x, s[m]) {
        InsertSorted(s[..m], x, less);
        var r := Insert(s[..m], x, less);
        forall i | 0 <= i < |r| ensures less(r[i], s[m]) {
          assert r[i] in r;
        }
        assert forall y :: y in s <==> y in s[..m] || y == s[m];
      } else {
        forall i | 0 <= i < |s| ensures less(s[i], x) {
        }
      }
    }
  }

  /** Sorting comparable elements gives the strictly sorted sequence of the same elements. */
  lemma {:induction false} SortStrict<T(!new)>(s: seq<T>, less: (T, T) -> bool)
    requires StrictOrder(less) && Comparable(s, less)
    ensures StrictlySorted(Sort(s, less), less)
    ensures forall y :: y in Sort(s, less) <==> y in s
    decreases |s|
  {
    if s != [] {
      var m := |s| - 1;
      SortStrict(s[..m], less);
      var r := Sort(s[..m], less);
      forall i | 0 <= i < |r| ensures less(r[i], s[m]) || less(s[m], r[i]) {
        assert r[i] in s[..m];
        var j :| 0 <= j < m && s[j] == r[i];
      }
      InsertSorted(r, s[m], less);
      assert forall y :: y in s <==> y in s[..m] || y == s[m];
    }
  }

  /** There is only one strictly sorted sequence of given elements. */
  lemma {:induction false} StrictlySortedUnique<T(!new)>(a: seq<T>, b: seq<T>, less: (T, T) -> bool)
    requires StrictOrder(less) && StrictlySorted(a, less) && StrictlySorted(b, less)
    requires forall x :: x in a <==> x in b
    ensures a == b
    decreases |a|
  {
    assert a == [] || a[0] in a;
    assert b == [] || b[0] in b;
    if a != [] && b != [] {
      var m, n := |a| - 1, |b| - 1;
      assert a[m] in b && b[n] in a;
      var i :| 0 <= i <= n && b[i] == a[m];
      var j :| 0 <= j <= m && a[j] == b[n];
      assert a[m] == b[n];
      assert forall x :: x in a[..m] <==> x in a && x != a[m];
      assert forall x :: x in b[..n] <==> x in b && x != b[n];
      StrictlySortedUnique(a[..m], b[..n], less);
      assert a == a[..m] + [a[m]] && b == b[..n] + [b[n]];
    }
  }

  lemma LessIsStrict()
    ensures StrictOrder(Less)
  {
    forall x ensures !Less(x, x) {
      LessTotal(x, x);
    }
    forall x, y, z | Less(x, y) && Less(y, z) ensures Less(x, z) {
      LessTransitive(x, y, z);
    }
  }

  // ---------- elements that may repeat ----------

  predicate InOrder<T>(s: seq<T>, less: (T, T) -> bool) {
    forall i, j :: 0 <= i < j < |s| ==> !less(s[j], s[i])
  }

  /** Being not less is transitive, and nothing is less both ways. */
  ghost predicate WeakOrder<T(!new)>(less: (T, T) -> bool) {
    && (forall x, y :: less(x, y) ==> !less(y, x))
    && (forall x, y, z :: !less(y, x) && !less(z, y) ==> !less(z, x))
  }

  lemma {:induction false} InsertWeakly<T(!new)>(s: seq<T>, x: T, less: (T, T) -> bool)
    requires WeakOrder(less) && InOrder(s, less)
    ensures InOrder(Insert(s, x, less), less) && multiset(Insert(s, x, less)) == multiset(s) + multiset{x}
    decreases |s|
  {
    if s != [] {
      var m := |s| - 1;
      assert s == s[..m] + [s[m]];
      if less(x, s[m]) {
        InsertWeakly(s[..m], x, less);
        var r := Insert(s[..m], x, less);
        forall i | 0 <= i < |r| ensures !less(s[m], r[i]) {
          assert r[i] in multiset(r);
          assert r[i] == x || r[i] in s[..m];
        }
      } else {
        forall i | 0 <= i < |s| ensures !less(x, s[i]) {
          assert i < m ==> !less(s[m], s[i]);
        }
      }
    }
  }

  /** Sorting keeps the elements, repetitions included, and puts them in order. */
  lemma {:induction false} SortPermutes<T(!new)>(s: seq<T>, less: (T, T) -> bool)
    requires WeakOrder(less)
    ensures InOrder(Sort(s, less), less) && multiset(Sort(s, less)) == multiset(s)
    decreases |s|
  {
    if s != [] {
      var m := |s| - 1;
      assert s == s[..m] + [s[m]];
      SortPermutes(s[..m], less);
      InsertWeakly(Sort(s[..m], less), s[m], less);
    }
  }

  lemma LessIsWeak()
    ensures WeakOrder(Less)
  {
    forall x, y | Less(x, y) ensures !Less(y, x) {
      LessTotal(x, y);
    }
    forall x, y, z | !Less(y, x) && !Less(z, y) ensures !Less(z, x) {
      LessTotal(x, y);
      LessTotal(y, z);
      LessTotal(x, z);
      if x != y && y != z {
        LessTransitive(x, y, z);
      }
    }
  }
}
