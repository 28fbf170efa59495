/**
 * Sorting a finite set into a strictly increasing sequence, the way the data
 * file's `sorted(...)` turns a set of line numbers or arcs into a list.
 */
module Sorting {

  /** `lt` is a strict total order: irreflexive, transitive and total. */
  ghost predicate StrictTotalOrder<T(!new)>(lt: (T, T) -> bool) {
    && (forall a :: !lt(a, a))
    && (forall a, b, c :: lt(a, b) && lt(b, c) ==> lt(a, c))
    && (forall a, b :: a != b ==> lt(a, b) || lt(b, a))
  }

  /** Every element of `s` is below every later one. */
  predicate StrictlySorted<T>(s: seq<T>, lt: (T, T) -> bool) {
    forall i, j :: 0 <= i < j < |s| ==> lt(s[i], s[j])
  }

  /** `m` is the least element of `s`. */
  predicate IsLeast<T(==)>(m: T, s: set<T>, lt: (T, T) -> bool) {
    m in s && forall y :: y in s && y != m ==> lt(m, y)
  }

  lemma {:induction false} LeastExists<T(!new)>(s: set<T>, lt: (T, T) -> bool)
    requires StrictTotalOrder(lt) && s != {}
    ensures exists m :: IsLeast(m, s, lt)
  {
    var x :| x in s;
    if s == {x} {
      assert IsLeast(x, s, lt);
    } else {
      LeastExists(s - {x}, lt);
      var m :| IsLeast(m, s - {x}, lt);
      if lt(m, x) {
        assert IsLeast(m, s, lt);
      } else {
        assert IsLeast(x, s, lt);
      }
    }
  }

  /**
   * The elements of `s` in increasing order: strictly sorted, holding exactly
   * the elements of `s`, each once.
   */
  function Sorted<T(==,!new)>(s: set<T>, lt: (T, T) -> bool): (r: seq<T>)
    requires StrictTotalOrder(lt)
    ensures StrictlySorted(r, lt)
    ensures forall x :: x in r <==> x in s
    ensures |r| == |s|
    decreases s
  {
    if s == {} then []
    else
      LeastExists(s, lt);
      assert forall m, m' :: IsLeast(m, s, lt) && IsLeast(m', s, lt) ==> m == m';
      var m :| IsLeast(m, s, lt);
      [m] + Sorted(s - {m}, lt)
  }

  lemma HeadIsLeast<T>(s: seq<T>, lt: (T, T) -> bool, x: T)
    requires StrictlySorted(s, lt) && x in s
    ensures x == s[0] || lt(s[0], x)
  {
    var j :| 0 <= j < |s| && s[j] == x;
  }

  lemma TailMembers<T(!new)>(s: seq<T>, lt: (T, T) -> bool, x: T)
    requires StrictTotalOrder(lt) && StrictlySorted(s, lt) && s != []
    ensures x in s[1..] <==> x in s && x != s[0]
  {
    if x in s && x != s[0] {
      var j :| 0 <= j < |s| && s[j] == x;
      assert s[1..][j - 1] == x;
    }
    if x in s[1..] {
      var j :| 0 <= j < |s[1..]| && s[1..][j] == x;
      assert lt(s[0], s[j + 1]);
    }
  }

  /**
   * A strictly sorted sequence is determined by its elements: whatever
   * sorting procedure produced it, the result is the same.
   */
  lemma {:induction false} SortedUnique<T(!new)>(a: seq<T>, b: seq<T>, lt: (T, T) -> bool)
    requires StrictTotalOrder(lt) && StrictlySorted(a, lt) && StrictlySorted(b, lt)
    requires forall x :: x in a <==> x in b
    ensures a == b
  {
    assert a != [] ==> a[0] in b;
    assert b != [] ==> b[0] in a;
    if a != [] && b != [] {
      HeadIsLeast(b, lt, a[0]);
      HeadIsLeast(a, lt, b[0]);
      assert a[0] == b[0];
      forall x ensures x in a[1..] <==> x in b[1..] {
        TailMembers(a, lt, x);
        TailMembers(b, lt, x);
      }
      assert StrictlySorted(a[1..], lt);
      assert StrictlySorted(b[1..], lt);
      SortedUnique(a[1..], b[1..], lt);
      assert a == [a[0]] + a[1..];
      assert b == [b[0]] + b[1..];
    }
  }

  /** The usual order on line numbers. */
  function IntLess(a: int, b: int): bool {
    a < b
  }

  /** Lexicographic order on pairs of line numbers, as Python compares tuples. */
  function PairLess(a: (int, int), b: (int, int)): bool {
    a.0 < b.0 || (a.0 == b.0 && a.1 < b.1)
  }

  lemma IntLessIsStrictTotalOrder()
    ensures StrictTotalOrder(IntLess)
  {
  }

  lemma PairLessIsStrictTotalOrder()
    ensures StrictTotalOrder(PairLess)
  {
  }
}
