/**
 * A stable descending sort, standing for the library sorts the allocator calls
 * (pandas' sort_values on the package table, Python's sorted on the ULD keys).
 * `atLeast(a, b)` says that a's sort key is at least b's.
 */
module Sorting {

  /** `s` is ordered: each element's key is at least the key of every later element. */
  ghost predicate Descending<T>(s: seq<T>, atLeast: (T, T) -> bool) {
    forall i, j | 0 <= i < j < |s| :: atLeast(s[i], s[j])
  }

  ghost predicate Total<T(!new)>(atLeast: (T, T) -> bool) {
    forall a, b :: atLeast(a, b) || atLeast(b, a)
  }

  ghost predicate Transitive<T(!new)>(atLeast: (T, T) -> bool) {
    forall a, b, c :: atLeast(a, b) && atLeast(b, c) ==> atLeast(a, c)
  }

  /** Puts `x` in front of the first element whose key does not exceed x's. */
  function Insert<T>(x: T, s: seq<T>, atLeast: (T, T) -> bool): (r: seq<T>)
    ensures multiset(r) == multiset(s) + multiset{x}
    ensures |r| == |s| + 1
  {
    if s == [] || atLeast(x, s[0]) then [x] + s
    else
      assert s == [s[0]] + s[1..];
      [s[0]] + Insert(x, s[1..], atLeast)
  }

  /** Sorts by descending key; elements with equal keys keep their input order. */
  function SortDescending<T>(s: seq<T>, atLeast: (T, T) -> bool): (r: seq<T>)
    ensures multiset(r) == multiset(s)
    ensures |r| == |s|
  {
    if s == [] then []
    else
      assert s == [s[0]] + s[1..];
      Insert(s[0], SortDescending(s[1..], atLeast), atLeast)
  }

  lemma {:induction false} InsertDescending<T(!new)>(x: T, s: seq<T>, atLeast: (T, T) -> bool)
    requires Total(atLeast) && Transitive(atLeast)
    requires Descending(s, atLeast)
    ensures Descending(Insert(x, s, atLeast), atLeast)
  {
    if s == [] || atLeast(x, s[0]) {
    } else {
      var tail := Insert(x, s[1..], atLeast);
      InsertDescending(x, s[1..], atLeast);
      assert atLeast(s[0], x);
      forall k | 0 <= k < |tail| ensures atLeast(s[0], tail[k]) {
        assert tail[k] in multiset(tail);
        assert tail[k] == x || tail[k] in multiset(s[1..]);
        if tail[k] != x {
          var m :| 0 <= m < |s[1..]| && s[1..][m] == tail[k];
          assert s[m + 1] == tail[k];
        }
      }
    }
  }

  /** The sort yields a permutation of its input ordered by descending key. */
  lemma {:induction false} SortDescendingIsSorted<T(!new)>(s: seq<T>, atLeast: (T, T) -> bool)
    requires Total(atLeast) && Transitive(atLeast)
    ensures Descending(SortDescending(s, atLeast), atLeast)
    ensures multiset(SortDescending(s, atLeast)) == multiset(s)
  {
    if s != [] {
      SortDescendingIsSorted(s[1..], atLeast);
      InsertDescending(s[0], SortDescending(s[1..], atLeast), atLeast);
    }
  }

  /** Where Insert puts `x`: in front of the first element whose key x's key reaches. */
  function InsertionPoint<T>(x: T, s: seq<T>, atLeast: (T, T) -> bool): (k: nat)
    ensures k <= |s|
    ensures forall m | 0 <= m < k :: !atLeast(x, s[m])
    ensures k < |s| ==> atLeast(x, s[k])
  {
    if s == [] || atLeast(x, s[0]) then 0
    else
      var k := InsertionPoint(x, s[1..], atLeast);
      assert forall m | 1 <= m < k + 1 :: s[m] == s[1..][m - 1];
      k + 1
  }

  /** Insert splices `x` in at its insertion point and leaves the other elements in order. */
  lemma {:induction false} InsertSplices<T>(x: T, s: seq<T>, atLeast: (T, T) -> bool)
    ensures var k, r := InsertionPoint(x, s, atLeast), Insert(x, s, atLeast);
      && r[k] == x
      && (forall m | 0 <= m < k :: r[m] == s[m])
      && (forall m | k <= m < |s| :: r[m + 1] == s[m])
  {
    if s != [] && !atLeast(x, s[0]) {
      InsertSplices(x, s[1..], atLeast);
      var k := InsertionPoint(x, s[1..], atLeast);
      var r := Insert(x, s, atLeast);
      assert r == [s[0]] + Insert(x, s[1..], atLeast);
      assert forall m | 1 <= m <= |s| :: r[m] == Insert(x, s[1..], atLeast)[m - 1];
      assert forall m | 1 <= m < |s| :: s[m] == s[1..][m - 1];
    }
  }

  /** The sort output holds the same elements as its input. */
  lemma SortKeepsElements<T>(s: seq<T>, atLeast: (T, T) -> bool, j: int) returns (m: int)
    requires 0 <= j < |s|
    ensures 0 <= m < |s| && SortDescending(s, atLeast)[m] == s[j]
  {
    var r := SortDescending(s, atLeast);
    assert s[j] in multiset(s);
    assert s[j] in multiset(r);
    m :| 0 <= m < |r| && r[m] == s[j];
  }

  /** Some occurrence of `x` in `r` comes before some occurrence of `y`. */
  ghost predicate Before<T>(r: seq<T>, x: T, y: T) {
    exists p, q | 0 <= p < q < |r| :: r[p] == x && r[q] == y
  }

  /**
   * The sort is stable: of two elements with equal keys, the one earlier in the input
   * is also earlier in the output.
   */
  lemma {:induction false} SortDescendingIsStable<T>(s: seq<T>, atLeast: (T, T) -> bool, i: int, j: int)
    requires 0 <= i < j < |s|
    requires atLeast(s[i], s[j]) && atLeast(s[j], s[i])
    ensures Before(SortDescending(s, atLeast), s[i], s[j])
  {
    var tail := SortDescending(s[1..], atLeast);
    var k := InsertionPoint(s[0], tail, atLeast);
    var r := SortDescending(s, atLeast);
    assert r == Insert(s[0], tail, atLeast);
    InsertSplices(s[0], tail, atLeast);
    assert s[1..][j - 1] == s[j];
    if i == 0 {
      var m := SortKeepsElements(s[1..], atLeast, j - 1);
      assert k <= m;
      assert 0 <= k < m + 1 < |r| && r[k] == s[i] && r[m + 1] == s[j];
    } else {
      assert s[1..][i - 1] == s[i];
      SortDescendingIsStable(s[1..], atLeast, i - 1, j - 1);
      var p, q :| 0 <= p < q < |tail| && tail[p] == s[i] && tail[q] == s[j];
      assert p < k ==> r[p] == tail[p];
      assert p >= k ==> r[p + 1] == tail[p];
      assert q < k ==> r[q] == tail[q];
      assert q >= k ==> r[q + 1] == tail[q];
      var p' := if p < k then p else p + 1;
      var q' := if q < k then q else q + 1;
      assert 0 <= p' < q' < |r| && r[p'] == s[i] && r[q'] == s[j];
    }
  }
}
