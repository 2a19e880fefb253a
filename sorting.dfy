/**
 * Stable descending sort by a lexicographic rank.  The browser's
 * `Array.prototype.sort` is stable (ECMA-262, 2019 edition, section 22.1.3.27),
 * and an SQL `ORDER BY a DESC, b DESC` is modelled by the same sort with rows
 * compared on (a, b) and ties left in table order.
 *
 * SortDesc is the specification: insertion of each element, in input order,
 * after every element that does not rank below it.  SortInPlace is the
 * in-place array algorithm, proved to compute SortDesc.
 */
module Sorting {

  /** Compared on `primary` first and on `secondary` among equal primaries. */
  datatype Rank = Rank(primary: int, secondary: int)

  /** `a` ranks strictly below `b`. */
  predicate Below(a: Rank, b: Rank) {
    a.primary < b.primary || (a.primary == b.primary && a.secondary < b.secondary)
  }

  /** No element ranks below a later one. */
  predicate SortedDesc<T>(s: seq<T>, key: T -> Rank) {
    forall i, j :: 0 <= i < j < |s| ==> !Below(key(s[i]), key(s[j]))
  }

  /** The elements of `s` whose rank is exactly `r`, in their order in `s`. */
  function WithRank<T>(s: seq<T>, key: T -> Rank, r: Rank): (t: seq<T>)
    ensures forall i :: 0 <= i < |t| ==> key(t[i]) == r
    ensures |t| <= |s|
  {
    if s == [] then []
    else WithRank(s[..|s| - 1], key, r) + (if key(s[|s| - 1]) == r then [s[|s| - 1]] else [])
  }

  /** `x` placed after every element of `s` that does not rank below it, found from the end. */
  function Insert<T>(s: seq<T>, x: T, key: T -> Rank): seq<T>
  {
    if s == [] || !Below(key(s[|s| - 1]), key(x)) then s + [x]
    else Insert(s[..|s| - 1], x, key) + [s[|s| - 1]]
  }

  /** The stable descending sort of `s`. */
  function SortDesc<T>(s: seq<T>, key: T -> Rank): seq<T>
  {
    if s == [] then [] else Insert(SortDesc(s[..|s| - 1], key), s[|s| - 1], key)
  }

  // ---------------------------------------------------------------------------
  // Properties of the specification
  // ---------------------------------------------------------------------------

  lemma {:induction false} InsertPermutes<T>(s: seq<T>, x: T, key: T -> Rank)
    ensures multiset(Insert(s, x, key)) == multiset(s) + multiset{x}
  {
    if s != [] && Below(key(s[|s| - 1]), key(x)) {
      InsertPermutes(s[..|s| - 1], x, key);
      assert s == s[..|s| - 1] + [s[|s| - 1]];
    }
  }

  /** Insert puts `x` at some index `j`, past elements that all rank below it. */
  lemma {:induction false} InsertShape<T>(s: seq<T>, x: T, key: T -> Rank) returns (j: nat)
    ensures j <= |s| && |Insert(s, x, key)| == |s| + 1
    ensures forall k :: 0 <= k < j ==> Insert(s, x, key)[k] == s[k]
    ensures Insert(s, x, key)[j] == x
    ensures forall k :: j < k <= |s| ==> Insert(s, x, key)[k] == s[k - 1]
    ensures forall k :: j <= k < |s| ==> Below(key(s[k]), key(x))
    ensures j > 0 ==> !Below(key(s[j - 1]), key(x))
  {
    if s == [] || !Below(key(s[|s| - 1]), key(x)) {
      j := |s|;
    } else {
      var p := s[..|s| - 1];
      j := InsertShape(p, x, key);
      var t := Insert(p, x, key);
      assert Insert(s, x, key) == t + [s[|s| - 1]];
    }
  }

  lemma InsertSorted<T>(s: seq<T>, x: T, key: T -> Rank)
    requires SortedDesc(s, key)
    ensures SortedDesc(Insert(s, x, key), key)
  {
    var j := InsertShape(s, x, key);
    var t := Insert(s, x, key);
    forall a, b | 0 <= a < b < |t|
      ensures !Below(key(t[a]), key(t[b]))
    {
      if b == j {
        assert !Below(key(s[a]), key(s[j - 1]));
      }
    }
  }

  lemma {:induction false} InsertKeepsRank<T>(s: seq<T>, x: T, key: T -> Rank, r: Rank)
    ensures WithRank(Insert(s, x, key), key, r) == WithRank(s, key, r) + (if key(x) == r then [x] else [])
  {
    if s == [] || !Below(key(s[|s| - 1]), key(x)) {
      assert (s + [x])[..|s|] == s;
    } else {
      var p, last := s[..|s| - 1], s[|s| - 1];
      InsertKeepsRank(p, x, key, r);
      var t := Insert(p, x, key) + [last];
      assert t[..|t| - 1] == Insert(p, x, key);
      assert WithRank(t, key, r) == WithRank(Insert(p, x, key), key, r) + (if key(last) == r then [last] else []);
      assert WithRank(s, key, r) == WithRank(p, key, r) + (if key(last) == r then [last] else []);
      if key(x) == r {
        assert key(last) != r;
      } else {
        assert WithRank(Insert(p, x, key), key, r) == WithRank(p, key, r);
      }
    }
  }

  /** SortDesc orders its input from highest to lowest rank. */
  lemma {:induction false} SortDescSorted<T>(s: seq<T>, key: T -> Rank)
    ensures SortedDesc(SortDesc(s, key), key)
  {
    if s != [] {
      SortDescSorted(s[..|s| - 1], key);
      InsertSorted(SortDesc(s[..|s| - 1], key), s[|s| - 1], key);
    }
  }

  /** SortDesc only reorders. */
  lemma {:induction false} SortDescPermutes<T>(s: seq<T>, key: T -> Rank)
    ensures multiset(SortDesc(s, key)) == multiset(s)
  {
    if s != [] {
      SortDescPermutes(s[..|s| - 1], key);
      InsertPermutes(SortDesc(s[..|s| - 1], key), s[|s| - 1], key);
      assert s == s[..|s| - 1] + [s[|s| - 1]];
    }
  }

  /** Stability: elements of equal rank keep their relative order. */
  lemma {:induction false} SortDescStable<T>(s: seq<T>, key: T -> Rank, r: Rank)
    ensures WithRank(SortDesc(s, key), key, r) == WithRank(s, key, r)
  {
    if s != [] {
      SortDescStable(s[..|s| - 1], key, r);
      InsertKeepsRank(SortDesc(s[..|s| - 1], key), s[|s| - 1], key, r);
    }
  }

  /** An input that is already in order comes back unchanged. */
  lemma {:induction false} SortDescOfSorted<T>(s: seq<T>, key: T -> Rank)
    requires SortedDesc(s, key)
    ensures SortDesc(s, key) == s
  {
    if s != [] {
      var p, last := s[..|s| - 1], s[|s| - 1];
      assert SortedDesc(p, key) by {
        forall i, j | 0 <= i < j < |p| ensures !Below(key(p[i]), key(p[j])) {
          assert p[i] == s[i] && p[j] == s[j];
        }
      }
      SortDescOfSorted(p, key);
      if p != [] {
        assert p[|p| - 1] == s[|s| - 2];
        assert !Below(key(p[|p| - 1]), key(last));
      }
      assert Insert(p, last, key) == p + [last];
      assert s == p + [last];
    }
  }

  // ---------------------------------------------------------------------------
  // The in-place algorithm
  // ---------------------------------------------------------------------------

  /** Insertion sort of `a` in place, as the browser's stable sort with comparator `key(b) - key(a)`. */
  method SortInPlace<T>(a: array<T>, key: T -> Rank)
    modifies a
    ensures a[..] == SortDesc(old(a[..]), key)
  {
    ghost var input := a[..];
    var i := 0;
    while i < a.Length
      invariant 0 <= i <= a.Length
      invariant a[..i] == SortDesc(input[..i], key)
      invariant a[i..] == input[i..]
    {
      assert input[..i + 1][..i] == input[..i];
      assert a[i] == input[i];
      InsertLast(a, i, key);
      i := i + 1;
    }
    assert a[..] == a[..a.Length];
    assert input == input[..a.Length];
  }

  /**
   * The state of InsertLast's loop: `x` has been moved past the elements of
   * `sorted` from `j` on, which sit one place further right, and the gap is at `j`.
   */
  ghost predicate Shifted<T>(cur: seq<T>, sorted: seq<T>, after: seq<T>, x: T, key: T -> Rank, j: nat)
  {
    && j <= |sorted| && |cur| == |sorted| + 1 + |after|
    && cur[..j] == sorted[..j]
    && cur[j + 1..|sorted| + 1] == sorted[j..]
    && cur[|sorted| + 1..] == after
    && Insert(sorted, x, key) == Insert(sorted[..j], x, key) + sorted[j..]
  }

  /** Copying the element left of the gap into it moves the gap one place left. */
  lemma ShiftStep<T>(cur: seq<T>, sorted: seq<T>, after: seq<T>, x: T, key: T -> Rank, j: nat)
    requires Shifted(cur, sorted, after, x, key, j)
    requires j > 0 && Below(key(cur[j - 1]), key(x))
    ensures Shifted(cur[j := cur[j - 1]], sorted, after, x, key, j - 1)
  {
    var next := cur[j := cur[j - 1]];
    var n := |sorted|;
    assert cur[j - 1] == sorted[j - 1];
    assert next[..j - 1] == cur[..j - 1];
    assert next[j..n + 1] == [sorted[j - 1]] + cur[j + 1..n + 1];
    assert next[n + 1..] == cur[n + 1..];
    assert Insert(sorted[..j], x, key) == Insert(sorted[..j - 1], x, key) + [sorted[j - 1]] by {
      assert sorted[..j][..j - 1] == sorted[..j - 1];
    }
    assert sorted[j - 1..] == [sorted[j - 1]] + sorted[j..];
  }

  /** Putting `x` into the gap completes Insert. */
  lemma ShiftDone<T>(cur: seq<T>, sorted: seq<T>, after: seq<T>, x: T, key: T -> Rank, j: nat)
    requires Shifted(cur, sorted, after, x, key, j)
    requires j == 0 || !Below(key(cur[j - 1]), key(x))
    ensures cur[j := x][..|sorted| + 1] == Insert(sorted, x, key)
    ensures cur[j := x][|sorted| + 1..] == after
  {
    var next := cur[j := x];
    var n := |sorted|;
    assert Insert(sorted[..j], x, key) == sorted[..j] + [x] by {
      if j > 0 {
        assert sorted[..j][j - 1] == cur[j - 1];
      }
    }
    assert next[..j] == sorted[..j];
    assert next[j + 1..n + 1] == sorted[j..];
    assert next[..n + 1] == next[..j] + [x] + next[j + 1..n + 1];
    assert next[n + 1..] == cur[n + 1..];
  }

  /** Moves `a[i]` back into the sorted prefix `a[..i]`: one step of the insertion sort. */
  method InsertLast<T>(a: array<T>, i: nat, key: T -> Rank)
    requires i < a.Length
    modifies a
    ensures a[..i + 1] == Insert(old(a[..i]), old(a[i]), key)
    ensures a[i + 1..] == old(a[i + 1..])
  {
    ghost var sorted := a[..i];
    ghost var after := a[i + 1..];
    var x := a[i];
    var j := i;
    assert a[..][..i] == sorted && a[..][i + 1..i + 1] == [] && a[..][i + 1..] == after;
    while j > 0 && Below(key(a[j - 1]), key(x))
      invariant 0 <= j <= i
      invariant Shifted(a[..], sorted, after, x, key, j)
    {
      ShiftStep(a[..], sorted, after, x, key, j);
      a[j] := a[j - 1];
      j := j - 1;
    }
    ShiftDone(a[..], sorted, after, x, key, j);
    a[j] := x;
    assert a[..][..i + 1] == a[..i + 1] && a[..][i + 1..] == a[i + 1..];
  }
}
