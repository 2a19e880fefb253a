/**
 * `Array.prototype.filter` and what it guarantees: the kept elements are the
 * ones the predicate accepts, in their original order.
 */
module Lists {

  /** `s.filter(f)`. */
  function Filter<T>(s: seq<T>, f: T -> bool): (r: seq<T>)
    ensures |r| <= |s|
    ensures forall i :: 0 <= i < |r| ==> f(r[i])
  {
    if s == [] then []
    else Filter(s[..|s| - 1], f) + (if f(s[|s| - 1]) then [s[|s| - 1]] else [])
  }

  /** `idx` lists strictly increasing positions of `s` that spell out `t`. */
  ghost predicate IndexMap<T>(t: seq<T>, s: seq<T>, idx: seq<nat>) {
    |idx| == |t|
    && (forall k :: 0 <= k < |t| ==> idx[k] < |s| && t[k] == s[idx[k]])
    && (forall k, l :: 0 <= k < l < |t| ==> idx[k] < idx[l])
  }

  /** `t` is `s` with some elements left out and the rest in their order. */
  ghost predicate Subsequence<T>(t: seq<T>, s: seq<T>) {
    exists idx :: IndexMap(t, s, idx)
  }

  lemma {:induction false} FilterIndices<T>(s: seq<T>, f: T -> bool) returns (idx: seq<nat>)
    ensures IndexMap(Filter(s, f), s, idx)
    ensures forall k :: 0 <= k < |idx| ==> idx[k] < |s|
  {
    if s == [] {
      idx := [];
    } else {
      var p := s[..|s| - 1];
      var q := FilterIndices(p, f);
      if f(s[|s| - 1]) {
        idx := q + [|s| - 1];
      } else {
        idx := q;
      }
    }
  }

  /** Filtering keeps the order of what it keeps. */
  lemma FilterSubsequence<T>(s: seq<T>, f: T -> bool)
    ensures Subsequence(Filter(s, f), s)
  {
    var idx := FilterIndices(s, f);
  }

  lemma SubsequenceRefl<T>(s: seq<T>)
    ensures Subsequence(s, s)
  {
    var idx := seq(|s|, k => k);
    assert IndexMap(s, s, idx);
  }

  lemma SubsequenceTrans<T>(a: seq<T>, b: seq<T>, c: seq<T>)
    requires Subsequence(a, b) && Subsequence(b, c)
    ensures Subsequence(a, c)
  {
    var ab :| IndexMap(a, b, ab);
    var bc :| IndexMap(b, c, bc);
    var ac := seq(|a|, k requires 0 <= k < |a| => bc[ab[k]]);
    assert IndexMap(a, c, ac);
  }

  /** An element survives filtering exactly when it was there and the predicate accepts it. */
  lemma {:induction false} FilterMember<T>(s: seq<T>, f: T -> bool, x: T)
    ensures x in Filter(s, f) <==> x in s && f(x)
  {
    if s != [] {
      var p := s[..|s| - 1];
      FilterMember(p, f, x);
      assert s == p + [s[|s| - 1]];
    }
  }

  /** Filtering with a predicate that holds everywhere in `s` gives `s` back. */
  lemma {:induction false} FilterKeepsAll<T>(s: seq<T>, f: T -> bool)
    requires forall i :: 0 <= i < |s| ==> f(s[i])
    ensures Filter(s, f) == s
  {
    if s != [] {
      FilterKeepsAll(s[..|s| - 1], f);
    }
  }

  /** Two filters in a row are one filter by the conjunction. */
  lemma {:induction false} FilterFilter<T>(s: seq<T>, f: T -> bool, g: T -> bool)
    ensures Filter(Filter(s, f), g) == Filter(s, x => f(x) && g(x))
  {
    if s != [] {
      var p, last := s[..|s| - 1], s[|s| - 1];
      FilterFilter(p, f, g);
      var fp := Filter(p, f);
      if f(last) {
        assert Filter(s, f) == fp + [last];
        assert (fp + [last])[..|fp|] == fp;
      } else {
        assert Filter(s, f) == fp;
      }
    }
  }

  /** Filtering never adds an element or repeats one. */
  lemma {:induction false} FilterMultiset<T>(s: seq<T>, f: T -> bool)
    ensures multiset(Filter(s, f)) <= multiset(s)
  {
    if s != [] {
      var p := s[..|s| - 1];
      FilterMultiset(p, f);
      assert s == p + [s[|s| - 1]];
    }
  }

  /** Each kept value occurs as often as in `s`; a rejected one not at all. */
  lemma {:induction false} FilterCount<T>(s: seq<T>, f: T -> bool, x: T)
    ensures multiset(Filter(s, f))[x] == if f(x) then multiset(s)[x] else 0
  {
    if s != [] {
      var p := s[..|s| - 1];
      FilterCount(p, f, x);
      assert s == p + [s[|s| - 1]];
    }
  }
}
