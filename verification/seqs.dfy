/** Sequence operations the model uses in more than one place: the
    order-preserving filter (JavaScript's `Array.prototype.filter`, a MongoDB
    equality match over a collection in natural order) and the descending sort
    on an integer key (MongoDB's `sort({ key: -1 })`). */
module Seqs {

  /** The elements of `s` that satisfy `keep`, in their original order. */
  function Filter<T>(s: seq<T>, keep: T -> bool): (r: seq<T>)
    ensures |r| <= |s|
    decreases |s|
  {
    if |s| == 0 then []
    else if keep(s[|s| - 1]) then Filter(s[..|s| - 1], keep) + [s[|s| - 1]]
    else Filter(s[..|s| - 1], keep)
  }

  /** A value is in the filter's result exactly when it is in the input and kept. */
  lemma {:induction false} FilterMembers<T>(s: seq<T>, keep: T -> bool, x: T)
    ensures x in Filter(s, keep) <==> x in s && keep(x)
    decreases |s|
  {
    if |s| > 0 {
      var init, last := s[..|s| - 1], s[|s| - 1];
      assert s == init + [last];
      FilterMembers(init, keep, x);
    }
  }

  /** Appending one element extends the filter by that element exactly when it is kept. */
  lemma FilterAppend<T>(s: seq<T>, x: T, keep: T -> bool)
    ensures Filter(s + [x], keep) == if keep(x) then Filter(s, keep) + [x] else Filter(s, keep)
  {
    assert (s + [x])[..|s|] == s;
  }

  /** A filter keeps every element when every element is kept. */
  lemma {:induction false} FilterKeepsAll<T>(s: seq<T>, keep: T -> bool)
    requires forall i :: 0 <= i < |s| ==> keep(s[i])
    ensures Filter(s, keep) == s
    decreases |s|
  {
    if |s| > 0 {
      FilterKeepsAll(s[..|s| - 1], keep);
      assert s == s[..|s| - 1] + [s[|s| - 1]];
    }
  }

  /** A filter keeps nothing when no element is kept. */
  lemma {:induction false} FilterKeepsNone<T>(s: seq<T>, keep: T -> bool)
    requires forall i :: 0 <= i < |s| ==> !keep(s[i])
    ensures Filter(s, keep) == []
    decreases |s|
  {
    if |s| > 0 {
      FilterKeepsNone(s[..|s| - 1], keep);
    }
  }

  /** Every element of a filter's result satisfies a property that every
      element of its input satisfies. */
  lemma {:induction false} FilterKeepsProperty<T>(s: seq<T>, keep: T -> bool, p: T -> bool)
    requires forall i :: 0 <= i < |s| ==> p(s[i])
    ensures forall i :: 0 <= i < |Filter(s, keep)| ==> p(Filter(s, keep)[i])
    decreases |s|
  {
    if |s| > 0 {
      FilterKeepsProperty(s[..|s| - 1], keep, p);
    }
  }

  /** Filtering twice by the same test is filtering once. */
  lemma FilterIdempotent<T>(s: seq<T>, keep: T -> bool)
    ensures Filter(Filter(s, keep), keep) == Filter(s, keep)
  {
    var r := Filter(s, keep);
    forall i | 0 <= i < |r| ensures keep(r[i]) {
      FilterMembers(s, keep, r[i]);
    }
    FilterKeepsAll(r, keep);
  }

  /** A filter neither drops nor duplicates: each kept value occurs in the result
      exactly as often as in the input, and no other value occurs at all. */
  lemma {:induction false} FilterCounts<T>(s: seq<T>, keep: T -> bool, x: T)
    ensures multiset(Filter(s, keep))[x] == if keep(x) then multiset(s)[x] else 0
    decreases |s|
  {
    if |s| > 0 {
      var init, last := s[..|s| - 1], s[|s| - 1];
      assert s == init + [last];
      FilterCounts(init, keep, x);
    }
  }

  /** `idx` witnesses that `a` is an order-preserving subsequence of `b`: `a[k]`
      sits at position `idx[k]` of `b`, and the positions strictly increase. */
  ghost predicate EmbedsVia<T>(a: seq<T>, b: seq<T>, idx: seq<int>) {
    && |idx| == |a|
    && (forall k :: 0 <= k < |idx| ==> 0 <= idx[k] < |b| && a[k] == b[idx[k]])
    && (forall k, l :: 0 <= k < l < |idx| ==> idx[k] < idx[l])
  }

  ghost predicate IsSubsequence<T>(a: seq<T>, b: seq<T>) {
    exists idx :: EmbedsVia(a, b, idx)
  }

  /** The positions of `s` whose element the filter keeps, in increasing order. */
  function KeptPositions<T>(s: seq<T>, keep: T -> bool): (idx: seq<int>)
    ensures forall k :: 0 <= k < |idx| ==> 0 <= idx[k] < |s|
    decreases |s|
  {
    if |s| == 0 then []
    else if keep(s[|s| - 1]) then KeptPositions(s[..|s| - 1], keep) + [|s| - 1]
    else KeptPositions(s[..|s| - 1], keep)
  }

  /** The filter's result is an order-preserving subsequence of its input. */
  lemma {:induction false} FilterIsSubsequence<T>(s: seq<T>, keep: T -> bool)
    ensures EmbedsVia(Filter(s, keep), s, KeptPositions(s, keep))
    ensures IsSubsequence(Filter(s, keep), s)
    decreases |s|
  {
    if |s| > 0 {
      var init, last := s[..|s| - 1], s[|s| - 1];
      assert s == init + [last];
      FilterIsSubsequence(init, keep);
    }
  }

  /** `s` is ordered with non-increasing `key`: largest key first. */
  ghost predicate SortedDesc<T>(s: seq<T>, key: T -> int) {
    forall i, j :: 0 <= i < j < |s| ==> key(s[i]) >= key(s[j])
  }

  /** A bound on every key of `u` holds of every key of a permutation of `u`. */
  lemma KeyBoundCarries<T>(t: seq<T>, u: seq<T>, key: T -> int, b: int)
    requires multiset(t) == multiset(u)
    requires forall k :: 0 <= k < |u| ==> key(u[k]) <= b
    ensures forall k :: 0 <= k < |t| ==> key(t[k]) <= b
  {
    forall k | 0 <= k < |t|
      ensures key(t[k]) <= b
    {
      assert t[k] in multiset(u);
      var j :| 0 <= j < |u| && u[j] == t[k];
    }
  }

  /** A head whose key is at least every key of a descending tail keeps it descending. */
  lemma ConsSortedDesc<T>(h: T, t: seq<T>, key: T -> int)
    requires SortedDesc(t, key)
    requires forall k :: 0 <= k < |t| ==> key(t[k]) <= key(h)
    ensures SortedDesc([h] + t, key)
  {
    var r := [h] + t;
    forall i, j | 0 <= i < j < |r|
      ensures key(r[i]) >= key(r[j])
    {
      assert r[j] == t[j - 1];
      if i > 0 {
        assert r[i] == t[i - 1];
      }
    }
  }

  /** Places `x` into the descending sequence `s` ahead of the first element
      whose key is not larger than its own. */
  function InsertDesc<T>(x: T, s: seq<T>, key: T -> int): (r: seq<T>)
    requires SortedDesc(s, key)
    ensures SortedDesc(r, key)
    ensures multiset(r) == multiset(s) + multiset{x}
    decreases |s|
  {
    if |s| == 0 || key(x) >= key(s[0]) then
      [x] + s
    else
      var rest := InsertDesc(x, s[1..], key);
      assert s == [s[0]] + s[1..];
      KeyBoundCarries(rest, s[1..] + [x], key, key(s[0]));
      ConsSortedDesc(s[0], rest, key);
      [s[0]] + rest
  }

  /** `s` reordered by descending `key`. */
  function SortDesc<T>(s: seq<T>, key: T -> int): (r: seq<T>)
    ensures SortedDesc(r, key)
    ensures multiset(r) == multiset(s)
    decreases |s|
  {
    if |s| == 0 then []
    else
      assert s == [s[0]] + s[1..];
      InsertDesc(s[0], SortDesc(s[1..], key), key)
  }

  /** In a descending sequence, an element whose key beats every other
      element's key comes first. */
  lemma StrictMaxComesFirst<T>(r: seq<T>, key: T -> int, x: T)
    requires SortedDesc(r, key)
    requires x in r
    requires forall y :: y in r && y != x ==> key(y) < key(x)
    ensures r[0] == x
  {
    var i :| 0 <= i < |r| && r[i] == x;
    assert key(r[0]) >= key(r[i]) || i == 0;
  }
}
