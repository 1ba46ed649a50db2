/** Optional values, used wherever a document field may be absent. */
module Wrappers {
  datatype Option<+T> = None | Some(value: T)
}

/**
 * Generic query combinators shared by the document stores: a filter that
 * keeps storage order, a stable sort by an integer key, the MongoDB `limit`
 * cursor modifier and the index of the first matching element.
 */
module Seqs {
  import opened Wrappers

  /** The elements of `s` satisfying `p`, in their original order. */
  function Filter<T(==,!new)>(s: seq<T>, p: T -> bool): (r: seq<T>)
    ensures |r| <= |s|
    ensures forall x :: x in r <==> x in s && p(x)
    ensures forall i :: 0 <= i < |r| ==> p(r[i])
    ensures multiset(r) <= multiset(s)
    decreases |s|
  {
    if s == [] then []
    else
      assert s == [s[0]] + s[1..];
      if p(s[0]) then [s[0]] + Filter(s[1..], p) else Filter(s[1..], p)
  }

  ghost predicate SortedBy<T>(s: seq<T>, key: T -> int) {
    forall i, j :: 0 <= i < j < |s| ==> key(s[i]) <= key(s[j])
  }

  /** Prepending an element no larger than the rest keeps a sequence sorted. */
  lemma ConsSorted<T>(h: T, t: seq<T>, key: T -> int)
    requires SortedBy(t, key)
    requires forall k :: 0 <= k < |t| ==> key(h) <= key(t[k])
    ensures SortedBy([h] + t, key)
  {
    var r := [h] + t;
    forall i, j | 0 <= i < j < |r| ensures key(r[i]) <= key(r[j]) {
      assert r[j] == t[j - 1];
      if i > 0 {
        assert r[i] == t[i - 1];
      }
    }
  }

  /**
   * Every element of a permutation of `s[1..]` plus `x` has a key no
   * smaller than the head of the sorted `s`, when `x`'s key is larger.
   */
  lemma AboveHead<T>(x: T, s: seq<T>, key: T -> int, tail: seq<T>)
    requires SortedBy(s, key) && s != [] && key(s[0]) < key(x)
    requires multiset(tail) == multiset(s[1..]) + multiset{x}
    ensures forall k :: 0 <= k < |tail| ==> key(s[0]) <= key(tail[k])
  {
    forall k | 0 <= k < |tail| ensures key(s[0]) <= key(tail[k]) {
      assert tail[k] in multiset(tail);
      if tail[k] != x {
        assert tail[k] in multiset(s[1..]);
        var j :| 0 <= j < |s[1..]| && s[1..][j] == tail[k];
        assert s[j + 1] == tail[k];
      }
    }
  }

  /** Inserts `x` into the sorted `s` after every element whose key is smaller. */
  function Insert<T(==)>(x: T, s: seq<T>, key: T -> int): (r: seq<T>)
    requires SortedBy(s, key)
    ensures SortedBy(r, key)
    ensures multiset(r) == multiset(s) + multiset{x}
    decreases |s|
  {
    if s == [] then [x]
    else if key(x) <= key(s[0]) then
      ConsSorted(x, s, key);
      [x] + s
    else
      var tail := Insert(x, s[1..], key);
      assert s == [s[0]] + s[1..];
      AboveHead(x, s, key, tail);
      ConsSorted(s[0], tail, key);
      [s[0]] + tail
  }

  /** Filtering keeps a sorted sequence sorted. */
  lemma {:induction false} FilterSorted<T(!new)>(s: seq<T>, p: T -> bool, key: T -> int)
    requires SortedBy(s, key)
    ensures SortedBy(Filter(s, p), key)
    decreases |s|
  {
    if s != [] {
      assert s == [s[0]] + s[1..];
      var rest := Filter(s[1..], p);
      FilterSorted(s[1..], p, key);
      if p(s[0]) {
        forall k | 0 <= k < |rest| ensures key(s[0]) <= key(rest[k]) {
          assert rest[k] in rest;
          var j :| 0 <= j < |s[1..]| && s[1..][j] == rest[k];
          assert s[j + 1] == rest[k];
        }
        ConsSorted(s[0], rest, key);
      }
    }
  }

  /** Filtering keeps every occurrence of an element that passes and none of one that does not. */
  lemma {:induction false} FilterCount<T(!new)>(s: seq<T>, p: T -> bool, x: T)
    ensures multiset(Filter(s, p))[x] == if p(x) then multiset(s)[x] else 0
    decreases |s|
  {
    if s != [] {
      assert s == [s[0]] + s[1..];
      FilterCount(s[1..], p, x);
    }
  }

  /** A stable insertion sort: the result is ordered by `key` and is a permutation of `s`. */
  function SortBy<T(==)>(s: seq<T>, key: T -> int): (r: seq<T>)
    ensures SortedBy(r, key)
    ensures multiset(r) == multiset(s)
    ensures |r| == |s|
    decreases |s|
  {
    if s == [] then []
    else
      assert s == [s[0]] + s[1..];
      var r := Insert(s[0], SortBy(s[1..], key), key);
      assert |r| == |multiset(r)|;
      r
  }

  /** Membership is unchanged by sorting. */
  lemma SortByMembers<T>(s: seq<T>, key: T -> int)
    ensures forall x :: x in SortBy(s, key) <==> x in s
  {
    forall x ensures x in SortBy(s, key) <==> x in s {
      assert x in multiset(SortBy(s, key)) <==> x in multiset(s);
    }
  }

  function Min(a: int, b: int): int { if a <= b then a else b }

  /**
   * The MongoDB cursor `limit(n)`: zero means no limit and a negative
   * limit behaves like its absolute value.
   */
  function Limit<T>(s: seq<T>, n: int): (r: seq<T>)
    ensures n == 0 ==> r == s
    ensures n != 0 ==> |r| == Min(if n < 0 then -n else n, |s|)
    ensures r == s[..|r|]
  {
    if n == 0 then s else s[..Min(if n < 0 then -n else n, |s|)]
  }

  /**
   * Limiting a sorted sequence keeps the smallest keys: whatever the limit
   * cuts off has a key no smaller than any key it keeps.
   */
  lemma LimitKeepsSmallest<T>(t: seq<T>, key: T -> int, n: int)
    requires SortedBy(t, key)
    ensures forall x, y :: x in t && x !in Limit(t, n) && y in Limit(t, n) ==> key(y) <= key(x)
  {
    var r := Limit(t, n);
    forall x, y | x in t && x !in r && y in r ensures key(y) <= key(x) {
      var j :| 0 <= j < |t| && t[j] == x;
      var i :| 0 <= i < |r| && r[i] == y;
      assert r[i] == t[i];
    }
  }

  /** A prefix holds no element more often than the whole sequence does. */
  lemma PrefixMultiset<T>(t: seq<T>, k: nat)
    requires k <= |t|
    ensures multiset(t[..k]) <= multiset(t)
  {
    assert t == t[..k] + t[k..];
  }

  /** The number of results a cursor limit allows, `n == 0` meaning all of them. */
  function LimitCount(n: int, available: nat): nat {
    if n == 0 then available else Min(if n < 0 then -n else n, available)
  }

  /**
   * The elements of `s` in ascending key order, at most `n` of them (all of
   * them when `n == 0`): the ones kept have keys no larger than the ones cut.
   */
  function SortedLimit<T(==)>(s: seq<T>, key: T -> int, n: int): (r: seq<T>)
    ensures forall x :: x in r ==> x in s
    ensures SortedBy(r, key)
    ensures |r| == LimitCount(n, |s|)
    ensures n == 0 ==> forall x :: x in s ==> x in r
    ensures forall x, y :: x in s && x !in r && y in r ==> key(y) <= key(x)
    ensures multiset(r) <= multiset(s)
  {
    var sorted := SortBy(s, key);
    SortByMembers(s, key);
    LimitKeepsSmallest(sorted, key, n);
    var r := Limit(sorted, n);
    PrefixMultiset(sorted, |r|);
    r
  }

  /** The index of the first element of `s` satisfying `p`, if any. */
  function FirstIndex<T>(s: seq<T>, p: T -> bool): (r: Option<nat>)
    ensures r.None? <==> forall i :: 0 <= i < |s| ==> !p(s[i])
    ensures r.Some? ==> r.value < |s| && p(s[r.value])
    ensures r.Some? ==> forall j :: 0 <= j < r.value ==> !p(s[j])
    decreases |s|
  {
    if s == [] then None
    else if p(s[0]) then Some(0)
    else
      match FirstIndex(s[1..], p)
      case None => None
      case Some(k) => Some(k + 1)
  }
}
