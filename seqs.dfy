/** Sequence operations behind the program's array handling: `filter`, `slice`, stable sorts. */
module Seqs {
  /** `s.filter(p)`: the items satisfying `p`, in their original order. */
  function Filter<T>(s: seq<T>, p: T -> bool): (r: seq<T>)
    ensures |r| <= |s|
    ensures forall i :: 0 <= i < |r| ==> p(r[i]) && r[i] in s
    ensures forall i :: 0 <= i < |s| && p(s[i]) ==> s[i] in r
  {
    if s == [] then [] else (if p(s[0]) then [s[0]] else []) + Filter(s[1..], p)
  }

  /** Filtering keeps exactly the satisfying part of the multiset. */
  lemma {:induction false} FilterSplitsMultiset<T>(s: seq<T>, p: T -> bool)
    ensures multiset(Filter(s, p)) + multiset(Filter(s, x => !p(x))) == multiset(s)
  {
    if s != [] {
      var q := x => !p(x);
      var t := s[1..];
      FilterSplitsMultiset(t, p);
      assert s == [s[0]] + t;
      assert multiset(s) == multiset{s[0]} + multiset(t);
      if p(s[0]) {
        assert Filter(s, p) == [s[0]] + Filter(t, p) && Filter(s, q) == Filter(t, q);
      } else {
        assert Filter(s, p) == Filter(t, p) && Filter(s, q) == [s[0]] + Filter(t, q);
      }
    }
  }

  /** Filtering a concatenation filters each part. */
  lemma {:induction false} FilterConcat<T>(a: seq<T>, b: seq<T>, p: T -> bool)
    ensures Filter(a + b, p) == Filter(a, p) + Filter(b, p)
  {
    if a != [] {
      FilterConcat(a[1..], b, p);
      assert (a + b)[1..] == a[1..] + b;
    } else {
      assert a + b == b;
    }
  }

  /** Filtering by a test every item passes keeps everything. */
  lemma {:induction false} FilterAll<T>(s: seq<T>, p: T -> bool)
    requires forall i :: 0 <= i < |s| ==> p(s[i])
    ensures Filter(s, p) == s
  {
    if s != [] {
      FilterAll(s[1..], p);
      assert s == [s[0]] + s[1..];
    }
  }

  /** What a stable `sort` with a comparator on a two-valued key produces: the items with the key
      first, each group in its original order. */
  function KeyFirst<T>(s: seq<T>, p: T -> bool): (r: seq<T>)
    ensures |r| == |s|
  {
    FilterSplitsMultiset(s, p);
    assert |multiset(Filter(s, p) + Filter(s, x => !p(x)))| == |multiset(s)|;
    Filter(s, p) + Filter(s, x => !p(x))
  }

  /** The key-first order is a permutation that puts every keyed item before every other one. */
  lemma KeyFirstSorted<T>(s: seq<T>, p: T -> bool)
    ensures multiset(KeyFirst(s, p)) == multiset(s)
    ensures forall i, j :: 0 <= i < j < |s| && p(KeyFirst(s, p)[j]) ==> p(KeyFirst(s, p)[i])
  {
    FilterSplitsMultiset(s, p);
    var a, b := Filter(s, p), Filter(s, x => !p(x));
    var r := KeyFirst(s, p);
    forall i, j | 0 <= i < j < |s| && p(r[j]) ensures p(r[i]) {
      assert r[i] == a[i];
    }
  }

  /** With no item keyed, the key-first order is the original order. */
  lemma KeyFirstNone<T>(s: seq<T>, p: T -> bool)
    requires forall i :: 0 <= i < |s| ==> !p(s[i])
    ensures KeyFirst(s, p) == s
  {
    FilterNone(s, p);
    FilterAll(s, x => !p(x));
  }

  /** Filtering keeps every item exactly when every item passes. */
  lemma {:induction false} FilterKeepsAll<T>(s: seq<T>, p: T -> bool)
    ensures |Filter(s, p)| == |s| <==> forall i :: 0 <= i < |s| ==> p(s[i])
  {
    if s != [] {
      FilterKeepsAll(s[1..], p);
      assert forall i :: 0 < i < |s| ==> s[1..][i - 1] == s[i];
      if forall i :: 0 <= i < |s| ==> p(s[i]) {
        assert forall i :: 0 <= i < |s| - 1 ==> p(s[1..][i]);
      }
    }
  }

  /** Filtering by a test no item passes keeps nothing. */
  lemma {:induction false} FilterNone<T>(s: seq<T>, p: T -> bool)
    requires forall i :: 0 <= i < |s| ==> !p(s[i])
    ensures Filter(s, p) == []
  {
    if s != [] {
      FilterNone(s[1..], p);
    }
  }

  /** An unkeyed item followed by a keyed one swap places. */
  lemma KeyFirstSwap<T>(a: T, b: T, p: T -> bool)
    requires !p(a) && p(b)
    ensures KeyFirst([a, b], p) == [b, a]
  {
    var s := [a, b];
    assert s[1..] == [b] && s[1..][1..] == [];
    assert Filter(s, p) == [b];
    assert Filter(s, x => !p(x)) == [a];
  }

  /** `s.slice(0, n)`. */
  function Take<T>(s: seq<T>, n: nat): (r: seq<T>)
    ensures |r| == if n < |s| then n else |s|
    ensures forall i :: 0 <= i < |r| ==> r[i] == s[i]
  {
    if n < |s| then s[..n] else s
  }

  /** The items are in non-increasing order of `key`. */
  ghost predicate SortedDesc<T>(s: seq<T>, key: T -> int) {
    forall i, j :: 0 <= i < j < |s| ==> key(s[i]) >= key(s[j])
  }

  /** Inserts `x` in front of the first item whose key is not greater, keeping equal keys in
      arrival order. */
  function InsertDesc<T>(x: T, s: seq<T>, key: T -> int): (r: seq<T>)
    requires SortedDesc(s, key)
    ensures SortedDesc(r, key)
    ensures multiset(r) == multiset(s) + multiset{x}
  {
    if s == [] || key(x) >= key(s[0]) then
      ConsSorted(x, s, key);
      [x] + s
    else
      var rest := InsertDesc(x, s[1..], key);
      assert s == [s[0]] + s[1..];
      KeysBounded(x, s[1..], rest, key, key(s[0]));
      ConsSorted(s[0], rest, key);
      [s[0]] + rest
  }

  /** An item whose key is not below the head of a sorted sequence can go in front of it. */
  lemma ConsSorted<T>(h: T, t: seq<T>, key: T -> int)
    requires SortedDesc(t, key) && (t == [] || key(t[0]) <= key(h))
    ensures SortedDesc([h] + t, key)
  {
  }

  /** A rearrangement of `t` with `x` added has no key above a bound that `x` and `t` respect. */
  lemma KeysBounded<T>(x: T, t: seq<T>, rest: seq<T>, key: T -> int, top: int)
    requires multiset(rest) == multiset(t) + multiset{x}
    requires key(x) <= top && forall k :: 0 <= k < |t| ==> key(t[k]) <= top
    ensures forall k :: 0 <= k < |rest| ==> key(rest[k]) <= top
  {
    forall k | 0 <= k < |rest| ensures key(rest[k]) <= top {
      assert rest[k] in multiset(rest);
      if rest[k] != x {
        assert rest[k] in t;
      }
    }
  }

  /** Cutting a sorted sequence short leaves out nothing with a greater key than what it keeps. */
  lemma DroppedNoGreater<T>(s: seq<T>, n: nat, key: T -> int)
    requires SortedDesc(s, key)
    ensures SortedDesc(Take(s, n), key)
    ensures multiset(Take(s, n)) <= multiset(s)
    ensures |s| <= n ==> Take(s, n) == s
    ensures forall x, y :: x in multiset(s) - multiset(Take(s, n)) && y in Take(s, n) ==> key(x) <= key(y)
  {
    if n < |s| {
      var r, rest := s[..n], s[n..];
      assert s == r + rest;
      assert multiset(s) - multiset(r) == multiset(rest);
      forall x, y | x in multiset(rest) && y in r ensures key(x) <= key(y) {
        assert x in rest;
        var j :| 0 <= j < |rest| && rest[j] == x;
        var i :| 0 <= i < |r| && r[i] == y;
        assert s[i] == y && s[n + j] == x;
      }
    }
  }

  /** A stable sort, newest (largest key) first: `sort((a, b) => key(b) - key(a))`. */
  function SortDesc<T>(s: seq<T>, key: T -> int): (r: seq<T>)
    ensures SortedDesc(r, key)
    ensures multiset(r) == multiset(s)
  {
    if s == [] then []
    else
      assert s == [s[0]] + s[1..];
      InsertDesc(s[0], SortDesc(s[1..], key), key)
  }

  /** The index a `slice` argument stands for: a negative one counts from the end, and both are
      clamped to the sequence. */
  function SliceIndex(i: int, len: nat): (r: nat)
    ensures r <= len
  {
    if i < 0 then (if len + i < 0 then 0 else len + i) else if i > len then len else i
  }

  /** `s.slice(start, end)`. */
  function Slice<T>(s: seq<T>, start: int, end: int): seq<T> {
    var a, b := SliceIndex(start, |s|), SliceIndex(end, |s|);
    if a < b then s[a..b] else []
  }

  /** A slice is never longer than the distance between its bounds. */
  lemma SliceLength<T>(s: seq<T>, start: int, end: int)
    requires start <= end
    ensures |Slice(s, start, end)| <= end - start
  {
  }
}
