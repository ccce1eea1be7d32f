/** Sequence operations shared by several components: newest-first ordering and capping
    (Mongo's `sort({timestamp: -1}).limit(n)`, Python's `sorted(..., reverse=True)[:limit]`)
    and order-preserving filtering (Mongo's equality query, JavaScript's `Array.filter`). */
module Sequences {

  /** `s` is ordered by `key`, largest first. */
  predicate SortedDesc<T>(s: seq<T>, key: T -> int) {
    forall i, j :: 0 <= i < j < |s| ==> key(s[i]) >= key(s[j])
  }

  /** In a sequence sorted by decreasing key, an element beyond the first `n` has a key no
      larger than any of the first `n`. */
  lemma PrefixHoldsLargest<T>(s: seq<T>, n: nat, key: T -> int, f: T, g: T)
    requires SortedDesc(s, key) && n <= |s|
    requires f in s && f !in s[..n] && g in s[..n]
    ensures key(f) <= key(g)
  {
    var i :| 0 <= i < |s| && s[i] == f;
    var j :| 0 <= j < n && s[..n][j] == g;
  }

  /** Inserts `x` before the first element whose key is at most `key(x)`. `SortDesc` inserts
      each element into the sorted rest of the sequence, which came after it, so elements
      with equal keys keep their relative order. */
  function InsertDesc<T>(x: T, s: seq<T>, key: T -> int): (r: seq<T>)
    requires SortedDesc(s, key)
    ensures SortedDesc(r, key)
    ensures multiset(r) == multiset(s) + multiset{x}
    ensures |r| == |s| + 1
  {
    if |s| == 0 || key(x) >= key(s[0]) then [x] + s
    else
      var tail := InsertDesc(x, s[1..], key);
      assert s == [s[0]] + s[1..];
      BelowHead(s, x, tail, key);
      [s[0]] + tail
  }

  /** Everything in a rearrangement of the tail of a descending sequence, plus an element
      below its head, is no larger than the head. */
  lemma BelowHead<T>(s: seq<T>, x: T, tail: seq<T>, key: T -> int)
    requires |s| > 0 && SortedDesc(s, key) && key(x) < key(s[0])
    requires multiset(tail) == multiset(s[1..]) + multiset{x}
    ensures forall k :: 0 <= k < |tail| ==> key(tail[k]) <= key(s[0])
  {
    forall k | 0 <= k < |tail| ensures key(tail[k]) <= key(s[0]) {
      var y := tail[k];
      assert y in multiset(tail);
      if y != x {
        assert y in multiset(s[1..]);
        assert y in s[1..];
        var j :| 0 <= j < |s[1..]| && s[1..][j] == y;
        assert s[j + 1] == y;
      }
    }
  }

  /** A stable sort, largest key first: a permutation of `s` that is ordered. */
  function SortDesc<T>(s: seq<T>, key: T -> int): (r: seq<T>)
    ensures SortedDesc(r, key)
    ensures multiset(r) == multiset(s)
    ensures |r| == |s|
  {
    if |s| == 0 then []
    else
      assert s == [s[0]] + s[1..];
      InsertDesc(s[0], SortDesc(s[1..], key), key)
  }

  function Min(a: int, b: int): int { if a <= b then a else b }

  /** The first `n` elements, or all of them when there are fewer. */
  function Take<T>(s: seq<T>, n: nat): (r: seq<T>)
    ensures |r| == Min(n, |s|)
    ensures r <= s
  {
    if n <= |s| then s[..n] else s
  }

  /** Whatever a capped ordering holds comes from the sequence that was ordered. */
  lemma SortTakeFrom<T>(s: seq<T>, key: T -> int, n: nat)
    ensures forall x :: x in Take(SortDesc(s, key), n) ==> x in s
  {
    forall x | x in Take(SortDesc(s, key), n) ensures x in s {
      assert x in multiset(SortDesc(s, key));
    }
  }

  /** Filtering, ordering and capping: every element kept comes from the sequence and
      passes the filter, and none is kept more often than the filter selects it. */
  lemma FilterSortTake<T>(s: seq<T>, p: T -> bool, key: T -> int, n: nat)
    ensures forall i :: 0 <= i < |Take(SortDesc(Keep(s, p), key), n)| ==>
              Take(SortDesc(Keep(s, p), key), n)[i] in s && p(Take(SortDesc(Keep(s, p), key), n)[i])
    ensures multiset(Take(SortDesc(Keep(s, p), key), n)) <= multiset(Keep(s, p))
  {
    var kept := Keep(s, p);
    var r := Take(SortDesc(kept, key), n);
    SortTakeFrom(kept, key, n);
    TakeMultiset(SortDesc(kept, key), n);
    forall i | 0 <= i < |r| ensures r[i] in s && p(r[i]) {
      assert r[i] in r;
      var k :| 0 <= k < |kept| && kept[k] == r[i];
    }
  }

  /** Capping a newest-first ordering keeps the newest elements: anything left out is no
      newer than anything kept. */
  lemma {:induction false} TakeKeepsNewest<T>(s: seq<T>, n: nat, key: T -> int, y: T)
    requires SortedDesc(s, key)
    requires y in s && y !in Take(s, n)
    ensures forall x :: x in Take(s, n) ==> key(y) <= key(x)
  {
    var j :| 0 <= j < |s| && s[j] == y;
    assert j >= n;
    forall x | x in Take(s, n) ensures key(y) <= key(x) {
      var i :| 0 <= i < |Take(s, n)| && Take(s, n)[i] == x;
      assert s[i] == x;
    }
  }

  /** `sub` is obtained from `s` by deleting elements, without reordering. */
  predicate IsSubsequence<T(==)>(sub: seq<T>, s: seq<T>)
    decreases |s|
  {
    if |sub| == 0 then true
    else if |s| == 0 then false
    else if sub[0] == s[0] then IsSubsequence(sub[1..], s[1..])
    else IsSubsequence(sub, s[1..])
  }

  /** The elements of `s` that satisfy `p`, in their original order. */
  function Keep<T>(s: seq<T>, p: T -> bool): (r: seq<T>)
    ensures |r| <= |s|
    ensures forall k :: 0 <= k < |r| ==> r[k] in s && p(r[k])
    ensures forall k :: 0 <= k < |s| && p(s[k]) ==> s[k] in r
  {
    if |s| == 0 then []
    else if p(s[0]) then [s[0]] + Keep(s[1..], p)
    else Keep(s[1..], p)
  }

  /** Filtering never adds an element, nor another copy of one. */
  lemma {:induction false} KeepMultiset<T>(s: seq<T>, p: T -> bool)
    ensures multiset(Keep(s, p)) <= multiset(s)
  {
    if |s| > 0 {
      KeepMultiset(s[1..], p);
      assert s == [s[0]] + s[1..];
    }
  }

  /** Filtering keeps every copy of an element that satisfies `p` and no copy of one that
      does not. */
  lemma {:induction false} KeepCount<T>(s: seq<T>, p: T -> bool)
    ensures forall x :: multiset(Keep(s, p))[x] == (if p(x) then multiset(s)[x] else 0)
  {
    if |s| > 0 {
      KeepCount(s[1..], p);
      assert s == [s[0]] + s[1..];
    }
  }

  /** A prefix holds no element more often than the whole sequence. */
  lemma TakeMultiset<T>(s: seq<T>, n: nat)
    ensures multiset(Take(s, n)) <= multiset(s)
  {
    if n <= |s| {
      assert s == s[..n] + s[n..];
    }
  }

  /** A sequence of pairwise different elements holds each element at most once. */
  lemma {:induction false} DistinctOnce<T>(s: seq<T>, x: T)
    requires forall i, j :: 0 <= i < j < |s| ==> s[i] != s[j]
    ensures multiset(s)[x] <= 1
  {
    if |s| > 0 {
      DistinctOnce(s[1..], x);
      assert s == [s[0]] + s[1..];
      if x == s[0] {
        assert x !in s[1..];
      }
    }
  }

  /** An element at two positions is held at least twice. */
  lemma TwiceHeld<T>(s: seq<T>, i: nat, j: nat)
    requires i < j < |s| && s[i] == s[j]
    ensures multiset(s)[s[i]] >= 2
  {
    assert s == s[..j] + [s[j]] + s[j + 1..];
    assert s[..j][i] == s[i];
  }

  /** Whatever holds no element more often than a sequence of pairwise different elements
      is itself made of pairwise different elements. */
  lemma SubMultisetDistinct<T>(r: seq<T>, s: seq<T>)
    requires multiset(r) <= multiset(s)
    requires forall i, j :: 0 <= i < j < |s| ==> s[i] != s[j]
    ensures forall i, j :: 0 <= i < j < |r| ==> r[i] != r[j]
  {
    forall i, j | 0 <= i < j < |r| ensures r[i] != r[j] {
      if r[i] == r[j] {
        TwiceHeld(r, i, j);
        DistinctOnce(s, r[i]);
        assert false;
      }
    }
  }

  lemma {:induction false} KeepIsSubsequence<T>(s: seq<T>, p: T -> bool)
    ensures IsSubsequence(Keep(s, p), s)
  {
    if |s| > 0 {
      KeepIsSubsequence(s[1..], p);
      if p(s[0]) {
        assert Keep(s, p)[1..] == Keep(s[1..], p);
      } else {
        SkipHead(Keep(s[1..], p), s);
      }
    }
  }

  lemma {:induction false} SkipHead<T>(sub: seq<T>, s: seq<T>)
    requires |s| > 0 && IsSubsequence(sub, s[1..])
    ensures IsSubsequence(sub, s)
    decreases |s|, 0
  {
    if |sub| > 0 && sub[0] == s[0] {
      DropFirst(sub, s[1..]);
    }
  }

  /** Dropping the first element of a subsequence keeps it a subsequence. */
  lemma {:induction false} DropFirst<T>(sub: seq<T>, s: seq<T>)
    requires |sub| > 0 && IsSubsequence(sub, s)
    ensures IsSubsequence(sub[1..], s)
    decreases |s|, 1
  {
    if sub[0] == s[0] {
      SkipHead(sub[1..], s);
    } else {
      DropFirst(sub, s[1..]);
      SkipHead(sub[1..], s);
    }
  }

  /** Two filters that never both hold select, together, at most the whole sequence. */
  lemma {:induction false} KeepDisjoint<T>(s: seq<T>, p: T -> bool, q: T -> bool)
    requires forall k :: 0 <= k < |s| ==> !(p(s[k]) && q(s[k]))
    ensures |Keep(s, p)| + |Keep(s, q)| <= |s|
  {
    if |s| > 0 {
      KeepDisjoint(s[1..], p, q);
    }
  }

  /** Filtering distributes over appending one element. */
  lemma {:induction false} KeepAppend<T>(s: seq<T>, x: T, p: T -> bool)
    ensures Keep(s + [x], p) == Keep(s, p) + (if p(x) then [x] else [])
  {
    if |s| > 0 {
      assert (s + [x])[1..] == s[1..] + [x];
      KeepAppend(s[1..], x, p);
    } else {
      assert s + [x] == [x];
    }
  }

  /** Filtering with a predicate every element satisfies keeps everything. */
  lemma {:induction false} KeepEverything<T>(s: seq<T>, p: T -> bool)
    requires forall k :: 0 <= k < |s| ==> p(s[k])
    ensures Keep(s, p) == s
  {
    if |s| > 0 {
      KeepEverything(s[1..], p);
    }
  }
}
