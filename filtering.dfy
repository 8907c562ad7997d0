/** Order-preserving selection from a sequence, as list comprehensions with an
    `if` and pandas boolean indexing do it, and pandas' `head`. */
module Filtering {

  /** `[x for x in s if keep(x)]`. */
  function Filter<T>(s: seq<T>, keep: T -> bool): (r: seq<T>)
    ensures |r| <= |s|
    ensures forall x :: x in r ==> keep(x)
    decreases |s|
  {
    if s == [] then [] else (if keep(s[0]) then [s[0]] else []) + Filter(s[1..], keep)
  }

  /** `a` is `b` with some elements left out, the rest in their order. */
  predicate IsSubsequence<T(==)>(a: seq<T>, b: seq<T>)
    decreases |b|
  {
    if b == [] then a == []
    else IsSubsequence(a, b[1..]) || (a != [] && a[0] == b[0] && IsSubsequence(a[1..], b[1..]))
  }

  /** Filtering only leaves elements out and keeps the order of the rest. */
  lemma {:induction false} FilterIsSubsequence<T>(s: seq<T>, keep: T -> bool)
    ensures IsSubsequence(Filter(s, keep), s)
    decreases |s|
  {
    if s != [] {
      FilterIsSubsequence(s[1..], keep);
      var r := Filter(s, keep);
      if keep(s[0]) {
        assert r[0] == s[0] && r[1..] == Filter(s[1..], keep);
      } else {
        assert r == Filter(s[1..], keep);
      }
    }
  }

  /** Filtering keeps every occurrence of a kept value and none of the others. */
  lemma {:induction false} FilterCount<T>(s: seq<T>, keep: T -> bool, x: T)
    ensures multiset(Filter(s, keep))[x] == if keep(x) then multiset(s)[x] else 0
    decreases |s|
  {
    if s != [] {
      FilterCount(s[1..], keep, x);
      assert s == [s[0]] + s[1..];
    }
  }

  /** Every element that passes the test is kept. */
  lemma FilterKeeps<T>(s: seq<T>, keep: T -> bool, x: T)
    requires x in s && keep(x)
    ensures x in Filter(s, keep)
  {
    FilterCount(s, keep, x);
  }

  /** Filtering twice is filtering once by both tests. */
  lemma {:induction false} FilterTwice<T>(s: seq<T>, first: T -> bool, second: T -> bool, both: T -> bool)
    requires forall x :: both(x) == (first(x) && second(x))
    ensures Filter(Filter(s, first), second) == Filter(s, both)
    decreases |s|
  {
    if s != [] {
      FilterTwice(s[1..], first, second, both);
      var f := Filter(s, first);
      if first(s[0]) {
        assert f[0] == s[0] && f[1..] == Filter(s[1..], first);
      } else {
        assert f == Filter(s[1..], first);
      }
    }
  }

  /** A test every element passes keeps everything. */
  lemma {:induction false} FilterAll<T>(s: seq<T>, keep: T -> bool)
    requires forall i :: 0 <= i < |s| ==> keep(s[i])
    ensures Filter(s, keep) == s
    decreases |s|
  {
    if s != [] {
      FilterAll(s[1..], keep);
    }
  }

  /** pandas `s[mask]`: the elements whose mask entry is true, in order. */
  function Select<T>(s: seq<T>, mask: seq<bool>): (r: seq<T>)
    requires |mask| == |s|
    ensures |r| <= |s|
    decreases |s|
  {
    if s == [] then [] else (if mask[0] then [s[0]] else []) + Select(s[1..], mask[1..])
  }

  /** Selecting by a mask computed from a test is filtering by that test. */
  lemma {:induction false} SelectIsFilter<T>(s: seq<T>, mask: seq<bool>, keep: T -> bool)
    requires |mask| == |s|
    requires forall i :: 0 <= i < |s| ==> mask[i] == keep(s[i])
    ensures Select(s, mask) == Filter(s, keep)
    decreases |s|
  {
    if s != [] {
      SelectIsFilter(s[1..], mask[1..], keep);
    }
  }

  /** How many elements pandas `head(n)` keeps from `len` elements: the first
      `n`, or for a negative `n` all but the last `-n`. */
  function HeadLength(len: nat, n: int): (k: nat)
  {
    if n >= 0 then (if n <= len then n else len)
    else if -n <= len then len + n else 0
  }

  /** pandas `head(n)`: a prefix, never longer than `n` when `n` is not
      negative, the whole sequence when `n` reaches its length, and all but
      the last `-n` elements when `n` is negative. */
  function Head<T>(s: seq<T>, n: int): (r: seq<T>)
    ensures |r| <= |s| && r == s[..|r|]
    ensures n >= 0 ==> |r| <= n && (|s| <= n ==> r == s) && (n <= |s| ==> |r| == n)
    ensures n < 0 ==> |r| == if -n <= |s| then |s| + n else 0
  {
    s[..HeadLength(|s|, n)]
  }
}
