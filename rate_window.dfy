/** Timestamps (whole seconds) of the chat service's sliding-window rate
    limiter: front pruning of a deque and the number of requests that fall in
    a closed time window. */
module RateWindow {

  /** Timestamps in recording order under a clock that never runs backwards. */
  predicate Sorted(s: seq<int>) {
    forall i, j :: 0 <= i < j < |s| ==> InOrder(s, i, j)
  }
  predicate InOrder(s: seq<int>, i: nat, j: nat)
    requires i < |s| && j < |s|
  {
    s[i] <= s[j]
  }

  /** The first `k` entries are strictly older than `cutoff`. */
  predicate FrontOlder(s: seq<int>, k: nat, cutoff: int) {
    forall i :: 0 <= i < k && i < |s| ==> Before(s, i, cutoff)
  }
  /** Entry `i` is strictly older than `cutoff`. */
  predicate Before(s: seq<int>, i: nat, cutoff: int)
    requires i < |s|
  {
    s[i] < cutoff
  }

  /** Every entry is at or after `cutoff`. */
  predicate NoneBefore(s: seq<int>, cutoff: int) {
    forall i :: 0 <= i < |s| ==> !Before(s, i, cutoff)
  }

  /** `q` is what follows the first `cut` entries of `h`. */
  predicate SuffixAt(q: seq<int>, h: seq<int>, cut: nat) {
    && cut <= |h| && |q| == |h| - cut
    && forall i :: 0 <= i < |q| ==> Tracks(q, h, cut, i)
  }

  /** Entry `i` of `q` is entry `cut + i` of `h`. */
  predicate Tracks(q: seq<int>, h: seq<int>, cut: nat, i: nat)
    requires i < |q| && cut + i < |h|
  {
    q[i] == h[cut + i]
  }

  /** Where the `while q and q[0] < cutoff: q.popleft()` loop stops: the
      index of the first entry at or after the cutoff, or the length. */
  function FirstRecent(q: seq<int>, cutoff: int): (k: nat)
    ensures k <= |q| && FrontOlder(q, k, cutoff)
    ensures k < |q| ==> !Before(q, k, cutoff)
  {
    FirstRecentFrom(q, cutoff, 0)
  }

  function FirstRecentFrom(q: seq<int>, cutoff: int, i: nat): (k: nat)
    requires i <= |q| && FrontOlder(q, i, cutoff)
    ensures i <= k <= |q| && FrontOlder(q, k, cutoff)
    ensures k < |q| ==> !Before(q, k, cutoff)
    decreases |q| - i
  {
    if i < |q| && q[i] < cutoff then FirstRecentFrom(q, cutoff, i + 1) else i
  }

  /** What is left of the deque after that loop. */
  function Prune(q: seq<int>, cutoff: int): (r: seq<int>)
    ensures |r| <= |q|
    ensures r != [] ==> r[0] >= cutoff
  {
    var k := FirstRecent(q, cutoff);
    seq(|q| - k, i requires 0 <= i < |q| - k => q[k + i])
  }

  /** Only one stopping point fits: the dropped entries are all older than the
      cutoff and the next one is not. */
  lemma StopIsUnique(q: seq<int>, cutoff: int, k: nat)
    requires k <= |q| && FrontOlder(q, k, cutoff)
    requires k == |q| || q[k] >= cutoff
    ensures FirstRecent(q, cutoff) == k
  {
    assert k < |q| ==> !Before(q, k, cutoff);
  }

  /** Dropping the first `k` entries is pruning exactly when they are all
      older than the cutoff and the next one is not. */
  lemma PruneAt(q: seq<int>, cutoff: int, k: nat, r: seq<int>)
    requires SuffixAt(r, q, k) && FrontOlder(q, k, cutoff)
    requires k == |q| || q[k] >= cutoff
    ensures Prune(q, cutoff) == r
  {
    StopIsUnique(q, cutoff, k);
    var p := Prune(q, cutoff);
    forall i | 0 <= i < |r| ensures p[i] == r[i] {
      assert Tracks(r, q, k, i);
    }
  }

  /** One step of the pruning loop: popping an old front entry moves the
      start one place on. */
  lemma PopFront(q: seq<int>, r: seq<int>, d: nat, cutoff: int)
    requires SuffixAt(r, q, d) && FrontOlder(q, d, cutoff)
    requires r != [] && r[0] < cutoff
    ensures SuffixAt(r[1..], q, d + 1) && FrontOlder(q, d + 1, cutoff)
  {
    assert Tracks(r, q, d, 0) && Before(q, d, cutoff);
    var c := d + 1;
    forall i | 0 <= i < |r| - 1 ensures Tracks(r[1..], q, c, i) {
      assert Tracks(r, q, d, i + 1);
    }
  }

  /** A later cutoff keeps every entry that was older than the earlier one older. */
  lemma FrontOlderWeaken(s: seq<int>, k: nat, older: int, cutoff: int)
    requires FrontOlder(s, k, older) && older <= cutoff
    ensures FrontOlder(s, k, cutoff)
  {
    forall i | 0 <= i < k && i < |s| ensures Before(s, i, cutoff) {
      assert Before(s, i, older);
    }
  }

  /** Appending the same entry to a deque and to the history it tracks keeps
      it tracking the history, and keeps the history's front as it was. */
  lemma AppendTracked(q: seq<int>, h: seq<int>, cut: nat, x: int, cutoff: int)
    requires SuffixAt(q, h, cut) && FrontOlder(h, cut, cutoff)
    ensures SuffixAt(q + [x], h + [x], cut) && FrontOlder(h + [x], cut, cutoff)
  {
    var q', h' := q + [x], h + [x];
    forall i | 0 <= i < |q'| ensures Tracks(q', h', cut, i) {
      if i < |q| {
        assert Tracks(q, h, cut, i);
      }
    }
    forall i | 0 <= i < cut && i < |h'| ensures Before(h', i, cutoff) {
      assert Before(h, i, cutoff);
    }
  }

  /** Pruning removes only from the front: what is left is the tail after the
      dropped entries, and every dropped entry is older than the cutoff. */
  lemma PruneIsSuffix(q: seq<int>, cutoff: int)
    ensures var r := Prune(q, cutoff);
      SuffixAt(r, q, |q| - |r|) && FrontOlder(q, |q| - |r|, cutoff)
  {
    var r := Prune(q, cutoff);
    var k := |q| - |r|;
    forall i | 0 <= i < |r| ensures Tracks(r, q, k, i) {
    }
  }

  /** On a sorted deque, pruning keeps exactly the entries at or after the cutoff. */
  lemma PruneKeepsRecent(q: seq<int>, cutoff: int)
    requires Sorted(q)
    ensures forall x :: x in Prune(q, cutoff) <==> x in q && x >= cutoff
  {
    var r := Prune(q, cutoff);
    var k := FirstRecent(q, cutoff);
    forall x | x in q && x >= cutoff ensures x in r {
      var i :| 0 <= i < |q| && q[i] == x;
      assert !Before(q, i, cutoff);
      assert r[i - k] == x;
    }
    forall x | x in r ensures x >= cutoff {
      var i :| 0 <= i < |r| && r[i] == x;
      if i > 0 {
        assert InOrder(q, k, k + i);
      }
    }
  }

  /** A deque that starts at `cut` in the history, with its own first `d`
      entries older than the cutoff, starts at `cut + d` after dropping them. */
  lemma DropFromSuffix(h: seq<int>, q: seq<int>, cut: nat, r: seq<int>, d: nat, cutoff: int, older: int)
    requires SuffixAt(q, h, cut) && SuffixAt(r, q, d)
    requires older <= cutoff && FrontOlder(h, cut, older) && FrontOlder(q, d, cutoff)
    ensures SuffixAt(r, h, cut + d) && FrontOlder(h, cut + d, cutoff)
  {
    forall i | 0 <= i < cut + d ensures Before(h, i, cutoff) {
      if i >= cut {
        assert Tracks(q, h, cut, i - cut) && Before(q, i - cut, cutoff);
      } else {
        assert Before(h, i, older);
      }
    }
    var c := cut + d;
    forall i | 0 <= i < |r| ensures Tracks(r, h, c, i) {
      assert Tracks(r, q, d, i) && Tracks(q, h, cut, d + i);
    }
  }

  /** The rest of a sorted history is sorted. */
  lemma SuffixSorted(q: seq<int>, h: seq<int>, cut: nat)
    requires Sorted(h) && SuffixAt(q, h, cut)
    ensures Sorted(q)
  {
    forall i, j | 0 <= i < j < |q| ensures InOrder(q, i, j) {
      assert Tracks(q, h, cut, i) && Tracks(q, h, cut, j);
      assert InOrder(h, cut + i, cut + j);
    }
  }

  /** A sorted deque whose front is at or after the cutoff lies entirely at or after it. */
  lemma SortedFrontBound(r: seq<int>, cutoff: int)
    requires Sorted(r) && (r == [] || r[0] >= cutoff)
    ensures NoneBefore(r, cutoff)
  {
    forall i | 0 <= i < |r| ensures !Before(r, i, cutoff) {
      if i > 0 {
        assert InOrder(r, 0, i);
      }
    }
  }

  /** The number of entries `x` with `lo <= x <= hi`. */
  function Count(s: seq<int>, lo: int, hi: int): (n: nat)
    ensures n <= |s|
    decreases |s|
  {
    if s == [] then 0
    else (if lo <= s[|s| - 1] <= hi then 1 else 0) + Count(s[..|s| - 1], lo, hi)
  }

  lemma {:induction false} CountAppend(a: seq<int>, b: seq<int>, lo: int, hi: int)
    ensures Count(a + b, lo, hi) == Count(a, lo, hi) + Count(b, lo, hi)
    decreases |b|
  {
    if b == [] {
      assert a + b == a;
    } else {
      assert (a + b)[..|a + b| - 1] == a + b[..|b| - 1];
      CountAppend(a, b[..|b| - 1], lo, hi);
    }
  }

  lemma {:induction false} CountNone(s: seq<int>, lo: int, hi: int)
    requires forall i :: 0 <= i < |s| ==> !(lo <= s[i] <= hi)
    ensures Count(s, lo, hi) == 0
    decreases |s|
  {
    if s != [] {
      CountNone(s[..|s| - 1], lo, hi);
    }
  }

  /** A window that takes in every entry the other one takes counts at least as many. */
  lemma {:induction false} CountMonotone(s: seq<int>, lo1: int, hi1: int, lo2: int, hi2: int)
    requires forall i :: 0 <= i < |s| && lo1 <= s[i] <= hi1 ==> lo2 <= s[i] <= hi2
    ensures Count(s, lo1, hi1) <= Count(s, lo2, hi2)
    decreases |s|
  {
    if s != [] {
      CountMonotone(s[..|s| - 1], lo1, hi1, lo2, hi2);
    }
  }

  /** The window of width `w` that closes at entry `j` holds at most `limit`
      entries recorded up to and including `j`. */
  predicate EntryWindowWithin(s: seq<int>, w: int, limit: nat) {
    forall j :: 0 <= j < |s| ==> EntryWindow(s, j, w) <= limit
  }

  /** The entries recorded up to and including `j` that lie in the window of
      width `w` closing at entry `j`. */
  function EntryWindow(s: seq<int>, j: nat, w: int): nat
    requires j < |s|
  {
    Count(s[..j + 1], s[j] - w, s[j])
  }

  /** Sliding-window guarantee: if every window closing at an entry is within
      the limit, then so is every closed window `[t - w, t]` of a sorted
      history, whatever `t` is. */
  lemma WindowBound(s: seq<int>, w: int, limit: nat, t: int)
    requires Sorted(s) && EntryWindowWithin(s, w, limit)
    ensures Count(s, t - w, t) <= limit
  {
    var k := LastAtMost(s, t);
    assert s == s[..k] + s[k..];
    CountAppend(s[..k], s[k..], t - w, t);
    LaterOutsideWindow(s, t - w, t, k);
    if k > 0 {
      EarlierWithinLimit(s, w, limit, t, k);
    }
  }

  lemma LaterOutsideWindow(s: seq<int>, lo: int, t: int, k: nat)
    requires k <= |s|
    requires forall i :: k <= i < |s| ==> s[i] > t
    ensures Count(s[k..], lo, t) == 0
  {
    var q := s[k..];
    assert forall i :: 0 <= i < |q| ==> q[i] == s[k + i];
    CountNone(q, lo, t);
  }

  lemma EarlierWithinLimit(s: seq<int>, w: int, limit: nat, t: int, k: nat)
    requires Sorted(s) && EntryWindowWithin(s, w, limit)
    requires 0 < k <= |s|
    requires forall i :: 0 <= i < k ==> s[i] <= t
    ensures Count(s[..k], t - w, t) <= limit
  {
    var p, j := s[..k], k - 1;
    assert s[..j + 1] == p;
    assert EntryWindow(s, j, w) <= limit;
    forall i | 0 <= i < |p| ensures p[i] == s[i] && s[i] <= s[j] <= t {
      if i < j {
        assert InOrder(s, i, j);
      }
    }
    CountMonotone(p, t - w, t, s[j] - w, s[j]);
  }

  /** The length of the prefix of entries at or before `t`. */
  lemma LastAtMost(s: seq<int>, t: int) returns (k: nat)
    requires Sorted(s)
    ensures k <= |s|
    ensures forall i :: 0 <= i < k ==> s[i] <= t
    ensures forall i :: k <= i < |s| ==> s[i] > t
  {
    k := 0;
    while k < |s| && s[k] <= t
      invariant k <= |s|
      invariant forall i :: 0 <= i < k ==> s[i] <= t
    {
      k := k + 1;
    }
    forall i | k < i < |s| ensures s[i] > t {
      assert InOrder(s, k, i);
    }
  }

  /** Appending a timestamp while the recent part of the history held fewer
      than `limit` entries keeps every entry window within the limit. */
  lemma AppendWithinWindow(h: seq<int>, cut: nat, x: int, w: nat, limit: nat)
    requires Sorted(h) && EntryWindowWithin(h, w, limit)
    requires cut <= |h| && FrontOlder(h, cut, x - w)
    requires |h| - cut < limit
    requires forall i :: 0 <= i < |h| ==> h[i] <= x
    ensures Sorted(h + [x]) && EntryWindowWithin(h + [x], w, limit)
  {
    var h' := h + [x];
    forall i, j | 0 <= i < j < |h'| ensures InOrder(h', i, j) {
      if j < |h| {
        assert InOrder(h, i, j);
      }
    }
    forall j | 0 <= j < |h'| ensures EntryWindow(h', j, w) <= limit {
      if j < |h| {
        OldEntryWindow(h, x, w, limit, j);
      } else {
        assert h'[..j + 1] == h';
        NewEntryWindow(h, cut, x, w, limit);
      }
    }
  }

  lemma OldEntryWindow(h: seq<int>, x: int, w: nat, limit: nat, j: nat)
    requires EntryWindowWithin(h, w, limit) && j < |h|
    ensures EntryWindow(h + [x], j, w) <= limit
  {
    assert EntryWindow(h, j, w) <= limit;
    assert (h + [x])[..j + 1] == h[..j + 1] && (h + [x])[j] == h[j];
  }

  lemma NewEntryWindow(h: seq<int>, cut: nat, x: int, w: nat, limit: nat)
    requires cut <= |h| && FrontOlder(h, cut, x - w)
    requires |h| - cut < limit
    ensures Count(h + [x], x - w, x) <= limit
  {
    CountAppend(h, [x], x - w, x);
    assert h == h[..cut] + h[cut..];
    CountAppend(h[..cut], h[cut..], x - w, x);
    forall i | 0 <= i < cut ensures h[..cut][i] < x - w {
      assert Before(h, i, x - w);
    }
    CountNone(h[..cut], x - w, x);
    assert Count([x], x - w, x) == 1 by {
      assert [x][..0] == [];
    }
  }
}
