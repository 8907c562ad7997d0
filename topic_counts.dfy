/** Counting topic labels as the backend does it: pandas'
    `Series.value_counts().to_dict()` followed by Python's
    `sorted(counts.items(), key=count, reverse=True)`, giving a list of
    `{name, count}` entries. */
module TopicCounts {

  /** One `{name, count}` entry of a topic distribution. */
  datatype TopicCount = TopicCount(name: string, count: int)

  /** How many times `x` occurs in `xs`. */
  function Occurrences(xs: seq<string>, x: string): nat
    decreases |xs|
  {
    if xs == [] then 0
    else Occurrences(xs[..|xs| - 1], x) + (if xs[|xs| - 1] == x then 1 else 0)
  }

  lemma {:induction false} OccurrencesPositive(xs: seq<string>, x: string)
    ensures Occurrences(xs, x) > 0 <==> x in xs
    decreases |xs|
  {
    if xs != [] {
      var p := xs[..|xs| - 1];
      OccurrencesPositive(p, x);
      assert xs == p + [xs[|xs| - 1]];
    }
  }

  function Names(ts: seq<TopicCount>): (ns: seq<string>)
    ensures |ns| == |ts| && forall i :: 0 <= i < |ts| ==> ns[i] == ts[i].name
  {
    seq(|ts|, i requires 0 <= i < |ts| => ts[i].name)
  }

  /** No name appears in two entries. */
  predicate DistinctNames(ts: seq<TopicCount>) {
    forall i, j :: 0 <= i < j < |ts| ==> ts[i].name != ts[j].name
  }

  /** Counts never increase from one entry to the next. */
  predicate ByCountDescending(ts: seq<TopicCount>) {
    forall i, j :: 0 <= i < j < |ts| ==> ts[i].count >= ts[j].count
  }

  predicate AllPositive(ts: seq<TopicCount>) {
    forall i :: 0 <= i < |ts| ==> ts[i].count >= 1
  }

  /** The sum of the counts. */
  function Total(ts: seq<TopicCount>): int
    decreases |ts|
  {
    if ts == [] then 0 else ts[0].count + Total(ts[1..])
  }

  /** The count recorded for `y`, 0 when `y` has no entry. */
  function CountOf(ts: seq<TopicCount>, y: string): int
    decreases |ts|
  {
    if ts == [] then 0 else if ts[0].name == y then ts[0].count else CountOf(ts[1..], y)
  }

  lemma {:induction false} CountOfEntry(ts: seq<TopicCount>, i: nat)
    requires DistinctNames(ts) && i < |ts|
    ensures CountOf(ts, ts[i].name) == ts[i].count
    decreases i
  {
    if i > 0 {
      CountOfEntry(ts[1..], i - 1);
    }
  }

  lemma {:induction false} CountOfAbsent(ts: seq<TopicCount>, y: string)
    requires y !in Names(ts)
    ensures CountOf(ts, y) == 0
    decreases |ts|
  {
    if ts != [] {
      assert Names(ts[1..]) == Names(ts)[1..];
      CountOfAbsent(ts[1..], y);
    }
  }

  /** Counting one more occurrence of `x`: its entry goes up by one, or a new
      entry `{x, 1}` is added at the end. */
  function Bump(ts: seq<TopicCount>, x: string): seq<TopicCount>
    decreases |ts|
  {
    if ts == [] then [TopicCount(x, 1)]
    else if ts[0].name == x then [TopicCount(x, ts[0].count + 1)] + ts[1..]
    else [ts[0]] + Bump(ts[1..], x)
  }

  /** Bumping keeps the names in place and appends `x` when it was missing. */
  lemma {:induction false} BumpKeepsNames(ts: seq<TopicCount>, x: string)
    ensures Names(Bump(ts, x)) == if x in Names(ts) then Names(ts) else Names(ts) + [x]
    decreases |ts|
  {
    if ts != [] {
      var b := Bump(ts, x);
      assert Names(ts) == [ts[0].name] + Names(ts[1..]);
      if ts[0].name == x {
        assert Names(b) == Names(ts);
      } else {
        var rest := Bump(ts[1..], x);
        BumpKeepsNames(ts[1..], x);
        assert b == [ts[0]] + rest;
        assert Names(b) == [ts[0].name] + Names(rest);
        assert x in Names(ts) <==> x in Names(ts[1..]);
        if x in Names(ts[1..]) {
          assert Names(rest) == Names(ts[1..]);
        } else {
          assert Names(rest) == Names(ts[1..]) + [x];
          assert [ts[0].name] + (Names(ts[1..]) + [x]) == ([ts[0].name] + Names(ts[1..])) + [x];
        }
      }
    }
  }

  /** Bumping keeps names distinct and adds `x`'s name if it was missing. */
  lemma BumpNames(ts: seq<TopicCount>, x: string)
    requires DistinctNames(ts)
    ensures var b := Bump(ts, x);
      && DistinctNames(b)
      && (forall y :: y in Names(b) <==> y in Names(ts) || y == x)
  {
    BumpKeepsNames(ts, x);
    var b := Bump(ts, x);
    var nb, nt := Names(b), Names(ts);
    forall i, j | 0 <= i < j < |b|
      ensures b[i].name != b[j].name
    {
      assert nb[i] == b[i].name && nb[j] == b[j].name;
      if j < |ts| {
        assert nt[i] == nb[i] && nt[j] == nb[j];
        assert ts[i].name == nt[i] && ts[j].name == nt[j];
      } else {
        assert nb[j] == x && nt[i] == nb[i];
      }
    }
  }

  /** Bumping adds one to the count of `x` and leaves every other count alone. */
  lemma {:induction false} BumpCounts(ts: seq<TopicCount>, x: string)
    ensures forall y :: CountOf(Bump(ts, x), y) == CountOf(ts, y) + (if y == x then 1 else 0)
    decreases |ts|
  {
    if ts != [] && ts[0].name != x {
      BumpCounts(ts[1..], x);
      assert Bump(ts, x)[1..] == Bump(ts[1..], x);
    }
  }

  /** Bumping adds one to the total and keeps every count positive. */
  lemma {:induction false} BumpTotal(ts: seq<TopicCount>, x: string)
    ensures Total(Bump(ts, x)) == Total(ts) + 1
    ensures AllPositive(ts) ==> AllPositive(Bump(ts, x))
    decreases |ts|
  {
    var b := Bump(ts, x);
    if ts != [] {
      assert b[1..] == (if ts[0].name == x then ts[1..] else Bump(ts[1..], x));
      if ts[0].name != x {
        BumpTotal(ts[1..], x);
      }
    }
  }

  /** One entry per distinct label, in order of first appearance, each
      holding the number of occurrences of its label. */
  function Tally(xs: seq<string>): (ts: seq<TopicCount>)
    ensures DistinctNames(ts)
    ensures forall y :: CountOf(ts, y) == Occurrences(xs, y)
    ensures forall y :: y in Names(ts) <==> y in xs
    ensures Total(ts) == |xs|
    ensures AllPositive(ts)
    decreases |xs|
  {
    if xs == [] then []
    else
      var p := xs[..|xs| - 1];
      var x := xs[|xs| - 1];
      var prior := Tally(p);
      BumpNames(prior, x);
      BumpCounts(prior, x);
      BumpTotal(prior, x);
      assert xs == p + [x];
      Bump(prior, x)
  }

  /** Place `e` before the first entry with a smaller-or-equal count, keeping
      the rest in order. */
  function Insert(e: TopicCount, ts: seq<TopicCount>): seq<TopicCount>
    decreases |ts|
  {
    if ts == [] || e.count >= ts[0].count then [e] + ts
    else [ts[0]] + Insert(e, ts[1..])
  }

  lemma {:induction false} InsertKeepsEntries(e: TopicCount, ts: seq<TopicCount>)
    ensures multiset(Insert(e, ts)) == multiset(ts) + multiset{e}
    ensures Total(Insert(e, ts)) == e.count + Total(ts)
    decreases |ts|
  {
    if ts != [] && e.count < ts[0].count {
      InsertKeepsEntries(e, ts[1..]);
      assert ts == [ts[0]] + ts[1..];
    }
  }

  lemma {:induction false} InsertNames(e: TopicCount, ts: seq<TopicCount>)
    ensures forall y :: y in Names(Insert(e, ts)) <==> y in Names(ts) || y == e.name
    decreases |ts|
  {
    var r := Insert(e, ts);
    if ts == [] || e.count >= ts[0].count {
      assert Names(r) == [e.name] + Names(ts);
    } else {
      InsertNames(e, ts[1..]);
      assert Names(r) == [ts[0].name] + Names(Insert(e, ts[1..]));
      assert Names(ts) == [ts[0].name] + Names(ts[1..]);
    }
  }

  lemma {:induction false} InsertMember(e: TopicCount, ts: seq<TopicCount>, x: TopicCount)
    requires x in Insert(e, ts)
    ensures x == e || x in ts
    decreases |ts|
  {
    if ts != [] && e.count < ts[0].count && x != ts[0] {
      InsertMember(e, ts[1..], x);
    }
  }

  lemma {:induction false} InsertSorted(e: TopicCount, ts: seq<TopicCount>)
    requires ByCountDescending(ts)
    ensures ByCountDescending(Insert(e, ts))
    decreases |ts|
  {
    var r := Insert(e, ts);
    if ts != [] && e.count < ts[0].count {
      var rest := Insert(e, ts[1..]);
      InsertSorted(e, ts[1..]);
      assert r == [ts[0]] + rest;
      forall i, j | 0 <= i < j < |r|
        ensures r[i].count >= r[j].count
      {
        assert r[j] == rest[j - 1];
        if i == 0 {
          InsertMember(e, ts[1..], r[j]);
        } else {
          assert r[i] == rest[i - 1];
        }
      }
    }
  }

  lemma {:induction false} InsertDistinct(e: TopicCount, ts: seq<TopicCount>)
    requires DistinctNames(ts) && e.name !in Names(ts)
    ensures DistinctNames(Insert(e, ts))
    decreases |ts|
  {
    var r := Insert(e, ts);
    if ts != [] && e.count < ts[0].count {
      var rest := Insert(e, ts[1..]);
      assert Names(ts) == [ts[0].name] + Names(ts[1..]);
      InsertDistinct(e, ts[1..]);
      InsertNames(e, ts[1..]);
      assert r == [ts[0]] + rest;
      forall j | 0 < j < |r|
        ensures r[0].name != r[j].name
      {
        assert r[j] == rest[j - 1];
        assert r[j].name in Names(rest);
        if r[j].name != e.name {
          var k :| 0 <= k < |ts[1..]| && Names(ts[1..])[k] == r[j].name;
          assert ts[k + 1].name == r[j].name;
        }
      }
    }
  }

  /** A stable insertion sort by non-increasing count: Python's
      `sorted(..., key=count, reverse=True)`. */
  function SortByCount(ts: seq<TopicCount>): (r: seq<TopicCount>)
    ensures multiset(r) == multiset(ts)
    ensures ByCountDescending(r)
    ensures Total(r) == Total(ts)
    ensures forall y :: y in Names(r) <==> y in Names(ts)
    ensures DistinctNames(ts) ==> DistinctNames(r)
    decreases |ts|
  {
    if ts == [] then []
    else
      var rest := SortByCount(ts[1..]);
      SortStep(ts, rest);
      Insert(ts[0], rest)
  }

  lemma SortStep(ts: seq<TopicCount>, rest: seq<TopicCount>)
    requires ts != []
    requires multiset(rest) == multiset(ts[1..])
    requires ByCountDescending(rest)
    requires Total(rest) == Total(ts[1..])
    requires forall y :: y in Names(rest) <==> y in Names(ts[1..])
    requires DistinctNames(ts[1..]) ==> DistinctNames(rest)
    ensures var r := Insert(ts[0], rest);
      && multiset(r) == multiset(ts)
      && ByCountDescending(r)
      && Total(r) == Total(ts)
      && (forall y :: y in Names(r) <==> y in Names(ts))
      && (DistinctNames(ts) ==> DistinctNames(r))
  {
    assert ts == [ts[0]] + ts[1..];
    InsertKeepsEntries(ts[0], rest);
    InsertSorted(ts[0], rest);
    SortStepNames(ts, rest);
  }

  lemma SortStepNames(ts: seq<TopicCount>, rest: seq<TopicCount>)
    requires ts != []
    requires forall y :: y in Names(rest) <==> y in Names(ts[1..])
    requires DistinctNames(ts[1..]) ==> DistinctNames(rest)
    ensures var r := Insert(ts[0], rest);
      && (forall y :: y in Names(r) <==> y in Names(ts))
      && (DistinctNames(ts) ==> DistinctNames(r))
  {
    assert Names(ts) == [ts[0].name] + Names(ts[1..]);
    InsertNames(ts[0], rest);
    if DistinctNames(ts) {
      assert DistinctNames(ts[1..]) by {
        forall i, j | 0 <= i < j < |ts[1..]|
          ensures ts[1..][i].name != ts[1..][j].name
        {
          assert ts[1..][i] == ts[i + 1] && ts[1..][j] == ts[j + 1];
        }
      }
      assert ts[0].name !in Names(ts[1..]);
      InsertDistinct(ts[0], rest);
    }
  }

  /** The topic distribution of a column of labels: one entry per distinct
      label, the counts adding up to the number of labels, ordered by
      non-increasing count. */
  function ValueCounts(labels: seq<string>): (r: seq<TopicCount>)
    ensures DistinctNames(r)
    ensures forall y :: y in Names(r) <==> y in labels
    ensures Total(r) == |labels|
    ensures ByCountDescending(r)
  {
    SortByCount(Tally(labels))
  }

  /** Each entry of the distribution counts its label's occurrences, so at least 1. */
  lemma ValueCountsSpec(labels: seq<string>)
    ensures var r := ValueCounts(labels);
      forall i :: 0 <= i < |r| ==> r[i].count == Occurrences(labels, r[i].name) >= 1
  {
    var t := Tally(labels);
    var r := ValueCounts(labels);
    forall i | 0 <= i < |r|
      ensures r[i].count == Occurrences(labels, r[i].name) >= 1
    {
      assert r[i] in multiset(t);
      var k :| 0 <= k < |t| && t[k] == r[i];
      CountOfEntry(t, k);
    }
  }
}
