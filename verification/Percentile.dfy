/** The load harness's latency percentile, by nearest rank. */
module Percentile {

  /** sort.Slice, as insertion. */
  function Insert(sorted: seq<int>, x: int): seq<int> {
    if sorted == [] || x <= sorted[0] then [x] + sorted else [sorted[0]] + Insert(sorted[1..], x)
  }

  function Sort(s: seq<int>): seq<int> {
    if s == [] then [] else Insert(Sort(s[1..]), s[0])
  }

  predicate Ascending(s: seq<int>) {
    forall i, j :: 0 <= i < j < |s| ==> s[i] <= s[j]
  }

  lemma {:induction false} InsertAdds(s: seq<int>, x: int)
    ensures multiset(Insert(s, x)) == multiset(s) + multiset{x}
    ensures forall y :: y in Insert(s, x) ==> y == x || y in s
  {
    if s != [] && x > s[0] {
      InsertAdds(s[1..], x);
      assert s == [s[0]] + s[1..];
    }
  }

  lemma {:induction false} InsertSorts(s: seq<int>, x: int)
    requires Ascending(s)
    ensures Ascending(Insert(s, x))
  {
    if s != [] && x > s[0] {
      InsertSorts(s[1..], x);
      InsertAdds(s[1..], x);
      AscendingCons(s[0], Insert(s[1..], x));
    }
  }

  lemma AscendingCons(x: int, s: seq<int>)
    requires Ascending(s) && forall y :: y in s ==> x <= y
    ensures Ascending([x] + s)
  {
    assert forall i :: 0 <= i < |s| ==> s[i] in s;
  }

  lemma {:induction false} SortSorts(s: seq<int>)
    ensures Ascending(Sort(s)) && multiset(Sort(s)) == multiset(s) && |Sort(s)| == |s|
  {
    if s != [] {
      SortSorts(s[1..]);
      InsertSorts(Sort(s[1..]), s[0]);
      InsertAdds(Sort(s[1..]), s[0]);
      assert s == [s[0]] + s[1..];
      assert |multiset(Sort(s))| == |multiset(s)|;
    }
  }

  /** The number of samples at most v. */
  function AtMost(s: seq<int>, v: int): nat {
    if s == [] then 0 else (if s[0] <= v then 1 else 0) + AtMost(s[1..], v)
  }

  lemma {:induction false} AtMostInsert(s: seq<int>, x: int, v: int)
    ensures AtMost(Insert(s, x), v) == AtMost(s, v) + if x <= v then 1 else 0
  {
    if s == [] || x <= s[0] {
      assert ([x] + s)[1..] == s;
    } else {
      AtMostInsert(s[1..], x, v);
      assert Insert(s, x)[1..] == Insert(s[1..], x);
    }
  }

  lemma {:induction false} AtMostSort(s: seq<int>, v: int)
    ensures AtMost(Sort(s), v) == AtMost(s, v)
  {
    if s != [] {
      AtMostSort(s[1..], v);
      AtMostInsert(Sort(s[1..]), s[0], v);
    }
  }

  lemma {:induction false} AtMostAscending(s: seq<int>, k: nat, v: int)
    requires Ascending(s) && k <= |s|
    ensures k > 0 && s[k - 1] <= v ==> AtMost(s, v) >= k
    ensures k < |s| && v < s[k] ==> AtMost(s, v) <= k
  {
    if s == [] {
    } else if k == 0 {
      if v < s[0] {
        AtMostAscending(s[1..], 0, v);
        assert |s| > 1 ==> v < s[1..][0];
      }
    } else {
      AtMostAscending(s[1..], k - 1, v);
    }
  }

  function Ceil(x: real): int {
    -((-x).Floor)
  }

  /** The rank of a percentile before clamping. */
  function Rank(n: nat, p: real): int {
    Ceil(p / 100.0 * n as real) - 1
  }

  function Clamped(n: nat, idx: int): nat
    requires n > 0
  {
    if idx < 0 then 0 else if idx >= n then n - 1 else idx
  }

  function Pct(samples: seq<int>, p: real): int {
    SortSorts(samples);
    if samples == [] then 0 else Sort(samples)[Clamped(|samples|, Rank(|samples|, p))]
  }

  method ComputePct(samples: seq<int>, p: real) returns (d: int)
    ensures d == Pct(samples, p)
    ensures samples != [] ==> d in samples
  {
    if |samples| == 0 {
      return 0;
    }
    SortSorts(samples);
    var s := Sort(samples);
    var idx := Ceil(p / 100.0 * |s| as real) - 1;
    if idx < 0 {
      idx := 0;
    }
    if idx >= |s| {
      idx := |s| - 1;
    }
    assert s[idx] in multiset(s);
    return s[idx];
  }

  lemma CeilBounds(x: real)
    ensures (Ceil(x) - 1) as real < x <= Ceil(x) as real
  {
  }

  lemma ScaleBounds(n: nat, p: real)
    requires n > 0 && 0.0 < p <= 100.0
    ensures 0.0 < p / 100.0 * n as real <= n as real
  {
    var q := p / 100.0;
    assert 0.0 < q <= 1.0;
    assert q * n as real <= 1.0 * n as real;
  }

  /** For 0 < p <= 100 the rank is an index, and the clamp does nothing. */
  lemma RankInRange(n: nat, p: real)
    requires n > 0 && 0.0 < p <= 100.0
    ensures 0 <= Rank(n, p) < n
    ensures Rank(n, p) as real < p / 100.0 * n as real <= (Rank(n, p) + 1) as real
  {
    var x := p / 100.0 * n as real;
    ScaleBounds(n, p);
    CeilBounds(x);
    assert Rank(n, p) == Ceil(x) - 1;
  }

  lemma RankIndex(n: nat, p: real) returns (k: nat)
    requires n > 0 && 0.0 < p <= 100.0
    ensures k == Rank(n, p) == Clamped(n, Rank(n, p)) < n
  {
    RankInRange(n, p);
    k := Rank(n, p);
  }

  lemma PercentOf(n: nat, p: real, k: nat, reached: nat, below: nat)
    requires n > 0 && 0.0 < p <= 100.0 && k == Rank(n, p)
    requires reached >= k + 1 && below <= k
    ensures reached as real >= p / 100.0 * n as real
    ensures below as real < p / 100.0 * n as real
  {
    RankInRange(n, p);
    assert reached as real >= (k + 1) as real && below as real <= k as real;
  }

  /** What it means to stand at index k of the sorted samples. */
  lemma AtRank(samples: seq<int>, k: nat)
    requires k < |samples|
    ensures |Sort(samples)| == |samples| && Sort(samples)[k] in samples
    ensures AtMost(samples, Sort(samples)[k]) >= k + 1
    ensures AtMost(samples, Sort(samples)[k] - 1) <= k
  {
    SortSorts(samples);
    var d := Sort(samples)[k];
    SortedIsSample(samples, k);
    AtMostAscending(Sort(samples), k + 1, d);
    AtMostAscending(Sort(samples), k, d - 1);
    AtMostSort(samples, d);
    AtMostSort(samples, d - 1);
  }

  lemma SortedIsSample(samples: seq<int>, k: nat)
    requires k < |Sort(samples)|
    ensures Sort(samples)[k] in samples
  {
    SortSorts(samples);
    assert Sort(samples)[k] in multiset(Sort(samples));
  }

  /** Nearest rank: at least p% of the samples are at most the result, and fewer than p% are below it. */
  lemma NearestRank(samples: seq<int>, p: real)
    requires samples != [] && 0.0 < p <= 100.0
    ensures var d := Pct(samples, p);
            && d in samples
            && AtMost(samples, d) as real >= p / 100.0 * |samples| as real
            && AtMost(samples, d - 1) as real < p / 100.0 * |samples| as real
  {
    var k := RankIndex(|samples|, p);
    AtRank(samples, k);
    var d := Sort(samples)[k];
    PercentOf(|samples|, p, k, AtMost(samples, d), AtMost(samples, d - 1));
  }

  lemma CeilMonotone(x: real, y: real)
    requires x <= y
    ensures Ceil(x) <= Ceil(y)
  {
    CeilBounds(x);
    CeilBounds(y);
  }

  lemma ScaleMonotone(n: nat, p: real, q: real)
    requires p <= q
    ensures p / 100.0 * n as real <= q / 100.0 * n as real
  {
    assert (q / 100.0 - p / 100.0) * n as real >= 0.0;
  }

  lemma RankMonotone(n: nat, p: real, q: real)
    requires p <= q
    ensures Rank(n, p) <= Rank(n, q)
  {
    ScaleMonotone(n, p, q);
    CeilMonotone(p / 100.0 * n as real, q / 100.0 * n as real);
  }

  /** A higher percentile is no smaller, also where the clamp cuts in. */
  lemma PctMonotone(samples: seq<int>, p: real, q: real)
    requires p <= q
    ensures Pct(samples, p) <= Pct(samples, q)
  {
    SortSorts(samples);
    RankMonotone(|samples|, p, q);
  }
}
