/** Downsampling: the average query over raw readings, and the same query answered from a pre-bucketed rollup. */
module Series {
  import opened Options
  import opened Steps

  // One reading of the channel asked for; the time is in microseconds.
  datatype Row = Row(ts: int, value: real)

  // One row of a continuous aggregate.
  datatype AggRow = AggRow(bucket: int, avg: real, n: nat) {
    function Total(): real { avg * n as real }
  }

  // One downsampled point.
  datatype Point = Point(ts: int, value: real)

  type Times = int -> bool

  /** time_bucket(w, t): the start of the w-wide bucket of t, counted from the origin o. */
  function Bucket(o: int, w: int, t: int): int
    requires w > 0
  {
    o + (t - o) / w * w
  }

  /** The first bucket start that is not before t. */
  function RoundUp(o: int, w: int, t: int): int
    requires w > 0
  {
    o - (o - t) / w * w
  }

  // ---- ascending listings of sets of times

  ghost predicate Ascending(s: seq<int>) {
    forall i, j :: 0 <= i < j < |s| ==> s[i] < s[j]
  }

  ghost predicate IsLeast(m: int, s: set<int>) {
    m in s && forall x :: x in s ==> m <= x
  }

  ghost predicate NonEmpty(s: set<int>) {
    exists x :: x in s
  }

  lemma {:induction false} LeastExists(s: set<int>)
    requires NonEmpty(s)
    ensures exists m :: IsLeast(m, s)
  {
    var x :| x in s;
    var rest := s - {x};
    if NonEmpty(rest) {
      LeastExists(rest);
      var m :| IsLeast(m, rest);
      var least := if m <= x then m else x;
      forall y | y in s ensures least <= y {
        assert y == x || y in rest;
      }
      assert IsLeast(least, s);
    } else {
      forall y | y in s ensures x <= y {
        assert y == x || y in rest;
      }
      assert IsLeast(x, s);
    }
  }

  ghost function Listed(s: set<int>): seq<int> {
    if !NonEmpty(s) then []
    else
      LeastExists(s);
      var m :| IsLeast(m, s);
      [m] + Listed(s - {m})
  }

  lemma {:induction false} ListedFacts(s: set<int>)
    ensures Ascending(Listed(s))
    ensures forall x :: x in Listed(s) <==> x in s
  {
    if NonEmpty(s) {
      var l := Listed(s);
      var rest := s - {l[0]};
      ListedFacts(rest);
      assert l == [l[0]] + Listed(rest) && IsLeast(l[0], s);
      forall i | 0 < i < |l| ensures l[0] < l[i] {
        assert l[i] in Listed(rest);
      }
      forall i, j | 0 <= i < j < |l| ensures l[i] < l[j] {
        if i > 0 {
          assert Listed(rest)[i - 1] < Listed(rest)[j - 1];
        }
      }
    }
  }

  // ---- sums and averages over the rows whose times are chosen

  function SumWhere(rows: seq<Row>, keep: Times): real {
    if rows == [] then 0.0
    else
      var r := rows[|rows| - 1];
      SumWhere(rows[..|rows| - 1], keep) + if keep(r.ts) then r.value else 0.0
  }

  function CountWhere(rows: seq<Row>, keep: Times): nat {
    if rows == [] then 0
    else CountWhere(rows[..|rows| - 1], keep) + if keep(rows[|rows| - 1].ts) then 1 else 0
  }

  function Ratio(sum: real, n: nat): real {
    if n == 0 then 0.0 else sum / n as real
  }

  /** The times in [lo, hi) that fall in the w-wide bucket b. */
  function InGroup(o: int, w: int, lo: int, hi: int, b: int): Times
    requires w > 0
  {
    t => lo <= t < hi && Bucket(o, w, t) == b
  }

  function BucketIs(o: int, w: int, c: int): Times
    requires w > 0
  {
    t => Bucket(o, w, t) == c
  }

  function Groups(rows: seq<Row>, o: int, w: int, lo: int, hi: int): set<int>
    requires w > 0
  {
    set r | r in rows && lo <= r.ts < hi :: Bucket(o, w, r.ts)
  }

  /** SELECT time_bucket(w, ts), avg(value) WHERE lo <= ts < hi GROUP BY 1 ORDER BY 1. */
  ghost function QueryRaw(rows: seq<Row>, o: int, w: int, lo: int, hi: int): seq<Point>
    requires w > 0
  {
    var keys := Listed(Groups(rows, o, w, lo, hi));
    seq(|keys|, i requires 0 <= i < |keys| =>
      var keep := InGroup(o, w, lo, hi, keys[i]);
      Point(keys[i], Ratio(SumWhere(rows, keep), CountWhere(rows, keep))))
  }

  function AllBuckets(rows: seq<Row>, o: int, w: int): set<int>
    requires w > 0
  {
    set r | r in rows :: Bucket(o, w, r.ts)
  }

  function Aggregate(rows: seq<Row>, o: int, w: int, c: int): AggRow
    requires w > 0
  {
    var n := CountWhere(rows, BucketIs(o, w, c));
    AggRow(c, Ratio(SumWhere(rows, BucketIs(o, w, c)), n), n)
  }

  function AggregateAll(rows: seq<Row>, o: int, w: int, cs: seq<int>): seq<AggRow>
    requires w > 0
  {
    seq(|cs|, i requires 0 <= i < |cs| => Aggregate(rows, o, w, cs[i]))
  }

  /** The continuous aggregate of width w: one row per bucket that has readings, with its average and count. */
  ghost function View(rows: seq<Row>, o: int, w: int): seq<AggRow>
    requires w > 0
  {
    AggregateAll(rows, o, w, Listed(AllBuckets(rows, o, w)))
  }

  function WeightedSum(view: seq<AggRow>, keep: Times): real {
    if view == [] then 0.0
    else
      var a := view[|view| - 1];
      WeightedSum(view[..|view| - 1], keep) + if keep(a.bucket) then a.Total() else 0.0
  }

  function Weight(view: seq<AggRow>, keep: Times): nat {
    if view == [] then 0
    else
      var a := view[|view| - 1];
      Weight(view[..|view| - 1], keep) + if keep(a.bucket) then a.n else 0
  }

  function ViewGroups(view: seq<AggRow>, o: int, step: int, lo: int, hi: int): set<int>
    requires step > 0
  {
    set a | a in view && lo <= a.bucket < hi :: Bucket(o, step, a.bucket)
  }

  /** The same query over a rollup: averages weighted by their counts, the range applied to bucket starts. */
  ghost function QueryRollup(view: seq<AggRow>, o: int, step: int, lo: int, hi: int): seq<Point>
    requires step > 0
  {
    var keys := Listed(ViewGroups(view, o, step, lo, hi));
    seq(|keys|, i requires 0 <= i < |keys| =>
      var keep := InGroup(o, step, lo, hi, keys[i]);
      Point(keys[i], Ratio(WeightedSum(view, keep), Weight(view, keep))))
  }

  // ---- sums split along buckets

  lemma {:induction false} SameTimes(rows: seq<Row>, p: Times, q: Times)
    requires forall r :: r in rows ==> p(r.ts) == q(r.ts)
    ensures SumWhere(rows, p) == SumWhere(rows, q) && CountWhere(rows, p) == CountWhere(rows, q)
  {
    if rows != [] {
      assert rows[|rows| - 1] in rows;
      SameTimes(rows[..|rows| - 1], p, q);
    }
  }

  lemma {:induction false} DisjointTimes(rows: seq<Row>, p: Times, q: Times, either: Times)
    requires forall r :: r in rows ==> either(r.ts) == (p(r.ts) || q(r.ts)) && !(p(r.ts) && q(r.ts))
    ensures SumWhere(rows, either) == SumWhere(rows, p) + SumWhere(rows, q)
    ensures CountWhere(rows, either) == CountWhere(rows, p) + CountWhere(rows, q)
  {
    if rows != [] {
      assert rows[|rows| - 1] in rows;
      DisjointTimes(rows[..|rows| - 1], p, q, either);
    }
  }

  lemma {:induction false} NoTimes(rows: seq<Row>, p: Times)
    ensures (forall r :: r in rows ==> !p(r.ts)) ==> SumWhere(rows, p) == 0.0 && CountWhere(rows, p) == 0
    ensures (exists r :: r in rows && p(r.ts)) ==> CountWhere(rows, p) > 0
  {
    if rows != [] {
      var n := |rows| - 1;
      NoTimes(rows[..n], p);
      assert rows == rows[..n] + [rows[n]];
    }
  }

  /** The times whose w-wide bucket is one of cs and is itself chosen. */
  function BucketAmong(o: int, w: int, cs: seq<int>, keep: Times): Times
    requires w > 0
  {
    t => Bucket(o, w, t) in cs && keep(Bucket(o, w, t))
  }

  lemma AmongMore(rows: seq<Row>, o: int, w: int, front: seq<int>, c: int, keep: Times)
    requires w > 0 && c !in front
    ensures var more := BucketAmong(o, w, front + [c], keep);
            var fewer := BucketAmong(o, w, front, keep);
            && SumWhere(rows, more)
               == SumWhere(rows, fewer) + (if keep(c) then SumWhere(rows, BucketIs(o, w, c)) else 0.0)
            && CountWhere(rows, more)
               == CountWhere(rows, fewer) + (if keep(c) then CountWhere(rows, BucketIs(o, w, c)) else 0)
  {
    var more, fewer := BucketAmong(o, w, front + [c], keep), BucketAmong(o, w, front, keep);
    assert forall b :: b in front + [c] <==> b in front || b == c;
    if keep(c) {
      DisjointTimes(rows, fewer, BucketIs(o, w, c), more);
    } else {
      SameTimes(rows, fewer, more);
    }
  }

  lemma AggregateMore(rows: seq<Row>, o: int, w: int, front: seq<int>, c: int)
    requires w > 0
    ensures AggregateAll(rows, o, w, front + [c]) == AggregateAll(rows, o, w, front) + [Aggregate(rows, o, w, c)]
  {
  }

  lemma WeightedAppend(view: seq<AggRow>, a: AggRow, keep: Times)
    ensures WeightedSum(view + [a], keep) == WeightedSum(view, keep) + (if keep(a.bucket) then a.Total() else 0.0)
    ensures Weight(view + [a], keep) == Weight(view, keep) + (if keep(a.bucket) then a.n else 0)
  {
    assert (view + [a])[..|view|] == view;
  }

  lemma WeightedMore(rows: seq<Row>, o: int, w: int, front: seq<int>, c: int, keep: Times)
    requires w > 0
    ensures var more, fewer := AggregateAll(rows, o, w, front + [c]), AggregateAll(rows, o, w, front);
            && WeightedSum(more, keep)
               == WeightedSum(fewer, keep) + (if keep(c) then SumWhere(rows, BucketIs(o, w, c)) else 0.0)
            && Weight(more, keep)
               == Weight(fewer, keep) + (if keep(c) then CountWhere(rows, BucketIs(o, w, c)) else 0)
  {
    AggregateMore(rows, o, w, front, c);
    WeightedAppend(AggregateAll(rows, o, w, front), Aggregate(rows, o, w, c), keep);
    AverageTimesCount(rows, o, w, c);
  }

  /** Count-weighted averages of whole buckets add up to the sum of their readings. */
  lemma {:induction false} WeightedIsPlain(rows: seq<Row>, o: int, w: int, cs: seq<int>, keep: Times)
    requires w > 0 && Ascending(cs)
    ensures WeightedSum(AggregateAll(rows, o, w, cs), keep) == SumWhere(rows, BucketAmong(o, w, cs, keep))
    ensures Weight(AggregateAll(rows, o, w, cs), keep) == CountWhere(rows, BucketAmong(o, w, cs, keep))
  {
    if cs == [] {
      NoTimes(rows, BucketAmong(o, w, cs, keep));
    } else {
      var front, c := cs[..|cs| - 1], cs[|cs| - 1];
      assert cs == front + [c];
      WeightedIsPlain(rows, o, w, front, keep);
      WeightedMore(rows, o, w, front, c, keep);
      AmongMore(rows, o, w, front, c, keep);
    }
  }

  /** An aggregate row gives its bucket's sum back: the weighting loses nothing. */
  lemma AverageTimesCount(rows: seq<Row>, o: int, w: int, c: int)
    requires w > 0
    ensures Aggregate(rows, o, w, c).Total() == SumWhere(rows, BucketIs(o, w, c))
  {
    NoTimes(rows, BucketIs(o, w, c));
    RatioTimes(SumWhere(rows, BucketIs(o, w, c)), CountWhere(rows, BucketIs(o, w, c)));
  }

  lemma RatioTimes(x: real, n: nat)
    requires n == 0 ==> x == 0.0
    ensures Ratio(x, n) * n as real == x
  {
  }

  // ---- buckets within buckets

  /** Floor division by a multiple goes through the division by the part. */
  lemma BucketOfBucket(o: int, w: int, m: int, t: int)
    requires w > 0 && m > 0
    ensures m * w > 0 && Bucket(o, m * w, Bucket(o, w, t)) == Bucket(o, m * w, t)
  {
    var x := t - o;
    var q := x / w;
    var k := q / m;
    ProductPositive(m, w);
    FloorBetween(q, m, k);
    FloorBetween(x, w, q);
    var step := m * w;
    assert k * step == (k * m) * w;
    MulMonotone(k * m, q, w);
    MulMonotone(q + 1, (k + 1) * m, w);
    assert (k + 1) * step == ((k + 1) * m) * w;
    FloorUnique(x, step, k);
    FloorUnique(q * w, step, k);
  }

  lemma ProductPositive(m: int, w: int)
    requires m > 0 && w > 0
    ensures m * w > 0
  {
  }

  lemma MulMonotone(a: int, b: int, w: int)
    requires a <= b && w > 0
    ensures a * w <= b * w
  {
  }

  lemma FloorBetween(x: int, w: int, q: int)
    requires w > 0 && q == x / w
    ensures q * w <= x < (q + 1) * w
  {
  }

  lemma FloorUnique(x: int, w: int, q: int)
    requires w > 0 && q * w <= x < (q + 1) * w
    ensures x / w == q
  {
    var p := x / w;
    FloorBetween(x, w, p);
    if p < q {
      MulMonotone(p + 1, q, w);
    } else if q < p {
      MulMonotone(q + 1, p, w);
    }
  }

  /** A bucket start is at or after a time exactly when the bucket's readings are at or after the time rounded up. */
  lemma RangeRoundsUp(o: int, w: int, x: int, t: int)
    requires w > 0
    ensures x <= Bucket(o, w, t) <==> RoundUp(o, w, x) <= t
  {
    var q, p := (t - o) / w, (o - x) / w;
    FloorBetween(t - o, w, q);
    FloorBetween(o - x, w, p);
    // RoundUp is o - p*w and x lies in (o - (p+1)*w, o - p*w]
    if -p <= q {
      MulMonotone(-p, q, w);
    } else {
      MulMonotone(q + 1, -p, w);
    }
  }

  // ---- the rollup query is the raw query

  /**
   * The readings whose w-bucket starts in [from, to) and in the group b are those of the rounded range in that group.
   */
  lemma GroupThroughBuckets(o: int, w: int, m: int, from: int, to: int, b: int, t: int)
    requires w > 0 && m > 0 && m * w > 0
    ensures InGroup(o, m * w, from, to, b)(Bucket(o, w, t))
       <==> InGroup(o, m * w, RoundUp(o, w, from), RoundUp(o, w, to), b)(t)
  {
    BucketOfBucket(o, w, m, t);
    RangeRoundsUp(o, w, from, t);
    RangeRoundsUp(o, w, to, t);
  }

  lemma GroupsAgree(rows: seq<Row>, o: int, w: int, m: int, from: int, to: int)
    requires w > 0 && m > 0 && m * w > 0
    ensures ViewGroups(View(rows, o, w), o, m * w, from, to)
         == Groups(rows, o, m * w, RoundUp(o, w, from), RoundUp(o, w, to))
  {
    var cs := Listed(AllBuckets(rows, o, w));
    var view := View(rows, o, w);
    ListedFacts(AllBuckets(rows, o, w));
    forall b ensures b in ViewGroups(view, o, m * w, from, to)
                <==> b in Groups(rows, o, m * w, RoundUp(o, w, from), RoundUp(o, w, to))
    {
      if a :| a in view && from <= a.bucket < to && Bucket(o, m * w, a.bucket) == b {
        assert a.bucket in cs;
        var r :| r in rows && Bucket(o, w, r.ts) == a.bucket;
        GroupThroughBuckets(o, w, m, from, to, b, r.ts);
      }
      if r :| r in rows && InGroup(o, m * w, RoundUp(o, w, from), RoundUp(o, w, to), b)(r.ts) {
        GroupThroughBuckets(o, w, m, from, to, b, r.ts);
        assert Bucket(o, w, r.ts) in cs;
        var i :| 0 <= i < |cs| && cs[i] == Bucket(o, w, r.ts);
        assert view[i] in view;
      }
    }
  }

  lemma SumsAgree(rows: seq<Row>, o: int, w: int, m: int, from: int, to: int, b: int)
    requires w > 0 && m > 0 && m * w > 0
    ensures WeightedSum(View(rows, o, w), InGroup(o, m * w, from, to, b))
         == SumWhere(rows, InGroup(o, m * w, RoundUp(o, w, from), RoundUp(o, w, to), b))
    ensures Weight(View(rows, o, w), InGroup(o, m * w, from, to, b))
         == CountWhere(rows, InGroup(o, m * w, RoundUp(o, w, from), RoundUp(o, w, to), b))
  {
    var cs := Listed(AllBuckets(rows, o, w));
    var keep := InGroup(o, m * w, from, to, b);
    ListedFacts(AllBuckets(rows, o, w));
    WeightedIsPlain(rows, o, w, cs, keep);
    forall r | r in rows
      ensures BucketAmong(o, w, cs, keep)(r.ts) == InGroup(o, m * w, RoundUp(o, w, from), RoundUp(o, w, to), b)(r.ts)
    {
      assert Bucket(o, w, r.ts) in cs;
      GroupThroughBuckets(o, w, m, from, to, b, r.ts);
    }
    SameTimes(rows, BucketAmong(o, w, cs, keep), InGroup(o, m * w, RoundUp(o, w, from), RoundUp(o, w, to), b));
  }

  /**
   * Re-bucketing is exact: a step of whole rollup buckets gives the raw averages of the range rounded up at both ends.
   */
  lemma RollupIsRaw(rows: seq<Row>, o: int, w: int, step: int, from: int, to: int)
    requires w > 0 && step > 0 && step % w == 0
    ensures QueryRollup(View(rows, o, w), o, step, from, to)
         == QueryRaw(rows, o, step, RoundUp(o, w, from), RoundUp(o, w, to))
  {
    var m := step / w;
    assert m * w == step && m > 0;
    GroupsAgree(rows, o, w, m, from, to);
    forall b
      ensures WeightedSum(View(rows, o, w), InGroup(o, step, from, to, b))
           == SumWhere(rows, InGroup(o, step, RoundUp(o, w, from), RoundUp(o, w, to), b))
      ensures Weight(View(rows, o, w), InGroup(o, step, from, to, b))
           == CountWhere(rows, InGroup(o, step, RoundUp(o, w, from), RoundUp(o, w, to), b))
    {
      SumsAgree(rows, o, w, m, from, to, b);
    }
  }

  ghost predicate Aligned(o: int, w: int, t: int)
    requires w > 0
  {
    RoundUp(o, w, t) == t
  }

  /**
   * Every channel's readings, over every range of whole rollup buckets, come out of the rollup as out of the raw table.
   */
  ghost predicate RollupExact(o: int, w: int, step: int)
    requires w > 0 && step > 0
  {
    forall rows: seq<Row>, from: int, to: int :: Aligned(o, w, from) && Aligned(o, w, to) ==>
      QueryRollup(View(rows, o, w), o, step, from, to) == QueryRaw(rows, o, step, from, to)
  }

  lemma ListedOne(s: set<int>, x: int)
    requires forall y :: y in s <==> y == x
    ensures Listed(s) == [x]
  {
    ListedFacts(s);
    var l := Listed(s);
    assert x in l;
    forall i | 0 <= i < |l| ensures l[i] == x {
      assert l[i] in l;
    }
  }

  /** The one rollup row of one reading that a step later than the origin leaves in the first step. */
  lemma OddStepBuckets(o: int, w: int, step: int)
    requires 0 < w <= step && step % w != 0
    ensures Bucket(o, step, o + step) == o + step && Bucket(o, step, Bucket(o, w, o + step)) == o
    ensures var to := o + 2 * step * w; o <= Bucket(o, w, o + step) < to && o + step < to && Aligned(o, w, to)
    ensures Aligned(o, w, o)
  {
    var q := step / w;
    FloorBetween(step, w, q);
    assert q * w < step;
    MulMonotone(0, q, w);
    FloorUnique(step, step, 1);
    FloorUnique(q * w, step, 0);
    assert 2 * step * w >= 2 * step by { MulMonotone(1, w, 2 * step); }
    FloorUnique(0, w, 0);
    FloorUnique(-(2 * step * w), w, -(2 * step));
  }

  /**
   * One reading at the start of the second step, and a step that cuts a rollup bucket: the rollup puts it in the first.
   */
  lemma OddStepMisplaces(o: int, w: int, step: int)
    requires 0 < w <= step && step % w != 0
    ensures !RollupExact(o, w, step)
  {
    var rows := [Row(o + step, 1.0)];
    var c, to := Bucket(o, w, o + step), o + 2 * step * w;
    OddStepBuckets(o, w, step);
    ListedOne(Groups(rows, o, step, o, to), o + step) by {
      assert rows[0] in rows;
    }
    ListedOne(AllBuckets(rows, o, w), c) by {
      assert rows[0] in rows;
    }
    var view := View(rows, o, w);
    assert view == [Aggregate(rows, o, w, c)];
    ListedOne(ViewGroups(view, o, step, o, to), o) by {
      assert view[0] in view;
    }
    assert QueryRollup(view, o, step, o, to)[0].ts == o;
    assert QueryRaw(rows, o, step, o, to)[0].ts == o + step;
  }

  /** When the rollup may stand in for the raw readings: exactly when its width divides the step. */
  lemma RollupExactIff(o: int, w: int, step: int)
    requires 0 < w <= step
    ensures RollupExact(o, w, step) <==> step % w == 0
  {
    if step % w == 0 {
      forall rows: seq<Row>, from: int, to: int | Aligned(o, w, from) && Aligned(o, w, to)
        ensures QueryRollup(View(rows, o, w), o, step, from, to) == QueryRaw(rows, o, step, from, to)
      {
        RollupIsRaw(rows, o, w, step, from, to);
      }
    } else {
      OddStepMisplaces(o, w, step);
    }
  }

  /** One reading is a point of its own exactly if its time is in range. */
  lemma OneReading(t: int, o: int, step: int, lo: int, hi: int)
    requires step > 0
    ensures QueryRaw([Row(t, 1.0)], o, step, lo, hi) != [] <==> lo <= t < hi
  {
    var rows := [Row(t, 1.0)];
    var groups := Groups(rows, o, step, lo, hi);
    ListedFacts(groups);
    if lo <= t < hi {
      assert rows[0] in rows;
      assert Bucket(o, step, t) in groups;
    } else if Listed(groups) != [] {
      assert Listed(groups)[0] in groups;
    }
  }

  lemma RoundUpIsNotBefore(o: int, w: int, t: int)
    requires w > 0
    ensures t <= RoundUp(o, w, t)
  {
    FloorBetween(o - t, w, (o - t) / w);
  }

  /** Every channel's readings of one range come out of the rollup as out of the raw table. */
  ghost predicate RangeExact(o: int, w: int, step: int, from: int, to: int)
    requires w > 0 && step > 0
  {
    forall rows: seq<Row> :: QueryRollup(View(rows, o, w), o, step, from, to) == QueryRaw(rows, o, step, from, to)
  }

  /** A range end inside a rollup bucket loses the readings after `from`, or lets in those after `to`. */
  lemma UnalignedMisses(o: int, w: int, step: int, from: int, to: int)
    requires w > 0 && step > 0 && step % w == 0 && from < to
    requires !Aligned(o, w, from) || !Aligned(o, w, to)
    ensures !RangeExact(o, w, step, from, to)
  {
    RoundUpIsNotBefore(o, w, from);
    RoundUpIsNotBefore(o, w, to);
    var t := if Aligned(o, w, from) then to else from;
    var rows := [Row(t, 1.0)];
    RollupIsRaw(rows, o, w, step, from, to);
    OneReading(t, o, step, from, to);
    OneReading(t, o, step, RoundUp(o, w, from), RoundUp(o, w, to));
    assert QueryRollup(View(rows, o, w), o, step, from, to) != QueryRaw(rows, o, step, from, to);
  }

  /** When one range is exact, for a step of whole rollup buckets: exactly if both its ends are between buckets. */
  lemma RangeExactIff(o: int, w: int, step: int, from: int, to: int)
    requires w > 0 && step > 0 && step % w == 0 && from < to
    ensures RangeExact(o, w, step, from, to) <==> Aligned(o, w, from) && Aligned(o, w, to)
  {
    if Aligned(o, w, from) && Aligned(o, w, to) {
      forall rows: seq<Row>
        ensures QueryRollup(View(rows, o, w), o, step, from, to) == QueryRaw(rows, o, step, from, to)
      {
        RollupIsRaw(rows, o, w, step, from, to);
      }
    } else {
      UnalignedMisses(o, w, step, from, to);
    }
  }

  // ---- how many points

  lemma NextBucket(o: int, step: int, c: int, d: int)
    requires step > 0 && Bucket(o, step, c) < Bucket(o, step, d)
    ensures Bucket(o, step, c) + step <= Bucket(o, step, d)
  {
    var p, q := (c - o) / step, (d - o) / step;
    if q <= p {
      MulMonotone(q, p, step);
    } else {
      MulMonotone(p + 1, q, step);
    }
  }

  ghost predicate IsStart(o: int, step: int, k: int)
    requires step > 0
  {
    exists c :: k == Bucket(o, step, c)
  }

  lemma NextStart(o: int, step: int, k: int, l: int)
    requires step > 0 && IsStart(o, step, k) && IsStart(o, step, l) && k < l
    ensures k + step <= l
  {
    var c, d :| k == Bucket(o, step, c) && l == Bucket(o, step, d);
    NextBucket(o, step, c, d);
  }

  lemma {:induction false} SpacedKeys(keys: seq<int>, o: int, step: int, i: nat)
    requires step > 0 && Ascending(keys) && i < |keys|
    requires forall k :: k in keys ==> IsStart(o, step, k)
    ensures keys[0] + i * step <= keys[i]
  {
    if i > 0 {
      SpacedKeys(keys, o, step, i - 1);
      assert keys[i - 1] in keys && keys[i] in keys;
      NextStart(o, step, keys[i - 1], keys[i]);
      assert i * step == (i - 1) * step + step;
    }
  }

  lemma KeysInRange(view: seq<AggRow>, o: int, step: int, lo: int, hi: int, k: int)
    requires step > 0 && k in ViewGroups(view, o, step, lo, hi)
    ensures lo - step < k < hi && IsStart(o, step, k)
  {
    var a :| a in view && lo <= a.bucket < hi && k == Bucket(o, step, a.bucket);
    FloorBetween(a.bucket - o, step, (a.bucket - o) / step);
  }

  /** A query over [lo, hi) has at most one point more than the steps that fit in it, rounded up. */
  lemma PointBound(view: seq<AggRow>, o: int, step: int, lo: int, hi: int)
    requires step > 0 && lo < hi
    ensures |QueryRollup(view, o, step, lo, hi)| <= (hi - lo + step - 1) / step + 1
  {
    var keys := Listed(ViewGroups(view, o, step, lo, hi));
    ListedFacts(ViewGroups(view, o, step, lo, hi));
    forall k | k in keys ensures lo - step < k < hi && IsStart(o, step, k) {
      KeysInRange(view, o, step, lo, hi, k);
    }
    var n := |keys|;
    WholeSteps(0, hi - lo + step - 1, step);
    if n > 0 {
      SpacedKeys(keys, o, step, n - 1);
      assert keys[0] in keys && keys[n - 1] in keys;
      WholeSteps(n - 1, hi - lo + step - 1, step);
    }
  }

  lemma WholeSteps(n: int, x: int, step: int)
    requires step > 0 && n * step <= x
    ensures n <= x / step
  {
    FloorBetween(x, step, x / step);
    if n > x / step {
      MulMonotone(x / step + 1, n, step);
    }
  }

  // ---- the query the API makes

  /** QuerySeries for a step of a second or more; shorter or malformed ones do not reach a rollup. */
  ghost function QuerySeries(rows: seq<Row>, o: int, step: string, from: int, to: int): Option<seq<Point>> {
    match RollupSeconds(step)
    case None => None
    case Some(w) => Some(QueryRollup(View(rows, o, w * MICROS), o, StepSeconds(step) * MICROS, from, to))
  }

  lemma MicrosDivide(sec: int, w: int)
    requires w > 0
    ensures (sec * MICROS) % (w * MICROS) == 0 <==> sec % w == 0
  {
    var q := sec / w;
    FloorBetween(sec, w, q);
    assert q * (w * MICROS) == (q * w) * MICROS;
    FloorUnique(sec * MICROS, w * MICROS, q) by {
      assert (q + 1) * (w * MICROS) == ((q + 1) * w) * MICROS;
    }
    assert sec % w == sec - q * w;
    assert (sec * MICROS) % (w * MICROS) == sec * MICROS - q * (w * MICROS);
  }

  /** What the API answers to a request: the caller's step if it is one, an automatic step otherwise. */
  ghost function Answer(rows: seq<Row>, o: int, requested: string, from: int, to: int): Option<seq<Point>> {
    QuerySeries(rows, o, ResolveStep(requested, from, to), from, to)
  }

  /**
   * When the API's answer is the plain average query over the raw readings, for every channel and every range of whole
   * rollup buckets: for all steps but those of 60 seconds or more in odd seconds.
   */
  lemma QuerySeriesExactIff(step: string, o: int)
    requires MatchesPattern(step) && StepSeconds(step) >= 1
    ensures var w := RollupSeconds(step).value * MICROS;
            (forall rows: seq<Row>, from: int, to: int :: Aligned(o, w, from) && Aligned(o, w, to) ==>
               Answer(rows, o, step, from, to) == Some(QueryRaw(rows, o, StepSeconds(step) * MICROS, from, to)))
            <==> !OddStep(step)
  {
    var sec, w := StepSeconds(step), RollupSeconds(step).value;
    RollupExactIff(o, w * MICROS, sec * MICROS);
    MicrosDivide(sec, w);
    DividesIff(step);
    assert forall rows: seq<Row>, from: int, to: int ::
      Answer(rows, o, step, from, to) == Some(QueryRollup(View(rows, o, w * MICROS), o, sec * MICROS, from, to));
  }

  /** A step the API takes or chooses, of a second or more. */
  lemma ResolvedStep(requested: string, from: int, to: int)
    ensures var step := ResolveStep(requested, from, to);
            RollupSeconds(step).Some? && !OddStep(step) ==>
              StepSeconds(step) > 0 && StepSeconds(step) % RollupSeconds(step).value == 0
    ensures !MatchesPattern(requested) ==>
              var step := ResolveStep(requested, from, to);
              RollupSeconds(step).Some? && !OddStep(step)
  {
    if MatchesPattern(requested) {
      if StepSeconds(requested) >= 1 {
        DividesIff(requested);
      }
    } else {
      AutoStepSafe(to - from);
    }
  }

  /**
   * And for one request, whatever its step: if the step is of a second or more and not odd, the answer is the plain
   * average query over the raw readings of every channel exactly if both ends of the range are whole rollup buckets.
   * The default request, the three hours up to now, has such ends only by chance.
   */
  lemma AnswerExactIff(requested: string, o: int, from: int, to: int)
    requires from < to
    requires var step := ResolveStep(requested, from, to);
             RollupSeconds(step).Some? && !OddStep(step)
    ensures var step := ResolveStep(requested, from, to);
            var w := RollupSeconds(step).value * MICROS;
            (forall rows: seq<Row> ::
               Answer(rows, o, requested, from, to) == Some(QueryRaw(rows, o, StepSeconds(step) * MICROS, from, to)))
            <==> Aligned(o, w, from) && Aligned(o, w, to)
  {
    var step := ResolveStep(requested, from, to);
    var sec, w := StepSeconds(step), RollupSeconds(step).value;
    ResolvedStep(requested, from, to);
    MicrosDivide(sec, w);
    RangeExactIff(o, w * MICROS, sec * MICROS, from, to);
    assert forall rows: seq<Row> ::
      Answer(rows, o, requested, from, to) == Some(QueryRollup(View(rows, o, w * MICROS), o, sec * MICROS, from, to));
  }

  lemma AutomaticAnswer(rows: seq<Row>, o: int, requested: string, from: int, to: int)
    requires !MatchesPattern(requested)
    ensures var step, w := AutoSeconds(to - from) * MICROS, AutoRollup(to - from) * MICROS;
            Answer(rows, o, requested, from, to) == Some(QueryRollup(View(rows, o, w), o, step, from, to))
  {
    AutoStepSafe(to - from);
  }

  /** Automatic steps are always exact, on the range rounded up to whole rollup buckets. */
  lemma AutomaticStepsExact(rows: seq<Row>, o: int, requested: string, from: int, to: int)
    requires !MatchesPattern(requested)
    ensures var step, w := AutoSeconds(to - from) * MICROS, AutoRollup(to - from) * MICROS;
            Answer(rows, o, requested, from, to)
            == Some(QueryRaw(rows, o, step, RoundUp(o, w, from), RoundUp(o, w, to)))
  {
    var sec, w := AutoSeconds(to - from), AutoRollup(to - from);
    AutoStepSafe(to - from);
    AutomaticAnswer(rows, o, requested, from, to);
    MicrosDivide(sec, w);
    RollupIsRaw(rows, o, w * MICROS, sec * MICROS, from, to);
  }

  lemma FewSteps(span: int, step: int, n: int)
    requires step > 0 && span <= n * step
    ensures (span + step - 1) / step <= n
  {
    FloorBetween(span + step - 1, step, (span + step - 1) / step);
    if (span + step - 1) / step > n {
      MulMonotone(n + 1, (span + step - 1) / step, step);
    }
  }

  lemma AutomaticPoints(span: int, step: int)
    requires span > 0 && step == AutoSeconds(span) * MICROS
    ensures span <= 31 * 24 * HOUR ==> (span + step - 1) / step <= 744
    ensures span > 31 * 24 * HOUR ==> step == 6 * HOUR
  {
    if span <= 31 * 24 * HOUR {
      AutoStepSafe(span);
      FewSteps(span, step, 744);
    }
  }

  /** And they keep a chart to a few hundred points. */
  lemma AutomaticStepsBounded(rows: seq<Row>, o: int, requested: string, from: int, to: int)
    requires !MatchesPattern(requested) && from < to
    ensures var series := Answer(rows, o, requested, from, to);
            && series.Some?
            && (to - from <= 31 * 24 * HOUR ==> |series.value| <= 745)
            && (to - from > 31 * 24 * HOUR ==> |series.value| <= (to - from + 6 * HOUR - 1) / (6 * HOUR) + 1)
  {
    var step, w := AutoSeconds(to - from) * MICROS, AutoRollup(to - from) * MICROS;
    var series := Answer(rows, o, requested, from, to);
    assert series.Some? && |series.value| <= (to - from + step - 1) / step + 1 by {
      AutomaticAnswer(rows, o, requested, from, to);
      PointBound(View(rows, o, w), o, step, from, to);
    }
    AutomaticPoints(to - from, step);
  }
}
