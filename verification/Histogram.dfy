/**
 The duration histogram of infra/polling.py: 10-second buckets, and percentiles read off
 the bucket counts. The percentile refines the order statistic of the raw samples.
 */
module Histogram {
  import Reals

  const BUCKET := 10

  /** The label of a duration's bucket: its lower edge. */
  function Label(seconds: real): int {
    (seconds / 10.0).Floor * BUCKET
  }

  /** What a percentile reports for a bucket: its label, and never less than one bucket. */
  function Reported(edge: int): real {
    (if edge > BUCKET then edge else BUCKET) as real
  }

  /** The least integer that is not below `x`. */
  function Ceil(x: real): int {
    -((-x).Floor)
  }

  lemma CeilIsLeast(x: real, n: int)
    ensures n as real >= x <==> n >= Ceil(x)
  {
  }

  // ---------------------------------------------------------------- counting

  /** Bucket counts of one channel; an edge that is absent has no samples. */
  type Buckets = map<int, nat>

  function CountOf(h: Buckets, edge: int): nat {
    if edge in h then h[edge] else 0
  }

  function Recorded(h: Buckets, seconds: real): Buckets {
    h[Label(seconds) := CountOf(h, Label(seconds)) + 1]
  }

  /** The histogram of a list of samples, recorded one after another. */
  function HistogramOf(samples: seq<real>): Buckets {
    if samples == [] then map[]
    else Recorded(HistogramOf(samples[..|samples| - 1]), samples[|samples| - 1])
  }

  lemma HistogramMore(samples: seq<real>, x: real)
    ensures HistogramOf(samples + [x]) == Recorded(HistogramOf(samples), x)
  {
    assert (samples + [x])[..|samples|] == samples;
  }

  function CountAt(samples: seq<real>, edge: int): nat {
    if samples == [] then 0 else CountAt(samples[1..], edge) + if Label(samples[0]) == edge then 1 else 0
  }

  function CountUpTo(samples: seq<real>, edge: int): nat {
    if samples == [] then 0 else CountUpTo(samples[1..], edge) + if Label(samples[0]) <= edge then 1 else 0
  }

  lemma {:induction false} CountAtSnoc(samples: seq<real>, x: real, edge: int)
    ensures CountAt(samples + [x], edge) == CountAt(samples, edge) + if Label(x) == edge then 1 else 0
  {
    if samples == [] {
      assert (samples + [x])[1..] == [];
    } else {
      CountAtSnoc(samples[1..], x, edge);
      assert (samples + [x])[1..] == samples[1..] + [x];
    }
  }

  lemma {:induction false} HistogramCounts(samples: seq<real>, edge: int)
    ensures CountOf(HistogramOf(samples), edge) == CountAt(samples, edge)
    ensures edge in HistogramOf(samples) ==> CountAt(samples, edge) > 0
  {
    if samples != [] {
      var front, last := samples[..|samples| - 1], samples[|samples| - 1];
      HistogramCounts(front, edge);
      CountAtSnoc(front, last, edge);
      assert front + [last] == samples;
    }
  }

  lemma {:induction false} NoneBetween(samples: seq<real>, lo: int, hi: int)
    requires lo < hi && forall l | lo < l < hi :: CountAt(samples, l) == 0
    ensures CountUpTo(samples, hi) == CountUpTo(samples, lo) + CountAt(samples, hi)
  {
    if samples != [] {
      var l := Label(samples[0]);
      assert lo < l < hi ==> CountAt(samples, l) > 0;
      forall l | lo < l < hi ensures CountAt(samples[1..], l) == 0 {
        assert CountAt(samples, l) == 0;
      }
      NoneBetween(samples[1..], lo, hi);
    }
  }

  lemma {:induction false} NoneBelow(samples: seq<real>, hi: int)
    requires forall l | l < hi :: CountAt(samples, l) == 0
    ensures CountUpTo(samples, hi) == CountAt(samples, hi)
  {
    if samples != [] {
      assert Label(samples[0]) < hi ==> CountAt(samples, Label(samples[0])) > 0;
      forall l | l < hi ensures CountAt(samples[1..], l) == 0 {
        assert CountAt(samples, l) == 0;
      }
      NoneBelow(samples[1..], hi);
    }
  }

  lemma {:induction false} AllBelow(samples: seq<real>, hi: int)
    requires forall l | l > hi :: CountAt(samples, l) == 0
    ensures CountUpTo(samples, hi) == |samples|
  {
    if samples != [] {
      assert Label(samples[0]) > hi ==> CountAt(samples, Label(samples[0])) > 0;
      forall l | l > hi ensures CountAt(samples[1..], l) == 0 {
        assert CountAt(samples, l) == 0;
      }
      AllBelow(samples[1..], hi);
    }
  }

  // ---------------------------------------------------------------- the sorted samples

  function Insert(x: real, sorted: seq<real>): (r: seq<real>)
    ensures |r| == |sorted| + 1
  {
    if sorted == [] || x <= sorted[0] then [x] + sorted else [sorted[0]] + Insert(x, sorted[1..])
  }

  function Sort(samples: seq<real>): (r: seq<real>)
    ensures |r| == |samples|
  {
    if samples == [] then [] else Insert(samples[0], Sort(samples[1..]))
  }

  predicate Ascending(s: seq<real>) {
    forall i, j | 0 <= i < j < |s| :: s[i] <= s[j]
  }

  lemma {:induction false} InsertAdds(x: real, s: seq<real>)
    ensures multiset(Insert(x, s)) == multiset(s) + multiset{x}
  {
    if s != [] && x > s[0] {
      InsertAdds(x, s[1..]);
      assert s == [s[0]] + s[1..];
    }
  }

  lemma {:induction false} InsertAtLeast(x: real, s: seq<real>, least: real)
    requires least <= x && forall i | 0 <= i < |s| :: least <= s[i]
    ensures forall i | 0 <= i < |Insert(x, s)| :: least <= Insert(x, s)[i]
  {
    if s != [] && x > s[0] {
      InsertAtLeast(x, s[1..], least);
    }
  }

  lemma {:induction false} InsertSorts(x: real, s: seq<real>)
    requires Ascending(s)
    ensures Ascending(Insert(x, s))
  {
    if s != [] && x > s[0] {
      InsertSorts(x, s[1..]);
      InsertAtLeast(x, s[1..], s[0]);
    }
  }

  lemma {:induction false} InsertCounts(x: real, s: seq<real>, edge: int)
    ensures CountUpTo(Insert(x, s), edge) == CountUpTo(s, edge) + if Label(x) <= edge then 1 else 0
  {
    if s == [] || x <= s[0] {
      assert ([x] + s)[1..] == s;
    } else {
      InsertCounts(x, s[1..], edge);
      assert Insert(x, s)[1..] == Insert(x, s[1..]);
    }
  }

  /** `Sort` arranges the samples in ascending order and counts stay. */
  lemma {:induction false} SortKeeps(samples: seq<real>, edge: int)
    ensures Ascending(Sort(samples)) && multiset(Sort(samples)) == multiset(samples) && |Sort(samples)| == |samples|
    ensures CountUpTo(Sort(samples), edge) == CountUpTo(samples, edge)
  {
    if samples != [] {
      SortKeeps(samples[1..], edge);
      InsertSorts(samples[0], Sort(samples[1..]));
      InsertAdds(samples[0], Sort(samples[1..]));
      InsertCounts(samples[0], Sort(samples[1..]), edge);
      assert samples == [samples[0]] + samples[1..];
    }
  }

  lemma LabelMonotone(x: real, y: real)
    requires x <= y
    ensures Label(x) <= Label(y)
  {
    assert x / 10.0 <= y / 10.0;
  }

  /** In a sorted list the first `k` samples are up to an edge exactly when the `k`-th one is. */
  lemma {:induction false} KthByCount(s: seq<real>, k: nat, edge: int)
    requires Ascending(s) && 1 <= k <= |s|
    ensures CountUpTo(s, edge) >= k <==> Label(s[k - 1]) <= edge
  {
    LabelMonotone(s[0], s[k - 1]);
    if Label(s[0]) > edge {
      forall l | l <= edge ensures CountAt(s, l) == 0 {
        NoneInTail(s, 0, l);
      }
      NoneBelow(s, edge);
    } else if k > 1 {
      KthByCount(s[1..], k - 1, edge);
    }
  }

  lemma {:induction false} NoneInTail(s: seq<real>, i: nat, edge: int)
    requires Ascending(s) && i < |s| && Label(s[i]) > edge
    ensures CountAt(s[i..], edge) == 0
    decreases |s| - i
  {
    if i + 1 < |s| {
      LabelMonotone(s[i], s[i + 1]);
      NoneInTail(s, i + 1, edge);
      assert s[i..][1..] == s[i + 1..];
    } else {
      assert s[i..][1..] == [];
    }
  }

  // ---------------------------------------------------------------- percentiles

  datatype Bucket = Bucket(edge: int, count: nat)

  predicate Climbs(items: seq<Bucket>) {
    forall i, j | 0 <= i < j < |items| :: items[i].edge < items[j].edge
  }

  predicate Counts(items: seq<Bucket>, h: Buckets) {
    forall b | b in items :: b.edge in h && b.count == h[b.edge]
  }

  function Edges(items: seq<Bucket>): set<int> {
    set b | b in items :: b.edge
  }

  /** `sorted(raw.items())` */
  predicate Lists(items: seq<Bucket>, h: Buckets) {
    Climbs(items) && Counts(items, h) && Edges(items) == h.Keys
  }

  lemma EdgesMore(items: seq<Bucket>, b: Bucket, h: Buckets)
    requires Climbs(items) && Counts(items, h) && b.edge in h && b.count == h[b.edge]
    requires forall a | a in items :: a.edge < b.edge
    ensures Edges(items + [b]) == Edges(items) + {b.edge}
    ensures Climbs(items + [b]) && Counts(items + [b], h)
  {
    var more := items + [b];
    forall e | e in Edges(items) + {b.edge} ensures e in Edges(more) {
      if e == b.edge {
        assert b in more;
      } else {
        var a :| a in items && a.edge == e;
        assert a in more;
      }
    }
  }

  /** The counts of the first `n` buckets. */
  function Cum(items: seq<Bucket>, n: nat): nat
    requires n <= |items|
  {
    if n == 0 then 0 else Cum(items, n - 1) + items[n - 1].count
  }

  lemma NotBetween(items: seq<Bucket>, n: nat, l: int)
    requires Climbs(items) && 2 <= n <= |items| && items[n - 2].edge < l < items[n - 1].edge
    ensures l !in Edges(items)
  {
    forall b | b in items ensures b.edge != l {
      var i :| 0 <= i < |items| && items[i] == b;
      assert i <= n - 2 || i >= n - 1;
    }
  }

  /** The running total after a bucket is the number of samples up to it. */
  lemma {:induction false} CumIsCount(samples: seq<real>, items: seq<Bucket>, n: nat)
    requires Lists(items, HistogramOf(samples)) && 1 <= n <= |items|
    ensures Cum(items, n) == CountUpTo(samples, items[n - 1].edge)
  {
    var edge := items[n - 1].edge;
    HistogramCounts(samples, edge);
    if n == 1 {
      forall l | l < edge ensures CountAt(samples, l) == 0 {
        HistogramCounts(samples, l);
      }
      NoneBelow(samples, edge);
    } else {
      CumIsCount(samples, items, n - 1);
      forall l | items[n - 2].edge < l < edge ensures CountAt(samples, l) == 0 {
        HistogramCounts(samples, l);
        NotBetween(items, n, l);
      }
      NoneBetween(samples, items[n - 2].edge, edge);
    }
  }

  /** Every sample is in a listed bucket. */
  lemma CumIsAll(samples: seq<real>, items: seq<Bucket>)
    requires Lists(items, HistogramOf(samples))
    ensures Cum(items, |items|) == |samples|
  {
    if items == [] {
      forall l ensures CountAt(samples, l) == 0 {
        HistogramCounts(samples, l);
      }
      AllBelow(samples, 0);
      NoneBelow(samples, 0);
    } else {
      var last := items[|items| - 1].edge;
      CumIsCount(samples, items, |items|);
      forall l | l > last ensures CountAt(samples, l) == 0 {
        HistogramCounts(samples, l);
      }
      AllBelow(samples, last);
    }
  }

  /** The rank of a quantile: `ceil(total * q)`. */
  function Rank(total: nat, q: real): int {
    Ceil(total as real * q)
  }

  lemma RankInRange(total: nat, q: real)
    requires total >= 1 && 0.0 < q <= 1.0
    ensures 1 <= Rank(total, q) <= total
  {
    Reals.ScaleStrictly(q, 0.0, total as real);
    Reals.Scale(total as real, q, 1.0);
    CeilIsLeast(total as real * q, total);
    CeilIsLeast(total as real * q, 0);
  }

  lemma RankMonotone(total: nat, p: real, q: real)
    requires p <= q
    ensures Rank(total, p) <= Rank(total, q)
  {
    var x, y := total as real * p, total as real * q;
    Reals.Scale(total as real, p, q);
    CeilIsLeast(y, Ceil(y));
    CeilIsLeast(x, Ceil(y));
  }

  /** The bucket of the `k`-th smallest sample, never below one bucket. */
  function BucketOfRank(samples: seq<real>, k: int): real {
    if 1 <= k <= |samples| then Reported(Label(Sort(samples)[k - 1])) else 0.0
  }

  /** What a percentile means. */
  function Quantile(samples: seq<real>, q: real, fallback: real): real {
    if samples == [] then fallback else BucketOfRank(samples, Rank(|samples|, q))
  }

  /** Percentiles are ordered as their ranks are. */
  lemma QuantilesAscend(samples: seq<real>, p: real, q: real, fallback: real)
    requires 0.0 < p <= q <= 1.0
    ensures Quantile(samples, p, fallback) <= Quantile(samples, q, fallback)
  {
    if samples != [] {
      RankInRange(|samples|, p);
      RankInRange(|samples|, q);
      SortKeeps(samples, 0);
      RankMonotone(|samples|, p, q);
      var i, j := Rank(|samples|, p) - 1, Rank(|samples|, q) - 1;
      LabelMonotone(Sort(samples)[i], Sort(samples)[j]);
    }
  }

  /** A label is the multiple of ten just below the duration, or the duration itself. */
  lemma LabelHolds(x: real)
    ensures Label(x) % 10 == 0 && Label(x) as real <= x < (Label(x) + 10) as real
  {
  }

  /**
   What is reported for a quantile, next to the sample of that rank: less than ten seconds
   below it and never above it, except that samples under ten seconds report ten. The rank
   is the least that covers the quantile's share of the samples.
   */
  lemma QuantileNearSample(samples: seq<real>, q: real, fallback: real)
    requires 0.0 < q <= 1.0 && samples != []
    ensures var k, v := Rank(|samples|, q), Quantile(samples, q, fallback);
            && 1 <= k <= |samples| && (k - 1) as real < |samples| as real * q <= k as real
            && (var x := Sort(samples)[k - 1]; if x < 10.0 then v == 10.0 else v <= x < v + 10.0)
  {
    RankInRange(|samples|, q);
    CeilIsLeast(|samples| as real * q, Rank(|samples|, q));
    CeilIsLeast(|samples| as real * q, Rank(|samples|, q) - 1);
    LabelHolds(Sort(samples)[Rank(|samples|, q) - 1]);
  }

  lemma EdgeBetween(items: seq<Bucket>, h: Buckets, n: nat, edge: int)
    requires Lists(items, h) && n < |items| && edge in h
    requires edge <= items[n].edge && (n > 0 ==> items[n - 1].edge < edge)
    ensures edge == items[n].edge
  {
    var i :| 0 <= i < |items| && items[i].edge == edge;
  }

  /** The first bucket whose running total reaches the rank holds the sample of that rank. */
  lemma FirstBucketHoldsRank(samples: seq<real>, items: seq<Bucket>, n: nat, k: nat)
    requires Lists(items, HistogramOf(samples)) && n < |items| && 1 <= k <= |samples|
    requires Cum(items, n) < k <= Cum(items, n + 1)
    ensures BucketOfRank(samples, k) == Reported(items[n].edge)
  {
    var x := Sort(samples)[k - 1];
    KthFromCum(samples, items, n + 1, k);
    if n > 0 {
      KthFromCum(samples, items, n, k);
    }
    LabelIsListed(samples, x);
    EdgeBetween(items, HistogramOf(samples), n, Label(x));
  }

  lemma KthFromCum(samples: seq<real>, items: seq<Bucket>, n: nat, k: nat)
    requires Lists(items, HistogramOf(samples)) && 1 <= n <= |items| && 1 <= k <= |samples|
    ensures Cum(items, n) >= k <==> Label(Sort(samples)[k - 1]) <= items[n - 1].edge
  {
    SortKeeps(samples, items[n - 1].edge);
    CumIsCount(samples, items, n);
    KthByCount(Sort(samples), k, items[n - 1].edge);
  }

  lemma LabelIsListed(samples: seq<real>, x: real)
    requires x in Sort(samples)
    ensures Label(x) in HistogramOf(samples)
  {
    SortKeeps(samples, 0);
    assert x in multiset(Sort(samples));
    assert x in samples;
    SampleCounts(samples, x);
    HistogramCounts(samples, Label(x));
  }

  lemma {:induction false} SampleCounts(samples: seq<real>, x: real)
    requires x in samples
    ensures CountAt(samples, Label(x)) > 0
  {
    if x != samples[0] {
      SampleCounts(samples[1..], x);
    }
  }

  /** The target lies between zero and the running total of all buckets, so the loop always reaches it. */
  lemma TargetInRange(samples: seq<real>, items: seq<Bucket>, q: real, target: real)
    requires 0.0 < q <= 1.0 && samples != [] && Lists(items, HistogramOf(samples))
    requires target == |samples| as real * q
    ensures 0.0 < target <= Cum(items, |items|) as real
  {
    CumIsAll(samples, items);
    RankInRange(|samples|, q);
    CeilIsLeast(target, |samples|);
    CeilIsLeast(target, 0);
  }

  lemma ReachedIsQuantile(samples: seq<real>, items: seq<Bucket>, i: nat, q: real, target: real, fallback: real)
    requires 0.0 < q <= 1.0 && samples != [] && target == |samples| as real * q
    requires Lists(items, HistogramOf(samples)) && i < |items|
    requires Cum(items, i) as real < target <= Cum(items, i + 1) as real
    ensures Quantile(samples, q, fallback) == Reported(items[i].edge)
  {
    CeilIsLeast(target, Cum(items, i));
    CeilIsLeast(target, Cum(items, i + 1));
    RankInRange(|samples|, q);
    FirstBucketHoldsRank(samples, items, i, Rank(|samples|, q));
  }

  /** The loop of `_percentile`: the first bucket at which the running total reaches `target`. */
  method FirstReaching(items: seq<Bucket>, target: real) returns (i: nat)
    requires 0.0 < target <= Cum(items, |items|) as real
    ensures i < |items| && Cum(items, i) as real < target <= Cum(items, i + 1) as real
  {
    var acc := 0;
    i := 0;
    while i < |items|
      invariant i <= |items| && acc == Cum(items, i) && acc as real < target
    {
      acc := acc + items[i].count;
      if acc as real >= target {
        return;
      }
      i := i + 1;
    }
    assert false;
  }

  /** `_percentile` */
  method Percentile(items: seq<Bucket>, total: nat, q: real, fallback: real, ghost samples: seq<real>) returns (r: real)
    requires 0.0 < q <= 1.0
    requires Lists(items, HistogramOf(samples)) && total == |samples|
    ensures r == Quantile(samples, q, fallback)
  {
    if total <= 0 {
      return fallback;
    }
    var target := total as real * q;
    TargetInRange(samples, items, q, target);
    var i := FirstReaching(items, target);
    ReachedIsQuantile(samples, items, i, q, target, fallback);
    r := Reported(items[i].edge);
  }
}
