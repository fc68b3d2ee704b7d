/**
 Poll pacing of infra/polling.py: the interval curve, the rate-limit multiplier, and the
 in-memory controller that keeps them per channel. Numbers are reals.
 */
module Polling {
  import opened Wrappers
  import opened Histogram
  import Reals

  const AIMD_MIN := 1.0
  const TINY := 0.000001

  datatype Settings = Settings(base: real, minimum: real, maximum: real, initial: real, hotStart: nat)

  /** The settings for which the pacing claims are made. */
  predicate Sane(c: Settings) {
    && 0.0 <= c.base <= c.maximum && TINY <= c.maximum
    && 0.0 <= c.minimum <= c.maximum
    && (c.minimum > 0.0 || c.hotStart >= 1)
  }

  datatype Stats = Stats(p10: real, p50: real, p95: real, samples: nat, warm: bool)

  /** A warm channel's median, held at the minimum interval, is something to divide by. */
  predicate Usable(c: Settings, s: Stats) {
    s.warm ==> Reals.Max(s.p50, c.minimum) > 0.0
  }

  function Clamp(c: Settings, v: real): real {
    Reals.Max(c.minimum, Reals.Min(c.maximum, v))
  }

  function Pow2(n: nat): real {
    if n == 0 then 1.0 else 2.0 * Pow2(n - 1)
  }

  /** How many median durations have passed, at most 8. */
  function Exponent(c: Settings, elapsed: real, s: Stats): (n: nat)
    requires s.warm && Usable(c, s)
    ensures n <= 8
  {
    var p50 := Reals.Max(s.p50, c.minimum);
    QuotientMonotone(0.0, Reals.Max(0.0, elapsed), p50);
    var n := (Reals.Max(0.0, elapsed) / p50).Floor;
    if n < 8 then n else 8
  }

  /** `compute_interval` */
  function ComputeInterval(c: Settings, elapsed: real, s: Stats, first: bool): real
    requires Usable(c, s)
  {
    if !s.warm then Clamp(c, if first then c.initial else Reals.Max(c.initial, c.minimum))
    else if first then Clamp(c, Reals.Max(s.p10, c.minimum))
    else DoubledBase(c, Exponent(c, elapsed, s))
  }

  /** `x * 2**n` */
  function Doubled(x: real, n: nat): real {
    if n == 0 then x else 2.0 * Doubled(x, n - 1)
  }

  function DoubledBase(c: Settings, n: nat): real {
    Clamp(c, Doubled(c.base, n))
  }

  /** The highest the multiplier can go. */
  function Ceiling(c: Settings): real {
    c.maximum / Reals.Max(c.base, TINY)
  }

  function AimdUp(c: Settings, m: real): real {
    Reals.Min(Ceiling(c), Reals.Max(AIMD_MIN, m * 2.0))
  }

  function AimdDown(m: real): real {
    Reals.Max(AIMD_MIN, m * 0.9)
  }

  // ---------------------------------------------------------------- the interval curve

  lemma QuotientMonotone(x: real, y: real, d: real)
    requires 0.0 <= x <= y && d > 0.0
    ensures 0.0 <= x / d <= y / d
  {
    assert (y - x) / d >= 0.0;
  }

  lemma {:induction false} Pow2Monotone(a: nat, b: nat)
    requires a <= b
    ensures 1.0 <= Pow2(a) <= Pow2(b)
  {
    if b > 0 {
      if a < b {
        Pow2Monotone(a, b - 1);
      } else {
        Pow2Monotone(a - 1, b - 1);
      }
    }
  }

  lemma ClampMonotone(c: Settings, x: real, y: real)
    requires Sane(c) && x <= y
    ensures c.minimum <= Clamp(c, x) <= Clamp(c, y) <= c.maximum
  {
  }

  lemma ExponentMonotone(c: Settings, e1: real, e2: real, s: Stats)
    requires s.warm && Usable(c, s) && e1 <= e2
    ensures Exponent(c, e1, s) <= Exponent(c, e2, s)
  {
    var p50 := Reals.Max(s.p50, c.minimum);
    QuotientMonotone(Reals.Max(0.0, e1), Reals.Max(0.0, e2), p50);
  }

  lemma IntervalInRange(c: Settings, elapsed: real, s: Stats, first: bool)
    requires Sane(c) && Usable(c, s)
    ensures c.minimum <= ComputeInterval(c, elapsed, s, first) <= c.maximum
  {
  }

  lemma {:induction false} DoubledIsPower(x: real, n: nat)
    ensures Doubled(x, n) == x * Pow2(n)
  {
    if n > 0 {
      DoubledIsPower(x, n - 1);
      assert x * (2.0 * Pow2(n - 1)) == 2.0 * (x * Pow2(n - 1));
    }
  }

  lemma {:induction false} DoubledMonotone(x: real, a: nat, b: nat)
    requires x >= 0.0 && a <= b
    ensures x <= Doubled(x, a) <= Doubled(x, b)
  {
    if b > 0 {
      if a < b {
        DoubledMonotone(x, a, b - 1);
      } else {
        DoubledMonotone(x, a - 1, b - 1);
      }
    }
  }

  lemma DoubledBaseMonotone(c: Settings, a: nat, b: nat)
    requires Sane(c) && a <= b
    ensures DoubledBase(c, a) <= DoubledBase(c, b)
  {
    DoubledMonotone(c.base, a, b);
    ClampMonotone(c, Doubled(c.base, a), Doubled(c.base, b));
  }

  /** The longer a warm channel's task has run, the longer the wait. */
  lemma IntervalMonotone(c: Settings, e1: real, e2: real, s: Stats)
    requires Sane(c) && s.warm && Usable(c, s) && e1 <= e2
    ensures ComputeInterval(c, e1, s, false) <= ComputeInterval(c, e2, s, false)
  {
    ExponentMonotone(c, e1, e2, s);
    DoubledBaseMonotone(c, Exponent(c, e1, s), Exponent(c, e2, s));
  }

  function Paced(c: Settings, interval: real, m: real): real {
    Clamp(c, interval * m)
  }

  lemma PacedBounds(c: Settings, x: real, m: real)
    requires Sane(c) && c.minimum <= x <= c.maximum && m >= AIMD_MIN
    ensures x <= Paced(c, x, m) <= c.maximum
  {
    Reals.Scale(x, 1.0, m);
  }

  lemma PacedMonotone(c: Settings, x: real, y: real, m1: real, m2: real)
    requires Sane(c) && 0.0 <= x <= y && 0.0 <= m1 <= m2
    ensures Paced(c, x, m1) <= Paced(c, y, m2)
  {
    Reals.ScaleBoth(x, y, m1, m2);
    ClampMonotone(c, x * m1, y * m2);
  }

  /** `next_interval`, given the channel's statistics and multiplier. */
  function NextInterval(c: Settings, elapsed: real, s: Stats, first: bool, m: real): real
    requires Usable(c, s)
  {
    Paced(c, ComputeInterval(c, elapsed, s, first), m)
  }

  /** The paced interval stays in range and never undercuts the unpaced one. */
  lemma NextIntervalBounds(c: Settings, elapsed: real, s: Stats, first: bool, m: real)
    requires Sane(c) && Usable(c, s) && m >= AIMD_MIN
    ensures c.minimum <= NextInterval(c, elapsed, s, first, m) <= c.maximum
    ensures ComputeInterval(c, elapsed, s, first) <= NextInterval(c, elapsed, s, first, m)
  {
    IntervalInRange(c, elapsed, s, first);
    PacedBounds(c, ComputeInterval(c, elapsed, s, first), m);
  }

  /** Both more elapsed time and more rate limiting make it longer. */
  lemma NextIntervalMonotone(c: Settings, e1: real, e2: real, s: Stats, m1: real, m2: real)
    requires Sane(c) && s.warm && Usable(c, s) && e1 <= e2 && AIMD_MIN <= m1 <= m2
    ensures NextInterval(c, e1, s, false, m1) <= NextInterval(c, e2, s, false, m2)
  {
    IntervalMonotone(c, e1, e2, s);
    IntervalInRange(c, e1, s, false);
    PacedMonotone(c, ComputeInterval(c, e1, s, false), ComputeInterval(c, e2, s, false), m1, m2);
  }

  // ---------------------------------------------------------------- the multiplier

  lemma QuotientAtLeastOne(x: real, d: real, q: real)
    requires 0.0 < d <= x && q * d == x
    ensures q >= 1.0
  {
    assert (q - 1.0) * d == x - d;
  }

  lemma CeilingAtLeastOne(c: Settings)
    requires Sane(c)
    ensures Ceiling(c) >= 1.0
  {
    var d := Reals.Max(c.base, TINY);
    Reals.QuotientTimes(c.maximum, d);
    QuotientAtLeastOne(c.maximum, d, Ceiling(c));
  }

  lemma MultiplierStays(c: Settings, m: real)
    requires Sane(c) && AIMD_MIN <= m <= Ceiling(c)
    ensures AIMD_MIN <= AimdDown(m) <= m
    ensures m <= AimdUp(c, m) <= Ceiling(c)
  {
    CeilingAtLeastOne(c);
  }

  /** The multiplier after a number of clean periods. */
  function Relaxed(m: real, steps: nat): real
    decreases steps
  {
    if steps == 0 then m else Relaxed(AimdDown(m), steps - 1)
  }

  /** From multiplier `m`, nine clean periods for each whole step above one bring it back to exactly one. */
  lemma {:induction false} BackToOne(m: real, steps: nat)
    requires AIMD_MIN <= m && steps as real >= 9.0 * (m - 1.0)
    ensures Relaxed(m, steps) == AIMD_MIN
    decreases steps
  {
    if steps > 0 {
      BackToOne(AimdDown(m), steps - 1);
    }
  }

  /** No sooner than the multiplier's logarithm allows: below one tenth lost per period it stays above one. */
  lemma {:induction false} NotSooner(m: real, steps: nat)
    requires AIMD_MIN <= m && steps as real * 0.1 * m < m - 1.0
    ensures Relaxed(m, steps) > AIMD_MIN
    decreases steps
  {
    if steps > 0 {
      var next := AimdDown(m);
      assert steps as real * 0.1 * m >= 0.1 * m;
      assert next == m * 0.9;
      assert (steps - 1) as real * 0.1 * next <= (steps - 1) as real * 0.1 * m by {
        Reals.Scale((steps - 1) as real * 0.1, next, m);
      }
      NotSooner(next, steps - 1);
    }
  }

  // ---------------------------------------------------------------- the wait in closed form

  /** `n` whole medians have passed, or eight and any number more. */
  predicate Medians(c: Settings, s: Stats, elapsed: real, n: nat) {
    var median := Reals.Max(s.p50, c.minimum);
    n <= 8 && n as real * median <= Reals.Max(0.0, elapsed) && (n < 8 ==> Reals.Max(0.0, elapsed) < (n + 1) as real * median)
  }

  lemma FloorBetween(x: real, d: real, q: real, n: nat, multiple: real)
    requires d > 0.0 && x == q * d && multiple == n as real * d
    ensures multiple <= x <==> n <= q.Floor
  {
    Reals.ProductsOrdered(q, n as real, d, x, multiple);
  }

  lemma ExponentIsMedians(c: Settings, elapsed: real, s: Stats, n: nat)
    requires s.warm && Usable(c, s) && Medians(c, s, elapsed, n)
    ensures Exponent(c, elapsed, s) == n
  {
    var median := Reals.Max(s.p50, c.minimum);
    var x := Reals.Max(0.0, elapsed);
    Reals.QuotientTimes(x, median);
    FloorBetween(x, median, x / median, n, n as real * median);
    FloorBetween(x, median, x / median, n + 1, (n + 1) as real * median);
  }

  const POWERS := [1.0, 2.0, 4.0, 8.0, 16.0, 32.0, 64.0, 128.0, 256.0]

  /** A warm channel waits the base, doubled for each median that has passed, up to 256 times the base, within the bounds. */
  lemma IntervalDoublesPerMedian(c: Settings, elapsed: real, s: Stats, n: nat, power: real)
    requires Sane(c) && s.warm && Usable(c, s) && Medians(c, s, elapsed, n) && power == POWERS[n]
    ensures ComputeInterval(c, elapsed, s, false) == Reals.Max(c.minimum, Reals.Min(c.maximum, c.base * power))
  {
    ExponentIsMedians(c, elapsed, s, n);
    DoubledBy(c.base, n);
  }

  lemma {:induction false} DoubledBy(x: real, n: nat)
    requires n <= 8
    ensures Doubled(x, n) == x * POWERS[n]
  {
    if n > 0 {
      DoubledBy(x, n - 1);
    }
  }

  /** The first poll of a warm channel waits its tenth percentile; a cold channel waits the initial interval, first poll or not. */
  lemma FirstAndColdIntervals(c: Settings, elapsed: real, s: Stats, first: bool)
    requires Sane(c) && Usable(c, s) && (s.warm ==> first)
    ensures ComputeInterval(c, elapsed, s, first) ==
            Reals.Max(c.minimum, Reals.Min(c.maximum, if s.warm then s.p10 else c.initial))
  {
  }

  /** The multiplier after a number of rate limits in a row. */
  function Limited(c: Settings, k: nat): real {
    if k == 0 then AIMD_MIN else AimdUp(c, Limited(c, k - 1))
  }

  /** Each rate limit doubles it, up to the ceiling. */
  lemma {:induction false} LimitedDoubles(c: Settings, k: nat)
    requires Sane(c)
    ensures Limited(c, k) == Reals.Min(Ceiling(c), Pow2(k))
  {
    CeilingAtLeastOne(c);
    Pow2Monotone(0, k);
    if k > 0 {
      LimitedDoubles(c, k - 1);
      Pow2Monotone(0, k - 1);
    }
  }

  /** Within the bounds, one median more doubles the wait. */
  lemma DoublesNext(c: Settings, n: nat)
    requires Sane(c) && 0.0 < c.base && c.minimum <= c.base
    ensures c.base <= DoubledBase(c, n) <= c.maximum
    ensures DoubledBase(c, n + 1) == Reals.Min(c.maximum, 2.0 * DoubledBase(c, n))
  {
    DoubledMonotone(c.base, 0, n);
  }

  /** And so does one rate limit more: its multiplier is twice the one before, or the ceiling, which reaches the maximum. */
  lemma LimitsNext(c: Settings, ceiling: real, y: real, m: real, next: real, ym: real, ynext: real)
    requires Sane(c) && 0.0 < c.base <= y <= c.maximum && c.minimum <= c.base && m >= 1.0
    requires c.base * ceiling == c.maximum && next == Reals.Min(ceiling, 2.0 * m) && ceiling >= 1.0
    requires ym == y * m && ynext == y * next
    ensures Clamp(c, ynext) == Reals.Min(c.maximum, 2.0 * Clamp(c, ym))
  {
    Reals.Grows(y, m, ym);
    if next == 2.0 * m {
      assert ynext == 2.0 * ym;
    } else {
      Reals.ProductsOrdered(y, c.base, ceiling, ynext, c.maximum);
      Reals.ProductsOrdered(ceiling, 2.0 * m, y, ynext, 2.0 * ym);
    }
  }

  lemma CeilingTimesBase(c: Settings, ceiling: real)
    requires Sane(c) && TINY <= c.base && ceiling == Ceiling(c)
    ensures c.base * ceiling == c.maximum && ceiling >= 1.0
  {
    Reals.QuotientTimes(c.maximum, c.base);
    CeilingAtLeastOne(c);
  }

  lemma LimitedAtLeastOne(c: Settings, k: nat)
    requires Sane(c)
    ensures Limited(c, k) >= 1.0
  {
    LimitedDoubles(c, k);
    Pow2Monotone(0, k);
    CeilingAtLeastOne(c);
  }

  lemma {:induction false} WaitDoubles(c: Settings, n: nat, k: nat)
    requires Sane(c) && TINY <= c.base && c.minimum <= c.base
    ensures Paced(c, DoubledBase(c, n), Limited(c, k)) == DoubledBase(c, n + k)
  {
    DoublesNext(c, n);
    if k > 0 {
      WaitDoubles(c, n, k - 1);
      LimitedAtLeastOne(c, k - 1);
      DoublesNext(c, n + k - 1);
      OneLimitMore(c, DoubledBase(c, n), Limited(c, k - 1), Limited(c, k), Ceiling(c));
    }
  }

  lemma OneLimitMore(c: Settings, y: real, m: real, next: real, ceiling: real)
    requires Sane(c) && TINY <= c.base <= y <= c.maximum && c.minimum <= c.base && m >= 1.0
    requires ceiling == Ceiling(c) && next == Reals.Min(ceiling, 2.0 * m)
    ensures Paced(c, y, next) == Reals.Min(c.maximum, 2.0 * Paced(c, y, m))
  {
    CeilingTimesBase(c, ceiling);
    LimitsNext(c, ceiling, y, m, next, y * m, y * next);
  }

  /**
   The wait in closed form: a warm channel whose task has run for `n` medians and which has
   been rate limited `k` times in a row waits the base, doubled `n + k` times, within the bounds.
   */
  lemma WaitAfterRateLimits(c: Settings, elapsed: real, s: Stats, n: nat, k: nat)
    requires Sane(c) && TINY <= c.base && c.minimum <= c.base
    requires s.warm && Usable(c, s) && Medians(c, s, elapsed, n)
    ensures NextInterval(c, elapsed, s, false, Limited(c, k)) == DoubledBase(c, n + k)
  {
    ExponentIsMedians(c, elapsed, s, n);
    WaitDoubles(c, n, k);
  }

  // ---------------------------------------------------------------- the controller

  /** Statistics of a channel in terms of its raw samples. */
  function StatsOf(c: Settings, samples: seq<real>): Stats {
    Stats(Quantile(samples, 0.1, c.initial), Quantile(samples, 0.5, c.initial), Quantile(samples, 0.95, c.initial),
          |samples|, |samples| >= c.hotStart)
  }

  /** The statistics of real samples are always usable: a warm channel's median is at least one bucket. */
  lemma StatsAreUsable(c: Settings, samples: seq<real>)
    requires Sane(c)
    ensures Usable(c, StatsOf(c, samples))
  {
    if samples != [] {
      RankInRange(|samples|, 0.5);
    }
  }

  lemma PercentilesAscend(c: Settings, samples: seq<real>)
    ensures var s := StatsOf(c, samples); s.p10 <= s.p50 <= s.p95
  {
    QuantilesAscend(samples, 0.1, 0.5, c.initial);
    QuantilesAscend(samples, 0.5, 0.95, c.initial);
  }

  function Get<V>(m: map<string, V>, channel: string, default: V): V {
    if channel in m then m[channel] else default
  }

  method Any<T>(s: set<T>) returns (x: T)
    requires s != {}
    ensures x in s
  {
    x :| x in s;
  }

  method Least(s: set<int>) returns (m: int)
    requires s != {}
    ensures m in s && forall x | x in s - {m} :: m < x
  {
    m := Any(s);
    var rest := s - {m};
    while rest != {}
      invariant m in s && rest <= s
      invariant forall x | x in s && x !in rest :: m <= x
      decreases |rest|
    {
      var y := Any(rest);
      if y < m {
        m := y;
      }
      rest := rest - {y};
    }
  }

  /** `sorted(raw.items())` */
  method SortedItems(raw: Buckets) returns (items: seq<Bucket>)
    ensures Lists(items, raw)
  {
    items := [];
    var todo := raw.Keys;
    while todo != {}
      invariant todo <= raw.Keys && Edges(items) == raw.Keys - todo
      invariant Climbs(items) && Counts(items, raw)
      invariant forall b | b in items :: Under(b.edge, todo)
      decreases |todo|
    {
      var m := Least(todo);
      EdgesMore(items, Bucket(m, raw[m]), raw);
      items := items + [Bucket(m, raw[m])];
      todo := todo - {m};
    }
  }

  predicate Under(e: int, todo: set<int>) {
    forall l | l in todo :: e < l
  }

  method Total(items: seq<Bucket>) returns (total: nat)
    ensures total == Cum(items, |items|)
  {
    total := 0;
    for i := 0 to |items|
      invariant total == Cum(items, i)
    {
      total := total + items[i].count;
    }
  }

  class Controller {
    const config: Settings
    var buckets: map<string, Buckets>
    var multiplier: map<string, real>
    var pauseUntil: map<string, real>
    var lastRateLimited: map<string, real>
    /** The durations recorded so far, which the histograms only count. */
    ghost var samples: map<string, seq<real>>

    ghost predicate Valid()
      reads this
    {
      && Sane(config)
      && samples.Keys == buckets.Keys
      && (forall ch | ch in buckets :: buckets[ch] == HistogramOf(samples[ch]))
      && (forall ch | ch in multiplier :: AIMD_MIN <= multiplier[ch] <= Ceiling(config))
    }

    ghost function Samples(channel: string): seq<real>
      reads this
    {
      Get(samples, channel, [])
    }

    constructor (c: Settings)
      requires Sane(c)
      ensures Valid() && config == c && samples == map[] && multiplier == map[] && pauseUntil == map[] && lastRateLimited == map[]
    {
      config, buckets, multiplier, pauseUntil, lastRateLimited, samples := c, map[], map[], map[], map[], map[];
    }

    method RecordDuration(channel: string, seconds: real)
      requires Valid()
      modifies this`buckets, this`samples
      ensures Valid() && samples == old(samples)[channel := old(Samples(channel)) + [seconds]]
    {
      var h := Get(buckets, channel, map[]);
      var edge := (seconds / 10.0).Floor * BUCKET;
      ghost var before := Samples(channel);
      samples := samples[channel := before + [seconds]];
      buckets := buckets[channel := h[edge := (if edge in h then h[edge] else 0) + 1]];
      HistogramMore(before, seconds);
    }

    method GetStats(channel: string) returns (s: Stats)
      requires Valid()
      ensures s == StatsOf(config, Samples(channel)) && Usable(config, s)
    {
      StatsAreUsable(config, Samples(channel));
      var items := SortedItems(Get(buckets, channel, map[]));
      ghost var raw := Samples(channel);
      CumIsAll(raw, items);
      var total := Total(items);
      var p10 := Percentile(items, total, 0.1, config.initial, raw);
      var p50 := Percentile(items, total, 0.5, config.initial, raw);
      var p95 := Percentile(items, total, 0.95, config.initial, raw);
      s := Stats(p10, p50, p95, total, total >= config.hotStart);
    }

    /** What a resubmission waits: a function of the samples alone, whatever rate limits came before. */
    method BaseInterval(channel: string, elapsed: real, first: bool) returns (r: real)
      requires Valid()
      ensures Usable(config, StatsOf(config, Samples(channel)))
      ensures r == ComputeInterval(config, elapsed, StatsOf(config, Samples(channel)), first)
    {
      var s := GetStats(channel);
      r := ComputeInterval(config, elapsed, s, first);
    }

    method NextPoll(channel: string, elapsed: real, first: bool) returns (r: real)
      requires Valid()
      ensures Usable(config, StatsOf(config, Samples(channel)))
      ensures r == NextInterval(config, elapsed, StatsOf(config, Samples(channel)), first, Get(multiplier, channel, AIMD_MIN))
    {
      var s := GetStats(channel);
      var b := ComputeInterval(config, elapsed, s, first);
      r := Paced(config, b, Get(multiplier, channel, AIMD_MIN));
    }

    method NoteRateLimited(channel: string, retryAfter: Option<real>, now: real) returns (m: real)
      requires Valid()
      modifies this`multiplier, this`pauseUntil, this`lastRateLimited
      ensures Valid()
      ensures m == AimdUp(config, Get(old(multiplier), channel, AIMD_MIN)) && multiplier == old(multiplier)[channel := m]
      ensures lastRateLimited == old(lastRateLimited)[channel := now]
      ensures pauseUntil == if retryAfter.Some? && retryAfter.value != 0.0
                            then old(pauseUntil)[channel := now + retryAfter.value] else old(pauseUntil)
    {
      var current := Get(multiplier, channel, AIMD_MIN);
      CeilingAtLeastOne(config);
      MultiplierStays(config, current);
      m := AimdUp(config, current);
      multiplier := multiplier[channel := m];
      lastRateLimited := lastRateLimited[channel := now];
      if retryAfter.Some? && retryAfter.value != 0.0 {
        pauseUntil := pauseUntil[channel := now + retryAfter.value];
      }
    }

    method NoteCleanPeriod(channel: string) returns (m: real)
      requires Valid()
      modifies this`multiplier
      ensures Valid()
      ensures m == AimdDown(Get(old(multiplier), channel, AIMD_MIN)) && multiplier == old(multiplier)[channel := m]
    {
      var current := Get(multiplier, channel, AIMD_MIN);
      CeilingAtLeastOne(config);
      MultiplierStays(config, current);
      m := AimdDown(current);
      multiplier := multiplier[channel := m];
    }

    /** One step down once the channel has been quiet for long enough; otherwise nothing changes. */
    method DecayIfClean(channel: string, quiet: real, now: real) returns (m: Option<real>)
      requires Valid()
      modifies this`multiplier
      ensures Valid()
      ensures m.None? <==> channel in lastRateLimited && now - lastRateLimited[channel] < quiet
      ensures multiplier == if m.None? then old(multiplier) else old(multiplier)[channel := m.value]
      ensures m.Some? ==> m.value == AimdDown(Get(old(multiplier), channel, AIMD_MIN))
    {
      if channel in lastRateLimited && now - lastRateLimited[channel] < quiet {
        return None;
      }
      var v := NoteCleanPeriod(channel);
      m := Some(v);
    }

    method PausedFor(channel: string, now: real) returns (r: real)
      ensures r >= 0.0
      ensures r > 0.0 <==> Get(pauseUntil, channel, 0.0) > now
      ensures r > 0.0 ==> now + r == Get(pauseUntil, channel, 0.0)
    {
      r := Reals.Max(0.0, Get(pauseUntil, channel, 0.0) - now);
    }

    /** After a reset nothing remembers the rate limits; the samples go only when asked for. */
    method Reset(channel: string, includeSamples: bool)
      requires Valid()
      modifies this
      ensures Valid()
      ensures multiplier == old(multiplier) - {channel} && pauseUntil == old(pauseUntil) - {channel}
      ensures lastRateLimited == old(lastRateLimited) - {channel}
      ensures samples == if includeSamples then old(samples) - {channel} else old(samples)
    {
      multiplier := multiplier - {channel};
      pauseUntil := pauseUntil - {channel};
      lastRateLimited := lastRateLimited - {channel};
      if includeSamples {
        buckets := buckets - {channel};
        samples := samples - {channel};
      }
    }
  }
}
