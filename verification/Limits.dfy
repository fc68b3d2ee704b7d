/**
 The two quotas of infra/concurrency.py: the token bucket that paces acceptance, and the
 two-level slots (channel and tenant) that bound upstream concurrency.
 */
module Limits {
  import opened Wrappers
  import opened Reals
  import opened Text

  // ---------------------------------------------------------------- token bucket

  const LEAST_RATE := 0.001

  datatype Bucket = Bucket(tokens: real, ts: real)

  /** What has flowed in up to a moment; only differences of it are used. */
  function Flow(rate: real): real -> real {
    t => t * rate
  }

  ghost predicate Rising(flow: real -> real) {
    forall s, t | s <= t :: flow(s) <= flow(t)
  }

  lemma FlowRises(rate: real)
    requires rate >= 0.0
    ensures Rising(Flow(rate))
  {
    forall s: real, t: real | s <= t ensures Flow(rate)(s) <= Flow(rate)(t) {
      FlowBetween(rate, s, t);
      ProductPositive(t - s, rate);
    }
  }

  lemma FlowBetween(rate: real, s: real, t: real)
    ensures Flow(rate)(t) - Flow(rate)(s) == (t - s) * rate
  {
  }

  /** The bucket topped up to `now`. */
  function Refill(flow: real -> real, burst: nat, b: Bucket, now: real): Bucket {
    Bucket(Min(burst as real, b.tokens + (flow(now) - flow(b.ts))), now)
  }

  lemma RefillBy(rate: real, burst: nat, b: Bucket, now: real, inflow: real)
    requires inflow == (now - b.ts) * rate
    ensures Refill(Flow(rate), burst, b, now) == Bucket(Min(burst as real, b.tokens + inflow), now)
  {
    FlowBetween(rate, b.ts, now);
  }

  /** `try_acquire`: the bucket afterwards, and whether the cost was granted. */
  function Take(flow: real -> real, burst: nat, b: Bucket, now: real, cost: nat): (Bucket, bool) {
    var b1 := Refill(flow, burst, b, now);
    if b1.tokens >= cost as real then (b1.(tokens := b1.tokens - cost as real), true) else (b1, false)
  }

  /** How long a refused caller is told to wait. */
  function RetryAfter(rate: real, b: Bucket, cost: nat): real {
    (cost as real - b.tokens) / Max(rate, LEAST_RATE)
  }

  predicate Full(burst: nat, b: Bucket) {
    0.0 <= b.tokens <= burst as real
  }

  class AcceptRateLimiter {
    const rate: real
    const burst: nat
    var tokens: real
    var ts: real

    ghost predicate Valid()
      reads this
    {
      rate >= 0.0 && Full(burst, Bucket(tokens, ts))
    }

    constructor (rate: real, burst: nat, now: real)
      requires rate >= 0.0
      ensures Valid() && this.rate == rate && this.burst == burst && tokens == burst as real && ts == now
    {
      this.rate, this.burst, this.tokens, this.ts := rate, burst, burst as real, now;
    }

    method TryAcquire(cost: nat, now: real) returns (retryAfter: Option<real>)
      requires Valid() && now >= ts
      modifies this
      ensures Valid()
      ensures (Bucket(tokens, ts), retryAfter.None?) == Take(Flow(rate), burst, Bucket(old(tokens), old(ts)), now, cost)
      ensures retryAfter.Some? ==> retryAfter.value == RetryAfter(rate, Bucket(tokens, ts), cost)
      ensures var filled := Min(burst as real, old(tokens) + (now - old(ts)) * rate);
              && (retryAfter.None? <==> filled >= cost as real)
              && tokens == filled - (if retryAfter.None? then cost as real else 0.0)
    {
      FlowRises(rate);
      var inflow := (now - ts) * rate;
      RefillBy(rate, burst, Bucket(tokens, ts), now, inflow);
      TakeStaysFull(Flow(rate), burst, Bucket(tokens, ts), now, cost);
      tokens := Min(burst as real, tokens + inflow);
      ts := now;
      if tokens >= cost as real {
        tokens := tokens - cost as real;
        return None;
      }
      retryAfter := Some((cost as real - tokens) / Max(rate, LEAST_RATE));
    }
  }

  datatype Draw = Draw(now: real, cost: nat)

  /** Requests at a clock that never goes back, none before `since`. */
  predicate Ordered(reqs: seq<Draw>, since: real)
    decreases |reqs|
  {
    reqs == [] || (since <= reqs[0].now && Ordered(reqs[1..], reqs[0].now))
  }

  function Run(flow: real -> real, burst: nat, b: Bucket, reqs: seq<Draw>): Bucket
    decreases |reqs|
  {
    if reqs == [] then b else Run(flow, burst, Take(flow, burst, b, reqs[0].now, reqs[0].cost).0, reqs[1..])
  }

  /** The total cost granted over the requests. */
  function Granted(flow: real -> real, burst: nat, b: Bucket, reqs: seq<Draw>): nat
    decreases |reqs|
  {
    if reqs == [] then 0
    else
      var (b1, ok) := Take(flow, burst, b, reqs[0].now, reqs[0].cost);
      (if ok then reqs[0].cost else 0) + Granted(flow, burst, b1, reqs[1..])
  }

  lemma TakeStaysFull(flow: real -> real, burst: nat, b: Bucket, now: real, cost: nat)
    requires Rising(flow) && Full(burst, b) && now >= b.ts
    ensures Full(burst, Take(flow, burst, b, now, cost).0)
    ensures Take(flow, burst, b, now, cost).0.ts == now
    ensures Take(flow, burst, b, now, cost).0.tokens <= b.tokens + (flow(now) - flow(b.ts))
                                                       - (if Take(flow, burst, b, now, cost).1 then cost as real else 0.0)
  {
    assert flow(b.ts) <= flow(now);
  }

  lemma {:induction false} RunStaysFull(flow: real -> real, burst: nat, b: Bucket, reqs: seq<Draw>)
    requires Rising(flow) && Full(burst, b) && Ordered(reqs, b.ts)
    ensures Full(burst, Run(flow, burst, b, reqs))
    ensures Run(flow, burst, b, reqs).ts == if reqs == [] then b.ts else reqs[|reqs| - 1].now
    decreases |reqs|
  {
    if reqs != [] {
      TakeStaysFull(flow, burst, b, reqs[0].now, reqs[0].cost);
      RunStaysFull(flow, burst, Take(flow, burst, b, reqs[0].now, reqs[0].cost).0, reqs[1..]);
    }
  }

  lemma {:induction false} OrderedEnds(reqs: seq<Draw>, since: real)
    requires Ordered(reqs, since) && reqs != []
    ensures since <= reqs[0].now <= reqs[|reqs| - 1].now
    decreases |reqs|
  {
    if |reqs| > 1 {
      OrderedEnds(reqs[1..], reqs[0].now);
    }
  }

  /** What is granted up to `end` was in the bucket or has flowed in since. */
  lemma {:induction false} GrantedFlowsIn(flow: real -> real, burst: nat, b: Bucket, reqs: seq<Draw>, end: real)
    requires Rising(flow) && Full(burst, b) && Ordered(reqs, b.ts)
    requires b.ts <= end && (reqs != [] ==> reqs[|reqs| - 1].now <= end)
    ensures Granted(flow, burst, b, reqs) as real <= b.tokens + (flow(end) - flow(b.ts))
    decreases |reqs|
  {
    if reqs == [] {
      assert flow(b.ts) <= flow(end);
    } else {
      OrderedEnds(reqs, b.ts);
      TakeStaysFull(flow, burst, b, reqs[0].now, reqs[0].cost);
      GrantedFlowsIn(flow, burst, Take(flow, burst, b, reqs[0].now, reqs[0].cost).0, reqs[1..], end);
    }
  }

  lemma RefillTwice(flow: real -> real, burst: nat, b: Bucket, t1: real, t2: real)
    requires Rising(flow) && b.ts <= t1 <= t2
    ensures Refill(flow, burst, Refill(flow, burst, b, t1), t2) == Refill(flow, burst, b, t2)
  {
    assert flow(t1) <= flow(t2);
  }

  /** A bucket topped up first grants just the same. */
  lemma TopUpFirst(flow: real -> real, burst: nat, b: Bucket, reqs: seq<Draw>)
    requires Rising(flow) && reqs != [] && b.ts <= reqs[0].now
    ensures Granted(flow, burst, b, reqs) == Granted(flow, burst, Refill(flow, burst, b, reqs[0].now), reqs)
  {
    RefillTwice(flow, burst, b, reqs[0].now, reqs[0].now);
  }

  lemma WindowFlow(flow: real -> real, burst: nat, mid: Bucket, window: seq<Draw>, supply: real)
    requires Rising(flow) && Full(burst, mid) && window != [] && Ordered(window, mid.ts)
    requires supply == flow(window[|window| - 1].now) - flow(window[0].now)
    ensures Granted(flow, burst, mid, window) as real <= burst as real + supply
  {
    var first := Refill(flow, burst, mid, window[0].now);
    OrderedEnds(window, mid.ts);
    assert flow(mid.ts) <= flow(window[0].now);
    TopUpFirst(flow, burst, mid, window);
    GrantedFlowsIn(flow, burst, first, window, window[|window| - 1].now);
  }

  /** The rate limit in terms of what flows in. */
  lemma FlowBound(flow: real -> real, burst: nat, b: Bucket, before: seq<Draw>, window: seq<Draw>, supply: real)
    requires Rising(flow) && Full(burst, b) && Ordered(before, b.ts) && window != []
    requires Ordered(window, Run(flow, burst, b, before).ts)
    requires supply == flow(window[|window| - 1].now) - flow(window[0].now)
    ensures Granted(flow, burst, Run(flow, burst, b, before), window) as real <= burst as real + supply
  {
    RunStaysFull(flow, burst, b, before);
    WindowFlow(flow, burst, Run(flow, burst, b, before), window, supply);
  }

  /** What the rate supplies over a stretch of time. */
  function Supplied(rate: real, from: real, to: real): real {
    (to - from) * rate
  }

  /** A flow at a constant rate; `Flow(rate)` is one. */
  ghost predicate FlowsAt(flow: real -> real, rate: real) {
    forall s, t :: flow(t) - flow(s) == Supplied(rate, s, t)
  }

  lemma FlowIsConstant(rate: real)
    ensures FlowsAt(Flow(rate), rate)
  {
    forall s, t ensures Flow(rate)(t) - Flow(rate)(s) == Supplied(rate, s, t) {
      FlowBetween(rate, s, t);
    }
  }

  /** The same with the supply of any flow at a constant rate. */
  lemma ConstantFlowBound(flow: real -> real, rate: real, burst: nat, b: Bucket, before: seq<Draw>, window: seq<Draw>)
    requires Rising(flow) && FlowsAt(flow, rate) && Full(burst, b) && Ordered(before, b.ts) && window != []
    requires Ordered(window, Run(flow, burst, b, before).ts)
    ensures Granted(flow, burst, Run(flow, burst, b, before), window) as real
            <= burst as real + Supplied(rate, window[0].now, window[|window| - 1].now)
  {
    FlowBound(flow, burst, b, before, window, Supplied(rate, window[0].now, window[|window| - 1].now));
  }

  /**
   The rate limit itself: in any window of any run, the cost granted is at most the burst
   plus the rate times the time between the window's first and last request.
   */
  lemma WindowBound(rate: real, burst: nat, b: Bucket, before: seq<Draw>, window: seq<Draw>)
    requires rate >= 0.0 && Full(burst, b) && Ordered(before, b.ts) && window != []
    requires Ordered(window, Run(Flow(rate), burst, b, before).ts)
    ensures Granted(Flow(rate), burst, Run(Flow(rate), burst, b, before), window) as real
            <= burst as real + Supplied(rate, window[0].now, window[|window| - 1].now)
  {
    FlowRises(rate);
    FlowIsConstant(rate);
    ConstantFlowBound(Flow(rate), rate, burst, b, before, window);
  }

  /** No inflow is lost to a full bucket. */
  predicate NeverFull(flow: real -> real, burst: nat, b: Bucket, reqs: seq<Draw>)
    decreases |reqs|
  {
    reqs == [] ||
    (&& b.tokens + (flow(reqs[0].now) - flow(b.ts)) <= burst as real
     && NeverFull(flow, burst, Take(flow, burst, b, reqs[0].now, reqs[0].cost).0, reqs[1..]))
  }

  /** Then every token is accounted for: what was there and what flowed in has been granted, or is still in the bucket. */
  lemma {:induction false} NothingIsLost(flow: real -> real, burst: nat, b: Bucket, reqs: seq<Draw>)
    requires NeverFull(flow, burst, b, reqs)
    ensures var end := Run(flow, burst, b, reqs);
            end.tokens + Granted(flow, burst, b, reqs) as real == b.tokens + (flow(end.ts) - flow(b.ts))
    decreases |reqs|
  {
    if reqs != [] {
      NothingIsLost(flow, burst, Take(flow, burst, b, reqs[0].now, reqs[0].cost).0, reqs[1..]);
    }
  }

  function TotalCost(reqs: seq<Draw>): nat {
    if reqs == [] then 0 else reqs[0].cost + TotalCost(reqs[1..])
  }

  /** Requests that together cost no more than the bucket holds are all granted. */
  lemma {:induction false} WhatIsThereIsGranted(flow: real -> real, burst: nat, b: Bucket, reqs: seq<Draw>)
    requires Rising(flow) && Full(burst, b) && Ordered(reqs, b.ts) && TotalCost(reqs) as real <= b.tokens
    ensures Granted(flow, burst, b, reqs) == TotalCost(reqs)
    decreases |reqs|
  {
    if reqs != [] {
      var next := Take(flow, burst, b, reqs[0].now, reqs[0].cost).0;
      assert flow(b.ts) <= flow(reqs[0].now);
      TakeStaysFull(flow, burst, b, reqs[0].now, reqs[0].cost);
      WhatIsThereIsGranted(flow, burst, next, reqs[1..]);
    }
  }

  /** Requests of which none is granted. */
  predicate AllRefused(flow: real -> real, burst: nat, b: Bucket, reqs: seq<Draw>)
    decreases |reqs|
  {
    reqs == [] ||
    (var (b1, ok) := Take(flow, burst, b, reqs[0].now, reqs[0].cost);
     !ok && AllRefused(flow, burst, b1, reqs[1..]))
  }

  lemma {:induction false} RefusalsTakeNothing(flow: real -> real, burst: nat, b: Bucket, reqs: seq<Draw>, t: real)
    requires Rising(flow) && Ordered(reqs, b.ts) && AllRefused(flow, burst, b, reqs)
    requires b.ts <= t && (reqs != [] ==> reqs[|reqs| - 1].now <= t)
    ensures Run(flow, burst, b, reqs).ts <= t
    ensures Refill(flow, burst, Run(flow, burst, b, reqs), t) == Refill(flow, burst, b, t)
    decreases |reqs|
  {
    if reqs != [] {
      OrderedEnds(reqs, b.ts);
      RefusalsTakeNothing(flow, burst, Refill(flow, burst, b, reqs[0].now), reqs[1..], t);
      RefillTwice(flow, burst, b, reqs[0].now, t);
    }
  }

  lemma WaitedEnough(rate: real, missing: real, wait: real)
    requires rate >= 0.0 && missing > 0.0 && wait == missing / Max(rate, LEAST_RATE)
    ensures wait > 0.0 && (wait * rate >= missing <==> rate >= LEAST_RATE)
  {
    QuotientTimes(missing, Max(rate, LEAST_RATE));
    if rate < LEAST_RATE {
      ScaleStrictly(wait, rate, LEAST_RATE);
    }
  }

  lemma FlowDuring(rate: real, now: real, wait: real)
    ensures Flow(rate)(now + wait) - Flow(rate)(now) == wait * rate
  {
    FlowBetween(rate, now, now + wait);
    assert now + wait - now == wait;
  }

  lemma WaitingFills(flow: real -> real, burst: nat, b: Bucket, cost: nat, wait: real)
    requires b.tokens < cost as real
    ensures Refill(flow, burst, b, b.ts + wait).tokens >= cost as real <==>
            cost <= burst && flow(b.ts + wait) - flow(b.ts) >= cost as real - b.tokens
  {
  }

  /**
   A refused request that waits as told and meets no grant on the way is granted, exactly
   when it fits the burst at all and the rate is not below the floor the wait assumes.
   */
  lemma RetrySucceedsIff(rate: real, burst: nat, b: Bucket, now: real, cost: nat, between: seq<Draw>)
    requires rate >= 0.0 && Full(burst, b) && now >= b.ts
    requires !Take(Flow(rate), burst, b, now, cost).1
    requires var b1 := Refill(Flow(rate), burst, b, now);
             && Ordered(between, now) && AllRefused(Flow(rate), burst, b1, between)
             && (between != [] ==> between[|between| - 1].now <= now + RetryAfter(rate, b1, cost))
    ensures var b1 := Refill(Flow(rate), burst, b, now);
            Take(Flow(rate), burst, Run(Flow(rate), burst, b1, between), now + RetryAfter(rate, b1, cost), cost).1
            <==> cost <= burst && rate >= LEAST_RATE
  {
    var b1 := Refill(Flow(rate), burst, b, now);
    var wait := RetryAfter(rate, b1, cost);
    FlowRises(rate);
    WaitedEnough(rate, cost as real - b1.tokens, wait);
    RefusalsTakeNothing(Flow(rate), burst, b1, between, now + wait);
    FlowDuring(rate, now, wait);
    WaitingFills(Flow(rate), burst, b1, cost, wait);
  }

  // ---------------------------------------------------------------- two-level slots

  datatype Key = Chan(channel: string) | Ten(channel: string, tenant: string)

  /** `_keys`: the text under which a slot is counted, "conc:{channel}" or "conc:{channel}:{tenant}". */
  function KeyText(k: Key): string {
    "conc:{" + Inner(k)
  }

  function Inner(k: Key): string {
    match k
    case Chan(c) => c + ['}']
    case Ten(c, t) => c + ['}'] + (":{" + t + ['}'])
  }

  type Counts = map<Key, int>

  function Count(counts: Counts, k: Key): int {
    if k in counts then counts[k] else 0
  }

  datatype Refusal = ChannelFull | TenantFull

  datatype Op =
    | Acquire(channel: string, tenant: string)
    | Release(channel: string, tenant: string)
    | Calibrate(channel: string, active: nat)

  /** The limits in force, fixed over a run. */
  datatype Quota = Quota(channel: string -> nat, tenant: (string, string) -> nat)

  function Refused(q: Quota, counts: Counts, c: string, t: string): Option<Refusal> {
    if Count(counts, Chan(c)) >= q.channel(c) then Some(ChannelFull)
    else if Count(counts, Ten(c, t)) >= q.tenant(c, t) then Some(TenantFull)
    else None
  }

  function Lowered(counts: Counts, k: Key): Counts {
    if Count(counts, k) > 0 then counts[k := Count(counts, k) - 1] else counts
  }

  function After(q: Quota, counts: Counts, op: Op): Counts {
    match op
    case Acquire(c, t) =>
      if Refused(q, counts, c, t).Some? then counts
      else counts[Chan(c) := Count(counts, Chan(c)) + 1][Ten(c, t) := Count(counts, Ten(c, t)) + 1]
    case Release(c, t) => Lowered(Lowered(counts, Chan(c)), Ten(c, t))
    case Calibrate(c, active) => if Count(counts, Chan(c)) > active then counts[Chan(c) := active] else counts
  }

  class ConcurrencyLimiter {
    var counts: Counts

    constructor ()
      ensures counts == map[]
    {
      counts := map[];
    }

    method TryAcquire(channel: string, tenant: string, q: Quota) returns (refusal: Option<Refusal>)
      modifies this
      ensures refusal == Refused(q, old(counts), channel, tenant)
      ensures counts == After(q, old(counts), Acquire(channel, tenant))
      ensures var held, own := Count(old(counts), Chan(channel)), Count(old(counts), Ten(channel, tenant));
              && (refusal.None? <==> held < q.channel(channel) && own < q.tenant(channel, tenant))
              && (refusal == Some(ChannelFull) <==> held >= q.channel(channel))
      ensures forall k :: Count(counts, k) == Count(old(counts), k) +
                if refusal.None? && k in [Chan(channel), Ten(channel, tenant)] then 1 else 0
    {
      if Count(counts, Chan(channel)) >= q.channel(channel) {
        return Some(ChannelFull);
      }
      if Count(counts, Ten(channel, tenant)) >= q.tenant(channel, tenant) {
        return Some(TenantFull);
      }
      counts := counts[Chan(channel) := Count(counts, Chan(channel)) + 1];
      counts := counts[Ten(channel, tenant) := Count(counts, Ten(channel, tenant)) + 1];
      refusal := None;
    }

    method ReleaseSlot(channel: string, tenant: string)
      modifies this
      ensures forall q :: counts == After(q, old(counts), Release(channel, tenant))
      ensures forall k :: Count(counts, k) == Count(old(counts), k) -
                if k in [Chan(channel), Ten(channel, tenant)] && Count(old(counts), k) > 0 then 1 else 0
    {
      var keys := [Chan(channel), Ten(channel, tenant)];
      for i := 0 to |keys|
        invariant counts == if i == 0 then old(counts) else if i == 1 then Lowered(old(counts), keys[0])
                            else Lowered(Lowered(old(counts), keys[0]), keys[1])
      {
        if Count(counts, keys[i]) > 0 {
          counts := counts[keys[i] := Count(counts, keys[i]) - 1];
        }
      }
    }

    method CalibrateChannel(channel: string, active: nat) returns (drift: nat)
      modifies this
      ensures forall q :: counts == After(q, old(counts), Calibrate(channel, active))
      ensures Count(old(counts), Chan(channel)) >= 0 ==> Count(counts, Chan(channel)) + drift == Count(old(counts), Chan(channel))
      ensures Count(counts, Chan(channel)) <= active
      ensures drift > 0 <==> Count(old(counts), Chan(channel)) > active
      ensures forall k | k != Chan(channel) :: Count(counts, k) == Count(old(counts), k)
    {
      var current := Count(counts, Chan(channel));
      if current > active {
        counts := counts[Chan(channel) := active];
        return current - active;
      }
      drift := 0;
    }
  }

  function RunSlots(q: Quota, counts: Counts, ops: seq<Op>): Counts {
    if ops == [] then counts else After(q, RunSlots(q, counts, ops[..|ops| - 1]), ops[|ops| - 1])
  }

  ghost predicate InBounds(q: Quota, counts: Counts) {
    && (forall c :: 0 <= Count(counts, Chan(c)) <= q.channel(c))
    && (forall c, t :: 0 <= Count(counts, Ten(c, t)) <= q.tenant(c, t))
  }

  lemma StepInBounds(q: Quota, counts: Counts, op: Op)
    requires InBounds(q, counts)
    ensures InBounds(q, After(q, counts, op))
  {
  }

  /** Over any run of acquires, releases (also duplicates) and calibrations every count stays within its limit. */
  lemma {:induction false} CountsInBounds(q: Quota, ops: seq<Op>)
    ensures InBounds(q, RunSlots(q, map[], ops))
  {
    if ops != [] {
      CountsInBounds(q, ops[..|ops| - 1]);
      StepInBounds(q, RunSlots(q, map[], ops[..|ops| - 1]), ops[|ops| - 1]);
    }
  }

  /** The slots counted for the listed tenants of a channel. */
  function TenantSum(counts: Counts, c: string, ts: seq<string>): int {
    if ts == [] then 0 else Count(counts, Ten(c, ts[0])) + TenantSum(counts, c, ts[1..])
  }

  lemma {:induction false} SumSame(a: Counts, b: Counts, c: string, ts: seq<string>)
    requires forall t | t in ts :: Count(a, Ten(c, t)) == Count(b, Ten(c, t))
    ensures TenantSum(a, c, ts) == TenantSum(b, c, ts)
  {
    if ts != [] {
      SumSame(a, b, c, ts[1..]);
    }
  }

  lemma {:induction false} SumMoves(a: Counts, b: Counts, c: string, ts: seq<string>, t: string)
    requires Distinct(ts) && t in ts
    requires forall x | x in ts && x != t :: Count(a, Ten(c, x)) == Count(b, Ten(c, x))
    ensures TenantSum(b, c, ts) - TenantSum(a, c, ts) == Count(b, Ten(c, t)) - Count(a, Ten(c, t))
  {
    if ts[0] == t {
      SumSame(a, b, c, ts[1..]);
    } else {
      SumMoves(a, b, c, ts[1..], t);
    }
  }

  ghost predicate Names(ops: seq<Op>, ts: seq<string>) {
    forall op | op in ops && !op.Calibrate? :: op.tenant in ts
  }

  lemma StepBelowSum(q: Quota, counts: Counts, op: Op, c: string, ts: seq<string>)
    requires InBounds(q, counts) && Distinct(ts) && (op.Calibrate? || op.tenant in ts)
    requires Count(counts, Chan(c)) <= TenantSum(counts, c, ts)
    ensures Count(After(q, counts, op), Chan(c)) <= TenantSum(After(q, counts, op), c, ts)
  {
    var after := After(q, counts, op);
    if op.Calibrate? || op.channel != c {
      SumSame(counts, after, c, ts);
    } else {
      SumMoves(counts, after, c, ts, op.tenant);
      SumAtLeast(after, c, ts);
    }
  }

  lemma {:induction false} SumAtLeast(counts: Counts, c: string, ts: seq<string>)
    requires forall t :: Count(counts, Ten(c, t)) >= 0
    ensures TenantSum(counts, c, ts) >= 0
  {
    if ts != [] {
      SumAtLeast(counts, c, ts[1..]);
    }
  }

  /** The channel's count never exceeds the sum over its tenants, whatever is released twice or calibrated. */
  lemma {:induction false} ChannelBelowTenants(q: Quota, ops: seq<Op>, c: string, ts: seq<string>)
    requires Distinct(ts) && Names(ops, ts)
    ensures Count(RunSlots(q, map[], ops), Chan(c)) <= TenantSum(RunSlots(q, map[], ops), c, ts)
  {
    if ops == [] {
      SumAtLeast(map[], c, ts);
    } else {
      ChannelBelowTenants(q, ops[..|ops| - 1], c, ts);
      CountsInBounds(q, ops[..|ops| - 1]);
      StepBelowSum(q, RunSlots(q, map[], ops[..|ops| - 1]), ops[|ops| - 1], c, ts);
    }
  }

  // ---------------------------------------------------------------- balanced use

  /** The slots callers hold: granted and not yet given back. */
  function Held(q: Quota, ops: seq<Op>): multiset<(string, string)> {
    if ops == [] then multiset{}
    else
      var front, op := ops[..|ops| - 1], ops[|ops| - 1];
      var held := Held(q, front);
      match op
      case Acquire(c, t) =>
        if Refused(q, RunSlots(q, map[], front), c, t).None? then held + multiset{(c, t)} else held
      case Release(c, t) => held - multiset{(c, t)}
      case Calibrate(_, _) => held
  }

  /** No calibration, and only held slots are released. */
  predicate Balanced(q: Quota, ops: seq<Op>) {
    ops == [] ||
    (var front, op := ops[..|ops| - 1], ops[|ops| - 1];
     && Balanced(q, front) && !op.Calibrate?
     && (op.Release? ==> (op.channel, op.tenant) in Held(q, front)))
  }

  /** Balanced use counts exactly what is held: per tenant, and per channel as the sum of its tenants. */
  lemma {:induction false} BalancedIsExact(q: Quota, ops: seq<Op>, c: string, t: string, ts: seq<string>)
    requires Balanced(q, ops) && Distinct(ts) && Names(ops, ts)
    ensures Count(RunSlots(q, map[], ops), Ten(c, t)) == Held(q, ops)[(c, t)]
    ensures Count(RunSlots(q, map[], ops), Chan(c)) == TenantSum(RunSlots(q, map[], ops), c, ts)
  {
    if ops == [] {
      SumOfNothing(c, ts);
    } else {
      var front, op := ops[..|ops| - 1], ops[|ops| - 1];
      var before := RunSlots(q, map[], front);
      BalancedIsExact(q, front, c, t, ts);
      if op.Release? {
        BalancedIsExact(q, front, op.channel, op.tenant, ts);
      }
      CountsInBounds(q, front);
      HeldStep(q, before, Held(q, front), op, c, t);
      SumStep(q, before, op, c, ts);
    }
  }

  lemma HeldStep(q: Quota, before: Counts, held: multiset<(string, string)>, op: Op, c: string, t: string)
    requires InBounds(q, before) && !op.Calibrate?
    requires Count(before, Ten(c, t)) == held[(c, t)]
    ensures Count(After(q, before, op), Ten(c, t)) ==
            (if op.Release? then held - multiset{(op.channel, op.tenant)}
             else if Refused(q, before, op.channel, op.tenant).None? then held + multiset{(op.channel, op.tenant)}
             else held)[(c, t)]
  {
    assert (op.channel, op.tenant) == (c, t) <==> op.channel == c && op.tenant == t;
  }

  lemma SumStep(q: Quota, before: Counts, op: Op, c: string, ts: seq<string>)
    requires InBounds(q, before) && !op.Calibrate? && Distinct(ts) && op.tenant in ts
    requires op.Release? ==> Count(before, Ten(op.channel, op.tenant)) > 0
    requires Count(before, Chan(c)) == TenantSum(before, c, ts)
    ensures Count(After(q, before, op), Chan(c)) == TenantSum(After(q, before, op), c, ts)
  {
    var after := After(q, before, op);
    if op.channel != c {
      SumSame(before, after, c, ts);
    } else {
      SumMoves(before, after, c, ts, op.tenant);
      OneOfSum(q, before, c, ts, op.tenant);
    }
  }

  lemma {:induction false} SumOfNothing(c: string, ts: seq<string>)
    ensures TenantSum(map[], c, ts) == 0
  {
    if ts != [] {
      SumOfNothing(c, ts[1..]);
    }
  }

  lemma {:induction false} OneOfSum(q: Quota, counts: Counts, c: string, ts: seq<string>, t: string)
    requires InBounds(q, counts) && t in ts
    ensures TenantSum(counts, c, ts) >= Count(counts, Ten(c, t))
  {
    if ts[0] != t {
      OneOfSum(q, counts, c, ts[1..], t);
    } else {
      SumAtLeast(counts, c, ts[1..]);
    }
  }

  /** What the listed tenants of a channel hold together. */
  function HeldOn(held: multiset<(string, string)>, c: string, ts: seq<string>): nat {
    if ts == [] then 0 else held[(c, ts[0])] + HeldOn(held, c, ts[1..])
  }

  lemma {:induction false} SumIsHeld(counts: Counts, held: multiset<(string, string)>, c: string, ts: seq<string>)
    requires forall t | t in ts :: Count(counts, Ten(c, t)) == held[(c, t)]
    ensures TenantSum(counts, c, ts) == HeldOn(held, c, ts)
  {
    if ts != [] {
      SumIsHeld(counts, held, c, ts[1..]);
    }
  }

  /**
   Capacity, under balanced use: an acquire is refused exactly when the channel or the tenant
   holds its full limit, and the channel is named exactly when it is the channel that does.
   */
  lemma RefusedIffFull(q: Quota, ops: seq<Op>, c: string, t: string, ts: seq<string>)
    requires Balanced(q, ops) && Distinct(ts) && Names(ops, ts) && t in ts
    ensures var refusal, onChannel, own := Refused(q, RunSlots(q, map[], ops), c, t), HeldOn(Held(q, ops), c, ts), Held(q, ops)[(c, t)];
            && onChannel <= q.channel(c) && own <= q.tenant(c, t)
            && (refusal == Some(ChannelFull) <==> onChannel == q.channel(c))
            && (refusal == Some(TenantFull) <==> onChannel < q.channel(c) && own == q.tenant(c, t))
            && (refusal.None? <==> onChannel < q.channel(c) && own < q.tenant(c, t))
  {
    var counts := RunSlots(q, map[], ops);
    forall x | x in ts ensures Count(counts, Ten(c, x)) == Held(q, ops)[(c, x)] {
      BalancedIsExact(q, ops, c, x, ts);
    }
    BalancedIsExact(q, ops, c, t, ts);
    SumIsHeld(counts, Held(q, ops), c, ts);
    CountsInBounds(q, ops);
    assert 0 <= Count(counts, Chan(c)) <= q.channel(c) && 0 <= Count(counts, Ten(c, t)) <= q.tenant(c, t);
  }

  function Smaller(m: nat, n: nat): nat {
    if m < n then m else n
  }

  /** One more acquire by the only tenant: granted as long as it holds less than both limits. */
  lemma OneMoreAcquire(q: Quota, front: seq<Op>, c: string, t: string)
    requires Balanced(q, front) && Names(front, [t])
    ensures Held(q, front)[(c, t)] <= Smaller(q.channel(c), q.tenant(c, t))
    ensures Held(q, front + [Acquire(c, t)])[(c, t)] ==
            Held(q, front)[(c, t)] + if Held(q, front)[(c, t)] < Smaller(q.channel(c), q.tenant(c, t)) then 1 else 0
    ensures Balanced(q, front + [Acquire(c, t)])
  {
    var ops := front + [Acquire(c, t)];
    assert ops[..|ops| - 1] == front && ops[|ops| - 1] == Acquire(c, t);
    RefusedIffFull(q, front, c, t, [t]);
    assert HeldOn(Held(q, front), c, [t]) == Held(q, front)[(c, t)] + HeldOn(Held(q, front), c, []);
  }

  /** One tenant that only acquires holds a slot for every acquire, up to the smaller limit. */
  lemma {:induction false} FirstAreGranted(q: Quota, ops: seq<Op>, c: string, t: string)
    requires forall op | op in ops :: op == Acquire(c, t)
    ensures Held(q, ops)[(c, t)] == Smaller(|ops|, Smaller(q.channel(c), q.tenant(c, t)))
    ensures Balanced(q, ops)
    decreases |ops|
  {
    if ops != [] {
      var front := ops[..|ops| - 1];
      assert ops[|ops| - 1] in ops && ops == front + [Acquire(c, t)];
      assert forall op | op in front :: op in ops;
      FirstAreGranted(q, front, c, t);
      OneMoreAcquire(q, front, c, t);
    }
  }

  // ---------------------------------------------------------------- key texts

  /** A name that cannot close the braces around it. */
  predicate Plain(name: string) {
    '}' !in name
  }

  lemma SameRest(head: string, x: string, y: string)
    requires head + x == head + y
    ensures x == y
  {
    assert (head + x)[|head|..] == x && (head + y)[|head|..] == y;
  }

  function Tail(k: Key): string {
    if k.Chan? then "" else ":{" + k.tenant + ['}']
  }

  lemma TailsApart(j: Key, k: Key)
    requires (j.Ten? ==> Plain(j.tenant)) && (k.Ten? ==> Plain(k.tenant)) && Tail(j) == Tail(k)
    ensures j.Chan? == k.Chan? && (j.Ten? ==> j.tenant == k.tenant)
  {
    if j.Ten? && k.Ten? {
      assert Tail(j) == ":{" + (j.tenant + ['}'] + []) && Tail(k) == ":{" + (k.tenant + ['}'] + []);
      SameRest(":{", j.tenant + ['}'] + [], k.tenant + ['}'] + []);
      SplitsOnce(j.tenant, [], k.tenant, [], '}');
    }
  }

  /** Slots of different channels or tenants never share a counter, for names without a closing brace. */
  lemma KeysApart(j: Key, k: Key)
    requires Plain(j.channel) && Plain(k.channel) && (j.Ten? ==> Plain(j.tenant)) && (k.Ten? ==> Plain(k.tenant))
    requires KeyText(j) == KeyText(k)
    ensures j == k
  {
    SameRest("conc:{", Inner(j), Inner(k));
    assert Inner(j) == j.channel + ['}'] + Tail(j) && Inner(k) == k.channel + ['}'] + Tail(k);
    SplitsOnce(j.channel, Tail(j), k.channel, Tail(k), '}');
    TailsApart(j, k);
  }

  /** With a closing brace in a channel's name they can. */
  lemma KeysCanMeet()
    ensures KeyText(Chan("a}:{b")) == KeyText(Ten("a", "b"))
  {
  }
}
