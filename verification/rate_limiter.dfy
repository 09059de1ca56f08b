/** The fixed-window request counter. A window of zero is read as one second, and a map grown
    past ten thousand keys drops every entry of another bucket. Counts are `u32` and wrap. */
module RateLimiter {

  type Key = nat

  const PRUNE_ABOVE: nat := 10_000
  const U32: int := 0x1_0000_0000

  datatype Entry = Entry(bucket: nat, count: nat)

  type Table = map<Key, Entry>

  /** One call: `check` and `record` spend, `peek` does not. */
  datatype Hit = Hit(key: Key, spend: bool, now: nat)

  datatype Limits = Limits(window: nat, max: nat)

  function WindowOf(l: Limits): (window: nat)
    ensures window >= 1
  {
    if l.window < 1 then 1 else l.window
  }

  function BucketOf(l: Limits, now: nat): nat {
    now / WindowOf(l)
  }

  /** What is counted against `key` in `bucket`: another bucket's entry counts for nothing. */
  function Counted(hits: Table, key: Key, bucket: nat): nat {
    if key in hits && hits[key].bucket == bucket then hits[key].count else 0
  }

  function Pruned(hits: Table, bucket: nat): Table {
    if |hits| > PRUNE_ABOVE then map k | k in hits && hits[k].bucket == bucket :: hits[k] else hits
  }

  function Spent(count: nat, spend: bool): nat {
    if spend then (count + 1) % U32 else count
  }

  predicate Allowed(l: Limits, count: nat, spend: bool) {
    count < (l.max + if spend then 1 else 0) % U32
  }

  /** One call on an unbounded table. */
  function AfterHit(l: Limits, hits: Table, h: Hit): Table {
    var bucket := BucketOf(l, h.now);
    hits[h.key := Entry(bucket, Spent(Counted(hits, h.key, bucket), h.spend))]
  }

  function Answer(l: Limits, hits: Table, h: Hit): bool {
    var bucket := BucketOf(l, h.now);
    Allowed(l, Spent(Counted(hits, h.key, bucket), h.spend), h.spend)
  }

  /** The limiter as it runs: the table is pruned on the way in. */
  class Limiter {
    const limits: Limits
    var hits: Table

    constructor (window: nat, max: nat)
      ensures hits == map[] && limits == Limits(window, max)
    {
      hits, limits := map[], Limits(window, max);
    }

    method HitAt(key: Key, spend: bool, now: nat) returns (allowed: bool)
      modifies this
      ensures var before := Pruned(old(hits), BucketOf(limits, now));
              && hits == AfterHit(limits, before, Hit(key, spend, now))
              && allowed == Answer(limits, before, Hit(key, spend, now))
    {
      var bucket := now / WindowOf(limits);
      if |hits| > PRUNE_ABOVE {
        hits := map k | k in hits && hits[k].bucket == bucket :: hits[k];
      }
      if key !in hits { hits := hits[key := Entry(bucket, 0)]; }
      if hits[key].bucket != bucket { hits := hits[key := Entry(bucket, 0)]; }
      if spend { hits := hits[key := Entry(bucket, (hits[key].count + 1) % U32)]; }
      allowed := hits[key].count < (limits.max + if spend then 1 else 0) % U32;
    }
  }

  // ---- Two runs of one history ----

  /** Calls as they arrive, with and without pruning; each keeps the table and its answers. */
  function RunPlain(l: Limits, calls: seq<Hit>): (Table, seq<bool>) {
    if calls == [] then (map[], [])
    else
      var (hits, answers) := RunPlain(l, calls[..|calls| - 1]);
      var h := calls[|calls| - 1];
      (AfterHit(l, hits, h), answers + [Answer(l, hits, h)])
  }

  function RunPruned(l: Limits, calls: seq<Hit>): (Table, seq<bool>) {
    if calls == [] then (map[], [])
    else
      var (grown, answers) := RunPruned(l, calls[..|calls| - 1]);
      var h := calls[|calls| - 1];
      var hits := Pruned(grown, BucketOf(l, h.now));
      (AfterHit(l, hits, h), answers + [Answer(l, hits, h)])
  }

  ghost predicate Ordered(calls: seq<Hit>) {
    forall i, j :: 0 <= i < j < |calls| ==> calls[i].now <= calls[j].now
  }

  function ClockOf(calls: seq<Hit>): nat {
    if calls == [] then 0 else calls[|calls| - 1].now
  }

  lemma BucketsOrdered(l: Limits, a: nat, b: nat)
    requires a <= b
    ensures BucketOf(l, a) <= BucketOf(l, b)
  {
    var w := WindowOf(l);
    if b / w < a / w {
      assert (b / w + 1) * w <= (a / w) * w;
    }
  }

  ghost predicate NoneAhead(hits: Table, bucket: nat) {
    forall k :: k in hits ==> hits[k].bucket <= bucket
  }

  /** The tables may differ, but neither runs ahead, and they count the present bucket alike. */
  ghost predicate CountAlike(pruned: Table, plain: Table, bucket: nat) {
    && NoneAhead(pruned, bucket) && NoneAhead(plain, bucket)
    && (forall k: Key :: Counted(pruned, k, bucket) == Counted(plain, k, bucket))
  }

  lemma HitKeepsAlike(l: Limits, pruned: Table, plain: Table, bucket: nat, h: Hit)
    requires CountAlike(pruned, plain, bucket) && bucket <= BucketOf(l, h.now)
    ensures var now := BucketOf(l, h.now);
            && CountAlike(AfterHit(l, Pruned(pruned, now), h), AfterHit(l, plain, h), now)
            && Answer(l, Pruned(pruned, now), h) == Answer(l, plain, h)
  {
    var now := BucketOf(l, h.now);
    var kept := Pruned(pruned, now);
    assert NoneAhead(kept, now) && NoneAhead(plain, now);
    forall k: Key ensures Counted(kept, k, now) == Counted(plain, k, now) {
      if now == bucket {
        assert Counted(pruned, k, bucket) == Counted(plain, k, bucket);
      }
    }
    forall k: Key ensures Counted(AfterHit(l, kept, h), k, now) == Counted(AfterHit(l, plain, h), k, now) {
      assert Counted(kept, k, now) == Counted(plain, k, now);
    }
  }

  /** Pruning is unobservable: on a clock that does not go back, every call is answered as an
      unbounded table would. */
  lemma {:induction false} PrunedEqualsUnpruned(l: Limits, calls: seq<Hit>)
    requires Ordered(calls)
    ensures RunPruned(l, calls).1 == RunPlain(l, calls).1
    ensures CountAlike(RunPruned(l, calls).0, RunPlain(l, calls).0, BucketOf(l, ClockOf(calls)))
    decreases |calls|
  {
    if calls != [] {
      var n := |calls| - 1;
      PrunedEqualsUnpruned(l, calls[..n]);
      BucketsOrdered(l, ClockOf(calls[..n]), calls[n].now);
      HitKeepsAlike(l, RunPruned(l, calls[..n]).0, RunPlain(l, calls[..n]).0, BucketOf(l, ClockOf(calls[..n])),
                    calls[n]);
    }
  }

  // ---- A clock that goes back ----

  /** One `check` by each of `n` keys at one instant. */
  function Spray(n: nat, now: nat): seq<Hit> {
    seq(n, i requires 0 <= i < n => Hit(i, true, now))
  }

  function OncePerKey(n: nat, bucket: nat): Table {
    if n == 0 then map[] else OncePerKey(n - 1, bucket)[n - 1 := Entry(bucket, 1)]
  }

  lemma {:induction false} OncePerKeyHolds(n: nat, bucket: nat)
    ensures |OncePerKey(n, bucket)| == n
    ensures forall k: Key :: k in OncePerKey(n, bucket) <==> k < n
    ensures forall k: Key :: k < n ==> OncePerKey(n, bucket)[k] == Entry(bucket, 1)
    decreases n
  {
    if n > 0 {
      OncePerKeyHolds(n - 1, bucket);
      assert OncePerKey(n, bucket).Keys == OncePerKey(n - 1, bucket).Keys + {n - 1};
    }
  }

  lemma {:induction false} SprayFills(l: Limits, n: nat, now: nat)
    ensures RunPruned(l, Spray(n, now)).0 == RunPlain(l, Spray(n, now)).0 == OncePerKey(n, BucketOf(l, now))
    decreases n
  {
    if n > 0 {
      SprayFills(l, n - 1, now);
      SprayGrows(l, n - 1, now, OncePerKey(n - 1, BucketOf(l, now)));
    }
  }

  lemma SprayGrows(l: Limits, n: nat, now: nat, full: Table)
    requires RunPruned(l, Spray(n, now)).0 == full && RunPlain(l, Spray(n, now)).0 == full
    requires full == OncePerKey(n, BucketOf(l, now))
    ensures RunPruned(l, Spray(n + 1, now)).0 == RunPlain(l, Spray(n + 1, now)).0
            == full[n := Entry(BucketOf(l, now), 1)]
  {
    assert Spray(n + 1, now) == Spray(n, now) + [Hit(n, true, now)];
    LastCall(l, Spray(n, now), Hit(n, true, now));
    SprayOnce(l, n, now);
  }

  lemma SprayOnce(l: Limits, n: nat, now: nat)
    ensures var full := OncePerKey(n, BucketOf(l, now));
            && Pruned(full, BucketOf(l, now)) == full
            && AfterHit(l, full, Hit(n, true, now)) == full[n := Entry(BucketOf(l, now), 1)]
  {
    OncePerKeyHolds(n, BucketOf(l, now));
  }

  /** The answer the limiter gave to the last call, and the one an unbounded table gives. */
  predicate Answered(l: Limits, calls: seq<Hit>)
    requires calls != []
  {
    var h := calls[|calls| - 1];
    Answer(l, Pruned(RunPruned(l, calls[..|calls| - 1]).0, BucketOf(l, h.now)), h)
  }

  predicate AnsweredPlain(l: Limits, calls: seq<Hit>)
    requires calls != []
  {
    Answer(l, RunPlain(l, calls[..|calls| - 1]).0, calls[|calls| - 1])
  }

  /** The order of the clock is needed: more than ten thousand keys at second 1, one call at
      second 2, and the clock stepping back to second 1 hands a spent key its budget again. */
  lemma ClockGoingBackForgets(n: nat)
    requires n > PRUNE_ABOVE
    ensures var calls := Spray(n, 1) + [Hit(0, false, 2)] + [Hit(1, true, 1)];
            Answered(Limits(1, 1), calls) && !AnsweredPlain(Limits(1, 1), calls)
  {
    SecondsAreBuckets();
    SprayFills(Limits(1, 1), n, 1);
    OncePerKeyHolds(n, 1);
    FullTableForgets(Spray(n, 1), OncePerKey(n, 1));
  }

  lemma FullTableForgets(calls: seq<Hit>, full: Table)
    requires RunPruned(Limits(1, 1), calls).0 == full && RunPlain(Limits(1, 1), calls).0 == full
    requires |full| > PRUNE_ABOVE && 1 in full && (forall k :: k in full ==> full[k] == Entry(1, 1))
    ensures var longer := calls + [Hit(0, false, 2)] + [Hit(1, true, 1)];
            Answered(Limits(1, 1), longer) && !AnsweredPlain(Limits(1, 1), longer)
  {
    var l := Limits(1, 1);
    SecondsAreBuckets();
    LastCall(l, calls, Hit(0, false, 2));
    LastAnswer(l, calls + [Hit(0, false, 2)], Hit(1, true, 1));
    StepBackForgets(full);
  }

  lemma SecondsAreBuckets()
    ensures BucketOf(Limits(1, 1), 1) == 1 && BucketOf(Limits(1, 1), 2) == 2
  {
  }

  lemma StepBackForgets(full: Table)
    requires |full| > PRUNE_ABOVE && 1 in full && (forall k :: k in full ==> full[k] == Entry(1, 1))
    ensures var l := Limits(1, 1);
            && Answer(l, Pruned(AfterHit(l, Pruned(full, 2), Hit(0, false, 2)), 1), Hit(1, true, 1))
            && !Answer(l, AfterHit(l, full, Hit(0, false, 2)), Hit(1, true, 1))
  {
    assert Pruned(full, 2) == map[];
    var after := AfterHit(Limits(1, 1), map[], Hit(0, false, 2));
    assert after == map[0 := Entry(2, 0)];
    assert |after| == 1;
  }

  lemma LastCall(l: Limits, calls: seq<Hit>, h: Hit)
    ensures RunPlain(l, calls + [h]).0 == AfterHit(l, RunPlain(l, calls).0, h)
    ensures RunPruned(l, calls + [h]).0 == AfterHit(l, Pruned(RunPruned(l, calls).0, BucketOf(l, h.now)), h)
  {
    assert (calls + [h])[..|calls|] == calls;
  }

  lemma LastAnswer(l: Limits, calls: seq<Hit>, h: Hit)
    ensures AnsweredPlain(l, calls + [h]) == Answer(l, RunPlain(l, calls).0, h)
    ensures Answered(l, calls + [h]) == Answer(l, Pruned(RunPruned(l, calls).0, BucketOf(l, h.now)), h)
  {
    assert (calls + [h])[..|calls|] == calls;
  }

  lemma {:induction false} AnswersPerCall(l: Limits, calls: seq<Hit>)
    ensures |RunPlain(l, calls).1| == |calls| == |RunPruned(l, calls).1|
    decreases |calls|
  {
    if calls != [] {
      AnswersPerCall(l, calls[..|calls| - 1]);
    }
  }

  // ---- What the answers mean ----

  /** How often `key` spent in `bucket`. */
  function Spends(l: Limits, calls: seq<Hit>, key: Key, bucket: nat): nat {
    if calls == [] then 0
    else
      var h := calls[|calls| - 1];
      Spends(l, calls[..|calls| - 1], key, bucket)
        + (if h.key == key && h.spend && BucketOf(l, h.now) == bucket then 1 else 0)
  }

  lemma {:induction false} NothingSpentAhead(l: Limits, calls: seq<Hit>, key: Key, bucket: nat)
    requires Ordered(calls) && BucketOf(l, ClockOf(calls)) < bucket
    ensures Spends(l, calls, key, bucket) == 0
    decreases |calls|
  {
    if calls != [] {
      var front := calls[..|calls| - 1];
      BucketsOrdered(l, ClockOf(front), ClockOf(calls));
      NothingSpentAhead(l, front, key, bucket);
    }
  }

  lemma WrapsByOne(n: nat)
    ensures (n % U32 + 1) % U32 == (n + 1) % U32
  {
  }

  lemma ShortOfAWrap(count: nat, limit: nat)
    requires count < U32 && limit < U32
    ensures count % U32 == count && limit % U32 == limit
  {
  }

  lemma {:induction false} TableCountsSpends(l: Limits, calls: seq<Hit>, key: Key, bucket: nat)
    requires Ordered(calls) && bucket >= BucketOf(l, ClockOf(calls))
    ensures Counted(RunPlain(l, calls).0, key, bucket) == Spends(l, calls, key, bucket) % U32
    decreases |calls|
  {
    if calls != [] {
      var n := |calls| - 1;
      var h := calls[n];
      BucketsOrdered(l, ClockOf(calls[..n]), h.now);
      TableCountsSpends(l, calls[..n], key, bucket);
      if bucket > BucketOf(l, h.now) {
        NothingSpentAhead(l, calls, key, bucket);
      } else {
        WrapsByOne(Spends(l, calls[..n], key, bucket));
      }
    }
  }

  /** The running limiter answers by the history alone: a call passes exactly when the spends
      its key has made in the present bucket, itself included, are within the budget, as far
      as 32 bits can tell. */
  lemma AnswersExactly(l: Limits, calls: seq<Hit>)
    requires calls != [] && Ordered(calls)
    ensures |RunPruned(l, calls).1| == |calls|
    ensures var h := calls[|calls| - 1];
            RunPruned(l, calls).1[|calls| - 1] <==>
              Spends(l, calls, h.key, BucketOf(l, h.now)) % U32 < (l.max + if h.spend then 1 else 0) % U32
  {
    var n := |calls| - 1;
    var h := calls[n];
    var bucket := BucketOf(l, h.now);
    PrunedEqualsUnpruned(l, calls);
    AnswersPerCall(l, calls);
    AnswersPerCall(l, calls[..n]);
    TableCountsSpends(l, calls, h.key, bucket);
    assert RunPlain(l, calls).0[h.key]
           == Entry(bucket, Spent(Counted(RunPlain(l, calls[..n]).0, h.key, bucket), h.spend));
  }

  // ---- Bounds ----

  /** How many spending calls of `key` passed in `bucket`. */
  function Passes(l: Limits, calls: seq<Hit>, key: Key, bucket: nat): nat {
    if calls == [] then 0
    else
      var h := calls[|calls| - 1];
      Passes(l, calls[..|calls| - 1], key, bucket)
      + (if h.key == key && h.spend && BucketOf(l, h.now) == bucket && Answered(l, calls) then 1 else 0)
  }

  lemma AnsweredIsTheLast(l: Limits, calls: seq<Hit>)
    requires calls != []
    ensures |RunPruned(l, calls).1| == |calls| && Answered(l, calls) == RunPruned(l, calls).1[|calls| - 1]
  {
    AnswersPerCall(l, calls);
    AnswersPerCall(l, calls[..|calls| - 1]);
  }

  /** Short of a wrap, the last spend of a key passes when it is within the budget. */
  lemma PassesWithinBudget(l: Limits, calls: seq<Hit>, key: Key, bucket: nat)
    requires calls != [] && Ordered(calls) && l.max < U32 - 1 && Spends(l, calls, key, bucket) < U32
    ensures var h := calls[|calls| - 1];
            h.key == key && h.spend && BucketOf(l, h.now) == bucket ==>
              (Answered(l, calls) <==> Spends(l, calls, key, bucket) <= l.max)
  {
    AnswersExactly(l, calls);
    AnsweredIsTheLast(l, calls);
    ShortOfAWrap(Spends(l, calls, key, bucket), l.max + 1);
  }

  /** Exactly the first `max` spends of a bucket pass, while fewer than 2^32 are made. */
  lemma {:induction false} BucketBudget(l: Limits, calls: seq<Hit>, key: Key, bucket: nat)
    requires Ordered(calls) && l.max < U32 - 1 && Spends(l, calls, key, bucket) < U32
    ensures var spends := Spends(l, calls, key, bucket);
            Passes(l, calls, key, bucket) == if spends < l.max then spends else l.max
    decreases |calls|
  {
    if calls != [] {
      BucketBudget(l, calls[..|calls| - 1], key, bucket);
      PassesWithinBudget(l, calls, key, bucket);
    }
  }

  /** The 2^32nd spend of a bucket passes again, whatever came before it. */
  lemma BudgetWraps(l: Limits, calls: seq<Hit>, key: Key, now: nat)
    requires Ordered(calls + [Hit(key, true, now)]) && l.max < U32 - 1
    requires Spends(l, calls, key, BucketOf(l, now)) == U32 - 1
    ensures Answered(l, calls + [Hit(key, true, now)])
  {
    var longer := calls + [Hit(key, true, now)];
    assert longer[..|calls|] == calls;
    AnswersExactly(l, longer);
    AnsweredIsTheLast(l, longer);
  }

  lemma QuotientIs(x: nat, w: nat, q: nat, r: nat)
    requires r < w && x == q * w + r
    ensures x / w == q
  {
    var p := x / w;
    assert p * w <= x < (p + 1) * w;
    assert p < q ==> (p + 1) * w <= q * w;
    assert p > q ==> (q + 1) * w <= p * w;
  }

  /** A bucket is one window of the clock, a window of zero seconds being one of one: two
      instants share theirs exactly when no whole number of windows lies between them. */
  lemma BucketsAreWindows(l: Limits, now: nat, bucket: nat)
    ensures var w := if l.window == 0 then 1 else l.window;
            BucketOf(l, now) == bucket <==> bucket * w <= now < (bucket + 1) * w
  {
    var w := if l.window == 0 then 1 else l.window;
    var q := now / w;
    assert now == q * w + now % w && (q + 1) * w == q * w + w;
    if bucket * w <= now < (bucket + 1) * w {
      QuotientIs(now, w, bucket, now - bucket * w);
    }
  }

  /** Passing spends of `key` at instants of `[from, to)`. */
  function PassesBetween(l: Limits, calls: seq<Hit>, key: Key, from: nat, to: nat): nat {
    if calls == [] then 0
    else
      var h := calls[|calls| - 1];
      PassesBetween(l, calls[..|calls| - 1], key, from, to)
      + (if h.key == key && h.spend && from <= h.now < to && Answered(l, calls) then 1 else 0)
  }

  lemma NextBucket(at: nat, w: nat)
    requires w >= 1
    ensures (at + w) / w == at / w + 1
  {
    var q, r := at / w, at % w;
    assert at == q * w + r;
    assert at + w == (q + 1) * w + r;
    QuotientIs(at + w, w, q + 1, r);
  }

  lemma TwoBuckets(l: Limits, from: nat, now: nat)
    requires from <= now < from + WindowOf(l)
    ensures BucketOf(l, now) == BucketOf(l, from) || BucketOf(l, now) == BucketOf(l, from) + 1
  {
    var w := WindowOf(l);
    BucketsOrdered(l, from, now);
    NextBucket(from, w);
    BucketsOrdered(l, now, from + w);
  }

  lemma {:induction false} IntervalWithinTwoBuckets(l: Limits, calls: seq<Hit>, key: Key, from: nat)
    ensures PassesBetween(l, calls, key, from, from + WindowOf(l)) <=
              Passes(l, calls, key, BucketOf(l, from)) + Passes(l, calls, key, BucketOf(l, from) + 1)
    decreases |calls|
  {
    if calls != [] {
      IntervalWithinTwoBuckets(l, calls[..|calls| - 1], key, from);
      var now := calls[|calls| - 1].now;
      if from <= now < from + WindowOf(l) {
        TwoBuckets(l, from, now);
      }
    }
  }

  /** Whatever instants the calls came at, any stretch of one window lets at most twice the
      budget of a key through. */
  lemma SlidingBudget(l: Limits, calls: seq<Hit>, key: Key, from: nat)
    requires Ordered(calls) && l.max < U32 - 1
    requires Spends(l, calls, key, BucketOf(l, from)) < U32 && Spends(l, calls, key, BucketOf(l, from) + 1) < U32
    ensures PassesBetween(l, calls, key, from, from + WindowOf(l)) <= 2 * l.max
  {
    IntervalWithinTwoBuckets(l, calls, key, from);
    BucketBudget(l, calls, key, BucketOf(l, from));
    BucketBudget(l, calls, key, BucketOf(l, from) + 1);
  }
}
