/** The limiter on any clock, stepping back included: what each answer counts, and exactly when
    pruning changes one. */
module LimiterClocks {
  import opened RateLimiter

  /** What the last call was measured against: a call that spends counts itself. */
  function Limit(l: Limits, h: Hit): nat {
    l.max + if h.spend then 1 else 0
  }

  /** The spends of `key` in `bucket` since it was last called in another: what an unbounded
      table counts. */
  function Streak(l: Limits, calls: seq<Hit>, key: Key, bucket: nat): nat {
    if calls == [] then 0
    else
      var front, h := calls[..|calls| - 1], calls[|calls| - 1];
      if h.key != key then Streak(l, front, key, bucket)
      else if BucketOf(l, h.now) != bucket then 0
      else Streak(l, front, key, bucket) + if h.spend then 1 else 0
  }

  /** The last call found the table over its bound. */
  predicate Prunes(l: Limits, calls: seq<Hit>)
    requires calls != []
  {
    |RunPruned(l, calls[..|calls| - 1]).0| > PRUNE_ABOVE
  }

  /** And since the last call of any key that pruned from another bucket: what the limiter
      counts. */
  function Kept(l: Limits, calls: seq<Hit>, key: Key, bucket: nat): nat {
    if calls == [] then 0
    else
      var front, h := calls[..|calls| - 1], calls[|calls| - 1];
      if BucketOf(l, h.now) != bucket && (h.key == key || Prunes(l, calls)) then 0
      else Kept(l, front, key, bucket) + if h.key == key && h.spend then 1 else 0
  }

  lemma {:induction false} PlainCounts(l: Limits, calls: seq<Hit>, key: Key, bucket: nat)
    ensures Counted(RunPlain(l, calls).0, key, bucket) == Streak(l, calls, key, bucket) % U32
    decreases |calls|
  {
    if calls != [] {
      var front, h := calls[..|calls| - 1], calls[|calls| - 1];
      PlainCounts(l, front, key, bucket);
      WrapsByOne(Streak(l, front, key, bucket));
      HitCounts(l, RunPlain(l, front).0, h, key, bucket);
    }
  }

  /** What one call leaves counted against a key. */
  lemma HitCounts(l: Limits, hits: Table, h: Hit, key: Key, bucket: nat)
    ensures Counted(AfterHit(l, hits, h), key, bucket) ==
              if h.key != key then Counted(hits, key, bucket)
              else if BucketOf(l, h.now) != bucket then 0
              else Spent(Counted(hits, key, bucket), h.spend)
  {
  }

  lemma {:induction false} PrunedCounts(l: Limits, calls: seq<Hit>, key: Key, bucket: nat)
    ensures Counted(RunPruned(l, calls).0, key, bucket) == Kept(l, calls, key, bucket) % U32
    decreases |calls|
  {
    if calls != [] {
      var front, h := calls[..|calls| - 1], calls[|calls| - 1];
      PrunedCounts(l, front, key, bucket);
      WrapsByOne(Kept(l, front, key, bucket));
      var grown := RunPruned(l, front).0;
      HitCounts(l, Pruned(grown, BucketOf(l, h.now)), h, key, bucket);
      PruneCounts(grown, BucketOf(l, h.now), key, bucket);
    }
  }

  lemma PruneCounts(hits: Table, at: nat, key: Key, bucket: nat)
    ensures Counted(Pruned(hits, at), key, bucket)
            == if at != bucket && |hits| > PRUNE_ABOVE then 0 else Counted(hits, key, bucket)
  {
  }

  /** On any clock the limiter and an unbounded table answer by these two histories alone. */
  lemma AnswersOnAnyClock(l: Limits, calls: seq<Hit>)
    requires calls != []
    ensures var h := calls[|calls| - 1];
            && (Answered(l, calls) <==> Kept(l, calls, h.key, BucketOf(l, h.now)) % U32 < Limit(l, h) % U32)
            && (AnsweredPlain(l, calls) <==> Streak(l, calls, h.key, BucketOf(l, h.now)) % U32 < Limit(l, h) % U32)
  {
    var h := calls[|calls| - 1];
    var bucket := BucketOf(l, h.now);
    PlainCounts(l, calls, h.key, bucket);
    PrunedCounts(l, calls, h.key, bucket);
    AnswerReadsCount(l, RunPlain(l, calls[..|calls| - 1]).0, h);
    AnswerReadsCount(l, Pruned(RunPruned(l, calls[..|calls| - 1]).0, bucket), h);
  }

  lemma AnswerReadsCount(l: Limits, hits: Table, h: Hit)
    ensures Answer(l, hits, h) <==> Counted(AfterHit(l, hits, h), h.key, BucketOf(l, h.now)) < Limit(l, h) % U32
  {
  }

  // ---- What pruning loses ----

  /** Call `i`, of another key in another bucket, pruned a count of `key` that nothing has reset
      since. */
  ghost predicate Dropped(l: Limits, calls: seq<Hit>, i: nat, key: Key, bucket: nat) {
    && i < |calls|
    && calls[i].key != key && BucketOf(l, calls[i].now) != bucket && Prunes(l, calls[..i + 1])
    && Streak(l, calls[..i], key, bucket) > 0
    && (forall j :: i < j < |calls| && calls[j].key == key ==> BucketOf(l, calls[j].now) == bucket)
  }

  lemma {:induction false} KeptAtMost(l: Limits, calls: seq<Hit>, key: Key, bucket: nat)
    ensures Kept(l, calls, key, bucket) <= Streak(l, calls, key, bucket)
    decreases |calls|
  {
    if calls != [] {
      KeptAtMost(l, calls[..|calls| - 1], key, bucket);
    }
  }

  lemma DroppedBefore(l: Limits, calls: seq<Hit>, i: nat, key: Key, bucket: nat)
    requires calls != [] && i < |calls| - 1
    requires calls[|calls| - 1].key == key ==> BucketOf(l, calls[|calls| - 1].now) == bucket
    ensures Dropped(l, calls, i, key, bucket) <==> Dropped(l, calls[..|calls| - 1], i, key, bucket)
  {
    var front := calls[..|calls| - 1];
    assert front[..i] == calls[..i] && front[..i + 1] == calls[..i + 1];
    assert forall j :: 0 <= j < |front| ==> front[j] == calls[j];
  }

  /** The limiter counts less than was spent exactly when some earlier call dropped the count. */
  lemma {:induction false} LosesExactly(l: Limits, calls: seq<Hit>, key: Key, bucket: nat)
    ensures Kept(l, calls, key, bucket) < Streak(l, calls, key, bucket) <==>
            exists i: nat :: Dropped(l, calls, i, key, bucket)
    decreases |calls|
  {
    if calls != [] {
      var n := |calls| - 1;
      var front, h := calls[..n], calls[n];
      LosesExactly(l, front, key, bucket);
      KeptAtMost(l, front, key, bucket);
      if h.key == key && BucketOf(l, h.now) != bucket {
        ResetLosesNothing(l, calls, key, bucket);
      } else {
        DropsCarryOver(l, calls, front, key, bucket);
        DropsNow(l, calls, key, bucket);
      }
    }
  }

  lemma ResetLosesNothing(l: Limits, calls: seq<Hit>, key: Key, bucket: nat)
    requires calls != [] && calls[|calls| - 1].key == key && BucketOf(l, calls[|calls| - 1].now) != bucket
    ensures Kept(l, calls, key, bucket) == Streak(l, calls, key, bucket)
    ensures forall i: nat :: !Dropped(l, calls, i, key, bucket)
  {
  }

  lemma DropsCarryOver(l: Limits, calls: seq<Hit>, front: seq<Hit>, key: Key, bucket: nat)
    requires calls != [] && front == calls[..|calls| - 1]
    requires (calls[|calls| - 1].key == key ==> BucketOf(l, calls[|calls| - 1].now) == bucket)
    ensures (exists i: nat :: Dropped(l, front, i, key, bucket))
            <==> exists i: nat :: i < |calls| - 1 && Dropped(l, calls, i, key, bucket)
  {
    if i: nat :| Dropped(l, front, i, key, bucket) {
      DroppedBefore(l, calls, i, key, bucket);
    }
    if i: nat :| i < |calls| - 1 && Dropped(l, calls, i, key, bucket) {
      DroppedBefore(l, calls, i, key, bucket);
    }
  }

  lemma DropsNow(l: Limits, calls: seq<Hit>, key: Key, bucket: nat)
    requires calls != []
    ensures var n := |calls| - 1;
            Dropped(l, calls, n, key, bucket) <==>
              && calls[n].key != key && BucketOf(l, calls[n].now) != bucket && Prunes(l, calls)
              && Streak(l, calls[..n], key, bucket) > 0
  {
    assert calls[..|calls| - 1 + 1] == calls;
  }

  // ---- Whole runs ----

  lemma {:induction false} AnswersByPrefix(l: Limits, calls: seq<Hit>, i: nat)
    requires i < |calls|
    ensures |RunPruned(l, calls).1| == |calls| == |RunPlain(l, calls).1|
    ensures RunPruned(l, calls).1[i] == Answered(l, calls[..i + 1])
    ensures RunPlain(l, calls).1[i] == AnsweredPlain(l, calls[..i + 1])
    decreases |calls|
  {
    AnswersPerCall(l, calls);
    var n := |calls| - 1;
    AnswersPerCall(l, calls[..n]);
    if i < n {
      AnswersByPrefix(l, calls[..n], i);
      assert calls[..n][..i + 1] == calls[..i + 1];
    } else {
      assert calls[..i + 1] == calls;
    }
  }

  /** Short of a wrap the two answers are two comparisons with the limit. */
  lemma AnswersShortOfAWrap(l: Limits, calls: seq<Hit>)
    requires calls != [] && l.max < U32 - 1
    requires Streak(l, calls, calls[|calls| - 1].key, BucketOf(l, calls[|calls| - 1].now)) < U32
    ensures var h := calls[|calls| - 1];
            && (Answered(l, calls) <==> Kept(l, calls, h.key, BucketOf(l, h.now)) < Limit(l, h))
            && (AnsweredPlain(l, calls) <==> Streak(l, calls, h.key, BucketOf(l, h.now)) < Limit(l, h))
            && Kept(l, calls, h.key, BucketOf(l, h.now)) <= Streak(l, calls, h.key, BucketOf(l, h.now))
  {
    var h := calls[|calls| - 1];
    var kept, streak := Kept(l, calls, h.key, BucketOf(l, h.now)), Streak(l, calls, h.key, BucketOf(l, h.now));
    KeptAtMost(l, calls, h.key, BucketOf(l, h.now));
    AnswersOnAnyClock(l, calls);
    ShortOfAWrap(kept, Limit(l, h));
    ShortOfAWrap(streak, Limit(l, h));
  }

  /** On any clock, short of a wrap, pruning never makes an answer stricter. */
  lemma PruningNeverStricter(l: Limits, calls: seq<Hit>, i: nat)
    requires i < |calls| && l.max < U32 - 1
    requires Streak(l, calls[..i + 1], calls[i].key, BucketOf(l, calls[i].now)) < U32
    ensures |RunPruned(l, calls).1| == |calls| == |RunPlain(l, calls).1|
    ensures RunPlain(l, calls).1[i] ==> RunPruned(l, calls).1[i]
  {
    AnswersByPrefix(l, calls, i);
    AnswersShortOfAWrap(l, calls[..i + 1]);
  }

  /** And an answer differs exactly when an earlier call of another key and bucket pruned a count
      of this key that nothing had reset since, and what was lost crosses the limit. */
  lemma AnswerDiffersExactly(l: Limits, calls: seq<Hit>, i: nat)
    requires i < |calls| && l.max < U32 - 1
    requires Streak(l, calls[..i + 1], calls[i].key, BucketOf(l, calls[i].now)) < U32
    ensures |RunPruned(l, calls).1| == |calls| == |RunPlain(l, calls).1|
    ensures var before, key, bucket := calls[..i + 1], calls[i].key, BucketOf(l, calls[i].now);
            RunPruned(l, calls).1[i] != RunPlain(l, calls).1[i] <==>
              && (exists k: nat :: Dropped(l, before, k, key, bucket))
              && Kept(l, before, key, bucket) < Limit(l, calls[i]) <= Streak(l, before, key, bucket)
  {
    var before, key, bucket := calls[..i + 1], calls[i].key, BucketOf(l, calls[i].now);
    AnswersByPrefix(l, calls, i);
    AnswersShortOfAWrap(l, before);
    LosesExactly(l, before, key, bucket);
  }
}
