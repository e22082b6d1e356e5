/** How much disagreement between clocks the rate bound and the retry delay tolerate, exactly. */
module ClockSkew {
  import opened Options
  import opened TokenBucket
  import opened Fairness

  // ----- The rate bound -----

  /** In every window of every timed run the acquisitions stay within the capacity and what the window earns. */
  ghost predicate RateBoundHolds(limit: Limit, skew: real)
    requires limit.Valid()
  {
    forall calls: seq<Call>, i: nat, j: nat :: Timed(calls, skew) && i <= j < |calls|
      ==> ExpiringGranted(calls, limit, i, j + 1) as real
          <= limit.capacity + Earned(limit, calls[j].server - calls[i].server + 2.0 * skew)
  }

  /** The time after which an initially full bucket has handed out k tokens, at the earliest. */
  function TimeOf(limit: Limit, k: nat): real
    requires limit.Valid()
  {
    Max(0.0, (k as real - limit.capacity) / limit.rps as real)
  }

  lemma TimeOfEarns(limit: Limit, k: nat)
    requires limit.Valid()
    ensures TimeOf(limit, k) >= 0.0
    ensures Earned(limit, TimeOf(limit, k)) == Max(0.0, k as real - limit.capacity)
  {
    var missing, rps := k as real - limit.capacity, limit.rps as real;
    assert missing / rps * rps == missing;
    if missing >= 0.0 {
      assert missing / rps >= 0.0;
    } else {
      assert missing / rps < 0.0;
    }
  }

  /** Clients take the tokens as soon as they can. The first call is `skew` behind; the clocks run ahead of the
      server's until they are `skew` ahead of it. */
  function GreedyCall(limit: Limit, skew: real, start: real, i: nat): Call
    requires limit.Valid()
  {
    var t := TimeOf(limit, i + 1);
    Call(start - skew + t, start + Max(0.0, t - 2.0 * skew))
  }

  lemma TimeOfGrows(limit: Limit, j: nat, k: nat)
    requires limit.Valid() && j <= k
    ensures TimeOf(limit, j) <= TimeOf(limit, k)
  {
    TimeOfEarns(limit, j);
    TimeOfEarns(limit, k);
    hide Earned, TimeOf;
    EarnedOrder(limit, TimeOf(limit, k), TimeOf(limit, j));
    EarnedOrder(limit, TimeOf(limit, j), TimeOf(limit, k));
  }

  /** The tokens of a full bucket and of the time between the two furthest clocks, rounded up. */
  function Batch(limit: Limit, skew: real): nat
    requires limit.Valid() && skew >= 0.0
  {
    EarnedSign(limit, 2.0 * skew);
    Ceil(limit.capacity + Earned(limit, 2.0 * skew))
  }

  /** How long the last of them is waited for. */
  function BatchEnd(limit: Limit, skew: real): real
    requires limit.Valid() && skew >= 0.0
  {
    Max(0.0, TimeOf(limit, Batch(limit, skew)) - 2.0 * skew)
  }

  lemma BatchTakesAll(limit: Limit, skew: real)
    requires limit.Valid() && skew >= 0.0
    ensures Batch(limit, skew) >= 1 && 0.0 <= BatchEnd(limit, skew) < Ttl(limit) as real
    ensures Batch(limit, skew) as real == limit.capacity + Earned(limit, 2.0 * skew + BatchEnd(limit, skew))
  {
    var n := Batch(limit, skew);
    EarnedSign(limit, 2.0 * skew);
    TtlIsPositive(limit);
    TimeOfEarns(limit, n);
    OneSecond(limit);
    hide Earned, TimeOf, Ttl;
    var t := TimeOf(limit, n);
    EarnedOrder(limit, 2.0 * skew, t);
    EarnedAdds(limit, 2.0 * skew, t - 2.0 * skew);
    EarnedOrder(limit, 1.0, t - 2.0 * skew);
  }

  lemma OneSecond(limit: Limit)
    ensures Earned(limit, 1.0) == limit.rps as real
  {
  }

  /** What a bucket holds after k greedy calls: nothing beyond what is still left of the first filling. */
  function AfterGreedy(limit: Limit, base: real, k: nat): Bucket
    requires limit.Valid()
  {
    Bucket(limit.capacity + Earned(limit, TimeOf(limit, k)) - k as real, base + TimeOf(limit, k))
  }

  lemma NextToken(limit: Limit, base: real, k: nat)
    requires limit.Valid()
    ensures var o := Evaluate(Some(AfterGreedy(limit, base, k)), base + TimeOf(limit, k + 1), limit);
            o.reply.acquired && o.bucket == AfterGreedy(limit, base, k + 1)
  {
    TimeOfEarns(limit, k);
    TimeOfEarns(limit, k + 1);
    TimeOfGrows(limit, k, k + 1);
    hide Earned, TimeOf;
    var t, u := TimeOf(limit, k), TimeOf(limit, k + 1);
    EarnedAdds(limit, t, u - t);
    EarnedSign(limit, t);
    EarnedSign(limit, u - t);
    EarnedSign(limit, u);
  }

  lemma FirstToken(limit: Limit, base: real)
    requires limit.Valid()
    ensures TimeOf(limit, 1) == 0.0
    ensures var o := Evaluate(None, base, limit); o.reply.acquired && o.bucket == AfterGreedy(limit, base, 1)
  {
    TimeOfEarns(limit, 1);
    EvaluateFresh(base, limit);
    EarnedSign(limit, TimeOf(limit, 1));
    hide Earned, TimeOf;
  }

  /** Every call of a batch that starts on a missing key is granted. */
  lemma {:induction false} GreedyCallsAreGranted(calls: seq<Call>, limit: Limit, skew: real, start: real, p: nat,
                                                 k: nat)
    requires limit.Valid() && skew >= 0.0 && 1 <= k <= Batch(limit, skew) && p + k <= |calls|
    requires Live(EntryAt(calls, limit, p), start) == None
    requires forall n :: p <= n < p + k ==> calls[n] == GreedyCall(limit, skew, start, n - p)
    ensures EntryAt(calls, limit, p + k)
         == Some(Entry(AfterGreedy(limit, start - skew, k), calls[p + k - 1].server + Ttl(limit) as real))
    ensures ExpiringGranted(calls, limit, p, p + k) == k
  {
    hide Evaluate, Ttl, AfterGreedy, TimeOf, Batch;
    var call := calls[p + k - 1];
    assert call == GreedyCall(limit, skew, start, k - 1);
    if k == 1 {
      FirstToken(limit, start - skew);
      assert call == Call(start - skew, start);
      assert ExpiringGranted(calls, limit, p, p) == 0;
    } else {
      GreedyCallsAreGranted(calls, limit, skew, start, p, k - 1);
      NextToken(limit, start - skew, k - 1);
      BatchTakesAll(limit, skew);
      TimeOfGrows(limit, k, Batch(limit, skew));
      assert calls[p + k - 2] == GreedyCall(limit, skew, start, k - 2);
      assert Live(EntryAt(calls, limit, p + k - 1), call.server) == Some(AfterGreedy(limit, start - skew, k - 1));
    }
  }

  lemma {:induction false} ExpiringGrantedSplits(calls: seq<Call>, limit: Limit, i: nat, j: nat, k: nat)
    requires limit.Valid() && i <= j <= k <= |calls|
    ensures ExpiringGranted(calls, limit, i, k)
         == ExpiringGranted(calls, limit, i, j) + ExpiringGranted(calls, limit, j, k)
    decreases k - j
  {
    hide ExpiringReplyAt;
    if j == k {
    } else {
      ExpiringGrantedSplits(calls, limit, i, j, k - 1);
    }
  }

  /** Two batches, the second at the moment the key expires. */
  function CallAt(limit: Limit, skew: real, i: nat): Call
    requires limit.Valid() && skew >= 0.0
  {
    var n := Batch(limit, skew);
    if i < n then GreedyCall(limit, skew, 0.0, i)
    else GreedyCall(limit, skew, BatchEnd(limit, skew) + Ttl(limit) as real, i - n)
  }

  function TwoBatches(limit: Limit, skew: real): seq<Call>
    requires limit.Valid() && skew >= 0.0
  {
    seq(2 * Batch(limit, skew), i requires 0 <= i => CallAt(limit, skew, i))
  }

  lemma GreedyCallIsTimed(limit: Limit, skew: real, start: real, i: nat)
    requires limit.Valid() && skew >= 0.0 && i < Batch(limit, skew)
    ensures var c := GreedyCall(limit, skew, start, i);
            c.server - skew <= c.clock <= c.server + skew && start <= c.server <= start + BatchEnd(limit, skew)
  {
    TimeOfEarns(limit, i + 1);
    TimeOfGrows(limit, i + 1, Batch(limit, skew));
    hide TimeOf, Earned, Batch;
  }

  lemma CallIsTimed(limit: Limit, skew: real, i: nat)
    requires limit.Valid() && skew >= 0.0 && i < 2 * Batch(limit, skew)
    ensures var c := CallAt(limit, skew, i); c.server - skew <= c.clock <= c.server + skew
  {
    var n := Batch(limit, skew);
    hide Batch, BatchEnd, GreedyCall;
    if i < n {
      GreedyCallIsTimed(limit, skew, 0.0, i);
    } else {
      GreedyCallIsTimed(limit, skew, BatchEnd(limit, skew) + Ttl(limit) as real, i - n);
    }
  }

  lemma CallsAreInOrder(limit: Limit, skew: real, i: nat, j: nat)
    requires limit.Valid() && skew >= 0.0 && i < j < 2 * Batch(limit, skew)
    ensures CallAt(limit, skew, i).server <= CallAt(limit, skew, j).server
  {
    var n := Batch(limit, skew);
    BatchTakesAll(limit, skew);
    hide Batch, BatchEnd, TimeOf, Earned, Ttl;
    if j < n {
      TimeOfGrows(limit, i + 1, j + 1);
    } else if n <= i {
      TimeOfGrows(limit, i - n + 1, j - n + 1);
    } else {
      GreedyCallIsTimed(limit, skew, 0.0, i);
      GreedyCallIsTimed(limit, skew, BatchEnd(limit, skew) + Ttl(limit) as real, j - n);
    }
  }

  lemma TwoBatchesAreTimed(limit: Limit, skew: real)
    requires limit.Valid() && skew >= 0.0
    ensures Timed(TwoBatches(limit, skew), skew)
  {
    hide Batch, CallAt;
    forall i: nat | i < 2 * Batch(limit, skew)
      ensures var c := CallAt(limit, skew, i); c.server - skew <= c.clock <= c.server + skew
    {
      CallIsTimed(limit, skew, i);
    }
    forall i: nat, j: nat | i < j < 2 * Batch(limit, skew)
      ensures CallAt(limit, skew, i).server <= CallAt(limit, skew, j).server
    {
      CallsAreInOrder(limit, skew, i, j);
    }
  }

  lemma EndOfBatch(limit: Limit, skew: real, start: real)
    requires limit.Valid() && skew >= 0.0
    ensures Batch(limit, skew) >= 1
    ensures GreedyCall(limit, skew, start, Batch(limit, skew) - 1).server == start + BatchEnd(limit, skew)
    ensures GreedyCall(limit, skew, start, 0).server == start
  {
    BatchTakesAll(limit, skew);
    TimeOfEarns(limit, 1);
    FirstToken(limit, start);
    hide Batch, TimeOf, Earned;
  }

  lemma TwoBatchesAreGranted(limit: Limit, skew: real)
    requires limit.Valid() && skew >= 0.0
    ensures var calls, n := TwoBatches(limit, skew), Batch(limit, skew);
            && n >= 1 && ExpiringGranted(calls, limit, 0, 2 * n) == 2 * n
            && calls[0].server == 0.0 && calls[2 * n - 1].server == Ttl(limit) as real + 2.0 * BatchEnd(limit, skew)
  {
    var calls, n, again := TwoBatches(limit, skew), Batch(limit, skew), BatchEnd(limit, skew) + Ttl(limit) as real;
    assert EntryAt(calls, limit, 0) == None;
    EndOfBatch(limit, skew, 0.0);
    EndOfBatch(limit, skew, again);
    hide Batch, BatchEnd, Ttl, GreedyCall, ExpiringGranted, AfterGreedy, EntryAt;
    GreedyCallsAreGranted(calls, limit, skew, 0.0, 0, n);
    GreedyCallsAreGranted(calls, limit, skew, again, n, n);
    ExpiringGrantedSplits(calls, limit, 0, n, 2 * n);
  }

  /** Two full batches against what the window earns. */
  lemma TwoBatchesAreTooMany(limit: Limit, skew: real)
    requires limit.Valid() && skew >= 0.0 && !SkewWithinTtl(limit, skew)
    ensures var elapsed := Ttl(limit) as real + 2.0 * BatchEnd(limit, skew);
            (2 * Batch(limit, skew)) as real > limit.capacity + Earned(limit, elapsed + 2.0 * skew)
  {
    var w, ttl := BatchEnd(limit, skew), Ttl(limit) as real;
    BatchTakesAll(limit, skew);
    var all := 2.0 * skew + w;
    EarnedAdds(limit, all, all);
    EarnedAdds(limit, ttl - 2.0 * skew, all + all);
    hide Batch, BatchEnd, Ttl, Earned;
    assert ttl - 2.0 * skew + (all + all) == ttl + 2.0 * w + 2.0 * skew;
  }

  lemma TwoBatchesBreakTheBound(limit: Limit, skew: real)
    requires limit.Valid() && skew >= 0.0 && !SkewWithinTtl(limit, skew)
    ensures var calls := TwoBatches(limit, skew);
            && |calls| > 0
            && ExpiringGranted(calls, limit, 0, |calls|) as real
               > limit.capacity + Earned(limit, calls[|calls| - 1].server - calls[0].server + 2.0 * skew)
  {
    TwoBatchesAreGranted(limit, skew);
    TwoBatchesAreTooMany(limit, skew);
    hide Batch, BatchEnd, Ttl, Earned, ExpiringGranted, SkewWithinTtl, CallAt;
  }

  lemma WindowBreaksTheBound(calls: seq<Call>, limit: Limit, skew: real, i: nat, j: nat)
    requires limit.Valid() && Timed(calls, skew) && i <= j < |calls|
    requires ExpiringGranted(calls, limit, i, j + 1) as real
           > limit.capacity + Earned(limit, calls[j].server - calls[i].server + 2.0 * skew)
    ensures !RateBoundHolds(limit, skew)
  {
    hide ExpiringGranted, Timed, Earned;
  }

  /** Beyond the skew that the TTL covers, some window of some run has more acquisitions. */
  lemma RateBoundNeedsSkewBound(limit: Limit, skew: real)
    requires limit.Valid() && skew >= 0.0 && !SkewWithinTtl(limit, skew)
    ensures !RateBoundHolds(limit, skew)
  {
    hide TwoBatches, ExpiringGranted, Timed, Earned, SkewWithinTtl, RateBoundHolds;
    TwoBatchesAreTimed(limit, skew);
    TwoBatchesBreakTheBound(limit, skew);
    WindowBreaksTheBound(TwoBatches(limit, skew), limit, skew, 0, |TwoBatches(limit, skew)| - 1);
  }

  /** The exact condition for the rate bound: it holds in every window of every timed run if and only if the TTL
      covers the skew. */
  lemma RateBoundIff(limit: Limit, skew: real)
    requires limit.Valid() && skew >= 0.0
    ensures RateBoundHolds(limit, skew) <==> SkewWithinTtl(limit, skew)
  {
    hide SkewWithinTtl, Timed, ExpiringGranted, Earned;
    if SkewWithinTtl(limit, skew) {
      forall calls: seq<Call>, i: nat, j: nat | Timed(calls, skew) && i <= j < |calls|
        ensures ExpiringGranted(calls, limit, i, j + 1) as real
             <= limit.capacity + Earned(limit, calls[j].server - calls[i].server + 2.0 * skew)
      {
        RateBound(calls, limit, skew, i, j);
      }
    } else {
      RateBoundNeedsSkewBound(limit, skew);
    }
  }

  // ----- The retry delay -----

  /** The delay of every refused client. */
  function FullDelay(limit: Limit): real
    requires limit.Valid()
  {
    Max(MIN_DELAY, 1.0 / limit.rps as real)
  }

  lemma FullDelayIsBelowTtl(limit: Limit)
    requires limit.Valid()
    ensures 1.0 / limit.rps as real <= FullDelay(limit) < Ttl(limit) as real
    ensures Earned(limit, 1.0 / limit.rps as real) == 1.0
  {
    TtlIsPositive(limit);
    var token := 1.0 / limit.rps as real;
    QuotientBounds(1.0, limit.rps as real);
    assert token * limit.rps as real == 1.0;
    if limit.rps == 1 {
      assert limit.capacity / 1.0 * 2.0 >= 2.0;
    } else {
      assert token < 1.0;
    }
  }

  /** What the delay leaves beyond the time of one token covers the disagreement of two clocks. */
  ghost predicate DelayCoversSkew(limit: Limit, skew: real)
    requires limit.Valid()
  {
    2.0 * skew <= FullDelay(limit) - 1.0 / limit.rps as real
  }

  lemma CoveredSkewIsWithinTtl(limit: Limit, skew: real)
    requires limit.Valid() && skew >= 0.0 && DelayCoversSkew(limit, skew)
    ensures SkewWithinTtl(limit, skew)
  {
    var fill, ttl := limit.capacity / limit.rps as real, Ttl(limit) as real;
    assert Earned(limit, fill) == limit.capacity;
    assert ttl >= 2.0 * fill;
    TtlIsPositive(limit);
    hide Ttl, Earned;
    EarnedGrows(limit, fill, ttl - 2.0 * skew);
  }

  /** The a-th call was refused; its client comes back at the b-th after the delay it was told, and nobody
      took a token in between. */
  predicate ComesBackUndisturbed(calls: seq<Call>, limit: Limit, a: nat, b: nat)
    requires limit.Valid() && a < |calls| && b < |calls|
  {
    && a < b
    && !ExpiringReplyAt(calls, limit, a).acquired
    && calls[b].clock >= calls[a].clock + RetryDelay(Received(ExpiringReplyAt(calls, limit, a)), limit.rps)
    && ExpiringGranted(calls, limit, a, b) == 0
  }

  lemma {:induction false} LastRefillWithinSkew(calls: seq<Call>, limit: Limit, skew: real, i: nat)
    requires limit.Valid() && Timed(calls, skew) && i < |calls|
    ensures BucketAt(None, calls, limit, i + 1).Some?
    ensures BucketAt(None, calls, limit, i + 1).value.lastRefill <= calls[i].server + skew
  {
    hide Refilled, Earned, Overflow;
    EvaluateFresh(calls[i].clock, limit);
    if i == 0 {
    } else {
      LastRefillWithinSkew(calls, limit, skew, i - 1);
      StaysInRange(None, calls, limit, i);
      EvaluateConserves(BucketAt(None, calls, limit, i).value, calls[i].clock, limit);
    }
  }

  lemma GrantedIfSkewIsCovered(calls: seq<Call>, limit: Limit, skew: real, a: nat, b: nat)
    requires limit.Valid() && Timed(calls, skew) && DelayCoversSkew(limit, skew) && a < |calls| && b < |calls|
    requires ComesBackUndisturbed(calls, limit, a, b)
    ensures ExpiringReplyAt(calls, limit, b).acquired
  {
    CoveredSkewIsWithinTtl(limit, skew);
    hide Evaluate, EvaluateEntry, Earned, RetryDelay, FullDelay, Received, SkewWithinTtl;
    TtlRefinement(calls, limit, skew, a);
    TtlRefinement(calls, limit, skew, b);
    GrantedIsExpiringGranted(calls, limit, skew, a, b);
    NoGrantsMeansAllRefused(None, calls, limit, a, b);
    StaysInRange(None, calls, limit, a);
    RefilledInRange(BucketAt(None, calls, limit, a), calls[a].clock, limit);
    DelayOfRefusal(BucketAt(None, calls, limit, a), calls[a].clock, limit);
    LastRefillWithinSkew(calls, limit, skew, a);
    var refilled := BucketAt(None, calls, limit, a + 1).value.lastRefill;
    LatestClockAtLeast(refilled, calls, a + 1, b + 1);
    GrantedIffWaitElapsed(None, calls, limit, a, b);
  }

  /** Clients ahead empty the bucket; then a client behind is refused and comes back after its delay. */
  function LaggingRun(limit: Limit, skew: real): seq<Call>
    requires limit.Valid()
  {
    var w := TopUp(limit, limit.capacity - limit.capacity.Floor as real);
    Draining(limit, skew) + [Call(w - skew, w), Call(w - skew + FullDelay(limit), w + FullDelay(limit))]
  }

  /** An empty bucket refuses a client behind, and still refuses it after the delay. */
  lemma EmptyRefusesTwice(limit: Limit, skew: real, w: real)
    requires limit.Valid() && skew >= 0.0 && !DelayCoversSkew(limit, skew)
    ensures var b := Bucket(0.0, skew + w);
            && Evaluate(Some(b), w - skew, limit).bucket == b
            && !Evaluate(Some(b), w - skew, limit).reply.acquired
            && !Evaluate(Some(b), w - skew + FullDelay(limit), limit).reply.acquired
  {
    FullDelayIsBelowTtl(limit);
    hide Earned, FullDelay;
    EarnedSign(limit, 0.0);
    EarnedOrder(limit, 1.0 / limit.rps as real, FullDelay(limit) - 2.0 * skew);
  }

  lemma LaggingRunIsTimed(limit: Limit, skew: real)
    requires limit.Valid() && skew >= 0.0
    ensures Timed(LaggingRun(limit, skew), skew)
  {
    TopUpEarnsTheRest(limit, limit.capacity - limit.capacity.Floor as real);
    FullDelayIsBelowTtl(limit);
    QuotientBounds(1.0, limit.rps as real);
    hide TopUp, FullDelay, Earned, Ttl;
  }

  /** Beyond that skew a client behind the others is refused at its retry although nobody took a token in
      between. */
  lemma LaggingClockIsRefusedAgain(limit: Limit, skew: real)
    requires limit.Valid() && skew >= 0.0 && !DelayCoversSkew(limit, skew)
    ensures exists calls: seq<Call>, a: nat, b: nat :: Timed(calls, skew) && a < b < |calls|
              && ComesBackUndisturbed(calls, limit, a, b) && !ExpiringReplyAt(calls, limit, b).acquired
  {
    var calls, a := LaggingRun(limit, skew), |Draining(limit, skew)|;
    var w := TopUp(limit, limit.capacity - limit.capacity.Floor as real);
    LaggingRunIsTimed(limit, skew);
    assert Draining(limit, skew) <= calls;
    DrainingEmpties(calls, limit, skew);
    FullDelayIsBelowTtl(limit);
    EmptyRefusesTwice(limit, skew, w);
    RefilledInRange(Some(Bucket(0.0, skew + w)), w - skew, limit);
    DelayOfRefusal(Some(Bucket(0.0, skew + w)), w - skew, limit);
    hide Evaluate, FullDelay, TopUp, Draining, Ttl, Earned, RetryDelay, Received, BucketAt, Timed;
    assert calls[a] == Call(w - skew, w) && calls[a + 1] == Call(w - skew + FullDelay(limit), w + FullDelay(limit));
    assert EntryAt(calls, limit, a + 1) == Some(Entry(Bucket(0.0, skew + w), w + Ttl(limit) as real));
    assert ExpiringGranted(calls, limit, a, a) == 0;
    assert ComesBackUndisturbed(calls, limit, a, a + 1);
    assert Timed(calls, skew) && a < a + 1 < |calls|;
  }

  ghost predicate DelaySuffices(limit: Limit, skew: real)
    requires limit.Valid()
  {
    forall calls: seq<Call>, a: nat, b: nat ::
      Timed(calls, skew) && a < b < |calls| && ComesBackUndisturbed(calls, limit, a, b)
      ==> ExpiringReplyAt(calls, limit, b).acquired
  }

  /** The exact condition for the retry delay: a client that comes back after its delay and was not overtaken is
      granted in every timed run if and only if the delay covers the skew. Up to a thousand requests per second
      that means synchronised clocks. */
  lemma DelaySufficesIff(limit: Limit, skew: real)
    requires limit.Valid() && skew >= 0.0
    ensures DelaySuffices(limit, skew) <==> DelayCoversSkew(limit, skew)
    ensures limit.rps <= 1000 ==> (DelayCoversSkew(limit, skew) <==> skew == 0.0)
  {
    if limit.rps <= 1000 {
      assert 1.0 / limit.rps as real >= MIN_DELAY by {
        assert 1.0 / limit.rps as real * limit.rps as real == 1.0;
      }
    }
    hide Timed, ComesBackUndisturbed, ExpiringReplyAt, DelayCoversSkew;
    if DelayCoversSkew(limit, skew) {
      forall calls: seq<Call>, a: nat, b: nat
        | Timed(calls, skew) && a < b < |calls| && ComesBackUndisturbed(calls, limit, a, b)
        ensures ExpiringReplyAt(calls, limit, b).acquired
      {
        GrantedIfSkewIsCovered(calls, limit, skew, a, b);
      }
    } else {
      LaggingClockIsRefusedAgain(limit, skew);
    }
  }
}
