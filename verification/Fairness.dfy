/** What a refused client gets: the reply as it crosses the wire, the delay the client derives from it,
    and why that delay is never too short. */
module Fairness {
  import opened Options
  import opened TokenBucket

  /** `RateLimitAcquireResult`, for the integers that Redis sends. */
  datatype AcquireResult = AcquireResult(waitSec: int, tokens: int, tokensBefore: Option<int>, acquired: bool)

  const MIN_DELAY := 0.001

  /** Redis keeps only the integer part of a Lua number in a script reply. */
  function Truncated(x: real): int { if x >= 0.0 then x.Floor else -((-x).Floor) }

  function WireReply(r: Reply): seq<int> {
    [Truncated(r.wait), Truncated(r.tokens), Truncated(r.before), if r.acquired then 1 else 0]
  }

  function ParseReply(values: seq<int>): Option<AcquireResult> {
    if |values| < 3 then None
    else if |values| >= 4 then Some(AcquireResult(values[0], values[1], Some(values[2]), values[3] == 1))
    else Some(AcquireResult(values[0], values[1], None, values[2] == 1))
  }

  /** The reply as the client reads it. */
  function Received(r: Reply): AcquireResult { ParseReply(WireReply(r)).value }

  /** The condition on which `WaitAsync` returns. */
  predicate Accepts(r: AcquireResult) { r.waitSec <= 0 && r.acquired }

  /** The delay before the next attempt, in seconds. */
  function RetryDelay(r: AcquireResult, rps: int): real
    requires rps >= 1
  {
    Max(MIN_DELAY, if r.waitSec <= 0 then 1.0 / rps as real else r.waitSec as real)
  }

  /** The integer part, towards zero. */
  lemma TruncatedIs(x: real)
    ensures x >= 0.0 ==> Truncated(x) as real <= x < Truncated(x) as real + 1.0
    ensures x <= 0.0 ==> Truncated(x) as real - 1.0 < x <= Truncated(x) as real
  {
  }

  /** A reply carries four numbers, or three without the tokens before; a shorter one is no reply. */
  lemma ReplyForms(wait: int, tokens: int, before: int, acquired: int)
    ensures ParseReply([wait, tokens, before, acquired])
         == Some(AcquireResult(wait, tokens, Some(before), acquired == 1))
    ensures ParseReply([wait, tokens, acquired]) == Some(AcquireResult(wait, tokens, None, acquired == 1))
    ensures ParseReply([]) == ParseReply([wait]) == ParseReply([wait, tokens]) == None
  {
  }

  /** What the client reads is the integer part of what the script returned, number by number. */
  lemma ReceivedIs(r: Reply)
    ensures Received(r)
         == AcquireResult(Truncated(r.wait), Truncated(r.tokens), Some(Truncated(r.before)), r.acquired)
  {
    hide Truncated;
  }

  /** Truncation loses the fraction of the wait but never the verdict: the client goes ahead exactly
      when the script took a token for it. */
  lemma VerdictSurvivesTheWire(stored: Option<Bucket>, clock: real, limit: Limit)
    requires limit.Valid()
    ensures var r := Evaluate(stored, clock, limit).reply;
            ParseReply(WireReply(r)) == Some(Received(r)) && (Accepts(Received(r)) <==> r.acquired)
  {
    hide Refilled;
  }

  /** The true wait of a refusal lies in (0, 1/rps], so the truncated wait is 0 or exactly the wait. */
  lemma DelayCoversWait(stored: Option<Bucket>, clock: real, limit: Limit)
    requires limit.Valid() && Refilled(stored, clock, limit).tokens >= 0.0
    requires !Evaluate(stored, clock, limit).reply.acquired
    ensures var r := Evaluate(stored, clock, limit).reply;
            && r.wait > 0.0
            && Earned(limit, r.wait) == 1.0 - Refilled(stored, clock, limit).tokens
            && RetryDelay(Received(r), limit.rps) >= r.wait
  {
    hide Refilled;
    var missing, rps := 1.0 - Refilled(stored, clock, limit).tokens, limit.rps as real;
    QuotientBounds(missing, rps);
  }

  lemma QuotientBounds(missing: real, rps: real)
    requires 0.0 < missing <= 1.0 && rps >= 1.0
    ensures 0.0 < missing / rps <= 1.0 / rps <= 1.0
    ensures missing / rps * rps == missing
  {
    var q := missing / rps;
    assert q * rps == missing;
    assert 1.0 / rps * rps == 1.0;
  }

  /** A refused client never comes back sooner than after the time one token takes to earn. */
  lemma DelayIsAtLeastOneToken(r: AcquireResult, rps: int)
    requires rps >= 1
    ensures RetryDelay(r, rps) >= 1.0 / rps as real
  {
    QuotientBounds(1.0, rps as real);
  }

  /** The delay after a refusal, exactly: the time of one token, but at least a millisecond. */
  lemma DelayOfRefusal(stored: Option<Bucket>, clock: real, limit: Limit)
    requires limit.Valid() && Refilled(stored, clock, limit).tokens >= 0.0
    requires !Evaluate(stored, clock, limit).reply.acquired
    ensures var r := Evaluate(stored, clock, limit).reply;
            && r.wait <= 1.0 / limit.rps as real
            && RetryDelay(Received(r), limit.rps) == Max(0.001, 1.0 / limit.rps as real)
  {
    hide Refilled;
    QuotientBounds(1.0 - Refilled(stored, clock, limit).tokens, limit.rps as real);
  }

  // ----- Between two attempts -----

  /** Calls i..j are all refused. */
  predicate AllRefused(init: Option<Bucket>, calls: seq<Call>, limit: Limit, i: nat, j: nat)
    requires limit.Valid() && i <= j <= |calls|
  {
    forall k :: i <= k < j ==> !ReplyAt(init, calls, limit, k).acquired
  }

  lemma {:induction false} NoGrantsMeansAllRefused(init: Option<Bucket>, calls: seq<Call>, limit: Limit, i: nat, j: nat)
    requires limit.Valid() && i <= j <= |calls|
    ensures Granted(init, calls, limit, i, j) == 0 <==> AllRefused(init, calls, limit, i, j)
    decreases j - i
  {
    hide ReplyAt;
    if i == j {
    } else {
      NoGrantsMeansAllRefused(init, calls, limit, i, j - 1);
    }
  }

  lemma RefusedLosesNothing(b: Bucket, clock: real, limit: Limit)
    requires limit.Valid() && !Evaluate(Some(b), clock, limit).reply.acquired && b.tokens < 1.0
    ensures Overflow(Some(b), clock, limit) == 0.0
  {
    hide Earned;
    if clock >= b.lastRefill {
      EarnedSign(limit, clock - b.lastRefill);
    }
  }

  /** No refill is lost to the capacity while the bucket keeps refusing. */
  lemma {:induction false} NoOverflowWhileRefused(init: Option<Bucket>, calls: seq<Call>, limit: Limit, i: nat, j: nat)
    requires limit.Valid() && i <= j <= |calls| && AllRefused(init, calls, limit, i, j)
    requires BucketAt(init, calls, limit, i).Some? && BucketAt(init, calls, limit, i).value.tokens < 1.0
    ensures BucketAt(init, calls, limit, j).Some? && BucketAt(init, calls, limit, j).value.tokens < 1.0
    ensures Overflowed(init, calls, limit, i, j) == 0.0
    decreases j - i
  {
    hide Refilled, Overflow;
    if i == j {
    } else {
      assert AllRefused(init, calls, limit, i, j - 1);
      NoOverflowWhileRefused(init, calls, limit, i, j - 1);
      assert !ReplyAt(init, calls, limit, j - 1).acquired;
      RefusedLosesNothing(BucketAt(init, calls, limit, j - 1).value, calls[j - 1].clock, limit);
    }
  }

  /** The exact moment of the next grant, for arbitrary clocks: if the a-th call is refused and nobody is
      granted before the b-th, the b-th is granted if and only if the latest clock seen by then has
      reached the refused bucket's `last_refill` plus the wait it reported. */
  lemma GrantedIffWaitElapsed(init: Option<Bucket>, calls: seq<Call>, limit: Limit, a: nat, b: nat)
    requires limit.Valid() && InRange(init, limit) && a < b < |calls|
    requires AllRefused(init, calls, limit, a, b)
    ensures BucketAt(init, calls, limit, a + 1).Some?
    ensures var refilled := BucketAt(init, calls, limit, a + 1).value.lastRefill;
            ReplyAt(init, calls, limit, b).acquired
            <==> LatestClock(refilled, calls, a + 1, b + 1) >= refilled + ReplyAt(init, calls, limit, a).wait
  {
    hide Refilled, Overflow, Earned;
    StaysInRange(init, calls, limit, a);
    var s := BucketAt(init, calls, limit, a + 1).value;
    var wait := ReplyAt(init, calls, limit, a).wait;
    assert !ReplyAt(init, calls, limit, a).acquired;
    RefilledInRange(BucketAt(init, calls, limit, a), calls[a].clock, limit);
    DelayCoversWait(BucketAt(init, calls, limit, a), calls[a].clock, limit);
    StaysInRange(init, calls, limit, a + 1);
    assert AllRefused(init, calls, limit, a + 1, b);
    NoOverflowWhileRefused(init, calls, limit, a + 1, b);
    NoGrantsMeansAllRefused(init, calls, limit, a + 1, b);
    Conservation(init, calls, limit, a + 1, b);
    var m := BucketAt(init, calls, limit, b).value;
    LatestClockAtLeast(s.lastRefill, calls, a + 1, b);
    NextVerdict(s, wait, m, calls[b].clock, limit);
  }

  lemma RefilledInRange(b: Option<Bucket>, clock: real, limit: Limit)
    requires limit.Valid() && InRange(b, limit)
    ensures 0.0 <= Refilled(b, clock, limit).tokens <= limit.capacity
  {
    hide Earned;
    EarnedSign(limit, 0.0);
  }

  /** `s` lacks the tokens that `wait` seconds earn; `m` is `s` after some refusals and is asked again. */
  lemma NextVerdict(s: Bucket, wait: real, m: Bucket, clock: real, limit: Limit)
    requires limit.Valid() && InRange(Some(s), limit) && InRange(Some(m), limit)
    requires s.lastRefill <= m.lastRefill && m.tokens < 1.0
    requires Earned(limit, wait) == 1.0 - s.tokens
    requires m.tokens == s.tokens + Earned(limit, m.lastRefill - s.lastRefill)
    ensures Evaluate(Some(m), clock, limit).reply.acquired <==> Max(m.lastRefill, clock) >= s.lastRefill + wait
  {
    hide Earned;
    var now := Max(m.lastRefill, clock);
    EarnedAdds(limit, m.lastRefill - s.lastRefill, now - m.lastRefill);
    assert m.lastRefill - s.lastRefill + (now - m.lastRefill) == now - s.lastRefill;
    EarnedSign(limit, now - m.lastRefill);
    assert m.tokens + Earned(limit, now - m.lastRefill) == s.tokens + Earned(limit, now - s.lastRefill);
    EarnedOrder(limit, wait, now - s.lastRefill);
  }

  lemma EarnedOrder(limit: Limit, a: real, b: real)
    requires limit.Valid()
    ensures Earned(limit, a) <= Earned(limit, b) <==> a <= b
  {
    hide Earned;
    if a <= b {
      EarnedGrows(limit, a, b);
    } else {
      EarnedAdds(limit, b, a - b);
      EarnedSign(limit, a - b);
    }
  }

  /** The a-th call was refused and its client came back at the b-th after at least the delay it was told. */
  predicate ComesBack(init: Option<Bucket>, calls: seq<Call>, limit: Limit, a: nat, b: nat)
    requires limit.Valid() && a < |calls| && b < |calls|
  {
    && a < b
    && !ReplyAt(init, calls, limit, a).acquired
    && calls[b].clock >= calls[a].clock + RetryDelay(Received(ReplyAt(init, calls, limit, a)), limit.rps)
  }

  ghost predicate MonotoneClocks(init: Option<Bucket>, calls: seq<Call>) {
    && (forall i, j :: 0 <= i < j < |calls| ==> calls[i].clock <= calls[j].clock)
    && (init.Some? ==> forall i :: 0 <= i < |calls| ==> init.value.lastRefill <= calls[i].clock)
  }

  lemma LastRefillIsClock(init: Option<Bucket>, calls: seq<Call>, limit: Limit, i: nat)
    requires limit.Valid() && InRange(init, limit) && MonotoneClocks(init, calls) && i < |calls|
    ensures BucketAt(init, calls, limit, i + 1).value.lastRefill == calls[i].clock
  {
    hide Refilled, Earned, Overflow;
    StaysInRange(init, calls, limit, i);
    var b := BucketAt(init, calls, limit, i);
    if b.Some? {
      if i > 0 {
        LastRefillIsClock(init, calls, limit, i - 1);
      }
      EvaluateConserves(b.value, calls[i].clock, limit);
    } else {
      EvaluateFresh(calls[i].clock, limit);
    }
  }

  lemma {:induction false} LatestClockAtLeast(start: real, calls: seq<Call>, i: nat, j: nat)
    requires i <= j <= |calls|
    ensures LatestClock(start, calls, i, j) >= start
    ensures i < j ==> LatestClock(start, calls, i, j) >= calls[j - 1].clock
    decreases j - i
  {
    if i == j {
    } else {
      LatestClockAtLeast(start, calls, i, j - 1);
    }
  }

  /** A delayed client is refused again only if somebody took a token in between. */
  lemma RefusedAgainOnlyIfOvertaken(init: Option<Bucket>, calls: seq<Call>, limit: Limit, a: nat, b: nat)
    requires limit.Valid() && InRange(init, limit) && MonotoneClocks(init, calls)
    requires a < |calls| && b < |calls| && ComesBack(init, calls, limit, a, b)
    requires !ReplyAt(init, calls, limit, b).acquired
    ensures Granted(init, calls, limit, a, b) >= 1
  {
    hide Refilled, Overflow, Earned, Evaluate, RetryDelay;
    NoGrantsMeansAllRefused(init, calls, limit, a, b);
    if AllRefused(init, calls, limit, a, b) {
      GrantedIffWaitElapsed(init, calls, limit, a, b);
      LastRefillIsClock(init, calls, limit, a);
      LatestClockAtLeast(calls[a].clock, calls, a + 1, b + 1);
      StaysInRange(init, calls, limit, a);
      RefilledInRange(BucketAt(init, calls, limit, a), calls[a].clock, limit);
      DelayCoversWait(BucketAt(init, calls, limit, a), calls[a].clock, limit);
    }
  }

  /** Successive attempts of one client, each after the delay the previous refusal told it. */
  ghost predicate Attempts(init: Option<Bucket>, calls: seq<Call>, limit: Limit, mine: seq<nat>)
    requires limit.Valid()
  {
    && (forall n :: 0 <= n < |mine| ==> mine[n] < |calls|)
    && (forall n :: 0 <= n < |mine| - 1 ==> ComesBack(init, calls, limit, mine[n], mine[n + 1]))
  }

  /** Bounded starvation: a client refused at every one of its n attempts has been overtaken at least
      n - 1 times. So an uncontended client needs at most two attempts. */
  lemma {:induction false} StarvationIsOvertaking(init: Option<Bucket>, calls: seq<Call>, limit: Limit, mine: seq<nat>)
    requires limit.Valid() && InRange(init, limit) && MonotoneClocks(init, calls)
    requires |mine| >= 1 && Attempts(init, calls, limit, mine)
    requires !ReplyAt(init, calls, limit, mine[|mine| - 1]).acquired
    ensures mine[0] <= mine[|mine| - 1]
    ensures Granted(init, calls, limit, mine[0], mine[|mine| - 1]) >= |mine| - 1
  {
    hide RetryDelay, Evaluate, Refilled, Earned, ReplyAt, BucketAt;
    var n := |mine| - 1;
    if n == 0 {
    } else {
      assert ComesBack(init, calls, limit, mine[n - 1], mine[n - 1 + 1]);
      var before := mine[..n];
      assert Attempts(init, calls, limit, before) by {
        forall m | 0 <= m < |before| - 1 ensures ComesBack(init, calls, limit, before[m], before[m + 1]) {
          assert ComesBack(init, calls, limit, mine[m], mine[m + 1]);
        }
      }
      StarvationIsOvertaking(init, calls, limit, before);
      RefusedAgainOnlyIfOvertaken(init, calls, limit, mine[n - 1], mine[n]);
      GrantedSplits(init, calls, limit, mine[0], mine[n - 1], mine[n]);
    }
  }

  /** The same for the expiring key of a system with synchronised clocks. */
  lemma StarvationOnExpiringKey(calls: seq<Call>, limit: Limit, mine: seq<nat>)
    requires limit.Valid() && Timed(calls, 0.0)
    requires |mine| >= 1 && Attempts(None, calls, limit, mine)
    requires !ExpiringReplyAt(calls, limit, mine[|mine| - 1]).acquired
    ensures mine[0] <= mine[|mine| - 1]
    ensures ExpiringGranted(calls, limit, mine[0], mine[|mine| - 1]) >= |mine| - 1
  {
    hide RetryDelay, Evaluate, Refilled, Earned, ReplyAt, BucketAt, ExpiringReplyAt, ExpiringGranted, EntryAt;
    SynchronisedIsWithinTtl(limit);
    TtlRefinement(calls, limit, 0.0, mine[|mine| - 1]);
    StarvationIsOvertaking(None, calls, limit, mine);
    GrantedIsExpiringGranted(calls, limit, 0.0, mine[0], mine[|mine| - 1]);
  }

  /** A client that comes back in time, with nobody in between, is granted. */
  lemma SecondAttemptSucceeds(stored: Option<Bucket>, first: Call, second: Call, limit: Limit)
    requires limit.Valid() && InRange(stored, limit) && (stored.Some? ==> stored.value.lastRefill <= first.clock)
    requires var r := Evaluate(stored, first.clock, limit).reply;
             !r.acquired && second.clock >= first.clock + RetryDelay(Received(r), limit.rps)
    ensures Evaluate(Some(Evaluate(stored, first.clock, limit).bucket), second.clock, limit).reply.acquired
  {
    var calls := [first, second];
    hide Refilled, Overflow, Earned, RetryDelay, Evaluate, Received;
    assert BucketAt(stored, calls, limit, 0) == stored;
    assert BucketAt(stored, calls, limit, 1) == Some(Evaluate(stored, first.clock, limit).bucket);
    RefilledInRange(stored, first.clock, limit);
    DelayCoversWait(stored, first.clock, limit);
    if !ReplyAt(stored, calls, limit, 1).acquired {
      RefusedAgainOnlyIfOvertaken(stored, calls, limit, 0, 1);
    }
  }
}
