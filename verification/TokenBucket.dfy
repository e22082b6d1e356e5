/** The token bucket kept in Redis: one evaluation of the Lua script, and what holds of every
    sequence of evaluations on one key.

    Two clocks matter. `clock` is the time a client sends as an argument; it alone moves
    `last_refill`. `server` is the time at which Redis runs the script; it alone drives expiry. */
module TokenBucket {
  import opened Options

  datatype Limit = Limit(rps: int, capacity: real) {
    ghost predicate Valid() { rps >= 1 && capacity >= 1.0 }
  }

  datatype Bucket = Bucket(tokens: real, lastRefill: real)

  /** What the script returns, before Redis converts it to integers. */
  datatype Reply = Reply(wait: real, tokens: real, before: real, acquired: bool)

  datatype Outcome = Outcome(reply: Reply, bucket: Bucket)

  /** A key's hash together with the server time at which it expires. */
  datatype Entry = Entry(bucket: Bucket, expiresAt: real)

  /** One evaluation of the script. */
  datatype Call = Call(clock: real, server: real)

  function Min(a: real, b: real): real { if a <= b then a else b }

  function Max(a: real, b: real): real { if a >= b then a else b }

  function Ceil(x: real): int { -((-x).Floor) }

  /** The tokens that `seconds` seconds earn. */
  function Earned(limit: Limit, seconds: real): real { seconds * limit.rps as real }

  function ResolveCapacity(maxRps: int, multiplier: real): real {
    Max(1.0, maxRps as real * Max(1.0, multiplier))
  }

  // ----- One evaluation -----

  /** The bucket after the refill part of the script; a missing key starts full. */
  function Refilled(stored: Option<Bucket>, clock: real, limit: Limit): Bucket {
    var b := if stored.None? then Bucket(limit.capacity, clock) else stored.value;
    var elapsed := if clock < b.lastRefill then 0.0 else clock - b.lastRefill;
    var delta := Earned(limit, elapsed);
    if delta > 0.0 then Bucket(Min(limit.capacity, b.tokens + delta), clock) else b
  }

  /** The refill a full bucket had to throw away. */
  function Overflow(stored: Option<Bucket>, clock: real, limit: Limit): real {
    if stored.None? || clock < stored.value.lastRefill then 0.0
    else Max(0.0, stored.value.tokens + Earned(limit, clock - stored.value.lastRefill) - limit.capacity)
  }

  function Evaluate(stored: Option<Bucket>, clock: real, limit: Limit): Outcome
    requires limit.Valid()
  {
    var b := Refilled(stored, clock, limit);
    if b.tokens >= 1.0 then
      Outcome(Reply(0.0, b.tokens - 1.0, b.tokens, true), Bucket(b.tokens - 1.0, b.lastRefill))
    else
      Outcome(Reply((1.0 - b.tokens) / limit.rps as real, b.tokens, b.tokens, false), b)
  }

  function Ttl(limit: Limit): int
    requires limit.Valid()
  {
    var ttl := Ceil(limit.capacity / limit.rps as real * 2.0);
    if ttl < 1 then 1 else ttl
  }

  /** The hash as Redis sees it: an expired key is a missing key. */
  function Live(entry: Option<Entry>, server: real): Option<Bucket> {
    if entry.Some? && server < entry.value.expiresAt then Some(entry.value.bucket) else None
  }

  function EvaluateEntry(entry: Option<Entry>, call: Call, limit: Limit): (Reply, Entry)
    requires limit.Valid()
  {
    var o := Evaluate(Live(entry, call.server), call.clock, limit);
    (o.reply, Entry(o.bucket, call.server + Ttl(limit) as real))
  }

  // ----- Sequences of evaluations on one key -----

  /** The bucket before the i-th call when keys never expire. */
  function BucketAt(init: Option<Bucket>, calls: seq<Call>, limit: Limit, i: nat): Option<Bucket>
    requires limit.Valid() && i <= |calls|
  {
    if i == 0 then init else Some(Evaluate(BucketAt(init, calls, limit, i - 1), calls[i - 1].clock, limit).bucket)
  }

  function ReplyAt(init: Option<Bucket>, calls: seq<Call>, limit: Limit, i: nat): Reply
    requires limit.Valid() && i < |calls|
  {
    Evaluate(BucketAt(init, calls, limit, i), calls[i].clock, limit).reply
  }

  /** The key before the i-th call when keys expire; the key does not exist at first. */
  function EntryAt(calls: seq<Call>, limit: Limit, i: nat): Option<Entry>
    requires limit.Valid() && i <= |calls|
  {
    if i == 0 then None else Some(EvaluateEntry(EntryAt(calls, limit, i - 1), calls[i - 1], limit).1)
  }

  function ExpiringReplyAt(calls: seq<Call>, limit: Limit, i: nat): Reply
    requires limit.Valid() && i < |calls|
  {
    EvaluateEntry(EntryAt(calls, limit, i), calls[i], limit).0
  }

  function Granted(init: Option<Bucket>, calls: seq<Call>, limit: Limit, i: nat, j: nat): nat
    requires limit.Valid() && i <= j <= |calls|
  {
    if i == j then 0
    else Granted(init, calls, limit, i, j - 1) + (if ReplyAt(init, calls, limit, j - 1).acquired then 1 else 0)
  }

  function ExpiringGranted(calls: seq<Call>, limit: Limit, i: nat, j: nat): nat
    requires limit.Valid() && i <= j <= |calls|
  {
    if i == j then 0
    else ExpiringGranted(calls, limit, i, j - 1) + (if ExpiringReplyAt(calls, limit, j - 1).acquired then 1 else 0)
  }

  function Overflowed(init: Option<Bucket>, calls: seq<Call>, limit: Limit, i: nat, j: nat): real
    requires limit.Valid() && i <= j <= |calls|
  {
    if i == j then 0.0
    else Overflowed(init, calls, limit, i, j - 1)
         + Overflow(BucketAt(init, calls, limit, j - 1), calls[j - 1].clock, limit)
  }

  ghost predicate InRange(b: Option<Bucket>, limit: Limit) {
    b.Some? ==> 0.0 <= b.value.tokens <= limit.capacity
  }

  lemma EarnedSign(limit: Limit, seconds: real)
    requires limit.Valid() && seconds >= 0.0
    ensures Earned(limit, seconds) > 0.0 <==> seconds > 0.0
    ensures Earned(limit, 0.0) == 0.0
    ensures seconds == 0.0 ==> Earned(limit, seconds) == 0.0
  {
  }

  lemma EarnedAdds(limit: Limit, a: real, b: real)
    ensures Earned(limit, a) + Earned(limit, b) == Earned(limit, a + b)
  {
  }

  lemma EarnedGrows(limit: Limit, a: real, b: real)
    requires limit.Valid() && a <= b
    ensures Earned(limit, a) <= Earned(limit, b)
  {
    hide Earned;
    EarnedAdds(limit, a, b - a);
    EarnedSign(limit, b - a);
  }

  /** The TTL is the least number of whole seconds, but at least one, in which an empty bucket fills twice. */
  lemma TtlIsLeast(limit: Limit)
    requires limit.Valid()
    ensures Ttl(limit) >= 1 && Earned(limit, Ttl(limit) as real) >= 2.0 * limit.capacity
    ensures Ttl(limit) > 1 ==> Earned(limit, Ttl(limit) as real - 1.0) < 2.0 * limit.capacity
  {
    var fill, ttl := limit.capacity / limit.rps as real * 2.0, Ttl(limit) as real;
    assert Earned(limit, fill) == 2.0 * limit.capacity;
    assert fill <= ttl && (Ttl(limit) > 1 ==> ttl - 1.0 < fill);
    EarnedGrows(limit, fill, ttl);
    if Ttl(limit) > 1 {
      EarnedAdds(limit, ttl - 1.0, fill - (ttl - 1.0));
      EarnedSign(limit, fill - (ttl - 1.0));
    }
  }

  /** A limit allows one second's worth of requests at once, times the multiplier if that is above one. */
  lemma CapacityIs(maxRps: int, multiplier: real)
    ensures maxRps >= 1 && multiplier >= 1.0 ==> ResolveCapacity(maxRps, multiplier) == maxRps as real * multiplier
    ensures maxRps >= 1 && multiplier < 1.0 ==> ResolveCapacity(maxRps, multiplier) == maxRps as real
    ensures maxRps < 1 ==> ResolveCapacity(maxRps, multiplier) == 1.0
  {
    var rps := maxRps as real;
    if maxRps >= 1 && multiplier >= 1.0 {
      assert rps * multiplier >= 1.0 * multiplier;
    }
    if maxRps < 1 {
      assert rps * Max(1.0, multiplier) <= 0.0;
    }
  }

  /** What the reply tells: the tokens left, the tokens before one was taken, whether one was taken, and no wait
      if so. */
  lemma ReplyTells(stored: Option<Bucket>, clock: real, limit: Limit)
    requires limit.Valid()
    ensures var (r, b) := (Evaluate(stored, clock, limit).reply, Evaluate(stored, clock, limit).bucket);
            && r.tokens == b.tokens && r.before == b.tokens + (if r.acquired then 1.0 else 0.0)
            && (r.acquired <==> r.before >= 1.0) && (r.acquired ==> r.wait == 0.0)
  {
    hide Refilled;
  }

  // ----- Conservation under arbitrary clocks -----

  /** One evaluation, whatever the client's clock: the bucket stays in range, `last_refill` is the
      later of the old value and the clock, and no token appears or disappears unaccounted for. */
  lemma EvaluateConserves(b: Bucket, clock: real, limit: Limit)
    requires limit.Valid() && InRange(Some(b), limit)
    ensures var o := Evaluate(Some(b), clock, limit);
            && InRange(Some(o.bucket), limit)
            && o.bucket.lastRefill == Max(b.lastRefill, clock)
            && Overflow(Some(b), clock, limit) >= 0.0
            && o.bucket.tokens + (if o.reply.acquired then 1.0 else 0.0) + Overflow(Some(b), clock, limit)
               == b.tokens + Earned(limit, o.bucket.lastRefill - b.lastRefill)
  {
    hide Earned;
    EarnedSign(limit, if clock < b.lastRefill then 0.0 else clock - b.lastRefill);
  }

  /** The latest clock seen among calls i..j. */
  function LatestClock(start: real, calls: seq<Call>, i: nat, j: nat): real
    requires i <= j <= |calls|
  {
    if i == j then start else Max(LatestClock(start, calls, i, j - 1), calls[j - 1].clock)
  }

  /** Token conservation over any run of a live key, for arbitrary and even backward-going clocks. */
  lemma {:induction false} Conservation(init: Option<Bucket>, calls: seq<Call>, limit: Limit, i: nat, j: nat)
    requires limit.Valid() && i <= j <= |calls|
    requires BucketAt(init, calls, limit, i).Some? && InRange(BucketAt(init, calls, limit, i), limit)
    ensures BucketAt(init, calls, limit, j).Some? && InRange(BucketAt(init, calls, limit, j), limit)
    ensures var s, e := BucketAt(init, calls, limit, i).value, BucketAt(init, calls, limit, j).value;
            && e.lastRefill == LatestClock(s.lastRefill, calls, i, j)
            && Overflowed(init, calls, limit, i, j) >= 0.0
            && e.tokens + Granted(init, calls, limit, i, j) as real + Overflowed(init, calls, limit, i, j)
               == s.tokens + Earned(limit, e.lastRefill - s.lastRefill)
    decreases j - i
  {
    hide Earned;
    hide Refilled, Overflow, Evaluate;
    EarnedSign(limit, 0.0);
    if i == j {
    } else {
      Conservation(init, calls, limit, i, j - 1);
      var s, m := BucketAt(init, calls, limit, i).value, BucketAt(init, calls, limit, j - 1).value;
      EvaluateConserves(m, calls[j - 1].clock, limit);
      var e := BucketAt(init, calls, limit, j).value;
      EarnedAdds(limit, m.lastRefill - s.lastRefill, e.lastRefill - m.lastRefill);
      assert m.lastRefill - s.lastRefill + (e.lastRefill - m.lastRefill) == e.lastRefill - s.lastRefill;
    }
  }

  lemma {:induction false} StaysInRange(init: Option<Bucket>, calls: seq<Call>, limit: Limit, i: nat)
    requires limit.Valid() && InRange(init, limit) && i <= |calls|
    ensures InRange(BucketAt(init, calls, limit, i), limit)
  {
    if i == 0 {
    } else {
      StaysInRange(init, calls, limit, i - 1);
      var b := BucketAt(init, calls, limit, i - 1);
      if b.Some? {
        EvaluateConserves(b.value, calls[i - 1].clock, limit);
      } else {
        EvaluateFresh(calls[i - 1].clock, limit);
      }
    }
  }

  /** A missing key and a full bucket refilled at this very moment are the same thing. */
  lemma EvaluateFresh(clock: real, limit: Limit)
    requires limit.Valid()
    ensures Refilled(None, clock, limit) == Bucket(limit.capacity, clock)
    ensures Evaluate(None, clock, limit) ==
            Outcome(Reply(0.0, limit.capacity - 1.0, limit.capacity, true), Bucket(limit.capacity - 1.0, clock))
  {
    EarnedSign(limit, 0.0);
  }

  // ----- Expiry -----

  /** Server times never go back, and every client clock is within `skew` of the server's. */
  ghost predicate Timed(calls: seq<Call>, skew: real) {
    && 0.0 <= skew
    && (forall i, j :: 0 <= i < j < |calls| ==> calls[i].server <= calls[j].server)
    && (forall i :: 0 <= i < |calls| ==> calls[i].server - skew <= calls[i].clock <= calls[i].server + skew)
  }

  /** The exact skew that expiry tolerates: a bucket left alone for the whole TTL, as seen by a client that
      is `skew` behind after one that was `skew` ahead, has earned its capacity. */
  ghost predicate SkewWithinTtl(limit: Limit, skew: real)
    requires limit.Valid()
  {
    Earned(limit, Ttl(limit) as real - 2.0 * skew) >= limit.capacity
  }

  /** What the factor 2 in the script's TTL buys: a skew up to half the time an empty bucket takes to fill is
      always tolerated. The TTL is rounded up, so more may be. */
  lemma HalfFillTimeIsWithinTtl(limit: Limit, skew: real)
    requires limit.Valid() && Earned(limit, 2.0 * skew) <= limit.capacity
    ensures SkewWithinTtl(limit, skew)
  {
    var fill := limit.capacity / limit.rps as real;
    assert Earned(limit, fill) == limit.capacity;
    EarnedAdds(limit, fill, fill);
    hide Earned;
    assert Ttl(limit) as real >= fill + fill;
    EarnedGrows(limit, fill + fill, Ttl(limit) as real);
    EarnedAdds(limit, Ttl(limit) as real - 2.0 * skew, 2.0 * skew);
  }

  lemma SynchronisedIsWithinTtl(limit: Limit)
    requires limit.Valid()
    ensures SkewWithinTtl(limit, 0.0)
  {
    hide Earned, SkewWithinTtl;
    EarnedSign(limit, 0.0);
    HalfFillTimeIsWithinTtl(limit, 0.0);
  }

  /** A bucket idle long enough to have expired would have been full anyway. */
  lemma ExpiredIsFull(b: Bucket, clock: real, limit: Limit)
    requires limit.Valid() && InRange(Some(b), limit)
    requires Earned(limit, clock - b.lastRefill) >= limit.capacity
    ensures Evaluate(Some(b), clock, limit) == Evaluate(None, clock, limit)
  {
    hide Earned;
    EvaluateFresh(clock, limit);
    EarnedSign(limit, 0.0);
    if clock <= b.lastRefill {
      EarnedGrows(limit, clock - b.lastRefill, 0.0);
    }
  }

  /** TTL refinement: the expiring key gives the same replies and the same bucket as a key that
      never expires, for every sequence of evaluations. */
  lemma {:induction false} TtlRefinement(calls: seq<Call>, limit: Limit, skew: real, i: nat)
    requires limit.Valid() && Timed(calls, skew) && SkewWithinTtl(limit, skew) && i <= |calls|
    ensures match EntryAt(calls, limit, i)
            case None => i == 0
            case Some(e) => i > 0 && BucketAt(None, calls, limit, i) == Some(e.bucket) && InRange(Some(e.bucket), limit)
                            && e.expiresAt == calls[i - 1].server + Ttl(limit) as real
                            && e.bucket.lastRefill <= calls[i - 1].server + skew
    ensures i < |calls| ==> ExpiringReplyAt(calls, limit, i) == ReplyAt(None, calls, limit, i)
  {
    if i == 0 {
    } else {
      TtlRefinement(calls, limit, skew, i - 1);
      EvaluateSame(calls, limit, skew, i - 1);
    }
    if i < |calls| {
      EvaluateSame(calls, limit, skew, i);
    }
  }

  lemma EvaluateSame(calls: seq<Call>, limit: Limit, skew: real, i: nat)
    requires limit.Valid() && Timed(calls, skew) && SkewWithinTtl(limit, skew) && i < |calls|
    requires match EntryAt(calls, limit, i)
             case None => i == 0
             case Some(e) => i > 0 && BucketAt(None, calls, limit, i) == Some(e.bucket)
                             && InRange(Some(e.bucket), limit)
                             && e.expiresAt == calls[i - 1].server + Ttl(limit) as real
                             && e.bucket.lastRefill <= calls[i - 1].server + skew
    ensures var (reply, e) := EvaluateEntry(EntryAt(calls, limit, i), calls[i], limit);
            && reply == ReplyAt(None, calls, limit, i)
            && BucketAt(None, calls, limit, i + 1) == Some(e.bucket) && InRange(Some(e.bucket), limit)
            && e.bucket.lastRefill <= calls[i].server + skew
  {
    hide Earned;
    var clock := calls[i].clock;
    match EntryAt(calls, limit, i) {
      case None =>
        EvaluateFresh(clock, limit);
      case Some(e) =>
        EvaluateConserves(e.bucket, clock, limit);
        if calls[i].server >= e.expiresAt {
          EarnedGrows(limit, Ttl(limit) as real - 2.0 * skew, clock - e.bucket.lastRefill);
          ExpiredIsFull(e.bucket, clock, limit);
        }
    }
  }

  // ----- Beyond the tolerated skew -----

  /** Calls with the same clock and server time, k of them. */
  function Burst(call: Call, k: nat): seq<Call> { seq(k, _ => call) }

  /** At one instant nothing is earned. */
  lemma EvaluateAtOnce(b: Bucket, limit: Limit)
    requires limit.Valid()
    ensures Evaluate(Some(b), b.lastRefill, limit).bucket
         == if b.tokens >= 1.0 then Bucket(b.tokens - 1.0, b.lastRefill) else b
    ensures Evaluate(Some(b), b.lastRefill, limit).reply.acquired <==> b.tokens >= 1.0
  {
    hide Earned;
    EarnedSign(limit, 0.0);
  }

  /** Two runs side by side: after i calls the expiring key holds x tokens until `until`, the eternal one y,
      both last refilled at the same time. */
  ghost predicate Beside(calls: seq<Call>, limit: Limit, i: nat, x: real, y: real, at: real, until: real)
    requires limit.Valid() && i <= |calls|
  {
    && EntryAt(calls, limit, i) == Some(Entry(Bucket(x, at), until))
    && BucketAt(None, calls, limit, i) == Some(Bucket(y, at))
  }

  /** A burst at the time of the last refill takes k tokens from both. */
  lemma {:induction false} BurstTakesTokens(calls: seq<Call>, limit: Limit, i: nat, k: nat, x: real, y: real, at: real,
                                            until: real, server: real)
    requires limit.Valid() && i + k <= |calls| && Beside(calls, limit, i, x, y, at, until)
    requires server < until && x >= k as real && y >= k as real
    requires forall j :: i <= j < i + k ==> calls[j] == Call(at, server)
    ensures Beside(calls, limit, i + k, x - k as real, y - k as real, at,
                   if k == 0 then until else server + Ttl(limit) as real)
  {
    hide Evaluate, Ttl;
    if k == 0 {
    } else {
      BurstTakesTokens(calls, limit, i, k - 1, x, y, at, until, server);
      TtlIsPositive(limit);
      EvaluateAtOnce(Bucket(x - (k - 1) as real, at), limit);
      EvaluateAtOnce(Bucket(y - (k - 1) as real, at), limit);
    }
  }

  lemma TtlIsPositive(limit: Limit)
    requires limit.Valid()
    ensures Ttl(limit) >= 1
  {
    hide Ceil;
  }

  /** The time a bucket with t < 1 tokens takes to hold exactly one; none if it is empty or holds one. */
  function TopUp(limit: Limit, t: real): real
    requires limit.Valid()
  {
    if t <= 0.0 || t >= 1.0 then 0.0 else (1.0 - t) / limit.rps as real
  }

  lemma TopUpEarnsTheRest(limit: Limit, t: real)
    requires limit.Valid() && t >= 0.0
    ensures 0.0 <= TopUp(limit, t) < Ttl(limit) as real
    ensures Earned(limit, TopUp(limit, t)) == if t == 0.0 || t >= 1.0 then 0.0 else 1.0 - t
  {
    EarnedSign(limit, 0.0);
    if 0.0 < t < 1.0 {
      var rest, rps := 1.0 - t, limit.rps as real;
      assert rest / rps * rps == rest;
      assert 0.0 < rest / rps < 1.0;
      TtlIsPositive(limit);
    }
  }

  /** The first call on a missing key finds it full. */
  lemma FirstCall(calls: seq<Call>, limit: Limit)
    requires limit.Valid() && |calls| > 0
    ensures var c := calls[0];
            Beside(calls, limit, 1, limit.capacity - 1.0, limit.capacity - 1.0, c.clock, c.server + Ttl(limit) as real)
  {
    EvaluateFresh(calls[0].clock, limit);
    assert EntryAt(calls, limit, 0) == None && BucketAt(None, calls, limit, 0) == None;
  }

  /** A call made when the fraction t has grown to one token empties both. */
  lemma TakeTheRest(calls: seq<Call>, limit: Limit, i: nat, t: real, at: real, until: real, server: real)
    requires limit.Valid() && i < |calls| && 0.0 <= t < 1.0 && Beside(calls, limit, i, t, t, at, until)
    requires calls[i] == Call(at + TopUp(limit, t), server) && server < until
    ensures Beside(calls, limit, i + 1, 0.0, 0.0, at + TopUp(limit, t), server + Ttl(limit) as real)
  {
    TopUpEarnsTheRest(limit, t);
    hide Earned, TopUp, Ttl;
    EarnedSign(limit, TopUp(limit, t));
  }

  /** The tokens that an empty bucket holds once the TTL has run out, as a client `skew` behind sees it. */
  function Leftover(limit: Limit, skew: real): real
    requires limit.Valid()
  {
    Max(0.0, Earned(limit, Ttl(limit) as real - 2.0 * skew))
  }

  /** The first call after the TTL finds the expiring key full and the eternal one with the leftover. */
  lemma AfterTtl(calls: seq<Call>, limit: Limit, i: nat, at: real, until: real, skew: real)
    requires limit.Valid() && i < |calls| && Beside(calls, limit, i, 0.0, 0.0, at, until)
    requires !SkewWithinTtl(limit, skew)
    requires calls[i] == Call(at + (Ttl(limit) as real - 2.0 * skew), until)
    ensures ExpiringReplyAt(calls, limit, i).acquired
    ensures ReplyAt(None, calls, limit, i).acquired <==> Leftover(limit, skew) >= 1.0
    ensures Leftover(limit, skew) >= 1.0 ==>
              Beside(calls, limit, i + 1, limit.capacity - 1.0, Leftover(limit, skew) - 1.0, calls[i].clock,
                     until + Ttl(limit) as real)
  {
    hide Earned, Ttl;
    var idle := Ttl(limit) as real - 2.0 * skew;
    EvaluateFresh(calls[i].clock, limit);
    EarnedSign(limit, 0.0);
    if idle <= 0.0 {
      EarnedGrows(limit, idle, 0.0);
    }
  }

  /** x tokens against fewer than one: the call that comes when x has grown to one token is granted by the
      expiring key only. */
  lemma LastCallTells(calls: seq<Call>, limit: Limit, i: nat, x: real, y: real, at: real, until: real, server: real)
    requires limit.Valid() && i < |calls| && Beside(calls, limit, i, x, y, at, until)
    requires 0.0 <= y < 1.0 && y < x <= limit.capacity
    requires calls[i] == Call(at + TopUp(limit, x), server) && server < until
    ensures ExpiringReplyAt(calls, limit, i).acquired && !ReplyAt(None, calls, limit, i).acquired
  {
    TopUpEarnsTheRest(limit, x);
    hide Earned, TopUp, Ttl;
    EarnedSign(limit, TopUp(limit, x));
  }

  /** Clients ahead drain the bucket at once and take the one token it can still earn. */
  function Draining(limit: Limit, skew: real): seq<Call>
    requires limit.Valid()
  {
    var whole: nat := limit.capacity.Floor;
    var w := TopUp(limit, limit.capacity - whole as real);
    Burst(Call(skew, 0.0), whole) + [Call(skew + w, w)]
  }

  /** When the TTL has just run out, clients behind ask until the answers differ. */
  function TellingRun(limit: Limit, skew: real): seq<Call>
    requires limit.Valid()
  {
    var server := TopUp(limit, limit.capacity - limit.capacity.Floor as real) + Ttl(limit) as real;
    var whole: nat := Leftover(limit, skew).Floor;
    var last := server + TopUp(limit, limit.capacity - whole as real);
    Draining(limit, skew) + Burst(Call(server - skew, server), if whole == 0 then 1 else whole)
    + [Call(last - skew, last)]
  }

  lemma TellingRunIsTimed(limit: Limit, skew: real)
    requires limit.Valid() && skew >= 0.0 && !SkewWithinTtl(limit, skew)
    ensures Timed(TellingRun(limit, skew), skew)
  {
    TopUpEarnsTheRest(limit, limit.capacity - limit.capacity.Floor as real);
    TopUpEarnsTheRest(limit, limit.capacity - Leftover(limit, skew).Floor as real);
    TtlIsPositive(limit);
    hide TopUp, Ttl, Leftover, Earned;
  }

  lemma DrainingEmpties(calls: seq<Call>, limit: Limit, skew: real)
    requires limit.Valid() && Draining(limit, skew) <= calls
    ensures var n, w := |Draining(limit, skew)|, TopUp(limit, limit.capacity - limit.capacity.Floor as real);
            Beside(calls, limit, n, 0.0, 0.0, skew + w, w + Ttl(limit) as real)
  {
    var whole: nat := limit.capacity.Floor;
    var t := limit.capacity - whole as real;
    TtlIsPositive(limit);
    TopUpEarnsTheRest(limit, t);
    hide Ttl, TopUp, Beside;
    FirstCall(calls, limit);
    BurstTakesTokens(calls, limit, 1, whole - 1, limit.capacity - 1.0, limit.capacity - 1.0, skew, Ttl(limit) as real,
                     0.0);
    TakeTheRest(calls, limit, whole, t, skew, Ttl(limit) as real, TopUp(limit, t));
  }

  /** Clients behind take the whole tokens of the leftover from both, and then the answers differ. */
  lemma LeftoverTells(calls: seq<Call>, limit: Limit, i: nat, left: real, at: real, until: real, server: real)
    requires limit.Valid() && 1.0 <= left < limit.capacity && i <= |calls|
    requires Beside(calls, limit, i, limit.capacity - 1.0, left - 1.0, at, until)
    requires var whole := left.Floor; var w := TopUp(limit, limit.capacity - whole as real);
             && i + whole <= |calls| && server + w < until && server + w < server + Ttl(limit) as real
             && (forall j :: i <= j < i + whole - 1 ==> calls[j] == Call(at, server))
             && calls[i + whole - 1] == Call(at + w, server + w)
    ensures var last := i + left.Floor - 1;
            ExpiringReplyAt(calls, limit, last).acquired && !ReplyAt(None, calls, limit, last).acquired
  {
    hide Ttl, TopUp, Beside, EntryAt, BucketAt, Earned, ExpiringReplyAt, ReplyAt;
    var whole: nat := left.Floor;
    var x, y := limit.capacity - whole as real, left - whole as real;
    var expires := if whole == 1 then until else server + Ttl(limit) as real;
    TopUpEarnsTheRest(limit, x);
    BurstTakesTokens(calls, limit, i, whole - 1, limit.capacity - 1.0, left - 1.0, at, until, server);
    LastCallTells(calls, limit, i + whole - 1, x, y, at, expires, server + TopUp(limit, x));
  }

  /** Beyond the tolerated skew some client is granted a token that the eternal key refuses. */
  lemma TtlRefinementNeedsSkewBound(limit: Limit, skew: real)
    requires limit.Valid() && skew >= 0.0 && !SkewWithinTtl(limit, skew)
    ensures exists calls: seq<Call>, i: nat :: Timed(calls, skew) && i < |calls|
              && ExpiringReplyAt(calls, limit, i).acquired && !ReplyAt(None, calls, limit, i).acquired
  {
    var calls, n := TellingRun(limit, skew), |Draining(limit, skew)|;
    var w := TopUp(limit, limit.capacity - limit.capacity.Floor as real);
    var server, left := w + Ttl(limit) as real, Leftover(limit, skew);
    var whole: nat := left.Floor;
    TellingRunIsTimed(limit, skew);
    TtlIsPositive(limit);
    TopUpEarnsTheRest(limit, limit.capacity - whole as real);
    assert Draining(limit, skew) <= calls;
    DrainingEmpties(calls, limit, skew);
    hide Ttl, TopUp, Beside, Draining, EntryAt, BucketAt, Earned, Timed, ExpiringReplyAt, ReplyAt;
    AfterTtl(calls, limit, n, skew + w, server, skew);
    if whole > 0 {
      LeftoverTells(calls, limit, n + 1, left, server - skew, server + Ttl(limit) as real, server);
    }
  }

  /** The exact condition: for a given skew, expiry is invisible to every client in every run if and only if
      the TTL covers the refill of an empty bucket between the two furthest clocks. */
  lemma TtlRefinementIff(limit: Limit, skew: real)
    requires limit.Valid() && skew >= 0.0
    ensures (forall calls: seq<Call>, i: nat :: Timed(calls, skew) && i < |calls|
               ==> ExpiringReplyAt(calls, limit, i) == ReplyAt(None, calls, limit, i))
            <==> SkewWithinTtl(limit, skew)
    ensures (forall calls: seq<Call>, i: nat :: Timed(calls, skew) && i < |calls|
               ==> ExpiringReplyAt(calls, limit, i).acquired == ReplyAt(None, calls, limit, i).acquired)
            <==> SkewWithinTtl(limit, skew)
  {
    hide ExpiringReplyAt, ReplyAt, SkewWithinTtl, Timed;
    if SkewWithinTtl(limit, skew) {
      forall calls: seq<Call>, i: nat | Timed(calls, skew) && i < |calls|
        ensures ExpiringReplyAt(calls, limit, i) == ReplyAt(None, calls, limit, i)
      {
        TtlRefinement(calls, limit, skew, i);
      }
    } else {
      TtlRefinementNeedsSkewBound(limit, skew);
    }
  }

  // ----- The rate bound -----

  lemma {:induction false} GrantedIsExpiringGranted(calls: seq<Call>, limit: Limit, skew: real, i: nat, j: nat)
    requires limit.Valid() && Timed(calls, skew) && SkewWithinTtl(limit, skew) && i <= j <= |calls|
    ensures ExpiringGranted(calls, limit, i, j) == Granted(None, calls, limit, i, j)
    decreases j - i
  {
    if i == j {
    } else {
      GrantedIsExpiringGranted(calls, limit, skew, i, j - 1);
      TtlRefinement(calls, limit, skew, j - 1);
    }
  }

  lemma {:induction false} GrantedSplits(init: Option<Bucket>, calls: seq<Call>, limit: Limit, i: nat, j: nat, k: nat)
    requires limit.Valid() && i <= j <= k <= |calls|
    ensures Granted(init, calls, limit, i, k) == Granted(init, calls, limit, i, j) + Granted(init, calls, limit, j, k)
    decreases k - j
  {
    if j == k {
    } else {
      GrantedSplits(init, calls, limit, i, j, k - 1);
    }
  }

  lemma {:induction false} LatestClockBounded(start: real, calls: seq<Call>, i: nat, j: nat, bound: real)
    requires i <= j <= |calls| && start <= bound
    requires forall k :: i <= k < j ==> calls[k].clock <= bound
    ensures LatestClock(start, calls, i, j) <= bound
    decreases j - i
  {
    if i == j {
    } else {
      LatestClockBounded(start, calls, i, j - 1, bound);
    }
  }

  /** The first evaluation of a window: what it grants plus what it leaves is at most the capacity. */
  lemma WindowOpens(init: Option<Bucket>, calls: seq<Call>, limit: Limit, i: nat)
    requires limit.Valid() && InRange(init, limit) && i < |calls|
    ensures BucketAt(init, calls, limit, i + 1).Some? && InRange(BucketAt(init, calls, limit, i + 1), limit)
    ensures BucketAt(init, calls, limit, i + 1).value.tokens + Granted(init, calls, limit, i, i + 1) as real
         <= limit.capacity
    ensures BucketAt(init, calls, limit, i + 1).value.lastRefill >= calls[i].clock
  {
    StaysInRange(init, calls, limit, i);
    assert Granted(init, calls, limit, i, i) == 0;
    var b := BucketAt(init, calls, limit, i);
    if b.Some? {
      EvaluateConserves(b.value, calls[i].clock, limit);
    } else {
      EvaluateFresh(calls[i].clock, limit);
    }
    assert Refilled(b, calls[i].clock, limit).tokens <= limit.capacity;
  }

  /** The rate bound over every window: between the i-th and the j-th evaluation of an expiring key, both
      included, at most capacity + rps * (elapsed server time + 2 * skew) acquisitions happen. */
  lemma RateBound(calls: seq<Call>, limit: Limit, skew: real, i: nat, j: nat)
    requires limit.Valid() && Timed(calls, skew) && SkewWithinTtl(limit, skew) && i <= j < |calls|
    ensures ExpiringGranted(calls, limit, i, j + 1) as real
         <= limit.capacity + Earned(limit, calls[j].server - calls[i].server + 2.0 * skew)
  {
    hide Earned, Evaluate, EvaluateEntry, Granted, ExpiringGranted, BucketAt, EntryAt, LatestClock, Ttl;
    GrantedIsExpiringGranted(calls, limit, skew, i, j + 1);
    GrantedSplits(None, calls, limit, i, i + 1, j + 1);
    WindowOpens(None, calls, limit, i);
    Conservation(None, calls, limit, i + 1, j + 1);
    var s, e := BucketAt(None, calls, limit, i + 1).value, BucketAt(None, calls, limit, j + 1).value;
    var bound := calls[j].server + skew;
    assert s.lastRefill <= bound by {
      TtlRefinement(calls, limit, skew, i + 1);
    }
    LatestClockBounded(s.lastRefill, calls, i + 1, j + 1, bound);
    EarnedGrows(limit, e.lastRefill - s.lastRefill, calls[j].server - calls[i].server + 2.0 * skew);
  }
}
