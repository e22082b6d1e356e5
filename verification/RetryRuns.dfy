/** Runs of the retry machine that reach its bounds: how many copies and how many invocations there can be. */
module RetryRuns {
  import opened Counting
  import opened RateLimitKeys
  import opened Topology
  import opened Retry
  import opened RetryBounds

  // ----- Building runs -----

  /** Some run under this policy and prefetch ends in b, with so many faults and invocations on message 0. */
  ghost predicate Reachable(prefetch: nat, maxRetries: int, b: Broker, faults: nat, invocations: nat) {
    exists t: Trace :: EndsIn(t, prefetch, maxRetries, b, faults, invocations)
  }

  ghost predicate EndsIn(t: Trace, prefetch: nat, maxRetries: int, b: Broker, faults: nat, invocations: nat) {
    && t.Valid() && t.prefetch == prefetch && t.maxRetries == maxRetries && t.states[|t.events|] == b
    && Faults(t, 0, |t.events|) == faults && Invocations(t, 0, |t.events|) == invocations
  }

  lemma {:induction false} CountInPrefix(t: Trace, u: Trace, which: Event -> bool, n: nat)
    requires n < |t.states| && n <= |t.events| && t.states <= u.states && t.events <= u.events
    ensures CountEvents(t, 0, which, n) == CountEvents(u, 0, which, n)
  {
    if n == 0 {
    } else {
      CountInPrefix(t, u, which, n - 1);
    }
  }

  /** One more event. */
  lemma Follow(prefetch: nat, maxRetries: int, b: Broker, e: Event, faults: nat, invocations: nat)
    requires Reachable(prefetch, maxRetries, b, faults, invocations) && Enabled(b, e) && WithinPrefetch(b, e, prefetch)
    ensures Reachable(prefetch, maxRetries, Step(b, e, maxRetries),
                      faults + (if About(b, e, 0) && IsFault(e) then 1 else 0),
                      invocations + (if About(b, e, 0) && IsInvocation(e) then 1 else 0))
  {
    hide Enabled, WithinPrefetch, Step, About;
    var t: Trace :| EndsIn(t, prefetch, maxRetries, b, faults, invocations);
    var n := |t.events|;
    var u := Trace(t.states + [Step(b, e, maxRetries)], t.events + [e], prefetch, maxRetries);
    forall i | 0 <= i < n + 1 ensures u.Follows(i) {
      assert i < n ==> t.Follows(i);
    }
    CountInPrefix(t, u, IsFailedOperation, n);
    CountInPrefix(t, u, IsCrash, n);
    CountInPrefix(t, u, IsInvocation, n);
    assert u.events[n] == e && u.states[n] == b;
    assert EndsIn(u, prefetch, maxRetries, Step(b, e, maxRetries),
                  faults + (if About(b, e, 0) && IsFault(e) then 1 else 0),
                  invocations + (if About(b, e, 0) && IsInvocation(e) then 1 else 0));
  }

  /** Message 0 is published on channel MAX. */
  function Start(): Broker { Broker(map[0 := MAX], [Copy(0, 0, InQueue(ChannelQueue(MAX)))]) }

  lemma StartIsReachable(prefetch: nat, maxRetries: int)
    ensures Reachable(prefetch, maxRetries, Start(), 0, 0)
  {
    hide ChannelQueue;
    var t := Trace([IDLE], [], prefetch, maxRetries);
    assert EndsIn(t, prefetch, maxRetries, IDLE, 0, 0);
    Follow(prefetch, maxRetries, IDLE, Publish(0, MAX), 0, 0);
    assert Step(IDLE, Publish(0, MAX), maxRetries) == Start();
  }

  /** The same broker with copy i at another place. */
  function At(b: Broker, i: nat, p: Place): Broker
    requires i < |b.copies|
  {
    b.(copies := b.copies[i := b.copies[i].(place := p)])
  }

  /** Copy i waits in its queue with retries left or not, and consumer w can take one more delivery. */
  ghost predicate Ready(b: Broker, i: nat, w: nat, prefetch: nat, maxRetries: int) {
    && i < |b.copies| && b.copies[i].msg == 0 && b.copies[i].place == InQueue(ChannelQueue(MAX))
    && b.copies[i].attempt <= maxRetries && Sum(b.copies, HeldBy(w)) < prefetch
  }

  /** Consumer w takes copy i and its processing fails transiently. */
  lemma Attempt(prefetch: nat, maxRetries: int, b: Broker, i: nat, w: nat, faults: nat, invocations: nat)
    requires Reachable(prefetch, maxRetries, b, faults, invocations) && Ready(b, i, w, prefetch, maxRetries)
    ensures Reachable(prefetch, maxRetries, At(b, i, Unsettled(w, ChannelQueue(MAX), Failed(true))),
                      faults, invocations + 1)
  {
    EveryChannelIsManaged(MAX);
    var q := ChannelQueue(MAX);
    hide ChannelQueue, IsRetryManagedQueue, Sum, Reachable;
    Follow(prefetch, maxRetries, b, Deliver(i, w), faults, invocations);
    var b1 := At(b, i, Unsettled(w, q, Retry.Delivered));
    assert Step(b, Deliver(i, w), maxRetries) == b1;
    Follow(prefetch, maxRetries, b1, Process(i, TransientFailure), faults, invocations);
    assert Step(b1, Process(i, TransientFailure), maxRetries) == At(b, i, Unsettled(w, q, Failed(true)));
  }

  /** The same, and the retry is published and comes back to the queue while the delivery awaits its ack. */
  ghost function Republish(b: Broker, i: nat, w: nat): Broker
    requires i < |b.copies|
  {
    var q := ChannelQueue(MAX);
    Broker(b.channels, At(b, i, Unsettled(w, q, Republished)).copies + [Copy(0, b.copies[i].attempt + 1, InQueue(q))])
  }

  /** The retry of a failed delivery is published. */
  lemma PublishRetry(prefetch: nat, maxRetries: int, b: Broker, i: nat, w: nat, faults: nat, invocations: nat)
    requires Reachable(prefetch, maxRetries, b, faults, invocations)
    requires i < |b.copies| && b.copies[i].msg == 0 && b.copies[i].attempt < maxRetries
    requires b.copies[i].place == Unsettled(w, ChannelQueue(MAX), Failed(true))
    ensures var q := ChannelQueue(MAX);
            var d := Copy(0, b.copies[i].attempt + 1, Delayed(q));
            Reachable(prefetch, maxRetries, Broker(b.channels, At(b, i, Unsettled(w, q, Republished)).copies + [d]),
                      faults, invocations)
  {
    EveryChannelIsManaged(MAX);
    var q := ChannelQueue(MAX);
    hide ChannelQueue, IsRetryManagedQueue, Sum, Reachable;
    Follow(prefetch, maxRetries, b, Settle(i, Ok), faults, invocations);
    assert CanScheduleRetry(b.copies[i], maxRetries);
    assert Step(b, Settle(i, Ok), maxRetries).copies
        == At(b, i, Unsettled(w, q, Republished)).copies + [Copy(0, b.copies[i].attempt + 1, Delayed(q))];
  }

  /** A delayed copy is back in its queue. */
  lemma ComeBack(prefetch: nat, maxRetries: int, b: Broker, i: nat, faults: nat, invocations: nat)
    requires Reachable(prefetch, maxRetries, b, faults, invocations)
    requires i < |b.copies| && b.copies[i].place == Delayed(ChannelQueue(MAX))
    ensures Reachable(prefetch, maxRetries, At(b, i, InQueue(ChannelQueue(MAX))), faults, invocations)
  {
    RoutesStayInChannel(MAX);
    hide ChannelQueue, ChannelDlq, DeadLetterArguments, Destination, IsRetryManagedQueue, Sum, Reachable;
    Follow(prefetch, maxRetries, b, Expire(i), faults, invocations);
    var after := Step(b, Expire(i), maxRetries);
    assert after.copies == At(b, i, Routed(RETRY_EXCHANGE, ChannelQueue(MAX))).copies;
    assert after == At(b, i, InQueue(ChannelQueue(MAX)));
  }

  lemma AttemptAndRepublish(prefetch: nat, maxRetries: int, b: Broker, i: nat, w: nat, faults: nat, invocations: nat)
    requires Reachable(prefetch, maxRetries, b, faults, invocations) && Ready(b, i, w, prefetch, maxRetries)
    requires b.copies[i].attempt < maxRetries
    ensures Reachable(prefetch, maxRetries, Republish(b, i, w), faults, invocations + 1)
  {
    hide ChannelQueue, Reachable, Sum;
    var q := ChannelQueue(MAX);
    Attempt(prefetch, maxRetries, b, i, w, faults, invocations);
    var b1 := At(b, i, Unsettled(w, q, Failed(true)));
    PublishRetry(prefetch, maxRetries, b1, i, w, faults, invocations + 1);
    var d := Copy(0, b.copies[i].attempt + 1, Delayed(q));
    var b2 := Broker(b.channels, At(b1, i, Unsettled(w, q, Republished)).copies + [d]);
    ComeBack(prefetch, maxRetries, b2, |b.copies|, faults, invocations + 1);
    assert At(b2, |b.copies|, InQueue(q)).copies == Republish(b, i, w).copies;
  }

  // ----- Copies -----

  /** Attempts 0 to k - 1 await the acks of their published retries, each at a consumer of its own; attempt k
      is in the queue. */
  ghost function Piled(k: nat): Broker {
    Broker(map[0 := MAX], PiledCopies(k) + [Copy(0, k, InQueue(ChannelQueue(MAX)))])
  }

  function PiledCopies(k: nat): (copies: seq<Copy>)
    ensures |copies| == k
  {
    if k == 0 then [] else PiledCopies(k - 1) + [Copy(0, k - 1, Unsettled(k - 1, ChannelQueue(MAX), Republished))]
  }

  lemma {:induction false} PiledSums(k: nat, w: nat)
    ensures Sum(PiledCopies(k), Held(0)) == k && Sum(PiledCopies(k), AwaitingAck(0)) == k
    ensures w >= k ==> Sum(PiledCopies(k), HeldBy(w)) == 0
  {
    hide ChannelQueue;
    if k == 0 {
    } else {
      PiledSums(k - 1, w);
      var c := Copy(0, k - 1, Unsettled(k - 1, ChannelQueue(MAX), Republished));
      SumAppend(PiledCopies(k - 1), c, Held(0));
      SumAppend(PiledCopies(k - 1), c, AwaitingAck(0));
      SumAppend(PiledCopies(k - 1), c, HeldBy(w));
    }
  }

  lemma PileOneMore(k: nat)
    ensures Republish(Piled(k), k, k) == Piled(k + 1)
    ensures Sum(Piled(k).copies, HeldBy(k)) == 0
  {
    var last := Copy(0, k, InQueue(ChannelQueue(MAX)));
    PiledSums(k, k);
    SumAppend(PiledCopies(k), last, HeldBy(k));
    hide ChannelQueue, Sum;
    var place := Unsettled(k, ChannelQueue(MAX), Republished);
    assert (PiledCopies(k) + [last])[k := last.(place := place)] == PiledCopies(k) + [Copy(0, k, place)];
  }

  lemma {:induction false} PiledIsReachable(prefetch: nat, maxRetries: int, k: nat)
    requires prefetch >= 1 && k <= maxRetries
    ensures Reachable(prefetch, maxRetries, Piled(k), 0, k)
  {
    hide ChannelQueue, Reachable, Republish, Sum;
    if k == 0 {
      StartIsReachable(prefetch, maxRetries);
      assert Piled(0) == Start();
    } else {
      PiledIsReachable(prefetch, maxRetries, k - 1);
      PileOneMore(k - 1);
      AttemptAndRepublish(prefetch, maxRetries, Piled(k - 1), k - 1, k - 1, 0, k - 1);
    }
  }

  /** The limit on copies is reached: for every policy there is a run without faults with MaxRetries + 1
      copies of one message, all but one of them waiting for the ack of a published retry. */
  lemma CopiesReachBudget(prefetch: nat, maxRetries: nat)
    requires prefetch >= 1
    ensures exists t: Trace, n: nat ::
              && t.Valid() && t.prefetch == prefetch && t.maxRetries == maxRetries && n < |t.states|
              && Faults(t, 0, n) == 0
              && Sum(t.states[n].copies, Held(0)) == maxRetries + 1
              && Sum(t.states[n].copies, AwaitingAck(0)) == maxRetries
  {
    hide ChannelQueue, CountEvents;
    PiledIsReachable(prefetch, maxRetries, maxRetries);
    PiledSums(maxRetries, maxRetries);
    var last := Copy(0, maxRetries, InQueue(ChannelQueue(MAX)));
    SumAppend(PiledCopies(maxRetries), last, Held(0));
    SumAppend(PiledCopies(maxRetries), last, AwaitingAck(0));
    var t: Trace :| EndsIn(t, prefetch, maxRetries, Piled(maxRetries), 0, maxRetries);
    assert t.states[|t.events|].copies == PiledCopies(maxRetries) + [last];
  }

  // ----- Invocations -----

  /** The copies other than i are as before, and consumer w holds as many deliveries as before. */
  ghost predicate OthersUntouched(b: Broker, after: Broker, i: nat, w: nat) {
    && |b.copies| <= |after.copies| && after.channels == b.channels
    && (forall j :: 0 <= j < |b.copies| && j != i ==> after.copies[j] == b.copies[j])
    && Sum(after.copies, HeldBy(w)) == Sum(b.copies, HeldBy(w))
  }

  /** What w holds does not depend on the place of copy i if w holds it at neither place. */
  lemma HoldsTheSame(b: Broker, i: nat, p: Place, w: nat)
    requires i < |b.copies| && b.copies[i].place.InQueue? && !p.Unsettled?
    ensures Sum(At(b, i, p).copies, HeldBy(w)) == Sum(b.copies, HeldBy(w))
  {
    SumUpdate(b.copies, i, At(b, i, p).copies[i], HeldBy(w));
  }

  /** The ack of a delivery whose retry is published. */
  lemma Ack(prefetch: nat, maxRetries: int, b: Broker, i: nat, w: nat, faults: nat, invocations: nat)
    requires Reachable(prefetch, maxRetries, b, faults, invocations)
    requires i < |b.copies| && b.copies[i].place == Unsettled(w, ChannelQueue(MAX), Republished)
    ensures Reachable(prefetch, maxRetries, At(b, i, Acked(false)), faults, invocations)
  {
    hide ChannelQueue, IsRetryManagedQueue, Sum, Reachable;
    Follow(prefetch, maxRetries, b, Settle(i, Ok), faults, invocations);
    assert Step(b, Settle(i, Ok), maxRetries).copies == At(b, i, Acked(false)).copies;
  }

  /** The broker after a transient failure whose retry was scheduled and has come back to the queue. */
  ghost function Retried(b: Broker, i: nat): Broker
    requires i < |b.copies|
  {
    Broker(b.channels, At(b, i, Acked(false)).copies + [Copy(0, b.copies[i].attempt + 1, InQueue(ChannelQueue(MAX)))])
  }

  lemma RetryOnce(prefetch: nat, maxRetries: int, b: Broker, i: nat, w: nat, faults: nat, invocations: nat)
    requires Reachable(prefetch, maxRetries, b, faults, invocations) && Ready(b, i, w, prefetch, maxRetries)
    requires b.copies[i].attempt < maxRetries
    ensures Reachable(prefetch, maxRetries, Retried(b, i), faults, invocations + 1)
    ensures Sum(Retried(b, i).copies, HeldBy(w)) == Sum(b.copies, HeldBy(w))
  {
    HoldsTheSame(b, i, Acked(false), w);
    SumAppend(At(b, i, Acked(false)).copies, Copy(0, b.copies[i].attempt + 1, InQueue(ChannelQueue(MAX))), HeldBy(w));
    hide ChannelQueue, Reachable, Sum;
    AttemptAndRepublish(prefetch, maxRetries, b, i, w, faults, invocations);
    Ack(prefetch, maxRetries, Republish(b, i, w), i, w, faults, invocations + 1);
    assert At(Republish(b, i, w), i, Acked(false)).copies == Retried(b, i).copies;
  }

  /** A last attempt is dead-lettered. */
  lemma LastAttempt(prefetch: nat, maxRetries: int, b: Broker, i: nat, w: nat, faults: nat, invocations: nat)
    requires Reachable(prefetch, maxRetries, b, faults, invocations) && Ready(b, i, w, prefetch, maxRetries)
    requires b.copies[i].attempt == maxRetries
    ensures Reachable(prefetch, maxRetries, At(b, i, InQueue(ChannelDlq(MAX))), faults, invocations + 1)
  {
    hide ChannelQueue, ChannelDlq, DeadLetter, IsRetryManagedQueue, Sum, Reachable;
    Attempt(prefetch, maxRetries, b, i, w, faults, invocations);
    DeadLetterIsQueued(MAX);
    var b1 := At(b, i, Unsettled(w, ChannelQueue(MAX), Failed(true)));
    Follow(prefetch, maxRetries, b1, Settle(i, Ok), faults, invocations + 1);
    assert Step(b1, Settle(i, Ok), maxRetries).copies == At(b, i, InQueue(ChannelDlq(MAX))).copies;
  }

  /** Without further faults a copy at attempt a can be processed maxRetries + 1 - a times. */
  lemma {:induction false} UseUp(prefetch: nat, maxRetries: int, b: Broker, i: nat, w: nat, faults: nat,
                                 invocations: nat) returns (after: Broker)
    requires Reachable(prefetch, maxRetries, b, faults, invocations) && Ready(b, i, w, prefetch, maxRetries)
    ensures Reachable(prefetch, maxRetries, after, faults, invocations + maxRetries + 1 - b.copies[i].attempt)
    ensures OthersUntouched(b, after, i, w)
    decreases maxRetries - b.copies[i].attempt
  {
    hide ChannelQueue, ChannelDlq, Reachable, Sum;
    if b.copies[i].attempt == maxRetries {
      after := At(b, i, InQueue(ChannelDlq(MAX)));
      LastAttempt(prefetch, maxRetries, b, i, w, faults, invocations);
      HoldsTheSame(b, i, InQueue(ChannelDlq(MAX)), w);
    } else {
      RetryOnce(prefetch, maxRetries, b, i, w, faults, invocations);
      after := UseUp(prefetch, maxRetries, Retried(b, i), |b.copies|, w, faults, invocations + 1);
    }
  }

  /** The fault-free bound is reached: for every policy a message can be processed MaxRetries + 1 times. */
  lemma InvocationsReachBudget(prefetch: nat, maxRetries: nat)
    requires prefetch >= 1
    ensures exists t: Trace, n: nat ::
              && t.Valid() && t.prefetch == prefetch && t.maxRetries == maxRetries && n < |t.states|
              && Faults(t, 0, n) == 0 && Invocations(t, 0, n) == maxRetries + 1
  {
    hide ChannelQueue, CountEvents;
    StartIsReachable(prefetch, maxRetries);
    SumAppend([], Start().copies[0], HeldBy(0));
    assert Start().copies == [] + Start().copies;
    var after := UseUp(prefetch, maxRetries, Start(), 0, 0, 0, 0);
    var t: Trace :| EndsIn(t, prefetch, maxRetries, after, 0, maxRetries + 1);
    assert |t.events| < |t.states|;
  }

  // ----- The plain bound -----

  /** A consumer holds a delivery awaiting the ack of its published retry, and the retry itself, when it
      crashes: both are processed again on every attempt they have left. A consumer that runs one handler at a
      time can be in this state only while the first ack is still on its way to the broker. */
  lemma CrashWithTwoDeliveries(prefetch: nat, maxRetries: nat) returns (after: Broker)
    requires prefetch >= 2 && maxRetries >= 1
    ensures Reachable(prefetch, maxRetries, after, 1, 2 * (maxRetries + 1) + 1)
  {
    var q := ChannelQueue(MAX);
    hide ChannelQueue, Reachable;
    PiledIsReachable(prefetch, maxRetries, 1);
    var first, second := Copy(0, 0, Unsettled(0, q, Republished)), Copy(0, 1, InQueue(q));
    assert Piled(1).copies == [first, second] by {
      assert PiledCopies(1) == PiledCopies(0) + [first];
    }
    TwoCopies(first, second, HeldBy(0));
    assert Ready(Piled(1), 1, 0, prefetch, maxRetries);
    Attempt(prefetch, maxRetries, Piled(1), 1, 0, 0, 1);
    var failed := Copy(0, 1, Unsettled(0, q, Failed(true)));
    var b := At(Piled(1), 1, failed.place);
    assert b.copies == [first, failed];
    TwoCopies(first, failed, HeldOf(0, 0));
    Follow(prefetch, maxRetries, b, Crash(0), 0, 2);
    var crashed := Step(b, Crash(0), maxRetries);
    assert crashed.copies == [Copy(0, 0, InQueue(q)), second];
    TwoCopies(crashed.copies[0], second, HeldBy(0));
    assert Ready(crashed, 1, 0, prefetch, maxRetries);
    var b1 := UseUp(prefetch, maxRetries, crashed, 1, 0, 1, 2);
    assert Ready(b1, 0, 0, prefetch, maxRetries);
    after := UseUp(prefetch, maxRetries, b1, 0, 0, 1, maxRetries + 2);
  }

  lemma TwoCopies(c: Copy, d: Copy, f: Copy -> nat)
    ensures Sum([c, d], f) == f(c) + f(d)
  {
    SumAppend([], c, f);
    SumAppend([c], d, f);
    assert [c] == [] + [c] && [c, d] == [c] + [d];
  }

  ghost predicate PlainBoundHolds(prefetch: nat, maxRetries: int) {
    forall t: Trace, m: nat, n: nat ::
      t.Valid() && t.prefetch == prefetch && t.maxRetries == maxRetries && n < |t.states|
      ==> Invocations(t, m, n) <= Budget(maxRetries) * (Faults(t, m, n) + 1)
  }

  /** Counting a crash once, (MaxRetries + 1) * (faults + 1) bounds the invocations in every run exactly for
      policies without retries and at prefetch 1 or less. */
  lemma PlainBoundIff(prefetch: nat, maxRetries: int)
    ensures PlainBoundHolds(prefetch, maxRetries) <==> maxRetries <= 0 || prefetch <= 1
  {
    if maxRetries <= 0 || prefetch <= 1 {
      forall t: Trace, m: nat, n: nat
        | t.Valid() && t.prefetch == prefetch && t.maxRetries == maxRetries && n < |t.states|
        ensures Invocations(t, m, n) <= Budget(maxRetries) * (Faults(t, m, n) + 1)
      {
        PlainBound(t, m, n);
      }
    } else {
      var after := CrashWithTwoDeliveries(prefetch, maxRetries);
      hide CountEvents;
      var t: Trace :| EndsIn(t, prefetch, maxRetries, after, 1, 2 * (maxRetries + 1) + 1);
      var n := |t.events|;
      assert t.Valid() && n < |t.states| && Invocations(t, 0, n) > Budget(maxRetries) * (Faults(t, 0, n) + 1);
    }
  }
}
