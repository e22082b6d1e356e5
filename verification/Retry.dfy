/** The life of a message between publish and its last settlement: deliveries, the handler's channel
    operations, delayed copies and dead letters. Every channel operation may fail, with or without having
    taken effect, and a consumer may crash at any point with everything it holds. */
module Retry {
  import opened Options
  import opened Counting
  import opened RateLimitKeys
  import opened Topology

  /** How far the handler of one delivery has come. Failed remembers whether the exception is a
      `TransientProviderException`; Recovering is the inner catch block; Abandoned is a handler that ended
      without settling. */
  datatype Stage =
    | Delivered | Succeeded | NothingDecoded | Failed(transient: bool) | Republished | Recovering | Abandoned

  datatype Place =
    | InQueue(name: string)
    | Unsettled(holder: nat, from: string, stage: Stage)
    | Delayed(key: string)
    | Acked(processed: bool)
    | Vanished

  /** An unsettled copy is held by one consumer of the queue it was taken from. */
  datatype Copy = Copy(msg: nat, attempt: int, place: Place)

  datatype Broker = Broker(channels: map<nat, ChannelType>, copies: seq<Copy>)

  const IDLE := Broker(map[], [])

  /** A channel operation succeeds, fails without effect, or takes effect but reports a failure. */
  datatype Fate = Ok | NoEffect | EffectUnreported

  /** How decoding and `ProcessMessageAsync` end. A body that is no JSON throws into the catch block; a body that
      decodes to null is rejected outside it. Neither is an invocation. */
  datatype Outcome = Success | TransientFailure | OtherFailure | ParseError | NullMessage

  datatype Event =
    | Publish(msg: nat, channel: ChannelType)
    | Deliver(index: nat, to: nat)
    | Refuse(index: nat, fate: Fate)
    | Process(index: nat, outcome: Outcome)
    | Settle(index: nat, fate: Fate)
    | Expire(index: nat)
    | Crash(consumer: nat)

  // ----- One channel operation -----

  ghost function Routed(exchange: string, key: string): Place {
    match Destination(exchange, key)
    case Some(q) => InQueue(q)
    case None => Vanished
  }

  /** Where a reject without requeue sends a delivery from `queue`. */
  ghost function DeadLetter(queue: string): Place {
    match DeadLetterArguments(queue)
    case Some(args) => Routed(args.0, args.1)
    case None => Vanished
  }

  predicate CanScheduleRetry(c: Copy, maxRetries: int)
    requires c.place.Unsettled?
  {
    c.place.stage == Failed(true) && IsRetryManagedQueue(c.place.from) && c.attempt < maxRetries
  }

  /** The next channel operation of the handler, as the delivery it settles sees it. */
  ghost function AfterSettle(c: Copy, fate: Fate, maxRetries: int): Place
    requires c.place.Unsettled?
  {
    var q := c.place.from;
    match c.place.stage
    case Succeeded => if fate == NoEffect then c.place.(stage := Failed(false)) else Acked(true)
    case NothingDecoded => if fate == NoEffect then c.place.(stage := Failed(false)) else DeadLetter(q)
    case Failed(_) =>
      if CanScheduleRetry(c, maxRetries) then c.place.(stage := if fate == Ok then Republished else Recovering)
      else if fate == NoEffect then c.place.(stage := Recovering) else DeadLetter(q)
    case Republished => if fate == NoEffect then c.place.(stage := Recovering) else Acked(false)
    case Recovering => if fate == NoEffect then c.place.(stage := Abandoned) else InQueue(q)
    case _ => c.place
  }

  /** The delayed copy that the operation publishes, if it does. */
  function Republication(c: Copy, fate: Fate, maxRetries: int): seq<Copy>
    requires c.place.Unsettled?
  {
    if CanScheduleRetry(c, maxRetries) && fate != NoEffect then [Copy(c.msg, c.attempt + 1, Delayed(c.place.from))]
    else []
  }

  function Reached(outcome: Outcome): Stage {
    match outcome
    case Success => Succeeded
    case TransientFailure => Failed(true)
    case OtherFailure => Failed(false)
    case ParseError => Failed(false)
    case NullMessage => NothingDecoded
  }

  /** What a crash of consumer w makes of a copy: a delivery it held goes back to its queue. */
  function Requeued(c: Copy, w: nat): Copy {
    if c.place.Unsettled? && c.place.holder == w then c.(place := InQueue(c.place.from)) else c
  }

  function AfterCrash(copies: seq<Copy>, w: nat): seq<Copy> {
    seq(|copies|, i requires 0 <= i < |copies| => Requeued(copies[i], w))
  }

  // ----- The machine -----

  predicate StillSettling(c: Copy) {
    c.place.Unsettled? && c.place.stage != Delivered && c.place.stage != Abandoned
  }

  /** The deliveries consumer w holds. */
  function HeldBy(w: nat): Copy -> nat {
    (c: Copy) => if c.place.Unsettled? && c.place.holder == w then 1 else 0
  }

  predicate Enabled(b: Broker, e: Event) {
    match e
    case Publish(m, _) => m !in b.channels
    case Deliver(i, _) =>
      i < |b.copies| && b.copies[i].place.InQueue? && IsRetryManagedQueue(b.copies[i].place.name)
    case Refuse(i, _) => i < |b.copies| && b.copies[i].place.Unsettled? && b.copies[i].place.stage == Delivered
    case Process(i, _) => i < |b.copies| && b.copies[i].place.Unsettled? && b.copies[i].place.stage == Delivered
    case Settle(i, _) => i < |b.copies| && StillSettling(b.copies[i])
    case Expire(i) => i < |b.copies| && b.copies[i].place.Delayed?
    case Crash(_) => true
  }

  /** A delivery goes to a consumer that holds fewer than `prefetch`. */
  predicate WithinPrefetch(b: Broker, e: Event, prefetch: nat) {
    e.Deliver? ==> Sum(b.copies, HeldBy(e.to)) < prefetch
  }

  /** Events about one existing copy. */
  predicate MovesOne(e: Event) { !e.Publish? && !e.Crash? }

  /** The new place of the copy that e is about. */
  ghost function Moved(c: Copy, e: Event, maxRetries: int): Place
    requires match e
             case Publish(_, _) => false
             case Crash(_) => false
             case Deliver(_, _) => c.place.InQueue?
             case Expire(_) => c.place.Delayed?
             case _ => c.place.Unsettled?
  {
    match e
    case Deliver(_, w) => Unsettled(w, c.place.name, Delivered)
    case Refuse(_, fate) => if fate == NoEffect then c.place.(stage := Abandoned) else InQueue(c.place.from)
    case Process(_, outcome) => c.place.(stage := Reached(outcome))
    case Settle(_, fate) => AfterSettle(c, fate, maxRetries)
    case Expire(_) => Routed(RETRY_EXCHANGE, c.place.key)
  }

  ghost function Step(b: Broker, e: Event, maxRetries: int): Broker
    requires Enabled(b, e)
  {
    if e.Publish? then
      Broker(b.channels[e.msg := e.channel], b.copies + [Copy(e.msg, 0, InQueue(ChannelQueue(e.channel)))])
    else if e.Crash? then
      Broker(b.channels, AfterCrash(b.copies, e.consumer))
    else
      var c := b.copies[e.index];
      var more := if e.Settle? then Republication(c, e.fate, maxRetries) else [];
      Broker(b.channels, b.copies[e.index := c.(place := Moved(c, e, maxRetries))] + more)
  }

  /** A run from an empty broker under one retry policy and one prefetch count. */
  datatype Trace = Trace(states: seq<Broker>, events: seq<Event>, prefetch: nat, maxRetries: int) {
    ghost predicate Valid() {
      && |states| == |events| + 1
      && states[0] == IDLE
      && (forall i :: 0 <= i < |events| ==> Follows(i))
    }

    ghost predicate Follows(i: nat)
      requires |states| == |events| + 1 && i < |events|
    {
      && Enabled(states[i], events[i]) && WithinPrefetch(states[i], events[i], prefetch)
      && states[i + 1] == Step(states[i], events[i], maxRetries)
    }
  }

  // ----- Copies stay in their channel -----

  predicate PlaceOk(p: Place, c: ChannelType) {
    match p
    case InQueue(q) => q == ChannelQueue(c) || q == ChannelDlq(c)
    case Unsettled(_, q, _) => q == ChannelQueue(c)
    case Delayed(key) => key == ChannelQueue(c)
    case Acked(_) => true
    case Vanished => false
  }

  function Budget(maxRetries: int): nat { if maxRetries < 0 then 1 else maxRetries + 1 }

  predicate CopyOk(b: Broker, c: Copy, maxRetries: int) {
    && c.msg in b.channels
    && PlaceOk(c.place, b.channels[c.msg])
    && 0 <= c.attempt < Budget(maxRetries)
  }

  ghost predicate Inv(b: Broker, maxRetries: int) {
    forall c :: c in b.copies ==> CopyOk(b, c, maxRetries)
  }

  /** One event keeps a copy, and the copy it publishes, in the channel of the message. */
  lemma MovedStaysInChannel(b: Broker, e: Event, maxRetries: int)
    requires Inv(b, maxRetries) && Enabled(b, e) && MovesOne(e)
    ensures var c := b.copies[e.index];
            && CopyOk(b, c, maxRetries)
            && PlaceOk(Moved(c, e, maxRetries), b.channels[c.msg])
            && (e.Settle? ==> forall d :: d in Republication(c, e.fate, maxRetries) ==> CopyOk(b, d, maxRetries))
  {
    hide ChannelQueue, ChannelDlq, IsRetryManagedQueue, DeadLetterArguments, Destination, Sum;
    var c := b.copies[e.index];
    assert CopyOk(b, c, maxRetries);
    RoutesStayInChannel(b.channels[c.msg]);
  }

  lemma StepKeepsInv(b: Broker, e: Event, maxRetries: int)
    requires Inv(b, maxRetries) && Enabled(b, e)
    ensures Inv(Step(b, e, maxRetries), maxRetries)
  {
    hide ChannelQueue, ChannelDlq, IsRetryManagedQueue, Moved, Sum;
    var after := Step(b, e, maxRetries);
    if MovesOne(e) {
      MovedStaysInChannel(b, e, maxRetries);
    }
    forall c | c in after.copies ensures CopyOk(after, c, maxRetries) {
      var k :| 0 <= k < |after.copies| && after.copies[k] == c;
      if k < |b.copies| {
        assert CopyOk(b, b.copies[k], maxRetries);
      }
    }
  }

  lemma {:induction false} AlwaysInv(t: Trace, n: nat)
    requires t.Valid() && n < |t.states|
    ensures Inv(t.states[n], t.maxRetries)
  {
    if n == 0 {
    } else {
      hide Step, Enabled, WithinPrefetch, Inv;
      AlwaysInv(t, n - 1);
      assert t.Follows(n - 1);
      StepKeepsInv(t.states[n - 1], t.events[n - 1], t.maxRetries);
    }
  }

  // ----- What an ack after processing means -----

  /** A copy acknowledged as processed, or one whose handler is about to acknowledge it as such. */
  predicate IsProcessed(c: Copy) {
    c.place == Acked(true) || (c.place.Unsettled? && c.place.stage == Succeeded)
  }

  lemma DeadLetterIsNoDelivery(queue: string)
    ensures DeadLetter(queue).InQueue? || DeadLetter(queue).Vanished?
  {
  }

  lemma StepProcesses(b: Broker, e: Event, maxRetries: int, i: nat)
    requires Enabled(b, e) && i < |Step(b, e, maxRetries).copies| && IsProcessed(Step(b, e, maxRetries).copies[i])
    ensures e == Process(i, Success) || (i < |b.copies| && IsProcessed(b.copies[i]))
  {
    hide ChannelQueue, IsRetryManagedQueue, DeadLetter, Sum;
    if MovesOne(e) {
      if b.copies[e.index].place.Unsettled? {
        DeadLetterIsNoDelivery(b.copies[e.index].place.from);
      }
    }
  }

  /** A copy is acknowledged as processed only after `ProcessMessageAsync` succeeded on that very copy. */
  lemma {:induction false} AckedAsProcessedOnlyAfterSuccess(t: Trace, i: nat, n: nat)
    requires t.Valid() && n < |t.states| && i < |t.states[n].copies| && IsProcessed(t.states[n].copies[i])
    ensures exists j: nat :: j < n && t.events[j] == Process(i, Success)
  {
    if n == 0 {
    } else {
      assert t.Follows(n - 1);
      hide Step, Enabled, WithinPrefetch;
      StepProcesses(t.states[n - 1], t.events[n - 1], t.maxRetries, i);
      if t.events[n - 1] != Process(i, Success) {
        AckedAsProcessedOnlyAfterSuccess(t, i, n - 1);
      }
    }
  }

  // ----- Faults and invocations -----

  /** The deliveries of m that consumer w holds. */
  function HeldOf(w: nat, m: nat): Copy -> nat {
    (c: Copy) => if c.msg == m && c.place.Unsettled? && c.place.holder == w then 1 else 0
  }

  /** Event e concerns message m; a crash does if the consumer holds a delivery of m. */
  predicate About(b: Broker, e: Event, m: nat) {
    match e
    case Publish(n, _) => n == m
    case Crash(w) => Sum(b.copies, HeldOf(w, m)) > 0
    case _ => e.index < |b.copies| && b.copies[e.index].msg == m
  }

  predicate IsFailedOperation(e: Event) { (e.Settle? || e.Refuse?) && e.fate != Ok }

  predicate IsCrash(e: Event) { e.Crash? }

  predicate IsFault(e: Event) { IsCrash(e) || IsFailedOperation(e) }

  predicate IsInvocation(e: Event) { e.Process? && e.outcome != ParseError && e.outcome != NullMessage }

  /** The events about m among the first n that satisfy a predicate. */
  ghost function CountEvents(t: Trace, m: nat, which: Event -> bool, n: nat): nat
    requires n < |t.states| && n <= |t.events|
  {
    if n == 0 then 0
    else
      CountEvents(t, m, which, n - 1)
      + (if About(t.states[n - 1], t.events[n - 1], m) && which(t.events[n - 1]) then 1 else 0)
  }

  /** Channel operations on deliveries of m that reported a failure. */
  ghost function FailedOperations(t: Trace, m: nat, n: nat): nat
    requires n < |t.states| && n <= |t.events|
  {
    CountEvents(t, m, IsFailedOperation, n)
  }

  /** Crashes of consumers that held a delivery of m. */
  ghost function Crashes(t: Trace, m: nat, n: nat): nat
    requires n < |t.states| && n <= |t.events|
  {
    CountEvents(t, m, IsCrash, n)
  }

  ghost function Faults(t: Trace, m: nat, n: nat): nat
    requires n < |t.states| && n <= |t.events|
  {
    FailedOperations(t, m, n) + Crashes(t, m, n)
  }

  /** The calls of `ProcessMessageAsync` that descend from the publish of m. */
  ghost function Invocations(t: Trace, m: nat, n: nat): nat
    requires n < |t.states| && n <= |t.events|
  {
    CountEvents(t, m, IsInvocation, n)
  }

  /** What an event does to a sum over the copies. */
  lemma SumStep(b: Broker, e: Event, maxRetries: int, f: Copy -> nat)
    requires Enabled(b, e) && MovesOne(e)
    ensures var c := b.copies[e.index];
            Sum(Step(b, e, maxRetries).copies, f) + f(c)
            == Sum(b.copies, f) + f(c.(place := Moved(c, e, maxRetries)))
               + (if e.Settle? then Sum(Republication(c, e.fate, maxRetries), f) else 0)
  {
    hide Moved, CanScheduleRetry, IsRetryManagedQueue;
    var c := b.copies[e.index];
    var moved := b.copies[e.index := c.(place := Moved(c, e, maxRetries))];
    SumUpdate(b.copies, e.index, c.(place := Moved(c, e, maxRetries)), f);
    if e.Settle? && Republication(c, e.fate, maxRetries) != [] {
      var d := Copy(c.msg, c.attempt + 1, Delayed(c.place.from));
      SumAppend(moved, d, f);
      assert [d] == [] + [d];
      SumAppend([], d, f);
    } else {
      assert moved + [] == moved;
    }
  }

  lemma RepublicationSum(c: Copy, fate: Fate, maxRetries: int, f: Copy -> nat)
    requires c.place.Unsettled?
    ensures Sum(Republication(c, fate, maxRetries), f)
         == if Republication(c, fate, maxRetries) == [] then 0
            else f(Copy(c.msg, c.attempt + 1, Delayed(c.place.from)))
  {
    hide CanScheduleRetry;
    var d := Copy(c.msg, c.attempt + 1, Delayed(c.place.from));
    assert [d] == [] + [d];
    SumAppend([], d, f);
  }

  /** What a crash of consumer w adds to a sum over the copies is paid for by the deliveries it held. */
  lemma SumCrash(copies: seq<Copy>, w: nat, f: Copy -> nat, held: Copy -> nat, k: nat)
    requires forall c :: c in copies ==> f(Requeued(c, w)) <= f(c) + k * held(c)
    ensures Sum(AfterCrash(copies, w), f) <= Sum(copies, f) + k * Sum(copies, held)
  {
    forall i | 0 <= i < |copies| ensures f(AfterCrash(copies, w)[i]) <= f(copies[i]) + k * held(copies[i]) {
      assert copies[i] in copies;
    }
    SumPointwise(copies, AfterCrash(copies, w), f, held, k);
  }

  /** A crash that changes no value of f on these copies changes no sum. */
  lemma SumUnchangedByCrash(copies: seq<Copy>, w: nat, f: Copy -> nat)
    requires forall c :: c in copies ==> f(Requeued(c, w)) == f(c)
    ensures Sum(AfterCrash(copies, w), f) == Sum(copies, f)
  {
    var after := AfterCrash(copies, w);
    forall i | 0 <= i < |copies| ensures f(after[i]) == f(copies[i]) {
      assert copies[i] in copies;
    }
    SumPointwise(copies, after, f, f, 0);
    SumPointwise(after, copies, f, f, 0);
  }

  lemma NoCopiesBeforePublish(b: Broker, maxRetries: int, m: nat, f: Copy -> nat)
    requires Inv(b, maxRetries) && m !in b.channels && (forall c: Copy :: f(c) > 0 ==> c.msg == m)
    ensures Sum(b.copies, f) == 0
  {
    SumPositive(b.copies, f);
    forall i | 0 <= i < |b.copies| ensures f(b.copies[i]) == 0 {
      assert CopyOk(b, b.copies[i], maxRetries);
    }
  }

  // ----- Prefetch -----

  /** Only a delivery to w adds to what w holds. */
  lemma StepKeepsHeld(b: Broker, e: Event, maxRetries: int, w: nat)
    requires Enabled(b, e)
    ensures Sum(Step(b, e, maxRetries).copies, HeldBy(w))
         <= Sum(b.copies, HeldBy(w)) + (if e.Deliver? && e.to == w then 1 else 0)
  {
    hide Destination, DeadLetterArguments, IsRetryManagedQueue, CanScheduleRetry, ChannelQueue, Sum;
    if e.Publish? {
      SumAppend(b.copies, Copy(e.msg, 0, InQueue(ChannelQueue(e.channel))), HeldBy(w));
    } else if e.Crash? {
      SumCrash(b.copies, e.consumer, HeldBy(w), HeldBy(w), 0);
    } else {
      SumStep(b, e, maxRetries, HeldBy(w));
      if e.Settle? {
        RepublicationSum(b.copies[e.index], e.fate, maxRetries, HeldBy(w));
      }
    }
  }

  /** No consumer ever holds more deliveries than its prefetch count. */
  lemma {:induction false} PrefetchIsKept(t: Trace, w: nat, n: nat)
    requires t.Valid() && n < |t.states|
    ensures Sum(t.states[n].copies, HeldBy(w)) <= t.prefetch
  {
    hide Step, Enabled, ChannelQueue;
    if n == 0 {
    } else {
      hide Sum;
      PrefetchIsKept(t, w, n - 1);
      assert t.Follows(n - 1);
      StepKeepsHeld(t.states[n - 1], t.events[n - 1], t.maxRetries, w);
    }
  }

  // ----- Conservation -----

  /** The copies that still stand for m. A delivery whose retry is already published only waits for its ack. */
  function Owner(m: nat): Copy -> nat {
    (c: Copy) => if c.msg == m && (c.place.InQueue? || c.place.Delayed?
                                   || (c.place.Unsettled? && c.place.stage != Republished)) then 1 else 0
  }

  /** The deliveries of m whose retry is published and whose ack is still to come. */
  function AwaitingAck(m: nat): Copy -> nat {
    (c: Copy) => if c.msg == m && c.place.Unsettled? && c.place.stage == Republished then 1 else 0
  }

  /** All copies of m in a queue, at the retry exchange or at a consumer. */
  function Held(m: nat): Copy -> nat {
    (c: Copy) => if c.msg == m && (c.place.InQueue? || c.place.Delayed? || c.place.Unsettled?) then 1 else 0
  }

  /** A copy acknowledged after successful processing. */
  function Completed(m: nat): Copy -> nat {
    (c: Copy) => if c.msg == m && c.place == Acked(true) then 1 else 0
  }

  ghost function Present(b: Broker, m: nat): nat { Sum(b.copies, Owner(m)) + Sum(b.copies, Completed(m)) }

  lemma DeadLetterIsQueued(channel: ChannelType)
    ensures DeadLetter(ChannelQueue(channel)) == InQueue(ChannelDlq(channel))
  {
    RoutesStayInChannel(channel);
    hide ChannelQueue, ChannelDlq, DeadLetterArguments, Destination;
  }

  /** A crash of a consumer that holds no delivery of m. */
  lemma UnrelatedCrashKeepsSum(copies: seq<Copy>, w: nat, m: nat, f: Copy -> nat)
    requires Sum(copies, HeldOf(w, m)) == 0 && (forall c: Copy :: f(c) > 0 ==> c.msg == m)
    ensures Sum(AfterCrash(copies, w), f) == Sum(copies, f)
  {
    SumPositive(copies, HeldOf(w, m));
    hide Sum;
    forall c | c in copies ensures f(Requeued(c, w)) == f(c) {
      var i :| 0 <= i < |copies| && copies[i] == c;
      assert HeldOf(w, m)(copies[i]) == 0;
    }
    SumUnchangedByCrash(copies, w, f);
  }

  lemma CrashKeepsPresent(copies: seq<Copy>, w: nat, m: nat)
    ensures Sum(AfterCrash(copies, w), Owner(m)) >= Sum(copies, Owner(m))
    ensures Sum(AfterCrash(copies, w), Completed(m)) == Sum(copies, Completed(m))
    ensures Sum(copies, HeldOf(w, m)) == 0 ==> Sum(AfterCrash(copies, w), Owner(m)) == Sum(copies, Owner(m))
  {
    hide Sum;
    SumUnchangedByCrash(copies, w, Completed(m));
    SumPointwise(AfterCrash(copies, w), copies, Owner(m), Owner(m), 0);
    if Sum(copies, HeldOf(w, m)) == 0 {
      UnrelatedCrashKeepsSum(copies, w, m, Owner(m));
    }
  }

  lemma SettleKeepsPresent(c: Copy, fate: Fate, maxRetries: int, channel: ChannelType, m: nat)
    requires StillSettling(c) && c.place.from == ChannelQueue(channel)
    ensures var f := (d: Copy) => Owner(m)(d) + Completed(m)(d);
            var after := c.(place := AfterSettle(c, fate, maxRetries));
            var more := Republication(c, fate, maxRetries);
            && Sum(more, Owner(m)) + Sum(more, Completed(m)) == (if more != [] && c.msg == m then 1 else 0)
            && f(after) + (if more != [] && c.msg == m then 1 else 0) >= f(c)
            && (fate == Ok ==> f(after) + (if more != [] && c.msg == m then 1 else 0) == f(c))
  {
    RepublicationSum(c, fate, maxRetries, Owner(m));
    RepublicationSum(c, fate, maxRetries, Completed(m));
    DeadLetterIsQueued(channel);
    hide ChannelQueue, IsRetryManagedQueue, DeadLetter, Sum;
    if !c.place.stage.Failed? {
      hide CanScheduleRetry;
    }
  }

  /** No event loses the last copy of m, and without a fault on m no event adds one. */
  lemma StepKeepsPresent(b: Broker, e: Event, maxRetries: int, m: nat)
    requires Inv(b, maxRetries) && Enabled(b, e)
    ensures var added := if e.Publish? && e.msg == m then 1 else 0;
            && Present(Step(b, e, maxRetries), m) >= Present(b, m) + added
            && (!About(b, e, m) || !IsFault(e) ==>
                  Present(Step(b, e, maxRetries), m) == Present(b, m) + added)
  {
    if e.Publish? {
      var c := Copy(e.msg, 0, InQueue(ChannelQueue(e.channel)));
      SumAppend(b.copies, c, Owner(m));
      SumAppend(b.copies, c, Completed(m));
    } else if e.Crash? {
      CrashKeepsPresent(b.copies, e.consumer, m);
    } else {
      SumStep(b, e, maxRetries, Owner(m));
      SumStep(b, e, maxRetries, Completed(m));
      MovedStaysInChannel(b, e, maxRetries);
      var c := b.copies[e.index];
      if e.Settle? {
        SettleKeepsPresent(c, e.fate, maxRetries, b.channels[c.msg], m);
      }
      if e.Expire? {
        RoutesStayInChannel(b.channels[c.msg]);
      }
    }
  }

  lemma {:induction false} PresentFromPublishOn(t: Trace, m: nat, n: nat)
    requires t.Valid() && n < |t.states|
    ensures m in t.states[n].channels ==> Present(t.states[n], m) >= 1
    ensures m in t.states[n].channels && Faults(t, m, n) == 0 ==> Present(t.states[n], m) == 1
  {
    if n == 0 {
    } else {
      PresentFromPublishOn(t, m, n - 1);
      AlwaysInv(t, n - 1);
      assert t.Follows(n - 1);
      var b, e := t.states[n - 1], t.events[n - 1];
      hide Moved, Republication, Owner, Completed, Inv;
      StepKeepsPresent(b, e, t.maxRetries, m);
      if m !in b.channels {
        NoOwnersBeforePublish(b, t.maxRetries, m);
      }
    }
  }

  lemma NoOwnersBeforePublish(b: Broker, maxRetries: int, m: nat)
    requires Inv(b, maxRetries) && m !in b.channels
    ensures Present(b, m) == 0
  {
    NoCopiesBeforePublish(b, maxRetries, m, Owner(m));
    NoCopiesBeforePublish(b, maxRetries, m, Completed(m));
  }

  /** Copy i of m is at a place of m's own channel: its queue, a consumer of it, the retry exchange, or its
      dead-letter queue. */
  predicate HeldInChannel(b: Broker, m: nat, i: nat) {
    && i < |b.copies| && b.copies[i].msg == m && m in b.channels
    && var q, p := ChannelQueue(b.channels[m]), b.copies[i].place;
       (p == InQueue(q) || p == InQueue(ChannelDlq(b.channels[m])) || (p.Unsettled? && p.from == q) || p == Delayed(q))
  }

  /** Copy i of m was processed successfully by event j and then acknowledged. */
  predicate ProcessedBy(t: Trace, m: nat, n: nat, i: nat, j: nat)
    requires |t.states| == |t.events| + 1 && n < |t.states|
  {
    && i < |t.states[n].copies| && t.states[n].copies[i].msg == m && t.states[n].copies[i].place == Acked(true)
    && j < n && t.events[j] == Process(i, Success)
  }

  /** Message conservation: in every state of every run, whatever fails, some copy of a published message was
      processed successfully and then acknowledged, or some copy of it is held in its own channel. */
  lemma MessagesAreConserved(t: Trace, m: nat, n: nat)
    requires t.Valid() && n < |t.states| && m in t.states[n].channels
    ensures (exists i: nat, j: nat :: ProcessedBy(t, m, n, i, j))
            || (exists i: nat :: HeldInChannel(t.states[n], m, i))
  {
    var b := t.states[n];
    PresentFromPublishOn(t, m, n);
    AlwaysInv(t, n);
    SumPositive(b.copies, Owner(m));
    SumPositive(b.copies, Completed(m));
    if Sum(b.copies, Owner(m)) > 0 {
      var i :| 0 <= i < |b.copies| && Owner(m)(b.copies[i]) > 0;
      assert CopyOk(b, b.copies[i], t.maxRetries);
      assert HeldInChannel(b, m, i);
    } else {
      var i :| 0 <= i < |b.copies| && Completed(m)(b.copies[i]) > 0;
      AckedAsProcessedOnlyAfterSuccess(t, i, n);
      var j: nat :| j < n && t.events[j] == Process(i, Success);
      assert ProcessedBy(t, m, n, i, j);
    }
  }

  /** Without faults on m the copies of m and its completions are one plus the deliveries of m whose retry is
      published and not yet acked. So there is exactly one, if and only if no delivery awaits that ack. */
  lemma CopiesWithoutFaults(t: Trace, m: nat, n: nat)
    requires t.Valid() && n < |t.states| && m in t.states[n].channels && Faults(t, m, n) == 0
    ensures var copies := t.states[n].copies;
            && Sum(copies, Held(m)) + Sum(copies, Completed(m)) == 1 + Sum(copies, AwaitingAck(m))
            && (Sum(copies, Held(m)) + Sum(copies, Completed(m)) == 1
                <==> forall i :: 0 <= i < |copies| ==> AwaitingAck(m)(copies[i]) == 0)
  {
    PresentFromPublishOn(t, m, n);
    SumSplits(t.states[n].copies, Held(m), Owner(m), AwaitingAck(m));
    SumPositive(t.states[n].copies, AwaitingAck(m));
  }

  // ----- How many copies there can be -----

  /** The copies that a copy can ever stand for without faults: itself now, or one for every attempt left. */
  function Weight(m: nat, maxRetries: int): Copy -> nat {
    (c: Copy) =>
      if c.msg != m then 0
      else match c.place
        case Acked(processed) => if processed then 1 else 0
        case Vanished => 0
        case Unsettled(_, _, Republished) => 1
        case _ => if c.attempt < Budget(maxRetries) then Budget(maxRetries) - c.attempt else 0
  }

  lemma SettleKeepsWeight(c: Copy, maxRetries: int, channel: ChannelType)
    requires StillSettling(c) && c.place.from == ChannelQueue(channel) && 0 <= c.attempt < Budget(maxRetries)
    ensures var f := Weight(c.msg, maxRetries);
            f(c.(place := AfterSettle(c, Ok, maxRetries))) + Sum(Republication(c, Ok, maxRetries), f) <= f(c)
  {
    DeadLetterIsQueued(channel);
    RepublicationSum(c, Ok, maxRetries, Weight(c.msg, maxRetries));
    hide ChannelQueue, ChannelDlq, IsRetryManagedQueue, DeadLetter, Sum;
    if !c.place.stage.Failed? {
      hide CanScheduleRetry;
    }
  }

  lemma StepKeepsWeight(b: Broker, e: Event, maxRetries: int, m: nat)
    requires Inv(b, maxRetries) && Enabled(b, e) && !e.Publish? && (About(b, e, m) ==> !IsFault(e))
    ensures Sum(Step(b, e, maxRetries).copies, Weight(m, maxRetries)) <= Sum(b.copies, Weight(m, maxRetries))
  {
    var f := Weight(m, maxRetries);
    if e.Crash? {
      UnrelatedCrashKeepsSum(b.copies, e.consumer, m, f);
    } else {
      var c := b.copies[e.index];
      SumStep(b, e, maxRetries, f);
      assert CopyOk(b, c, maxRetries);
      RoutesStayInChannel(b.channels[c.msg]);
      hide ChannelQueue, ChannelDlq, IsRetryManagedQueue, DeadLetterArguments, Destination, Sum, AfterSettle;
      if e.Settle? {
        RepublicationSum(c, e.fate, maxRetries, f);
        if c.msg == m {
          SettleKeepsWeight(c, maxRetries, b.channels[m]);
        }
      }
    }
  }

  lemma StepKeepsChannels(b: Broker, e: Event, maxRetries: int, m: nat)
    requires Inv(b, maxRetries) && Enabled(b, e)
    ensures m in Step(b, e, maxRetries).channels <==> m in b.channels || (e.Publish? && e.msg == m)
    ensures m !in b.channels && !e.Publish? ==> !About(b, e, m)
  {
    if e.Crash? {
      if m !in b.channels {
        NoCopiesBeforePublish(b, maxRetries, m, HeldOf(e.consumer, m));
      }
    } else if !e.Publish? {
      assert CopyOk(b, b.copies[e.index], maxRetries);
    }
  }

  lemma PublishSum(b: Broker, e: Event, maxRetries: int, m: nat, f: Copy -> nat)
    requires Inv(b, maxRetries) && Enabled(b, e) && e.Publish? && (forall c: Copy :: f(c) > 0 ==> c.msg == m)
    ensures Sum(Step(b, e, maxRetries).copies, f)
         == if e.msg == m then f(Copy(m, 0, InQueue(ChannelQueue(e.channel)))) else Sum(b.copies, f)
  {
    hide ChannelQueue;
    SumAppend(b.copies, Copy(e.msg, 0, InQueue(ChannelQueue(e.channel))), f);
    if e.msg == m {
      NoCopiesBeforePublish(b, maxRetries, m, f);
    }
  }

  lemma {:induction false} WeightWithinBudget(t: Trace, m: nat, n: nat)
    requires t.Valid() && n < |t.states| && Faults(t, m, n) == 0
    ensures m in t.states[n].channels ==> Sum(t.states[n].copies, Weight(m, t.maxRetries)) <= Budget(t.maxRetries)
  {
    if n == 0 {
    } else {
      hide Step, Inv, Sum, Enabled, WithinPrefetch;
      WeightWithinBudget(t, m, n - 1);
      AlwaysInv(t, n - 1);
      assert t.Follows(n - 1);
      var b, e := t.states[n - 1], t.events[n - 1];
      StepKeepsChannels(b, e, t.maxRetries, m);
      if e.Publish? {
        PublishSum(b, e, t.maxRetries, m, Weight(m, t.maxRetries));
      } else {
        StepKeepsWeight(b, e, t.maxRetries, m);
      }
    }
  }

  /** Without faults on m there are never more than MaxRetries + 1 copies and completions of it. */
  lemma CopiesWithinBudget(t: Trace, m: nat, n: nat)
    requires t.Valid() && n < |t.states| && Faults(t, m, n) == 0
    ensures Sum(t.states[n].copies, Held(m)) + Sum(t.states[n].copies, Completed(m)) <= Budget(t.maxRetries)
  {
    var b := t.states[n];
    AlwaysInv(t, n);
    if m in b.channels {
      WeightWithinBudget(t, m, n);
      var both: Copy -> nat :=
        (c: Copy) => if c.msg == m && !c.place.Vanished? && c.place != Acked(false) then 1 else 0;
      forall c | c in b.copies ensures both(c) <= Weight(m, t.maxRetries)(c) {
        assert CopyOk(b, c, t.maxRetries);
      }
      SumAtMost(b.copies, both, Weight(m, t.maxRetries));
      SumSplits(b.copies, both, Held(m), Completed(m));
    } else {
      NoCopiesBeforePublish(b, t.maxRetries, m, Held(m));
      NoCopiesBeforePublish(b, t.maxRetries, m, Completed(m));
    }
  }
}
