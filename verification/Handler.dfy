/** The delivery handler as the source writes it: nested try and catch blocks around channel operations,
    proved to be a run of the retry machine. */
module Handler {
  import opened Options
  import opened Backoff
  import opened RateLimitKeys
  import opened Topology
  import opened Retry

  /** The broker with delivery i at a new place and some more copies. */
  ghost function Put(b: Broker, i: nat, place: Place, more: seq<Copy>): Broker
    requires i < |b.copies|
  {
    Broker(b.channels, b.copies[i := b.copies[i].(place := place)] + more)
  }

  lemma PutAgain(b: Broker, i: nat, p: Place, more: seq<Copy>, q: Place, extra: seq<Copy>)
    requires i < |b.copies|
    ensures Put(Put(b, i, p, more), i, q, extra) == Put(b, i, q, more + extra)
    ensures Put(b, i, b.copies[i].place, []) == b
  {
    var c := b.copies[i];
    assert (b.copies[i := c.(place := p)] + more)[i := c.(place := q)] + extra
        == b.copies[i := c.(place := q)] + (more + extra);
    assert b.copies[i := c.(place := c.place)] + [] == b.copies;
  }

  // ----- What the retry machine does with one delivery -----

  /** The settling events of delivery i until nothing is left to do, with the fates from k on. */
  ghost function SettleAll(b: Broker, i: nat, fates: seq<Fate>, k: nat, maxRetries: int): Broker
    requires k <= |fates|
    decreases |fates| - k
  {
    if k < |fates| && i < |b.copies| && StillSettling(b.copies[i])
    then SettleAll(Step(b, Settle(i, fates[k]), maxRetries), i, fates, k + 1, maxRetries)
    else b
  }

  ghost function HandleDelivery(b: Broker, i: nat, accepted: bool, outcome: Outcome, fates: seq<Fate>,
                                maxRetries: int): Broker
    requires |fates| == 3 && Enabled(b, Process(i, outcome))
  {
    if accepted then SettleAll(Step(b, Process(i, outcome), maxRetries), i, fates, 0, maxRetries)
    else Step(b, Refuse(i, fates[0]), maxRetries)
  }

  /** The same, seen from the delivery alone: where it ends and what it publishes. */
  ghost function Course(c: Copy, fates: seq<Fate>, k: nat, maxRetries: int): (Place, seq<Copy>)
    requires k <= |fates|
    decreases |fates| - k
  {
    if k < |fates| && StillSettling(c) then
      var next := c.(place := AfterSettle(c, fates[k], maxRetries));
      var rest := Course(next, fates, k + 1, maxRetries);
      (rest.0, Republication(c, fates[k], maxRetries) + rest.1)
    else (c.place, [])
  }

  lemma {:induction false} SettleAllIsCourse(b: Broker, i: nat, fates: seq<Fate>, k: nat, maxRetries: int)
    requires k <= |fates| && i < |b.copies|
    ensures var course := Course(b.copies[i], fates, k, maxRetries);
            SettleAll(b, i, fates, k, maxRetries) == Put(b, i, course.0, course.1)
    decreases |fates| - k
  {
    hide AfterSettle, Republication;
    var c := b.copies[i];
    if k < |fates| && StillSettling(c) {
      var next := Step(b, Settle(i, fates[k]), maxRetries);
      var place, more := AfterSettle(c, fates[k], maxRetries), Republication(c, fates[k], maxRetries);
      assert next == Put(b, i, place, more);
      SettleAllIsCourse(next, i, fates, k + 1, maxRetries);
      assert next.copies[i] == c.(place := place);
      var rest := Course(next.copies[i], fates, k + 1, maxRetries);
      PutAgain(b, i, place, more, rest.0, rest.1);
    } else {
      PutAgain(b, i, c.place, [], c.place, []);
    }
  }

  lemma HandlingIsCourse(b: Broker, i: nat, outcome: Outcome, fates: seq<Fate>, maxRetries: int)
    requires |fates| == 3 && Enabled(b, Process(i, outcome))
    ensures var c := b.copies[i];
            var course := Course(c.(place := c.place.(stage := Reached(outcome))), fates, 0, maxRetries);
            HandleDelivery(b, i, true, outcome, fates, maxRetries) == Put(b, i, course.0, course.1)
  {
    hide AfterSettle, Republication, Course;
    var c := b.copies[i];
    var place := c.place.(stage := Reached(outcome));
    var next := Step(b, Process(i, outcome), maxRetries);
    assert next == Put(b, i, place, []);
    SettleAllIsCourse(next, i, fates, 0, maxRetries);
    var course := Course(next.copies[i], fates, 0, maxRetries);
    PutAgain(b, i, place, [], course.0, course.1);
    assert [] + course.1 == course.1;
  }

  /** What the broker sees of a place: the handler's progress inside an unsettled delivery is invisible. */
  function Seen(p: Place): Place { if p.Unsettled? then p.(stage := Delivered) else p }

  /** One operation, then the rest. */
  lemma CourseStep(c: Copy, fates: seq<Fate>, k: nat, maxRetries: int)
    requires k < |fates| && StillSettling(c)
    ensures var next := c.(place := AfterSettle(c, fates[k], maxRetries));
            var rest, course := Course(next, fates, k + 1, maxRetries), Course(c, fates, k, maxRetries);
            && course.0 == rest.0
            && (Republication(c, fates[k], maxRetries) == [] ==> course == rest)
            && (rest.1 == [] ==> course.1 == Republication(c, fates[k], maxRetries))
            && (!StillSettling(next) ==> rest == (next.place, []))
  {
    hide AfterSettle, Republication;
    var next := c.(place := AfterSettle(c, fates[k], maxRetries));
    var rest := Course(next, fates, k + 1, maxRetries);
    assert [] + rest.1 == rest.1;
    assert Republication(c, fates[k], maxRetries) + [] == Republication(c, fates[k], maxRetries);
  }

  /** The last operation, a nack with requeue. */
  lemma RecoveryCourse(c: Copy, fates: seq<Fate>, k: nat, maxRetries: int)
    requires k < |fates| && c.place.Unsettled? && c.place.stage == Recovering
    ensures Course(c, fates, k, maxRetries)
         == (if fates[k] != NoEffect then InQueue(c.place.from) else c.place.(stage := Abandoned), [])
  {
    hide Course, IsRetryManagedQueue;
    CourseStep(c, fates, k, maxRetries);
  }

  /** A retry that can be scheduled: publish, ack, and a nack if either fails. */
  lemma RetryCourse(c: Copy, fates: seq<Fate>, maxRetries: int)
    requires |fates| == 3 && c.place.Unsettled? && CanScheduleRetry(c, maxRetries)
    ensures var q := c.place.from;
            var nack := if fates[0] == Ok then 2 else 1;
            Course(c, fates, 0, maxRetries)
            == (if fates[0] == Ok && fates[1] != NoEffect then Acked(false)
                else if fates[nack] != NoEffect then InQueue(q) else c.place.(stage := Abandoned),
                if fates[0] != NoEffect then [Copy(c.msg, c.attempt + 1, Delayed(q))] else [])
  {
    hide Course, IsRetryManagedQueue;
    var q := c.place.from;
    CourseStep(c, fates, 0, maxRetries);
    if fates[0] == Ok {
      CourseStep(c.(place := c.place.(stage := Republished)), fates, 1, maxRetries);
      RecoveryCourse(c.(place := c.place.(stage := Recovering)), fates, 2, maxRetries);
    } else {
      RecoveryCourse(c.(place := c.place.(stage := Recovering)), fates, 1, maxRetries);
    }
  }

  /** No retry: reject, and a nack if that fails. */
  lemma RejectCourse(c: Copy, fates: seq<Fate>, k: nat, maxRetries: int)
    requires k + 1 < |fates| && c.place.Unsettled? && c.place.stage.Failed? && !CanScheduleRetry(c, maxRetries)
    ensures Course(c, fates, k, maxRetries)
         == (if fates[k] != NoEffect then DeadLetter(c.place.from)
             else if fates[k + 1] != NoEffect then InQueue(c.place.from) else c.place.(stage := Abandoned), [])
  {
    hide Course, IsRetryManagedQueue, DeadLetter;
    DeadLetterIsSettled(c.place.from);
    CourseStep(c, fates, k, maxRetries);
    RecoveryCourse(c.(place := c.place.(stage := Recovering)), fates, k + 1, maxRetries);
  }

  /** The two outcomes that settle outside the catch block first. */
  lemma FirstCourse(c: Copy, fates: seq<Fate>, maxRetries: int)
    requires |fates| == 3 && c.place.Unsettled? && (c.place.stage == Succeeded || c.place.stage == NothingDecoded)
    ensures var q := c.place.from;
            Course(c, fates, 0, maxRetries)
            == if fates[0] == NoEffect then Course(c.(place := c.place.(stage := Failed(false))), fates, 1, maxRetries)
               else (if c.place.stage == Succeeded then Acked(true) else DeadLetter(q), [])
  {
    hide Course, IsRetryManagedQueue, DeadLetter;
    DeadLetterIsSettled(c.place.from);
    CourseStep(c, fates, 0, maxRetries);
  }

  /** The handler never ends with an operation still to try. */
  lemma EndsSettledOrAbandoned(c: Copy, fates: seq<Fate>, maxRetries: int)
    requires |fates| == 3 && c.place.Unsettled?
    requires c.place.stage.Succeeded? || c.place.stage.NothingDecoded? || c.place.stage.Failed?
    ensures var p := Course(c, fates, 0, maxRetries).0;
            p.Unsettled? ==> p == c.place.(stage := Abandoned)
  {
    hide Course, IsRetryManagedQueue, DeadLetter;
    DeadLetterIsSettled(c.place.from);
    if CanScheduleRetry(c, maxRetries) {
      RetryCourse(c, fates, maxRetries);
    } else if c.place.stage.Failed? {
      RejectCourse(c, fates, 0, maxRetries);
    } else {
      FirstCourse(c, fates, maxRetries);
      RejectCourse(c.(place := c.place.(stage := Failed(false))), fates, 1, maxRetries);
    }
  }

  lemma DeadLetterIsSettled(queue: string)
    ensures !DeadLetter(queue).Unsettled?
  {
  }

  // ----- Where a delivery ends -----

  /** A delivery that was processed successfully: acknowledged; if the ack fails, rejected; if that fails too,
      requeued; and if nothing works, still held. */
  lemma SucceededDeliveryEnds(b: Broker, i: nat, channel: ChannelType, fates: seq<Fate>, maxRetries: int)
    requires |fates| == 3 && Enabled(b, Process(i, Success)) && b.copies[i].place.from == ChannelQueue(channel)
    ensures HandleDelivery(b, i, true, Success, fates, maxRetries)
         == Put(b, i,
                if fates[0] != NoEffect then Acked(true)
                else if fates[1] != NoEffect then InQueue(ChannelDlq(channel))
                else if fates[2] != NoEffect then InQueue(ChannelQueue(channel))
                else b.copies[i].place.(stage := Abandoned), [])
  {
    var c := b.copies[i];
    HandlingIsCourse(b, i, Success, fates, maxRetries);
    DeadLetterIsQueued(channel);
    hide Course, HandleDelivery, IsRetryManagedQueue, DeadLetter, ChannelQueue, ChannelDlq, Put;
    FirstCourse(c.(place := c.place.(stage := Reached(Success))), fates, maxRetries);
    RejectCourse(c.(place := c.place.(stage := Failed(false))), fates, 1, maxRetries);
  }

  /** A body that decodes to null: rejected, once more in the catch block if that fails, requeued, or still held. */
  lemma NullMessageEnds(b: Broker, i: nat, channel: ChannelType, fates: seq<Fate>, maxRetries: int)
    requires |fates| == 3 && Enabled(b, Process(i, NullMessage)) && b.copies[i].place.from == ChannelQueue(channel)
    ensures HandleDelivery(b, i, true, NullMessage, fates, maxRetries)
         == Put(b, i,
                if fates[0] != NoEffect || fates[1] != NoEffect then InQueue(ChannelDlq(channel))
                else if fates[2] != NoEffect then InQueue(ChannelQueue(channel))
                else b.copies[i].place.(stage := Abandoned), [])
  {
    var c := b.copies[i];
    HandlingIsCourse(b, i, NullMessage, fates, maxRetries);
    DeadLetterIsQueued(channel);
    hide Course, HandleDelivery, IsRetryManagedQueue, DeadLetter, ChannelQueue, ChannelDlq, Put;
    FirstCourse(c.(place := c.place.(stage := Reached(NullMessage))), fates, maxRetries);
    RejectCourse(c.(place := c.place.(stage := Failed(false))), fates, 1, maxRetries);
  }

  /** A failure that is not retried: rejected, requeued if that fails, or still held. */
  lemma FailedDeliveryEnds(b: Broker, i: nat, channel: ChannelType, outcome: Outcome, fates: seq<Fate>,
                           maxRetries: int)
    requires |fates| == 3 && Enabled(b, Process(i, outcome)) && b.copies[i].place.from == ChannelQueue(channel)
    requires outcome == OtherFailure || outcome == ParseError
             || (outcome == TransientFailure && b.copies[i].attempt >= maxRetries)
    ensures HandleDelivery(b, i, true, outcome, fates, maxRetries)
         == Put(b, i,
                if fates[0] != NoEffect then InQueue(ChannelDlq(channel))
                else if fates[1] != NoEffect then InQueue(ChannelQueue(channel))
                else b.copies[i].place.(stage := Abandoned), [])
  {
    var c := b.copies[i];
    HandlingIsCourse(b, i, outcome, fates, maxRetries);
    DeadLetterIsQueued(channel);
    hide Course, HandleDelivery, IsRetryManagedQueue, DeadLetter, ChannelQueue, ChannelDlq, Put;
    RejectCourse(c.(place := c.place.(stage := Reached(outcome))), fates, 0, maxRetries);
  }

  /** A transient failure with retries left: a delayed copy with the next attempt and an ack; if either operation
      fails, requeued or still held, with the delayed copy published all the same if the publish took effect. */
  lemma RetriedDeliveryEnds(b: Broker, i: nat, channel: ChannelType, fates: seq<Fate>, maxRetries: int)
    requires |fates| == 3 && Enabled(b, Process(i, TransientFailure))
    requires b.copies[i].place.from == ChannelQueue(channel) && b.copies[i].attempt < maxRetries
    ensures var c, q, nack := b.copies[i], ChannelQueue(channel), if fates[0] == Ok then fates[2] else fates[1];
            HandleDelivery(b, i, true, TransientFailure, fates, maxRetries)
            == Put(b, i,
                   if fates[0] == Ok && fates[1] != NoEffect then Acked(false)
                   else if nack != NoEffect then InQueue(q)
                   else c.place.(stage := Abandoned),
                   if fates[0] != NoEffect then [Copy(c.msg, c.attempt + 1, Delayed(q))] else [])
  {
    var c := b.copies[i];
    HandlingIsCourse(b, i, TransientFailure, fates, maxRetries);
    EveryChannelIsManaged(channel);
    hide Course, HandleDelivery, IsRetryManagedQueue, ChannelQueue;
    RetryCourse(c.(place := c.place.(stage := Reached(TransientFailure))), fates, maxRetries);
  }

  /** A refused delivery goes back to its queue unless the nack fails. */
  lemma RefusedDeliveryGoesBack(b: Broker, i: nat, outcome: Outcome, fates: seq<Fate>, maxRetries: int)
    requires |fates| == 3 && Enabled(b, Process(i, outcome))
    ensures HandleDelivery(b, i, false, outcome, fates, maxRetries)
         == Put(b, i, if fates[0] != NoEffect then InQueue(b.copies[i].place.from)
                      else b.copies[i].place.(stage := Abandoned), [])
  {
  }

  /** When every operation succeeds: success ends acknowledged, a transient failure in a delayed copy as long as
      retries are left, everything else in the dead-letter queue of the channel; a refused delivery goes back. */
  lemma DeliveryEndsWhenAllGoesWell(b: Broker, i: nat, channel: ChannelType, maxRetries: int)
    requires Enabled(b, Process(i, Success)) && b.copies[i].place.from == ChannelQueue(channel)
    ensures var c, q, dlq, fates := b.copies[i], ChannelQueue(channel), ChannelDlq(channel), [Ok, Ok, Ok];
            var dead := Put(b, i, InQueue(dlq), []);
            && HandleDelivery(b, i, true, Success, fates, maxRetries) == Put(b, i, Acked(true), [])
            && HandleDelivery(b, i, true, OtherFailure, fates, maxRetries) == dead
            && HandleDelivery(b, i, true, ParseError, fates, maxRetries) == dead
            && HandleDelivery(b, i, true, NullMessage, fates, maxRetries) == dead
            && HandleDelivery(b, i, true, TransientFailure, fates, maxRetries)
               == (if c.attempt < maxRetries
                   then Put(b, i, Acked(false), [Copy(c.msg, c.attempt + 1, Delayed(q))]) else dead)
            && forall outcome :: HandleDelivery(b, i, false, outcome, fates, maxRetries) == Put(b, i, InQueue(q), [])
  {
    var fates := [Ok, Ok, Ok];
    hide HandleDelivery, ChannelQueue, ChannelDlq, Put;
    SucceededDeliveryEnds(b, i, channel, fates, maxRetries);
    NullMessageEnds(b, i, channel, fates, maxRetries);
    FailedDeliveryEnds(b, i, channel, OtherFailure, fates, maxRetries);
    FailedDeliveryEnds(b, i, channel, ParseError, fates, maxRetries);
    if b.copies[i].attempt < maxRetries {
      RetriedDeliveryEnds(b, i, channel, fates, maxRetries);
    } else {
      FailedDeliveryEnds(b, i, channel, TransientFailure, fates, maxRetries);
    }
    forall outcome: Outcome
      ensures HandleDelivery(b, i, false, outcome, fates, maxRetries) == Put(b, i, InQueue(ChannelQueue(channel)), [])
    {
      RefusedDeliveryGoesBack(b, i, outcome, fates, maxRetries);
    }
  }

  // ----- The handler -----

  /** The channel a consumer works on. The broker behind it is the environment; each operation is told
      how it will end, and an operation on a delivery that is already settled does nothing. */
  class Channel {
    ghost var broker: Broker

    ghost predicate Holds(i: nat)
      reads this
    {
      i < |broker.copies| && broker.copies[i].place.Unsettled?
    }

    method BasicAckAsync(ghost i: nat, ghost processed: bool, fate: Fate) returns (ok: bool)
      requires i < |broker.copies|
      modifies this
      ensures ok == (fate == Ok)
      ensures broker == if fate != NoEffect && old(Holds(i))
                        then Put(old(broker), i, Acked(processed), []) else old(broker)
    {
      if fate != NoEffect && Holds(i) {
        broker := Put(broker, i, Acked(processed), []);
      }
      ok := fate == Ok;
    }

    /** Reject without requeue. */
    method BasicRejectAsync(ghost i: nat, fate: Fate) returns (ok: bool)
      requires i < |broker.copies|
      modifies this
      ensures ok == (fate == Ok)
      ensures broker == if fate != NoEffect && old(Holds(i))
                        then Put(old(broker), i, DeadLetter(old(broker).copies[i].place.from), []) else old(broker)
    {
      if fate != NoEffect && Holds(i) {
        broker := Put(broker, i, DeadLetter(broker.copies[i].place.from), []);
      }
      ok := fate == Ok;
    }

    /** Nack with requeue. */
    method BasicNackAsync(ghost i: nat, fate: Fate) returns (ok: bool)
      requires i < |broker.copies|
      modifies this
      ensures ok == (fate == Ok)
      ensures broker == if fate != NoEffect && old(Holds(i))
                        then Put(old(broker), i, InQueue(old(broker).copies[i].place.from), []) else old(broker)
    {
      if fate != NoEffect && Holds(i) {
        broker := Put(broker, i, InQueue(broker.copies[i].place.from), []);
      }
      ok := fate == Ok;
    }

    /** Publishes a delayed copy of delivery i under the given attempt. */
    method PublishRetryAsync(ghost i: nat, queue: string, retryCount: int, fate: Fate) returns (ok: bool)
      requires i < |broker.copies|
      modifies this
      ensures ok == (fate == Ok)
      ensures broker == if fate == NoEffect then old(broker)
                        else Put(old(broker), i, old(broker).copies[i].place,
                                 [Copy(old(broker).copies[i].msg, retryCount, Delayed(queue))])
    {
      if fate != NoEffect {
        broker := Put(broker, i, broker.copies[i].place, [Copy(broker.copies[i].msg, retryCount, Delayed(queue))]);
      }
      ok := fate == Ok;
    }

    /** The handler has ended: a delivery it could not settle stays with the consumer. */
    ghost method GiveUp(i: nat)
      requires i < |broker.copies|
      modifies this
      ensures broker == if old(Holds(i))
                        then Put(old(broker), i, old(broker).copies[i].place.(stage := Abandoned), [])
                        else old(broker)
    {
      if Holds(i) {
        broker := Put(broker, i, broker.copies[i].place.(stage := Abandoned), []);
      }
    }
  }

  class Worker {
    const consumer: nat
    const queueName: string
    const policy: Policy

    constructor (consumer: nat, queueName: string, policy: Policy)
      ensures this.consumer == consumer && this.queueName == queueName && this.policy == policy
    {
      this.consumer := consumer;
      this.queueName := queueName;
      this.policy := policy;
    }

    /** One call of the consumer's handler. `accepted` is the answer of `TryBeginMessageProcessing`,
        `outcome` what decoding and `ProcessMessageAsync` came to. */
    method ReceivedAsync(channel: Channel, ghost i: nat, headers: Option<Headers>, accepted: bool, outcome: Outcome,
                         fates: seq<Fate>)
      requires |fates| == 3 && i < |channel.broker.copies|
      requires channel.broker.copies[i].place == Unsettled(consumer, queueName, Delivered)
      requires channel.broker.copies[i].attempt == GetRetryAttempt(headers)
      modifies channel
      ensures channel.broker == HandleDelivery(old(channel.broker), i, accepted, outcome, fates, policy.maxRetries)
    {
      ghost var before, c := channel.broker, channel.broker.copies[i];
      hide DeadLetter, IsRetryManagedQueue, GetRetryAttempt;
      if !accepted {
        var _ := channel.BasicNackAsync(i, fates[0]);
        channel.GiveUp(i);
        return;
      }
      ghost var reached := c.(place := Unsettled(consumer, queueName, Reached(outcome)));
      ghost var course := Course(reached, fates, 0, policy.maxRetries);
      HandlingIsCourse(before, i, outcome, fates, policy.maxRetries);
      PutAgain(before, i, c.place, [], c.place, []);
      if reached.place.stage == Succeeded || reached.place.stage == NothingDecoded {
        FirstCourse(reached, fates, policy.maxRetries);
      }
      var used, settled := 0, false;
      if outcome == Success {
        settled := channel.BasicAckAsync(i, true, fates[0]);
        used := 1;
      } else if outcome == NullMessage {
        settled := channel.BasicRejectAsync(i, fates[0]);
        used := 1;
      }
      if !settled {
        Catch(channel, i, headers, outcome == TransientFailure, fates, used);
      }
      PutAgain(before, i, Seen(course.0), course.1, course.0, []);
      assert course.1 + [] == course.1;
      EndsSettledOrAbandoned(reached, fates, policy.maxRetries);
      channel.GiveUp(i);
    }

    /** The catch block and the inner catch block. */
    method Catch(channel: Channel, ghost i: nat, headers: Option<Headers>, transient: bool, fates: seq<Fate>, used: nat)
      requires |fates| == 3 && used <= 1 && (transient ==> used == 0)
      requires i < |channel.broker.copies| && channel.broker.copies[i].attempt == GetRetryAttempt(headers)
      requires channel.Holds(i) ==> channel.broker.copies[i].place == Unsettled(consumer, queueName, Delivered)
      requires transient ==> channel.Holds(i)
      modifies channel
      ensures !old(channel.Holds(i)) ==> channel.broker == old(channel.broker)
      ensures old(channel.Holds(i)) ==>
                var c := old(channel.broker).copies[i];
                var failed := c.(place := Unsettled(consumer, queueName, Failed(transient)));
                var course := Course(failed, fates, used, policy.maxRetries);
                channel.broker == Put(old(channel.broker), i, Seen(course.0), course.1)
    {
      hide DeadLetter, IsRetryManagedQueue, GetRetryAttempt;
      DeadLetterIsSettled(queueName);
      ghost var before, c := channel.broker, channel.broker.copies[i];
      PutAgain(before, i, c.place, [], c.place, []);
      ghost var failed := c.(place := Unsettled(consumer, queueName, Failed(transient)));
      ghost var more := [];
      var attempt := GetRetryAttempt(headers);
      var settled, next := false, used;
      if transient && IsRetryManagedQueue(queueName) && attempt < policy.maxRetries {
        RetryCourse(failed, fates, policy.maxRetries);
        settled := channel.PublishRetryAsync(i, queueName, attempt + 1, fates[0]);
        next := 1;
        more := if fates[0] != NoEffect then [Copy(c.msg, attempt + 1, Delayed(queueName))] else [];
        PutAgain(before, i, c.place, more, Acked(false), []);
        if settled {
          settled := channel.BasicAckAsync(i, false, fates[1]);
          next := 2;
        }
      } else {
        if channel.Holds(i) {
          RejectCourse(failed, fates, used, policy.maxRetries);
        }
        settled := channel.BasicRejectAsync(i, fates[next]);
        next := next + 1;
      }
      assert more + [] == more;
      PutAgain(before, i, c.place, more, InQueue(queueName), []);
      if !settled {
        var _ := channel.BasicNackAsync(i, fates[next]);
      }
    }
  }
}
