/** How often a message is processed: a bound for every run, exact conditions, and the last invocation. */
module RetryBounds {
  import opened Counting
  import opened RateLimitKeys
  import opened Topology
  import opened Retry

  // ----- What a copy may still cause -----

  /** The invocations a copy may still cause without further faults. */
  function Potential(m: nat, maxRetries: int): Copy -> nat {
    (c: Copy) =>
      var left: nat := if c.attempt < Budget(maxRetries) then Budget(maxRetries) - c.attempt else 0;
      if c.msg != m then 0
      else match c.place
        case InQueue(q) => if IsRetryManagedQueue(q) then left else 0
        case Delayed(_) => left
        case Unsettled(_, _, Delivered) => left
        case Unsettled(_, _, Recovering) => left
        case Unsettled(_, _, Abandoned) => left
        case Unsettled(_, _, Failed(true)) => if left > 1 then left - 1 else 0
        case _ => 0
  }

  lemma SettlePotential(c: Copy, fate: Fate, maxRetries: int, channel: ChannelType)
    requires StillSettling(c) && c.place.from == ChannelQueue(channel) && 0 <= c.attempt < Budget(maxRetries)
    ensures var f := Potential(c.msg, maxRetries);
            f(c.(place := AfterSettle(c, fate, maxRetries)))
            + (if Republication(c, fate, maxRetries) != [] then Budget(maxRetries) - c.attempt - 1 else 0)
            <= f(c) + (if fate == Ok then 0 else Budget(maxRetries))
  {
    DeadLetterIsQueued(channel);
    RoutesStayInChannel(channel);
    EveryChannelIsManaged(channel);
    hide ChannelQueue, ChannelDlq, IsRetryManagedQueue, DeadLetter, DeadLetterArguments, Destination;
    if !c.place.stage.Failed? {
      hide CanScheduleRetry;
    }
  }

  lemma SettledPotential(c: Copy, e: Event, maxRetries: int, channel: ChannelType)
    requires e.Settle? && StillSettling(c) && PlaceOk(c.place, channel) && 0 <= c.attempt < Budget(maxRetries)
    ensures var f := Potential(c.msg, maxRetries);
            f(c.(place := Moved(c, e, maxRetries)))
            + (if Republication(c, e.fate, maxRetries) != [] then Budget(maxRetries) - c.attempt - 1 else 0)
            <= f(c) + (if IsFailedOperation(e) then Budget(maxRetries) else 0)
  {
    hide ChannelQueue, ChannelDlq, AfterSettle, Republication, Potential;
    SettlePotential(c, e.fate, maxRetries, channel);
  }

  lemma OtherPotential(c: Copy, e: Event, maxRetries: int, channel: ChannelType)
    requires PlaceOk(c.place, channel) && 0 <= c.attempt < Budget(maxRetries)
    requires match e
             case Deliver(_, _) => c.place.InQueue? && IsRetryManagedQueue(c.place.name)
             case Expire(_) => c.place.Delayed?
             case Refuse(_, _) => c.place.Unsettled? && c.place.stage == Delivered
             case Process(_, _) => c.place.Unsettled? && c.place.stage == Delivered
             case _ => false
    ensures var f := Potential(c.msg, maxRetries);
            (if IsInvocation(e) then 1 else 0) + f(c.(place := Moved(c, e, maxRetries)))
            <= f(c) + (if IsFailedOperation(e) then Budget(maxRetries) else 0)
  {
    RoutesStayInChannel(channel);
    EveryChannelIsManaged(channel);
    hide ChannelQueue, ChannelDlq, IsRetryManagedQueue, DeadLetterArguments, Destination, AfterSettle;
  }

  /** The copy that e is about: what it may still cause, before and after. */
  lemma MovedPotential(b: Broker, e: Event, maxRetries: int, m: nat)
    requires Inv(b, maxRetries) && Enabled(b, e) && MovesOne(e) && b.copies[e.index].msg == m
    ensures var c, f := b.copies[e.index], Potential(m, maxRetries);
            (if IsInvocation(e) then 1 else 0) + f(c.(place := Moved(c, e, maxRetries)))
            + (if e.Settle? && Republication(c, e.fate, maxRetries) != []
               then Budget(maxRetries) - c.attempt - 1 else 0)
            <= f(c) + (if IsFailedOperation(e) then Budget(maxRetries) else 0)
  {
    hide ChannelQueue, ChannelDlq, IsRetryManagedQueue, Moved, AfterSettle, Republication, Potential, Budget, Sum;
    var c := b.copies[e.index];
    assert CopyOk(b, c, maxRetries);
    if e.Settle? {
      SettledPotential(c, e, maxRetries, b.channels[m]);
    } else {
      OtherPotential(c, e, maxRetries, b.channels[m]);
    }
  }

  /** A delivery that a crash puts back is worth the budget at most. */
  lemma CrashPotential(b: Broker, w: nat, maxRetries: int, m: nat)
    requires Inv(b, maxRetries)
    ensures Sum(AfterCrash(b.copies, w), Potential(m, maxRetries))
         <= Sum(b.copies, Potential(m, maxRetries)) + Budget(maxRetries) * Sum(b.copies, HeldOf(w, m))
  {
    var f, k := Potential(m, maxRetries), Budget(maxRetries);
    forall c | c in b.copies ensures f(Requeued(c, w)) <= f(c) + k * HeldOf(w, m)(c) {
      assert CopyOk(b, c, maxRetries);
      hide IsRetryManagedQueue, ChannelQueue, ChannelDlq;
      assert k * 0 == 0 && k * 1 == k;
    }
    SumCrash(b.copies, w, f, HeldOf(w, m), k);
  }

  /** What event e costs in faults on m: one for a failed operation, one for each delivery a crash takes. */
  ghost function Cost(b: Broker, e: Event, m: nat): nat {
    if e.Crash? then Sum(b.copies, HeldOf(e.consumer, m))
    else if About(b, e, m) && IsFailedOperation(e) then 1
    else 0
  }

  /** One event: invocations plus potential grow only by a fault, and then by at most the budget for each
      operation or delivery lost. */
  lemma StepSpendsPotential(b: Broker, e: Event, maxRetries: int, m: nat)
    requires Inv(b, maxRetries) && Enabled(b, e) && !e.Publish?
    ensures var invoked := if About(b, e, m) && IsInvocation(e) then 1 else 0;
            invoked + Sum(Step(b, e, maxRetries).copies, Potential(m, maxRetries))
            <= Sum(b.copies, Potential(m, maxRetries)) + Budget(maxRetries) * Cost(b, e, m)
  {
    var f := Potential(m, maxRetries);
    if e.Crash? {
      CrashPotential(b, e.consumer, maxRetries, m);
    } else {
      var c := b.copies[e.index];
      SumStep(b, e, maxRetries, f);
      assert CopyOk(b, c, maxRetries);
      assert Budget(maxRetries) * 0 == 0 && Budget(maxRetries) * 1 == Budget(maxRetries);
      if e.Settle? {
        RepublicationSum(c, e.fate, maxRetries, f);
      }
      hide Moved, Republication, Step, Sum;
      if c.msg == m {
        MovedPotential(b, e, maxRetries, m);
      } else {
        assert f(c) == 0 && f(c.(place := Moved(c, e, maxRetries))) == 0;
      }
    }
  }

  // ----- The bound -----

  /** The deliveries of m that consumers held when they crashed. */
  ghost function LostDeliveries(t: Trace, m: nat, n: nat): nat
    requires n < |t.states| && n <= |t.events|
  {
    if n == 0 then 0
    else
      LostDeliveries(t, m, n - 1)
      + (if t.events[n - 1].Crash? then Sum(t.states[n - 1].copies, HeldOf(t.events[n - 1].consumer, m)) else 0)
  }

  /** The invocations that this many failed operations and lost deliveries allow. */
  function Allowance(maxRetries: int, cost: nat): nat { Budget(maxRetries) * (cost + 1) }

  lemma AllowanceGrows(maxRetries: int, cost: nat, more: nat)
    ensures Allowance(maxRetries, cost + more) == Allowance(maxRetries, cost) + Budget(maxRetries) * more
    ensures Allowance(maxRetries, 0) == Budget(maxRetries)
  {
  }

  lemma AllowanceMonotone(maxRetries: int, x: nat, y: nat)
    requires x <= y
    ensures Allowance(maxRetries, x) <= Allowance(maxRetries, y)
  {
  }

  ghost function CostSoFar(t: Trace, m: nat, n: nat): nat
    requires n < |t.states| && n <= |t.events|
  {
    FailedOperations(t, m, n) + LostDeliveries(t, m, n)
  }

  lemma CountOneMore(t: Trace, m: nat, n: nat)
    requires t.Valid() && 0 < n < |t.states|
    ensures var b, e := t.states[n - 1], t.events[n - 1];
            && CostSoFar(t, m, n) == CostSoFar(t, m, n - 1) + Cost(b, e, m)
            && Invocations(t, m, n) == Invocations(t, m, n - 1) + (if About(b, e, m) && IsInvocation(e) then 1 else 0)
  {
    hide About, Sum;
  }

  lemma PublishPotential(b: Broker, e: Event, maxRetries: int, m: nat)
    requires Inv(b, maxRetries) && Enabled(b, e) && e.Publish?
    ensures Sum(Step(b, e, maxRetries).copies, Potential(m, maxRetries))
         <= if e.msg == m then Budget(maxRetries) else Sum(b.copies, Potential(m, maxRetries))
  {
    hide IsRetryManagedQueue, ChannelQueue, Step, Sum;
    PublishSum(b, e, maxRetries, m, Potential(m, maxRetries));
  }

  lemma StepKeepsAllowance(b: Broker, e: Event, maxRetries: int, m: nat, invocations: nat, cost: nat)
    requires Inv(b, maxRetries) && Enabled(b, e)
    requires m in b.channels ==>
               invocations + Sum(b.copies, Potential(m, maxRetries)) <= Allowance(maxRetries, cost)
    requires m !in b.channels ==> invocations == 0 && cost == 0
    ensures var after, invoked := Step(b, e, maxRetries), if About(b, e, m) && IsInvocation(e) then 1 else 0;
            && (m in after.channels ==>
                  invocations + invoked + Sum(after.copies, Potential(m, maxRetries))
                  <= Allowance(maxRetries, cost + Cost(b, e, m)))
            && (m !in after.channels ==> invocations + invoked == 0 && cost + Cost(b, e, m) == 0)
  {
    StepKeepsChannels(b, e, maxRetries, m);
    AllowanceGrows(maxRetries, cost, Cost(b, e, m));
    assert m !in b.channels && !e.Publish? ==> Cost(b, e, m) == 0;
    hide Potential, Step, Inv, Budget, Allowance, Sum, Enabled;
    if e.Publish? {
      PublishPotential(b, e, maxRetries, m);
      assert cost + 0 == cost;
    } else {
      hide About;
      StepSpendsPotential(b, e, maxRetries, m);
    }
  }

  /** Invocations so far plus invocations still possible stay within what the faults so far allow. */
  lemma {:induction false} InvocationsPlusPotential(t: Trace, m: nat, n: nat)
    requires t.Valid() && n < |t.states|
    ensures m in t.states[n].channels ==>
              Invocations(t, m, n) + Sum(t.states[n].copies, Potential(m, t.maxRetries))
              <= Allowance(t.maxRetries, CostSoFar(t, m, n))
    ensures m !in t.states[n].channels ==> Invocations(t, m, n) == 0 && CostSoFar(t, m, n) == 0
  {
    hide Potential, Step, Inv, Allowance, Enabled, WithinPrefetch, About, Cost;
    if n == 0 {
    } else {
      hide Sum, CostSoFar, Invocations;
      InvocationsPlusPotential(t, m, n - 1);
      AlwaysInv(t, n - 1);
      assert t.Follows(n - 1);
      CountOneMore(t, m, n);
      StepKeepsAllowance(t.states[n - 1], t.events[n - 1], t.maxRetries, m, Invocations(t, m, n - 1),
                         CostSoFar(t, m, n - 1));
    }
  }

  /** A crash takes no more deliveries than the prefetch count. */
  lemma {:induction false} LostWithinPrefetch(t: Trace, m: nat, n: nat)
    requires t.Valid() && n < |t.states|
    ensures LostDeliveries(t, m, n) <= t.prefetch * Crashes(t, m, n)
  {
    if n == 0 {
    } else {
      hide Step, Enabled, WithinPrefetch, Sum;
      LostWithinPrefetch(t, m, n - 1);
      var b, e := t.states[n - 1], t.events[n - 1];
      if e.Crash? {
        PrefetchIsKept(t, e.consumer, n - 1);
        SumAtMost(b.copies, HeldOf(e.consumer, m), HeldBy(e.consumer));
        Distribute(t.prefetch, Crashes(t, m, n - 1), 1);
      }
    }
  }

  /** Processing is bounded whatever fails: a failed operation allows MaxRetries + 1 more invocations, a crash
      that many for each delivery of m it can have taken. */
  lemma ProcessingIsBounded(t: Trace, m: nat, n: nat)
    requires t.Valid() && n < |t.states|
    ensures Invocations(t, m, n)
         <= Budget(t.maxRetries) * (FailedOperations(t, m, n) + t.prefetch * Crashes(t, m, n) + 1)
  {
    var failed, lost := FailedOperations(t, m, n), LostDeliveries(t, m, n);
    InvocationsPlusPotential(t, m, n);
    LostWithinPrefetch(t, m, n);
    AllowanceMonotone(t.maxRetries, failed + lost, failed + t.prefetch * Crashes(t, m, n));
  }

  // ----- Without retries there is one copy -----

  /** All copies of m, wherever they are. */
  function CopyOf(m: nat): Copy -> nat {
    (c: Copy) => if c.msg == m then 1 else 0
  }

  lemma {:induction false} OnlyCopyWithoutRetries(t: Trace, m: nat, n: nat)
    requires t.Valid() && n < |t.states| && t.maxRetries <= 0
    ensures Sum(t.states[n].copies, CopyOf(m)) <= 1
  {
    if n == 0 {
    } else {
      OnlyCopyWithoutRetries(t, m, n - 1);
      AlwaysInv(t, n - 1);
      assert t.Follows(n - 1);
      var b, e := t.states[n - 1], t.events[n - 1];
      hide Moved, Sum, IsRetryManagedQueue, Inv;
      if e.Publish? {
        PublishSum(b, e, t.maxRetries, m, CopyOf(m));
      } else if e.Crash? {
        SumUnchangedByCrash(b.copies, e.consumer, CopyOf(m));
      } else {
        SumStep(b, e, t.maxRetries, CopyOf(m));
        if e.Settle? {
          RepublicationSum(b.copies[e.index], e.fate, t.maxRetries, CopyOf(m));
          NothingToSchedule(b, e.index, t.maxRetries);
        }
      }
    }
  }

  lemma NothingToSchedule(b: Broker, i: nat, maxRetries: int)
    requires Inv(b, maxRetries) && i < |b.copies| && b.copies[i].place.Unsettled? && maxRetries <= 0
    ensures !CanScheduleRetry(b.copies[i], maxRetries)
  {
    assert CopyOk(b, b.copies[i], maxRetries);
  }

  /** Without retries, or at prefetch 1, a crash takes at most one delivery of m. */
  lemma {:induction false} LostWithinCrashes(t: Trace, m: nat, n: nat)
    requires t.Valid() && n < |t.states| && (t.maxRetries <= 0 || t.prefetch <= 1)
    ensures LostDeliveries(t, m, n) <= Crashes(t, m, n)
  {
    if n == 0 {
    } else {
      hide Step, Enabled, WithinPrefetch, Sum;
      LostWithinCrashes(t, m, n - 1);
      var b, e := t.states[n - 1], t.events[n - 1];
      if e.Crash? {
        if t.maxRetries <= 0 {
          OnlyCopyWithoutRetries(t, m, n - 1);
          SumAtMost(b.copies, HeldOf(e.consumer, m), CopyOf(m));
        } else {
          PrefetchIsKept(t, e.consumer, n - 1);
          SumAtMost(b.copies, HeldOf(e.consumer, m), HeldBy(e.consumer));
        }
      }
    }
  }

  /** The plain bound, where a crash counts once like any other fault. It holds at the shipped prefetch count
      of 1. */
  lemma PlainBound(t: Trace, m: nat, n: nat)
    requires t.Valid() && n < |t.states| && (t.maxRetries <= 0 || t.prefetch <= 1)
    ensures Invocations(t, m, n) <= Budget(t.maxRetries) * (Faults(t, m, n) + 1)
  {
    var failed, lost := FailedOperations(t, m, n), LostDeliveries(t, m, n);
    InvocationsPlusPotential(t, m, n);
    LostWithinCrashes(t, m, n);
    AllowanceMonotone(t.maxRetries, failed + lost, Faults(t, m, n));
  }

  // ----- The last invocation -----

  /** The only copy that stands for m has nothing left to cause, so m is not processed again. */
  lemma SoleOwnerSpent(b: Broker, i: nat, maxRetries: int, m: nat)
    requires i < |b.copies| && Sum(b.copies, Owner(m)) <= 1
    requires Owner(m)(b.copies[i]) == 1 && Potential(m, maxRetries)(b.copies[i]) == 0
    ensures Sum(b.copies, Potential(m, maxRetries)) == 0
  {
    hide IsRetryManagedQueue;
    var none := Copy(m, 0, Vanished);
    SumUpdate(b.copies, i, none, Owner(m));
    SumUpdate(b.copies, i, none, Potential(m, maxRetries));
    var rest := b.copies[i := none];
    SumPositive(rest, Owner(m));
    SumPositive(rest, Potential(m, maxRetries));
    forall k | 0 <= k < |rest| ensures Potential(m, maxRetries)(rest[k]) == 0 {
      assert Owner(m)(rest[k]) == 0;
    }
  }

  lemma {:induction false} FaultsGrow(t: Trace, m: nat, k: nat, n: nat)
    requires t.Valid() && k <= n < |t.states|
    ensures Faults(t, m, k) <= Faults(t, m, n)
    decreases n - k
  {
    if k == n {
    } else {
      FaultsGrow(t, m, k, n - 1);
    }
  }

  /** An event that is no fault on m finds nothing left to cause. */
  lemma StepStaysSpent(b: Broker, e: Event, maxRetries: int, m: nat)
    requires Inv(b, maxRetries) && Enabled(b, e) && m in b.channels && !(About(b, e, m) && IsFault(e))
    requires Sum(b.copies, Potential(m, maxRetries)) == 0
    ensures Sum(Step(b, e, maxRetries).copies, Potential(m, maxRetries)) == 0
    ensures !(About(b, e, m) && IsInvocation(e))
  {
    if e.Publish? {
      PublishPotential(b, e, maxRetries, m);
    } else {
      assert Cost(b, e, m) == 0;
      hide Potential, Step, Inv, Sum, Enabled, About, Cost;
      StepSpendsPotential(b, e, maxRetries, m);
      assert Budget(maxRetries) * 0 == 0;
    }
  }

  lemma {:induction false} SpentStaysSpent(t: Trace, m: nat, k: nat, n: nat)
    requires t.Valid() && k <= n < |t.states| && m in t.states[k].channels
    requires Faults(t, m, n) == Faults(t, m, k)
    requires Sum(t.states[k].copies, Potential(m, t.maxRetries)) == 0
    ensures m in t.states[n].channels && Sum(t.states[n].copies, Potential(m, t.maxRetries)) == 0
    ensures Invocations(t, m, n) == Invocations(t, m, k)
    decreases n - k
  {
    if k == n {
    } else {
      assert t.Follows(n - 1);
      FaultsGrow(t, m, k, n - 1);
      SpentStaysSpent(t, m, k, n - 1);
      AlwaysInv(t, n - 1);
      hide Potential, Step, Inv, Sum, Enabled, About;
      var b, e := t.states[n - 1], t.events[n - 1];
      StepKeepsChannels(b, e, t.maxRetries, m);
      StepStaysSpent(b, e, t.maxRetries, m);
    }
  }

  /** Without faults on m, an invocation that does not end in a transient failure is the last one: whatever
      it did is never done again. */
  lemma NonTransientInvocationIsLast(t: Trace, m: nat, k: nat, n: nat)
    requires t.Valid() && k < n < |t.states| && Faults(t, m, n) == 0
    requires t.events[k].Process? && t.events[k].outcome != TransientFailure
    requires t.Follows(k) && About(t.states[k], t.events[k], m)
    ensures Invocations(t, m, n) == Invocations(t, m, k + 1)
  {
    var e := t.events[k];
    AlwaysInv(t, k);
    FaultsGrow(t, m, k + 1, n);
    assert CopyOk(t.states[k], t.states[k].copies[e.index], t.maxRetries);
    PresentFromPublishOn(t, m, k + 1);
    SoleOwnerSpent(t.states[k + 1], e.index, t.maxRetries, m);
    SpentStaysSpent(t, m, k + 1, n);
  }
}
