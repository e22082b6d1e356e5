/** The lock-protected fields of `SingleConsumerWorker` and the sections that update them in place, proved
    against the critical sections of the drain protocol. Each method is what one thread does while it holds
    the lock; `TrySetResult` runs outside. */
module ProcessingGate {
  import opened Options
  import opened Drain

  class Completion {
    var done: bool

    constructor (done: bool)
      ensures this.done == done
    {
      this.done := done;
    }

    method TrySetResult()
      modifies this
      ensures done
    {
      done := true;
    }
  }

  class WorkerGate {
    var inFlightMessages: int
    var shutdownRequested: bool
    var drainCompletion: Completion
    /** Every completion this worker has created, oldest first. */
    ghost var issued: seq<Completion>

    ghost predicate Valid()
      reads this
    {
      && |issued| > 0
      && issued[|issued| - 1] == drainCompletion
      && (forall i, j :: 0 <= i < j < |issued| ==> issued[i] != issued[j])
    }

    ghost function Abs(): Gate
      reads this, issued
    {
      Gate(inFlightMessages, shutdownRequested, |issued|, set i: nat | i < |issued| && issued[i].done)
    }

    constructor ()
      ensures Valid() && Abs() == OPEN_GATE && fresh(issued)
    {
      var completed := new Completion(true);
      inFlightMessages := 0;
      shutdownRequested := false;
      drainCompletion := completed;
      issued := [completed];
    }

    method TryBeginMessageProcessing() returns (begun: bool)
      requires Valid()
      modifies this
      ensures Valid() && (begun, Abs()) == TryBegin(old(Abs()))
      ensures begun == !old(shutdownRequested) && shutdownRequested == old(shutdownRequested)
      ensures inFlightMessages == old(inFlightMessages) + (if begun then 1 else 0)
      ensures begun && inFlightMessages == 1 ==> fresh(drainCompletion) && !drainCompletion.done
      ensures !(begun && inFlightMessages == 1) ==> drainCompletion == old(drainCompletion)
      ensures old(issued) <= issued && fresh(issued[|old(issued)|..])
    {
      if shutdownRequested {
        return false;
      }
      inFlightMessages := inFlightMessages + 1;
      if inFlightMessages == 1 {
        drainCompletion := new Completion(false);
        issued := issued + [drainCompletion];
        forall i: nat
          ensures (i < |issued| && issued[i].done) <==> (i < |old(issued)| && old(issued[i].done))
        {
          assert i < |old(issued)| ==> issued[i] == old(issued)[i];
        }
      }
      assert Abs().signalled == old(Abs().signalled);
      return true;
    }

    /** The locked part of `CompleteMessageProcessing`. */
    method CompleteLocked() returns (completionToSet: Completion?)
      requires Valid()
      modifies this`inFlightMessages
      ensures Valid()
      ensures var (c, after) := Complete(old(Abs()));
              && Abs() == after
              && (c.None? <==> completionToSet == null)
              && (c.Some? ==> 0 <= c.value < |issued| && completionToSet == issued[c.value])
      ensures inFlightMessages == old(inFlightMessages) - (if old(inFlightMessages) > 0 then 1 else 0)
      ensures completionToSet == if old(inFlightMessages) == 1 then drainCompletion else null
    {
      if inFlightMessages <= 0 {
        return null;
      }
      inFlightMessages := inFlightMessages - 1;
      if inFlightMessages == 0 {
        return drainCompletion;
      }
      return null;
    }

    /** `TrySetResult` on the completion with number c, whatever has become current meanwhile. */
    method SignalOutsideLock(completion: Completion, ghost c: nat)
      requires Valid() && c < |issued| && completion == issued[c]
      modifies completion
      ensures Valid() && Abs() == Signal(old(Abs()), c)
    {
      completion.TrySetResult();
    }

    /** The whole of `CompleteMessageProcessing` when no other thread comes between. */
    method CompleteMessageProcessing()
      requires Valid()
      modifies this`inFlightMessages, issued
      ensures Valid()
      ensures var (c, after) := Complete(old(Abs()));
              Abs() == if c.Some? && c.value >= 0 then Signal(after, c.value) else after
    {
      var completionToSet := CompleteLocked();
      if completionToSet != null {
        SignalOutsideLock(completionToSet, |issued| - 1);
      }
    }

    /** The locked part of `RequestGracefulShutdownAsync`. */
    method RequestShutdownLocked() returns (shouldCancelConsumer: bool, completionToAwait: Completion)
      requires Valid()
      modifies this`shutdownRequested
      ensures Valid()
      ensures var (first, c, after) := RequestShutdown(old(Abs()));
              && shouldCancelConsumer == first && Abs() == after
              && 0 <= c < |issued| && completionToAwait == issued[c]
      ensures shutdownRequested && shouldCancelConsumer == !old(shutdownRequested)
      ensures completionToAwait == drainCompletion
    {
      shouldCancelConsumer := false;
      if !shutdownRequested {
        shutdownRequested := true;
        shouldCancelConsumer := true;
      }
      completionToAwait := drainCompletion;
    }
  }
}
