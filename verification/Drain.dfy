/** The graceful-drain protocol of `SingleConsumerWorker`: handlers and shutdown callers as threads, every
    critical section and every `TrySetResult` outside the lock as a step of its own. */
module Drain {
  import opened Options
  import opened Counting

  /** The lock-protected fields. Completions are numbered in the order of their creation, so the current
      one is the last issued; `signalled` holds those whose `TrySetResult` has run. */
  datatype Gate = Gate(inFlight: int, shutdown: bool, issued: nat, signalled: set<nat>) {
    function Current(): int { issued - 1 }
  }

  const OPEN_GATE := Gate(0, false, 1, {0})

  // ----- The critical sections -----

  function TryBegin(g: Gate): (bool, Gate) {
    if g.shutdown then (false, g)
    else if g.inFlight + 1 == 1 then (true, g.(inFlight := g.inFlight + 1, issued := g.issued + 1))
    else (true, g.(inFlight := g.inFlight + 1))
  }

  /** The completion to signal once the lock is released, if any. */
  function Complete(g: Gate): (Option<int>, Gate) {
    if g.inFlight <= 0 then (None, g)
    else
      var after := g.(inFlight := g.inFlight - 1);
      (if after.inFlight == 0 then Some(after.Current()) else None, after)
  }

  function Signal(g: Gate, c: nat): Gate { g.(signalled := g.signalled + {c}) }

  /** Is this the first request, and which completion must it await? */
  function RequestShutdown(g: Gate): (bool, int, Gate) { (!g.shutdown, g.Current(), g.(shutdown := true)) }

  // ----- Threads -----

  /** A delivery goes Arrived, Working, Settled and maybe Signalling; Settled means that its settlement code
      has run and only `CompleteMessageProcessing` is left. A shutdown call goes Calling, maybe Cancelling
      the consumer, Awaiting and Released; the call in `ExecuteAsync` then closes the channel. */
  datatype Thread =
    | Arrived | Refused | Working | Settled | Signalling(held: nat) | Finished
    | Calling(closes: bool) | Cancelling(closes: bool, awaited: nat) | Awaiting(closes: bool, awaited: nat)
    | Released(closes: bool) | Closed

  datatype System = System(gate: Gate, threads: seq<Thread>, channelOpen: bool)

  const IDLE := System(OPEN_GATE, [], true)

  predicate CanStep(s: System, i: nat)
    requires i < |s.threads|
  {
    match s.threads[i]
    case Refused | Finished | Closed => false
    case Released(closes) => closes
    case Awaiting(_, c) => c in s.gate.signalled
    case _ => true
  }

  function StepThread(s: System, i: nat): System
    requires i < |s.threads| && s.gate.issued > 0 && CanStep(s, i)
  {
    var g := s.gate;
    match s.threads[i]
    case Arrived =>
      var (begun, after) := TryBegin(g);
      System(after, s.threads[i := if begun then Working else Refused], s.channelOpen)
    case Working => s.(threads := s.threads[i := Settled])
    case Settled =>
      var (c, after) := Complete(g);
      System(after, s.threads[i := if c.Some? then Signalling(c.value) else Finished], s.channelOpen)
    case Signalling(c) => System(Signal(g, c), s.threads[i := Finished], s.channelOpen)
    case Calling(closes) =>
      var (first, c, after) := RequestShutdown(g);
      System(after, s.threads[i := if first then Cancelling(closes, c) else Awaiting(closes, c)], s.channelOpen)
    case Cancelling(closes, c) => s.(threads := s.threads[i := Awaiting(closes, c)])
    case Awaiting(closes, _) => s.(threads := s.threads[i := Released(closes)])
    case Released(_) => System(g, s.threads[i := Closed], false)
  }

  /** Deliveries and shutdown calls arrive at any time; any thread that can step may step next. */
  datatype Event = Arrive(thread: Thread) | Run(index: nat)

  predicate Enabled(s: System, e: Event) {
    match e
    case Arrive(t) => t.Arrived? || t.Calling?
    case Run(i) => i < |s.threads| && s.gate.issued > 0 && CanStep(s, i)
  }

  function Step(s: System, e: Event): System
    requires Enabled(s, e)
  {
    match e
    case Arrive(t) => s.(threads := s.threads + [t])
    case Run(i) => StepThread(s, i)
  }

  datatype Trace = Trace(states: seq<System>, events: seq<Event>) {
    ghost predicate Valid() {
      && |states| == |events| + 1
      && states[0] == IDLE
      && (forall i :: 0 <= i < |events| ==> Follows(i))
    }

    ghost predicate Follows(i: nat)
      requires |states| == |events| + 1 && i < |events|
    {
      Enabled(states[i], events[i]) && states[i + 1] == Step(states[i], events[i])
    }
  }

  // ----- The invariant -----

  predicate IsBegun(t: Thread) { t.Working? || t.Settled? }

  predicate AfterRequest(t: Thread) { t.Cancelling? || t.Awaiting? || t.Released? || t.Closed? }

  function Begun(): Thread -> nat { (t: Thread) => if IsBegun(t) then 1 else 0 }

  function AboutToSignal(c: int): Thread -> nat { (t: Thread) => if t.Signalling? && t.held == c then 1 else 0 }

  function Holders(s: System): nat { Sum(s.threads, AboutToSignal(s.gate.Current())) }

  predicate ThreadOk(s: System, t: Thread) {
    && (t.Signalling? ==> t.held <= s.gate.Current())
    && (AfterRequest(t) ==> s.gate.shutdown)
    && (t.Cancelling? || t.Awaiting? ==> t.awaited == s.gate.Current())
    && (t.Released? || t.Closed? ==> s.gate.Current() in s.gate.signalled)
  }

  /** The counter counts the begun handlers. The current completion is signalled, or about to be signalled
      by exactly one thread, when the counter is zero; it is neither when the counter is positive. */
  predicate CountsOk(s: System) {
    && s.gate.inFlight == Sum(s.threads, Begun())
    && (if s.gate.Current() in s.gate.signalled then 1 else 0) + Holders(s) == (if s.gate.inFlight == 0 then 1 else 0)
  }

  ghost predicate Inv(s: System) {
    && s.gate.issued > 0
    && CountsOk(s)
    && (forall c :: c in s.gate.signalled ==> c <= s.gate.Current())
    && (forall t :: t in s.threads ==> ThreadOk(s, t))
    && (!s.channelOpen ==> Closed in s.threads)
  }

  lemma HoldersOfNewCompletion(threads: seq<Thread>, c: int)
    requires forall t :: t in threads && t.Signalling? ==> t.held < c
    ensures Sum(threads, AboutToSignal(c)) == 0
  {
    SumPositive(threads, AboutToSignal(c));
  }

  lemma BegunIsCounted(s: System, i: nat)
    requires i < |s.threads| && IsBegun(s.threads[i])
    ensures Sum(s.threads, Begun()) > 0
  {
    assert Begun()(s.threads[i]) > 0;
    SumPositive(s.threads, Begun());
  }

  /** The first handler to begin again issues a completion that no thread holds. */
  lemma NewCompletionHasNoHolder(s: System, i: nat)
    requires Inv(s) && i < |s.threads|
    ensures Sum(s.threads[i := Working], AboutToSignal(s.gate.Current() + 1)) == 0
  {
    var threads := s.threads[i := Working];
    forall x | x in threads && x.Signalling? ensures x.held < s.gate.Current() + 1 {
      var k :| 0 <= k < |threads| && threads[k] == x;
      assert ThreadOk(s, s.threads[k]);
    }
    HoldersOfNewCompletion(threads, s.gate.Current() + 1);
  }

  /** Thread i becomes t: what the counts lose and gain. */
  lemma MovedCounts(threads: seq<Thread>, i: nat, t: Thread, c: int)
    requires i < |threads|
    ensures Sum(threads[i := t], Begun()) == Sum(threads, Begun()) - Begun()(threads[i]) + Begun()(t)
    ensures Sum(threads[i := t], AboutToSignal(c))
         == Sum(threads, AboutToSignal(c)) - AboutToSignal(c)(threads[i]) + AboutToSignal(c)(t)
  {
    SumUpdate(threads, i, t, Begun());
    SumUpdate(threads, i, t, AboutToSignal(c));
  }

  lemma ArrivedKeepsCounts(s: System, i: nat)
    requires Inv(s) && Enabled(s, Run(i)) && s.threads[i].Arrived?
    ensures CountsOk(StepThread(s, i))
  {
    MovedCounts(s.threads, i, Working, s.gate.Current());
    MovedCounts(s.threads, i, Refused, s.gate.Current());
    NewCompletionHasNoHolder(s, i);
    hide Sum;
  }

  lemma SettledKeepsCounts(s: System, i: nat)
    requires Inv(s) && Enabled(s, Run(i)) && s.threads[i].Settled?
    ensures CountsOk(StepThread(s, i))
  {
    BegunIsCounted(s, i);
    MovedCounts(s.threads, i, Signalling(s.gate.Current()), s.gate.Current());
    MovedCounts(s.threads, i, Finished, s.gate.Current());
    hide Sum;
  }

  lemma SignallingKeepsCounts(s: System, i: nat)
    requires Inv(s) && Enabled(s, Run(i)) && s.threads[i].Signalling?
    ensures CountsOk(StepThread(s, i))
  {
    assert ThreadOk(s, s.threads[i]);
    MovedCounts(s.threads, i, Finished, s.gate.Current());
    hide Sum;
  }

  /** One thread moves: the counter and the holders of the current completion follow. */
  lemma StepKeepsCounts(s: System, i: nat)
    requires Inv(s) && Enabled(s, Run(i))
    ensures CountsOk(StepThread(s, i))
  {
    var after := StepThread(s, i);
    if s.threads[i].Arrived? {
      ArrivedKeepsCounts(s, i);
    } else if s.threads[i].Settled? {
      SettledKeepsCounts(s, i);
    } else if s.threads[i].Signalling? {
      SignallingKeepsCounts(s, i);
    } else {
      MovedCounts(s.threads, i, after.threads[i], s.gate.Current());
      hide Sum;
    }
  }

  lemma StepKeepsThreads(s: System, i: nat)
    requires Inv(s) && Enabled(s, Run(i))
    ensures var after := StepThread(s, i);
            && (forall x :: x in after.threads ==> ThreadOk(after, x))
            && (!after.channelOpen ==> Closed in after.threads)
  {
    var after := StepThread(s, i);
    assert ThreadOk(s, s.threads[i]);
    if s.threads[i].Settled? {
      BegunIsCounted(s, i);
    }
    forall k | 0 <= k < |s.threads| ensures ThreadOk(after, after.threads[k]) {
      assert ThreadOk(s, s.threads[k]);
    }
    if !s.channelOpen {
      var k :| 0 <= k < |s.threads| && s.threads[k] == Closed;
      assert after.threads[k] == Closed;
    } else {
      assert after.threads[i] in after.threads;
    }
  }

  lemma StepKeepsInv(s: System, e: Event)
    requires Inv(s) && Enabled(s, e)
    ensures Inv(Step(s, e))
  {
    match e {
      case Arrive(t) =>
        SumAppend(s.threads, t, Begun());
        SumAppend(s.threads, t, AboutToSignal(s.gate.Current()));
      case Run(i) =>
        StepKeepsCounts(s, i);
        StepKeepsThreads(s, i);
        assert ThreadOk(s, s.threads[i]);
    }
  }

  lemma {:induction false} AlwaysInv(t: Trace, n: nat)
    requires t.Valid() && n < |t.states|
    ensures Inv(t.states[n])
  {
    if n == 0 {
    } else {
      AlwaysInv(t, n - 1);
      assert t.Follows(n - 1);
      StepKeepsInv(t.states[n - 1], t.events[n - 1]);
    }
  }

  // ----- Drain safety -----

  /** A state in which some shutdown call has returned. */
  ghost predicate Drained(s: System) {
    exists i :: 0 <= i < |s.threads| && (s.threads[i].Released? || s.threads[i].Closed?)
  }

  lemma DrainedHasNoBegunHandler(s: System)
    requires Inv(s) && Drained(s)
    ensures s.gate.shutdown && s.gate.inFlight == 0
    ensures forall i :: 0 <= i < |s.threads| ==> !IsBegun(s.threads[i])
  {
    var i :| 0 <= i < |s.threads| && (s.threads[i].Released? || s.threads[i].Closed?);
    assert ThreadOk(s, s.threads[i]);
    forall k | 0 <= k < |s.threads| && IsBegun(s.threads[k]) ensures false {
      BegunIsCounted(s, k);
    }
  }

  lemma {:induction false} DrainedForever(t: Trace, m: nat, n: nat)
    requires t.Valid() && m <= n < |t.states| && Drained(t.states[m])
    ensures Drained(t.states[n])
    decreases n - m
  {
    if m == n {
    } else {
      DrainedForever(t, m, n - 1);
      assert t.Follows(n - 1);
      var s, after := t.states[n - 1], t.states[n];
      var i :| 0 <= i < |s.threads| && (s.threads[i].Released? || s.threads[i].Closed?);
      assert after.threads[i].Released? || after.threads[i].Closed?;
    }
  }

  /** Drain safety under all interleavings: from the moment any shutdown call has returned, no handler that
      passed `TryBeginMessageProcessing` is in flight, none ever will be, and every later arrival is refused. */
  lemma DrainSafety(t: Trace, m: nat, n: nat)
    requires t.Valid() && m <= n < |t.states| && Drained(t.states[m])
    ensures forall i :: 0 <= i < |t.states[n].threads| ==> !IsBegun(t.states[n].threads[i])
    ensures !TryBegin(t.states[n].gate).0
  {
    DrainedForever(t, m, n);
    AlwaysInv(t, n);
    DrainedHasNoBegunHandler(t.states[n]);
  }

  /** The channel is still open whenever a begun handler is running or settling its delivery. */
  lemma SettlesOnOpenChannel(t: Trace, n: nat, i: nat)
    requires t.Valid() && n < |t.states| && i < |t.states[n].threads| && IsBegun(t.states[n].threads[i])
    ensures t.states[n].channelOpen
  {
    AlwaysInv(t, n);
    var s := t.states[n];
    if !s.channelOpen {
      var k :| 0 <= k < |s.threads| && s.threads[k] == Closed;
      DrainedHasNoBegunHandler(s);
      assert false;
    }
  }

  /** The guard `_inFlightMessages <= 0` of `CompleteMessageProcessing` never fires. */
  lemma CompleteIsNeverIdle(t: Trace, n: nat, i: nat)
    requires t.Valid() && n < |t.states| && i < |t.states[n].threads| && t.states[n].threads[i].Settled?
    ensures t.states[n].gate.inFlight > 0
  {
    AlwaysInv(t, n);
    BegunIsCounted(t.states[n], i);
  }

  // ----- Who begins, who cancels, who closes -----

  /** Event j takes the lock for a shutdown call. */
  predicate IsRequest(t: Trace, j: nat)
    requires |t.states| == |t.events| + 1 && j < |t.events|
  {
    t.events[j].Run? && t.events[j].index < |t.states[j].threads| && t.states[j].threads[t.events[j].index].Calling?
  }

  lemma StepSetsFlagIff(s: System, e: Event)
    requires Enabled(s, e)
    ensures Step(s, e).gate.shutdown <==> s.gate.shutdown || (e.Run? && s.threads[e.index].Calling?)
  {
  }

  /** Shutdown is requested exactly from the first shutdown call on. */
  lemma {:induction false} FlagIsSetByRequestsOnly(t: Trace, n: nat)
    requires t.Valid() && n < |t.states|
    ensures t.states[n].gate.shutdown <==> exists j: nat :: j < n && IsRequest(t, j)
  {
    if n == 0 {
    } else {
      FlagIsSetByRequestsOnly(t, n - 1);
      assert t.Follows(n - 1);
      hide Step, Enabled;
      StepSetsFlagIff(t.states[n - 1], t.events[n - 1]);
      assert t.states[n].gate.shutdown <==> t.states[n - 1].gate.shutdown || IsRequest(t, n - 1);
    }
  }

  /** The first shutdown call goes on to cancel the consumer; every later one goes straight to waiting. All of
      them wait for the completion that is current at that moment. */
  lemma FirstRequestCancels(t: Trace, j: nat)
    requires t.Valid() && j < |t.events| && IsRequest(t, j)
    ensures var i := t.events[j].index;
            var closes, awaited := t.states[j].threads[i].closes, t.states[j].gate.Current();
            && awaited >= 0 && i < |t.states[j + 1].threads|
            && t.states[j + 1].threads[i]
               == if exists k: nat :: k < j && IsRequest(t, k) then Awaiting(closes, awaited)
                  else Cancelling(closes, awaited)
  {
    AlwaysInv(t, j);
    FlagIsSetByRequestsOnly(t, j);
    assert t.Follows(j);
  }

  /** The calls among the first n events that went on to cancel the consumer. */
  function Cancellers(t: Trace, n: nat): nat
    requires |t.states| == |t.events| + 1 && n <= |t.events|
  {
    if n == 0 then 0
    else
      Cancellers(t, n - 1)
      + (if IsRequest(t, n - 1) && t.events[n - 1].index < |t.states[n].threads|
            && t.states[n].threads[t.events[n - 1].index].Cancelling? then 1 else 0)
  }

  /** Once shutdown is requested exactly one call has been told to cancel the consumer. So no shutdown call has
      returned without that. */
  lemma {:induction false} OneCallCancels(t: Trace, n: nat)
    requires t.Valid() && n < |t.states|
    ensures Cancellers(t, n) == if t.states[n].gate.shutdown then 1 else 0
    ensures Drained(t.states[n]) ==> Cancellers(t, n) == 1
  {
    AlwaysInv(t, n);
    if Drained(t.states[n]) {
      DrainedHasNoBegunHandler(t.states[n]);
    }
    if n == 0 {
    } else {
      OneCallCancels(t, n - 1);
      assert t.Follows(n - 1);
      FlagIsSetByRequestsOnly(t, n - 1);
      StepSetsFlagIff(t.states[n - 1], t.events[n - 1]);
      if IsRequest(t, n - 1) {
        FirstRequestCancels(t, n - 1);
      }
      hide Step, Enabled, Inv, Drained;
    }
  }

  /** A delivery is refused exactly if shutdown was requested before; otherwise its handler begins. */
  lemma BeginsUnlessRequested(t: Trace, j: nat)
    requires t.Valid() && j < |t.events| && t.events[j].Run?
    requires t.events[j].index < |t.states[j].threads| && t.states[j].threads[t.events[j].index].Arrived?
    ensures t.events[j].index < |t.states[j + 1].threads|
    ensures t.states[j + 1].threads[t.events[j].index]
         == if exists k: nat :: k < j && IsRequest(t, k) then Refused else Working
  {
    FlagIsSetByRequestsOnly(t, j);
    assert t.Follows(j);
  }

  /** What becomes of the shutdown call of one thread: it cancels, waits, returns, and closes the channel only if it
      is one that closes. */
  predicate OnItsWay(t: Thread, closes: bool) {
    match t
    case Calling(c) => c == closes
    case Cancelling(c, _) => c == closes
    case Awaiting(c, _) => c == closes
    case Released(c) => c == closes
    case Closed => closes
    case _ => false
  }

  lemma {:induction false} CallKeepsItsPurpose(t: Trace, m: nat, n: nat, i: nat, closes: bool)
    requires t.Valid() && m <= n < |t.states| && i < |t.states[m].threads| && OnItsWay(t.states[m].threads[i], closes)
    ensures i < |t.states[n].threads| && OnItsWay(t.states[n].threads[i], closes)
    decreases n - m
  {
    if m == n {
    } else {
      CallKeepsItsPurpose(t, m, n - 1, i, closes);
      assert t.Follows(n - 1);
    }
  }

  /** The channel is closed exactly if a call that closes it has run to its end. */
  lemma {:induction false} ClosedIff(t: Trace, n: nat)
    requires t.Valid() && n < |t.states|
    ensures !t.states[n].channelOpen <==> Closed in t.states[n].threads
  {
    if n == 0 {
    } else {
      ClosedIff(t, n - 1);
      assert t.Follows(n - 1);
      var s, e, after := t.states[n - 1], t.events[n - 1], t.states[n];
      if Closed in s.threads {
        var k :| 0 <= k < |s.threads| && s.threads[k] == Closed;
        assert after.threads[k] == Closed;
      }
      if Closed in after.threads {
        var k :| 0 <= k < |after.threads| && after.threads[k] == Closed;
        if k < |s.threads| && s.threads[k] == Closed {
        } else {
          assert e.Run? && e.index == k;
        }
      }
      if e.Run? && s.threads[e.index].Released? {
        assert after.threads[e.index] == Closed;
      }
    }
  }

  // ----- No lost wakeup -----

  /** An awaiting caller is blocked exactly while a handler is begun or the last one still holds the
      completion it is about to signal. */
  lemma AwaitingIsReleasedIff(t: Trace, n: nat, i: nat)
    requires t.Valid() && n < |t.states| && i < |t.states[n].threads| && t.states[n].threads[i].Awaiting?
    ensures var s := t.states[n];
            CanStep(s, i) <==> forall k :: 0 <= k < |s.threads| ==>
                                 !IsBegun(s.threads[k]) && s.threads[k] != Signalling(s.threads[i].awaited)
  {
    AlwaysInv(t, n);
    var s := t.states[n];
    assert ThreadOk(s, s.threads[i]);
    SumPositive(s.threads, Begun());
    SumPositive(s.threads, AboutToSignal(s.gate.Current()));
    forall k | 0 <= k < |s.threads| ensures IsBegun(s.threads[k]) ==> Begun()(s.threads[k]) > 0 {
    }
    forall k | 0 <= k < |s.threads|
      ensures s.threads[k] == Signalling(s.threads[i].awaited) ==> AboutToSignal(s.gate.Current())(s.threads[k]) > 0
    {
    }
  }

  predicate Done(t: Thread) { t.Refused? || t.Finished? || t.Closed? || t == Released(false) }

  /** No deadlock: as long as some thread is not done, some thread can step. */
  lemma SomeoneCanStep(t: Trace, n: nat, i: nat)
    requires t.Valid() && n < |t.states| && i < |t.states[n].threads| && !Done(t.states[n].threads[i])
    ensures exists k :: 0 <= k < |t.states[n].threads| && CanStep(t.states[n], k)
  {
    var s := t.states[n];
    if !CanStep(s, i) {
      AwaitingIsReleasedIff(t, n, i);
      var k :| 0 <= k < |s.threads| && (IsBegun(s.threads[k]) || s.threads[k] == Signalling(s.threads[i].awaited));
      assert CanStep(s, k);
    }
  }

  /** The steps a thread can still take. */
  function Rank(): Thread -> nat {
    (t: Thread) => match t
      case Arrived => 4
      case Working => 3
      case Settled => 2
      case Signalling(_) => 1
      case Calling(_) => 4
      case Cancelling(_, _) => 3
      case Awaiting(_, _) => 2
      case Released(closes) => if closes then 1 else 0
      case _ => 0
  }

  function Arrivals(events: seq<Event>, n: nat): nat
    requires n <= |events|
  {
    if n == 0 then 0 else Arrivals(events, n - 1) + (if events[n - 1].Arrive? then 1 else 0)
  }

  /** Every thread ends: in any run the steps taken plus the steps left are at most four for each arrival.
      With `SomeoneCanStep`, every run that is continued long enough releases every shutdown caller. */
  lemma {:induction false} EveryRunEnds(t: Trace, n: nat)
    requires t.Valid() && n < |t.states|
    ensures (n - Arrivals(t.events, n)) + Sum(t.states[n].threads, Rank()) <= 4 * Arrivals(t.events, n)
  {
    if n == 0 {
    } else {
      EveryRunEnds(t, n - 1);
      assert t.Follows(n - 1);
      var s, e, after := t.states[n - 1], t.events[n - 1], t.states[n];
      match e {
        case Arrive(x) => SumAppend(s.threads, x, Rank());
        case Run(i) => SumUpdate(s.threads, i, after.threads[i], Rank());
      }
    }
  }
}
