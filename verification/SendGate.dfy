/** Any number of worker handlers passing the two rate gates of `ProcessMessageAsync` and sending.
    Every script evaluation, every reply, every send and every crash is a step of its own, so all
    interleavings of all handlers are runs of this machine. */
module SendGate {
  import opened TokenBucket
  import opened Fairness
  import opened RateLimiter
  import opened Counting

  /** Where a handler stands: waiting at a gate, past both, sent, or settled (also by a crash). */
  datatype Phase = AtProvider | AtCredential | Ready | Sent | Gone

  /** One delivery being handled: which worker holds it and which two keys it must pass. */
  datatype Handler = Handler(worker: nat, provider: string, credential: string, phase: Phase)

  datatype Fleet = Fleet(store: Store, handlers: seq<Handler>)

  datatype Event =
    | Deliver(to: nat, provider: string, credential: string)
    | Attempt(handler: nat, call: Call, answered: bool)
    | Send(handler: nat)
    | Leave(handler: nat)

  datatype Config = Config(limits: string -> Limit, workers: nat, prefetch: nat) {
    ghost predicate Valid() { forall k :: limits(k).Valid() }
  }

  // ----- The machine -----

  const EMPTY := Fleet(map[], [])

  function GateKey(h: Handler): string {
    if h.phase.AtProvider? then h.provider else h.credential
  }

  function HeldBy(worker: nat): Handler -> nat {
    (h: Handler) => if h.worker == worker && !h.phase.Gone? then 1 else 0
  }

  predicate Enabled(cfg: Config, f: Fleet, e: Event) {
    match e
    case Deliver(to, _, _) => to < cfg.workers && Sum(f.handlers, HeldBy(to)) < cfg.prefetch
    case Attempt(h, _, _) => h < |f.handlers| && (f.handlers[h].phase.AtProvider? || f.handlers[h].phase.AtCredential?)
    case Send(h) => h < |f.handlers| && f.handlers[h].phase.Ready?
    case Leave(h) => h < |f.handlers| && !f.handlers[h].phase.Gone?
  }

  ghost predicate Grants(cfg: Config, f: Fleet, e: Event, key: string)
    requires cfg.Valid() && Enabled(cfg, f, e)
  {
    e.Attempt? && GateKey(f.handlers[e.handler]) == key && ReplyFrom(f.store, key, cfg.limits(key), e.call).acquired
  }

  ghost function Step(cfg: Config, f: Fleet, e: Event): Fleet
    requires cfg.Valid() && Enabled(cfg, f, e)
  {
    match e
    case Deliver(to, p, c) => f.(handlers := f.handlers + [Handler(to, p, c, AtProvider)])
    case Attempt(i, call, answered) =>
      var h := f.handlers[i];
      var key := GateKey(h);
      var passes := answered && Accepts(Received(ReplyFrom(f.store, key, cfg.limits(key), call)));
      var next := if !passes then h.phase else if h.phase.AtProvider? then AtCredential else Ready;
      Fleet(StoreAfter(f.store, key, cfg.limits(key), call), f.handlers[i := h.(phase := next)])
    case Send(i) => f.(handlers := f.handlers[i := f.handlers[i].(phase := Sent)])
    case Leave(i) => f.(handlers := f.handlers[i := f.handlers[i].(phase := Gone)])
  }

  /** Each event touches one handler and, if it is an attempt, one key: a handler passes the gate it stands at exactly
      if its script took a token and the answer arrived. */
  lemma HandlerMoves(cfg: Config, f: Fleet, e: Event)
    requires cfg.Valid() && Enabled(cfg, f, e)
    ensures var after := Step(cfg, f, e);
            match e
            case Deliver(to, p, c) => after == Fleet(f.store, f.handlers + [Handler(to, p, c, AtProvider)])
            case Send(i) => after == Fleet(f.store, f.handlers[i := f.handlers[i].(phase := Sent)])
            case Leave(i) => after == Fleet(f.store, f.handlers[i := f.handlers[i].(phase := Gone)])
            case Attempt(i, call, answered) =>
              var h := f.handlers[i];
              var key := if h.phase == AtProvider then h.provider else h.credential;
              var passes := answered && ReplyFrom(f.store, key, cfg.limits(key), call).acquired;
              && after.store == StoreAfter(f.store, key, cfg.limits(key), call)
              && after.handlers
                 == f.handlers[i := h.(phase := if !passes then h.phase
                                                else if h.phase == AtProvider then AtCredential else Ready)]
  {
    hide ReplyFrom, StoreAfter, Accepts, Received;
    if e.Attempt? {
      var k := GateKey(f.handlers[e.handler]);
      VerdictOnStore(f.store, k, cfg.limits(k), e.call);
    }
  }

  /** A run from an empty system: states[i] is the system before events[i]. */
  datatype Trace = Trace(states: seq<Fleet>, events: seq<Event>) {
    ghost predicate Valid(cfg: Config)
      requires cfg.Valid()
    {
      && |states| == |events| + 1
      && states[0] == EMPTY
      && (forall i :: 0 <= i < |events| ==> Follows(cfg, i))
    }

    ghost predicate Follows(cfg: Config, i: nat)
      requires cfg.Valid() && |states| == |events| + 1 && i < |events|
    {
      Enabled(cfg, states[i], events[i]) && states[i + 1] == Step(cfg, states[i], events[i])
    }

    ghost predicate GrantAt(cfg: Config, key: string, i: nat)
      requires cfg.Valid() && Valid(cfg) && i < |events|
    {
      assert Follows(cfg, i);
      Grants(cfg, states[i], events[i], key)
    }

    predicate SendAt(i: nat)
      requires i < |events|
    {
      events[i].Send?
    }
  }

  /** With a worker and a place, some run sends: a delivery, a grant at each gate, the send. */
  lemma SomeRunSends(cfg: Config, provider: string, credential: string, call: Call)
    requires cfg.Valid() && cfg.workers >= 1 && cfg.prefetch >= 1 && provider != credential
    ensures exists t: Trace :: t.Valid(cfg) && |t.events| == 4 && t.events[3] == Send(0)
                               && t.states[4].handlers == [Handler(0, provider, credential, Sent)]
  {
    var h := Handler(0, provider, credential, AtProvider);
    var s1 := Step(cfg, EMPTY, Deliver(0, provider, credential));
    assert s1.handlers == [h];
    FreshKeyGrants(s1.store, provider, cfg.limits(provider), call);
    HandlerMoves(cfg, s1, Attempt(0, call, true));
    var s2 := Step(cfg, s1, Attempt(0, call, true));
    assert s2.handlers == [h.(phase := AtCredential)] && credential !in s2.store;
    FreshKeyGrants(s2.store, credential, cfg.limits(credential), call);
    HandlerMoves(cfg, s2, Attempt(0, call, true));
    var s3 := Step(cfg, s2, Attempt(0, call, true));
    assert s3.handlers == [h.(phase := Ready)];
    var s4 := Step(cfg, s3, Send(0));
    var t := Trace([EMPTY, s1, s2, s3, s4],
                   [Deliver(0, provider, credential), Attempt(0, call, true), Attempt(0, call, true), Send(0)]);
    hide Step, Enabled;
    assert t.Follows(cfg, 0) && t.Follows(cfg, 1) && t.Follows(cfg, 2) && t.Follows(cfg, 3);
  }

  lemma FreshKeyGrants(store: Store, key: string, limit: Limit, call: Call)
    requires limit.Valid() && key !in store
    ensures ReplyFrom(store, key, limit, call).acquired
  {
    EvaluateFresh(call.clock, limit);
  }

  // ----- Counting grants and sends in a window of events -----

  ghost function GrantCount(cfg: Config, t: Trace, key: string, i: nat, j: nat): nat
    requires cfg.Valid() && t.Valid(cfg) && i <= j <= |t.events|
  {
    if i == j then 0 else GrantCount(cfg, t, key, i, j - 1) + (if t.GrantAt(cfg, key, j - 1) then 1 else 0)
  }

  /** Sends by handlers for which `through` is 1. */
  ghost function SendCount(cfg: Config, t: Trace, through: Handler -> nat, i: nat, j: nat): nat
    requires cfg.Valid() && t.Valid(cfg) && i <= j <= |t.events|
  {
    if i == j then 0
    else
      assert t.Follows(cfg, j - 1);
      SendCount(cfg, t, through, i, j - 1)
      + (if t.SendAt(j - 1) then through(t.states[j - 1].handlers[t.events[j - 1].handler]) else 0)
  }

  function Through(key: string): Handler -> nat {
    (h: Handler) => if h.provider == key then 1 else 0
  }

  function ThroughCredential(key: string): Handler -> nat {
    (h: Handler) => if h.credential == key then 1 else 0
  }

  /** Handlers that hold a grant of the provider bucket `key` and have not sent yet. */
  function HoldsProviderGrant(key: string): Handler -> nat {
    (h: Handler) => if h.provider == key && (h.phase.AtCredential? || h.phase.Ready?) then 1 else 0
  }

  function HoldsCredentialGrant(key: string): Handler -> nat {
    (h: Handler) => if h.credential == key && h.phase.Ready? then 1 else 0
  }

  // ----- Every send has its own grant -----

  /** One step: sends plus grants still held grow by no more than the grants. */
  lemma StepSpendsProviderGrants(cfg: Config, f: Fleet, e: Event, key: string)
    requires cfg.Valid() && Enabled(cfg, f, e)
    ensures var sent := if e.Send? then Through(key)(f.handlers[e.handler]) else 0;
            sent + Sum(Step(cfg, f, e).handlers, HoldsProviderGrant(key))
            <= Sum(f.handlers, HoldsProviderGrant(key)) + (if Grants(cfg, f, e, key) then 1 else 0)
  {
    hide ReplyFrom, StoreAfter;
    var after := Step(cfg, f, e);
    if e.Deliver? {
      SumAppend(f.handlers, Handler(e.to, e.provider, e.credential, AtProvider), HoldsProviderGrant(key));
    } else {
      SumUpdate(f.handlers, e.handler, after.handlers[e.handler], HoldsProviderGrant(key));
      if e.Attempt? {
        var k := GateKey(f.handlers[e.handler]);
        VerdictOnStore(f.store, k, cfg.limits(k), e.call);
      }
    }
  }

  lemma StepSpendsCredentialGrants(cfg: Config, f: Fleet, e: Event, key: string)
    requires cfg.Valid() && Enabled(cfg, f, e)
    ensures var sent := if e.Send? then ThroughCredential(key)(f.handlers[e.handler]) else 0;
            sent + Sum(Step(cfg, f, e).handlers, HoldsCredentialGrant(key))
            <= Sum(f.handlers, HoldsCredentialGrant(key)) + (if Grants(cfg, f, e, key) then 1 else 0)
  {
    hide ReplyFrom, StoreAfter;
    var after := Step(cfg, f, e);
    if e.Deliver? {
      SumAppend(f.handlers, Handler(e.to, e.provider, e.credential, AtProvider), HoldsCredentialGrant(key));
    } else {
      SumUpdate(f.handlers, e.handler, after.handlers[e.handler], HoldsCredentialGrant(key));
      if e.Attempt? {
        var k := GateKey(f.handlers[e.handler]);
        VerdictOnStore(f.store, k, cfg.limits(k), e.call);
      }
    }
  }

  /** In every window the sends through a provider key are at most its grants in the window plus the
      handlers that already held a grant when the window opened. */
  lemma {:induction false} SendsSpendProviderGrants(cfg: Config, t: Trace, key: string, i: nat, j: nat)
    requires cfg.Valid() && t.Valid(cfg) && i <= j <= |t.events|
    ensures SendCount(cfg, t, Through(key), i, j) + Sum(t.states[j].handlers, HoldsProviderGrant(key))
         <= GrantCount(cfg, t, key, i, j) + Sum(t.states[i].handlers, HoldsProviderGrant(key))
    decreases j - i
  {
    hide Enabled, Step, Grants;
    if i == j {
    } else {
      SendsSpendProviderGrants(cfg, t, key, i, j - 1);
      assert t.Follows(cfg, j - 1);
      StepSpendsProviderGrants(cfg, t.states[j - 1], t.events[j - 1], key);
    }
  }

  lemma {:induction false} SendsSpendCredentialGrants(cfg: Config, t: Trace, key: string, i: nat, j: nat)
    requires cfg.Valid() && t.Valid(cfg) && i <= j <= |t.events|
    ensures SendCount(cfg, t, ThroughCredential(key), i, j) + Sum(t.states[j].handlers, HoldsCredentialGrant(key))
         <= GrantCount(cfg, t, key, i, j) + Sum(t.states[i].handlers, HoldsCredentialGrant(key))
    decreases j - i
  {
    hide Enabled, Step, Grants;
    if i == j {
    } else {
      SendsSpendCredentialGrants(cfg, t, key, i, j - 1);
      assert t.Follows(cfg, j - 1);
      StepSpendsCredentialGrants(cfg, t.states[j - 1], t.events[j - 1], key);
    }
  }

  /** A received grant of handler h on `key` at event g. */
  ghost predicate OwnGrant(cfg: Config, t: Trace, h: nat, key: string, g: nat)
    requires cfg.Valid() && t.Valid(cfg)
  {
    && g < |t.events| && t.events[g].Attempt? && t.events[g].handler == h && t.events[g].answered
    && t.GrantAt(cfg, key, g)
  }

  /** How far a handler has come is backed by its own received grants, in the order of the gates. */
  lemma {:induction false} PhaseIsEarned(cfg: Config, t: Trace, n: nat, h: nat)
    requires cfg.Valid() && t.Valid(cfg) && n <= |t.events| && h < |t.states[n].handlers|
    ensures var x := t.states[n].handlers[h];
            && (x.phase.AtCredential? ==> exists g: nat :: g < n && OwnGrant(cfg, t, h, x.provider, g))
            && (x.phase.Ready? || x.phase.Sent? ==>
                  exists g: nat, c: nat ::
                    g < c < n && OwnGrant(cfg, t, h, x.provider, g) && OwnGrant(cfg, t, h, x.credential, c))
  {
    hide ReplyFrom, StoreAfter;
    if n == 0 {
    } else {
      assert t.Follows(cfg, n - 1);
      var f, e := t.states[n - 1], t.events[n - 1];
      if h < |f.handlers| {
        PhaseIsEarned(cfg, t, n - 1, h);
        if e.Attempt? && e.handler == h {
          var key := GateKey(f.handlers[h]);
          VerdictOnStore(f.store, key, cfg.limits(key), e.call);
          if t.states[n].handlers[h].phase != f.handlers[h].phase {
            assert OwnGrant(cfg, t, h, key, n - 1);
          }
        }
      }
    }
  }

  lemma {:induction false} SentIsFinal(cfg: Config, t: Trace, m: nat, n: nat, h: nat)
    requires cfg.Valid() && t.Valid(cfg) && m <= n <= |t.events| && h < |t.states[m].handlers|
    requires t.states[m].handlers[h].phase.Sent? || t.states[m].handlers[h].phase.Gone?
    ensures h < |t.states[n].handlers|
    ensures t.states[n].handlers[h].phase.Sent? || t.states[n].handlers[h].phase.Gone?
    decreases n - m
  {
    hide ReplyFrom, StoreAfter;
    if m == n {
    } else {
      SentIsFinal(cfg, t, m, n - 1, h);
      assert t.Follows(cfg, n - 1);
    }
  }

  /** Sends map injectively to grants: each send is preceded by a received provider grant and then a
      received credential grant of the same handler, and no handler sends twice. */
  lemma EverySendHasItsOwnGrants(cfg: Config, t: Trace, k: nat)
    requires cfg.Valid() && t.Valid(cfg) && k < |t.events| && t.SendAt(k)
    ensures t.events[k].handler < |t.states[k].handlers|
    ensures var h := t.events[k].handler; var x := t.states[k].handlers[h];
            exists g: nat, c: nat ::
              g < c < k && OwnGrant(cfg, t, h, x.provider, g) && OwnGrant(cfg, t, h, x.credential, c)
    ensures forall l :: k < l < |t.events| && t.SendAt(l) ==> t.events[l].handler != t.events[k].handler
  {
    assert t.Follows(cfg, k);
    var h := t.events[k].handler;
    PhaseIsEarned(cfg, t, k, h);
    forall l | k < l < |t.events| && t.SendAt(l) ensures t.events[l].handler != h {
      assert t.Follows(cfg, l);
      SentIsFinal(cfg, t, k + 1, l, h);
    }
  }

  // ----- Every grant is used or lost -----

  /** Event i moves a handler past the gate of `key`. */
  ghost predicate PassAt(cfg: Config, t: Trace, key: string, i: nat)
    requires cfg.Valid() && t.Valid(cfg) && i < |t.events|
  {
    assert t.Follows(cfg, i);
    var e := t.events[i];
    && e.Attempt? && GateKey(t.states[i].handlers[e.handler]) == key
    && t.states[i + 1].handlers[e.handler].phase != t.states[i].handlers[e.handler].phase
  }

  ghost function PassCount(cfg: Config, t: Trace, key: string, i: nat, j: nat): nat
    requires cfg.Valid() && t.Valid(cfg) && i <= j <= |t.events|
  {
    if i == j then 0 else PassCount(cfg, t, key, i, j - 1) + (if PassAt(cfg, t, key, j - 1) then 1 else 0)
  }

  /** Grants whose reply never reached the handler. */
  ghost function LostCount(cfg: Config, t: Trace, key: string, i: nat, j: nat): nat
    requires cfg.Valid() && t.Valid(cfg) && i <= j <= |t.events|
  {
    if i == j then 0
    else LostCount(cfg, t, key, i, j - 1)
         + (if t.GrantAt(cfg, key, j - 1) && !t.events[j - 1].answered then 1 else 0)
  }

  /** Lost replies only tighten the limit: in every window of every run the tokens one bucket grants are the
      handlers it lets pass plus the grants whose reply was lost. */
  lemma {:induction false} GrantsAreUsedOrLost(cfg: Config, t: Trace, key: string, i: nat, j: nat)
    requires cfg.Valid() && t.Valid(cfg) && i <= j <= |t.events|
    ensures GrantCount(cfg, t, key, i, j) == PassCount(cfg, t, key, i, j) + LostCount(cfg, t, key, i, j)
    decreases j - i
  {
    hide ReplyFrom, StoreAfter, Accepts, Received;
    if i == j {
    } else {
      GrantsAreUsedOrLost(cfg, t, key, i, j - 1);
      assert t.Follows(cfg, j - 1);
      var f, e := t.states[j - 1], t.events[j - 1];
      if e.Attempt? {
        var k := GateKey(f.handlers[e.handler]);
        VerdictOnStore(f.store, k, cfg.limits(k), e.call);
      }
    }
  }

  // ----- Prefetch bounds the handlers in flight -----

  /** The handlers in flight at workers below n. */
  function HeldBelow(n: nat): Handler -> nat {
    (h: Handler) => if h.worker < n && !h.phase.Gone? then 1 else 0
  }

  ghost predicate WithinPrefetch(cfg: Config, f: Fleet) {
    && (forall h :: h in f.handlers ==> h.worker < cfg.workers)
    && (forall w: nat :: Sum(f.handlers, HeldBy(w)) <= cfg.prefetch)
  }

  lemma {:induction false} PrefetchIsKept(cfg: Config, t: Trace, n: nat)
    requires cfg.Valid() && t.Valid(cfg) && n <= |t.events|
    ensures WithinPrefetch(cfg, t.states[n])
  {
    hide ReplyFrom, StoreAfter;
    if n == 0 {
    } else {
      PrefetchIsKept(cfg, t, n - 1);
      assert t.Follows(cfg, n - 1);
      var f, e, after := t.states[n - 1], t.events[n - 1], t.states[n];
      forall w: nat ensures Sum(after.handlers, HeldBy(w)) <= cfg.prefetch {
        if e.Deliver? {
          SumAppend(f.handlers, Handler(e.to, e.provider, e.credential, AtProvider), HeldBy(w));
        } else {
          SumUpdate(f.handlers, e.handler, after.handlers[e.handler], HeldBy(w));
        }
      }
    }
  }

  lemma {:induction false} HeldBelowBound(cfg: Config, f: Fleet, n: nat)
    requires WithinPrefetch(cfg, f)
    ensures Sum(f.handlers, HeldBelow(n)) <= n * cfg.prefetch
  {
    if n == 0 {
      SumPositive(f.handlers, HeldBelow(0));
    } else {
      HeldBelowBound(cfg, f, n - 1);
      SumSplits(f.handlers, HeldBelow(n), HeldBelow(n - 1), HeldBy(n - 1));
      assert (n - 1) * cfg.prefetch + cfg.prefetch == n * cfg.prefetch;
    }
  }

  lemma HoldersWithinPrefetch(cfg: Config, t: Trace, key: string, n: nat)
    requires cfg.Valid() && t.Valid(cfg) && n <= |t.events|
    ensures Sum(t.states[n].handlers, HoldsProviderGrant(key)) <= cfg.workers * cfg.prefetch
    ensures Sum(t.states[n].handlers, HoldsCredentialGrant(key)) <= cfg.workers * cfg.prefetch
  {
    PrefetchIsKept(cfg, t, n);
    var hs := t.states[n].handlers;
    HeldBelowBound(cfg, t.states[n], cfg.workers);
    SumAtMost(hs, HoldsProviderGrant(key), HeldBelow(cfg.workers));
    SumAtMost(hs, HoldsCredentialGrant(key), HeldBelow(cfg.workers));
  }

  // ----- From the fleet to one bucket -----

  /** Event i evaluates the script on `key`. */
  ghost predicate CallsKey(cfg: Config, t: Trace, key: string, i: nat)
    requires cfg.Valid() && t.Valid(cfg) && i < |t.events|
  {
    assert t.Follows(cfg, i);
    t.events[i].Attempt? && GateKey(t.states[i].handlers[t.events[i].handler]) == key
  }

  /** The evaluations on `key` among the first n events. */
  ghost function CallsOn(cfg: Config, t: Trace, key: string, n: nat): seq<Call>
    requires cfg.Valid() && t.Valid(cfg) && n <= |t.events|
  {
    if n == 0 then []
    else CallsOn(cfg, t, key, n - 1) + (if CallsKey(cfg, t, key, n - 1) then [t.events[n - 1].call] else [])
  }

  lemma {:induction false} CallsOnGrows(cfg: Config, t: Trace, key: string, m: nat, n: nat)
    requires cfg.Valid() && t.Valid(cfg) && m <= n <= |t.events|
    ensures CallsOn(cfg, t, key, m) <= CallsOn(cfg, t, key, n)
    decreases n - m
  {
    if m == n {
    } else {
      CallsOnGrows(cfg, t, key, m, n - 1);
    }
  }

  /** What Redis holds under `key` is what the evaluations on `key` alone put there: steps on other keys
      never change this bucket. */
  lemma {:induction false} BucketSeesOnlyItsCalls(cfg: Config, t: Trace, key: string, n: nat)
    requires cfg.Valid() && t.Valid(cfg) && n <= |t.events|
    ensures var all := CallsOn(cfg, t, key, |t.events|);
            var p := |CallsOn(cfg, t, key, n)|;
            p <= |all| && Lookup(t.states[n].store, key) == EntryAt(all, cfg.limits(key), p)
  {
    hide EvaluateEntry, Accepts, Received;
    CallsOnGrows(cfg, t, key, n, |t.events|);
    if n == 0 {
    } else {
      BucketSeesOnlyItsCalls(cfg, t, key, n - 1);
      assert t.Follows(cfg, n - 1);
    }
  }

  lemma {:induction false} GrantsAreBucketGrants(cfg: Config, t: Trace, key: string, i: nat, j: nat)
    requires cfg.Valid() && t.Valid(cfg) && i <= j <= |t.events|
    ensures |CallsOn(cfg, t, key, i)| <= |CallsOn(cfg, t, key, j)| <= |CallsOn(cfg, t, key, |t.events|)|
    ensures GrantCount(cfg, t, key, i, j)
         == ExpiringGranted(CallsOn(cfg, t, key, |t.events|), cfg.limits(key),
                            |CallsOn(cfg, t, key, i)|, |CallsOn(cfg, t, key, j)|)
    decreases j - i
  {
    hide EvaluateEntry, Accepts, Received, EntryAt;
    CallsOnGrows(cfg, t, key, i, j);
    CallsOnGrows(cfg, t, key, j, |t.events|);
    if i == j {
    } else {
      GrantsAreBucketGrants(cfg, t, key, i, j - 1);
      CallsOnGrows(cfg, t, key, j - 1, j);
      BucketSeesOnlyItsCalls(cfg, t, key, j - 1);
      assert t.Follows(cfg, j - 1);
    }
  }

  // ----- Time, and the end-to-end rate -----

  /** Redis sees the evaluations in time order, and every client clock is within `skew` of Redis. */
  ghost predicate TimedTrace(t: Trace, skew: real) {
    && 0.0 <= skew
    && (forall i, j :: 0 <= i < j < |t.events| && t.events[i].Attempt? && t.events[j].Attempt?
          ==> t.events[i].call.server <= t.events[j].call.server)
    && (forall i :: 0 <= i < |t.events| && t.events[i].Attempt?
          ==> t.events[i].call.server - skew <= t.events[i].call.clock <= t.events[i].call.server + skew)
  }

  lemma {:induction false} CallsAreTimed(cfg: Config, t: Trace, key: string, skew: real, n: nat)
    requires cfg.Valid() && t.Valid(cfg) && TimedTrace(t, skew) && n <= |t.events|
    ensures Timed(CallsOn(cfg, t, key, n), skew)
    ensures forall c, m :: c in CallsOn(cfg, t, key, n) && n <= m < |t.events| && t.events[m].Attempt?
                           ==> c.server <= t.events[m].call.server
  {
    hide Step, Enabled;
    if n == 0 {
    } else {
      CallsAreTimed(cfg, t, key, skew, n - 1);
    }
  }

  /** Events i..j run their evaluations within server times [from, to]. */
  ghost predicate Within(t: Trace, i: nat, j: nat, from: real, to: real)
    requires i <= j <= |t.events|
  {
    forall k :: i <= k < j && t.events[k].Attempt? ==> from <= t.events[k].call.server <= to
  }

  lemma {:induction false} CallsAreWithin(cfg: Config, t: Trace, key: string, i: nat, j: nat, from: real, to: real)
    requires cfg.Valid() && t.Valid(cfg) && i <= j <= |t.events| && Within(t, i, j, from, to)
    ensures |CallsOn(cfg, t, key, i)| <= |CallsOn(cfg, t, key, j)|
    ensures forall k :: |CallsOn(cfg, t, key, i)| <= k < |CallsOn(cfg, t, key, j)|
                        ==> from <= CallsOn(cfg, t, key, j)[k].server <= to
    decreases j - i
  {
    hide Step, Enabled;
    CallsOnGrows(cfg, t, key, i, j);
    if i == j {
    } else {
      CallsAreWithin(cfg, t, key, i, j - 1, from, to);
    }
  }

  /** The rate bound at fleet level: in every window of events of every run, one bucket grants at most its
      capacity plus what the elapsed time (and twice the clock skew) earns. */
  lemma FleetRateBound(cfg: Config, t: Trace, key: string, skew: real, i: nat, j: nat, from: real, to: real)
    requires cfg.Valid() && t.Valid(cfg) && TimedTrace(t, skew) && SkewWithinTtl(cfg.limits(key), skew)
    requires i <= j <= |t.events| && from <= to && Within(t, i, j, from, to)
    ensures GrantCount(cfg, t, key, i, j) as real
         <= cfg.limits(key).capacity + Earned(cfg.limits(key), to - from + 2.0 * skew)
  {
    hide Earned, EntryAt, EvaluateEntry, ExpiringGranted, GrantCount, CallsOn, Ttl;
    var limit, all := cfg.limits(key), CallsOn(cfg, t, key, |t.events|);
    var p, q := |CallsOn(cfg, t, key, i)|, |CallsOn(cfg, t, key, j)|;
    GrantsAreBucketGrants(cfg, t, key, i, j);
    EarnedSign(limit, to - from + 2.0 * skew);
    if p < q {
      CallsAreTimed(cfg, t, key, skew, |t.events|);
      CallsAreWithin(cfg, t, key, i, j, from, to);
      CallsOnGrows(cfg, t, key, j, |t.events|);
      RateBound(all, limit, skew, p, q - 1);
      EarnedGrows(limit, all[q - 1].server - all[p].server + 2.0 * skew, to - from + 2.0 * skew);
    } else {
      NoGrantsInEmptyWindow(all, limit, p);
    }
  }

  lemma NoGrantsInEmptyWindow(calls: seq<Call>, limit: Limit, i: nat)
    requires limit.Valid() && i <= |calls|
    ensures ExpiringGranted(calls, limit, i, i) == 0
  {
  }

  /** End to end: provider sends in any window of any run, counted over all workers, are at most the
      bucket's capacity, plus what the elapsed time earns, plus the total prefetch. */
  lemma SendRateBound(cfg: Config, t: Trace, key: string, skew: real, i: nat, j: nat, from: real, to: real)
    requires cfg.Valid() && t.Valid(cfg) && TimedTrace(t, skew) && SkewWithinTtl(cfg.limits(key), skew)
    requires i <= j <= |t.events| && from <= to && Within(t, i, j, from, to)
    ensures SendCount(cfg, t, Through(key), i, j) as real
         <= cfg.limits(key).capacity + Earned(cfg.limits(key), to - from + 2.0 * skew)
            + (cfg.workers * cfg.prefetch) as real
    ensures SendCount(cfg, t, ThroughCredential(key), i, j) as real
         <= cfg.limits(key).capacity + Earned(cfg.limits(key), to - from + 2.0 * skew)
            + (cfg.workers * cfg.prefetch) as real
  {
    hide Earned;
    FleetRateBound(cfg, t, key, skew, i, j, from, to);
    SendsSpendProviderGrants(cfg, t, key, i, j);
    SendsSpendCredentialGrants(cfg, t, key, i, j);
    HoldersWithinPrefetch(cfg, t, key, i);
  }

  /** The load test's verdict: counted from an idle system with synchronised clocks and the configured
      multiplier, the mean send rate over T seconds exceeds the limit by a factor of at most 1 + multiplier / T;
      for the shipped multiplier 1.5 and T >= 30 that is the test's tolerance of 5 percent. */
  lemma LoadTestTolerance(cfg: Config, t: Trace, key: string, multiplier: real, from: real, duration: real)
    requires cfg.Valid() && t.Valid(cfg) && TimedTrace(t, 0.0)
    requires multiplier >= 1.0 && cfg.limits(key).capacity == ResolveCapacity(cfg.limits(key).rps, multiplier)
    requires duration > 0.0 && Within(t, 0, |t.events|, from, from + duration)
    ensures var sends, rps := SendCount(cfg, t, Through(key), 0, |t.events|) as real, cfg.limits(key).rps as real;
            && sends <= rps * (duration + multiplier)
            && sends / duration <= rps * (1.0 + multiplier / duration)
            && (multiplier == 1.5 && duration >= 30.0 ==> sends / duration <= rps * (1.0 + 5.0 / 100.0))
  {
    var limit := cfg.limits(key);
    var sends, rps := SendCount(cfg, t, Through(key), 0, |t.events|) as real, limit.rps as real;
    CapacityIsMultiplied(limit.rps, multiplier);
    assert sends <= limit.capacity + Earned(limit, duration) by {
      hide Earned, ResolveCapacity;
      SynchronisedIsWithinTtl(limit);
      FleetRateBound(cfg, t, key, 0.0, 0, |t.events|, from, from + duration);
      SendsSpendProviderGrants(cfg, t, key, 0, |t.events|);
      assert t.states[0] == EMPTY;
    }
    hide GrantCount, SendCount;
    MeanRate(sends, rps, multiplier, duration);
  }

  lemma CapacityIsMultiplied(rps: int, multiplier: real)
    requires rps >= 1 && multiplier >= 1.0
    ensures ResolveCapacity(rps, multiplier) == rps as real * multiplier
  {
    assert rps as real * multiplier >= 1.0 * multiplier;
  }

  lemma MeanRate(sends: real, rps: real, multiplier: real, duration: real)
    requires rps >= 1.0 && multiplier >= 1.0 && duration > 0.0
    requires sends <= rps * multiplier + duration * rps
    ensures sends <= rps * (duration + multiplier)
    ensures sends / duration <= rps * (1.0 + multiplier / duration)
    ensures multiplier == 1.5 && duration >= 30.0 ==> sends / duration <= rps * (1.0 + 5.0 / 100.0)
  {
    var share := multiplier / duration;
    assert share * duration == multiplier;
    assert rps * (1.0 + share) * duration == rps * duration + rps * (share * duration);
    DivideBound(sends, rps * (1.0 + share), duration);
    if multiplier == 1.5 && duration >= 30.0 {
      DivideBound(multiplier, 0.05, duration);
      assert rps * (1.05 - (1.0 + share)) >= 0.0;
    }
  }

  lemma DivideBound(x: real, y: real, d: real)
    requires d > 0.0 && x <= y * d
    ensures x / d <= y
  {
    var q := x / d;
    assert q * d == x;
    if q > y {
      assert (q - y) * d > 0.0;
    }
  }
}
