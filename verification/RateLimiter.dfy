/** The Redis store with many keys, and the two `WaitAsync` loops that run against it while other clients
    use it too. What the environment does is a list of rounds, one for each turn of the loop. */
module RateLimiter {
  import opened Options
  import opened Counting
  import opened TokenBucket
  import opened Fairness

  type Store = map<string, Entry>

  /** Answered: the reply arrived. Late: the script ran but its reply was lost, timed out or null.
      Unreachable: the script never ran. */
  datatype Delivery = Answered | Late | Unreachable

  /** An evaluation on some key by some other client. */
  datatype ForeignCall = ForeignCall(key: string, limit: Limit, call: Call)

  /** One turn of the loop: is the token cancelled, what others do before our script runs, our script. */
  datatype Round = Round(cancelled: bool, others: seq<ForeignCall>, call: Call, delivery: Delivery)

  datatype Status = Returned | Cancelled | Waiting

  /** `taken` counts the tokens the script took for this client, `lost` those it never heard of. */
  datatype Progress = Progress(status: Status, store: Store, rounds: nat, waited: real, taken: nat, lost: nat)

  function Lookup(store: Store, key: string): Option<Entry> {
    if key in store then Some(store[key]) else None
  }

  function ReplyFrom(store: Store, key: string, limit: Limit, call: Call): Reply
    requires limit.Valid()
  {
    EvaluateEntry(Lookup(store, key), call, limit).0
  }

  function StoreAfter(store: Store, key: string, limit: Limit, call: Call): Store
    requires limit.Valid()
  {
    store[key := EvaluateEntry(Lookup(store, key), call, limit).1]
  }

  ghost predicate ValidCalls(others: seq<ForeignCall>) {
    forall o :: o in others ==> o.limit.Valid()
  }

  ghost predicate ValidRounds(rounds: seq<Round>) {
    forall r :: r in rounds ==> ValidCalls(r.others)
  }

  function AfterOthers(store: Store, others: seq<ForeignCall>, n: nat): Store
    requires ValidCalls(others) && n <= |others|
  {
    if n == 0 then store
    else
      var o := others[n - 1];
      StoreAfter(AfterOthers(store, others, n - 1), o.key, o.limit, o.call)
  }

  /** The local delay after an attempt without an answer. */
  function FallbackDelay(limit: Limit): real
    requires limit.Valid()
  {
    1.0 / limit.rps as real
  }

  /** What the loop does from round i on. */
  function WaitFrom(store: Store, key: string, limit: Limit, rounds: seq<Round>, i: nat, waited: real): Progress
    requires limit.Valid() && ValidRounds(rounds) && i <= |rounds|
    decreases |rounds| - i
  {
    if i == |rounds| then Progress(Waiting, store, i, waited, 0, 0)
    else if rounds[i].cancelled then Progress(Cancelled, store, i, waited, 0, 0)
    else
      var r := rounds[i];
      var before := AfterOthers(store, r.others, |r.others|);
      var fallback := FallbackDelay(limit);
      if r.delivery.Unreachable? then WaitFrom(before, key, limit, rounds, i + 1, waited + fallback)
      else
        var reply := ReplyFrom(before, key, limit, r.call);
        var after := StoreAfter(before, key, limit, r.call);
        var took := if reply.acquired then 1 else 0;
        if r.delivery.Late? then
          var rest := WaitFrom(after, key, limit, rounds, i + 1, waited + fallback);
          rest.(taken := rest.taken + took, lost := rest.lost + took)
        else
          var result := Received(reply);
          if Accepts(result) then Progress(Returned, after, i + 1, waited, took, 0)
          else
            var rest := WaitFrom(after, key, limit, rounds, i + 1, waited + RetryDelay(result, limit.rps));
            rest.(taken := rest.taken + took)
  }

  // ----- The loops -----

  class Redis {
    var store: Store

    constructor ()
      ensures store == map[]
    {
      store := map[];
    }

    /** The Lua script: reads the hash, refills, takes a token or computes the wait, writes the hash back
        and renews its expiry. `server` is the time Redis itself sees. */
    method EvalScript(key: string, call: Call, limit: Limit) returns (reply: Reply)
      requires limit.Valid()
      modifies this
      ensures reply == ReplyFrom(old(store), key, limit, call)
      ensures store == StoreAfter(old(store), key, limit, call)
    {
      if key in store && store[key].expiresAt <= call.server {
        store := store - {key};
      }
      var tokens := if key in store then store[key].bucket.tokens else limit.capacity;
      var lastRefill := if key in store then store[key].bucket.lastRefill else call.clock;
      var elapsed := call.clock - lastRefill;
      if elapsed < 0.0 {
        elapsed := 0.0;
      }
      var delta := Earned(limit, elapsed);
      if delta > 0.0 {
        tokens := Min(limit.capacity, tokens + delta);
        lastRefill := call.clock;
      }
      var wait, acquired, before := 0.0, false, tokens;
      if tokens >= 1.0 {
        tokens := tokens - 1.0;
        acquired := true;
      } else {
        wait := (1.0 - tokens) / limit.rps as real;
      }
      var ttl := Ceil(limit.capacity / limit.rps as real * 2.0);
      if ttl < 1 {
        ttl := 1;
      }
      store := store[key := Entry(Bucket(tokens, lastRefill), call.server + ttl as real)];
      reply := Reply(wait, tokens, before, acquired);
    }

    method Interfere(others: seq<ForeignCall>)
      requires ValidCalls(others)
      modifies this
      ensures store == AfterOthers(old(store), others, |others|)
    {
      for n := 0 to |others|
        invariant store == AfterOthers(old(store), others, n)
      {
        var _ := EvalScript(others[n].key, others[n].call, others[n].limit);
      }
    }
  }

  class RedisRateLimiter {
    const redis: Redis

    constructor (redis: Redis)
      ensures this.redis == redis
    {
      this.redis := redis;
    }

    /** The loop shared by the two overloads once the limit is known to be positive. */
    method Loop(key: string, limit: Limit, rounds: seq<Round>) returns (p: Progress)
      requires limit.Valid() && ValidRounds(rounds)
      modifies redis
      ensures p == WaitFrom(old(redis.store), key, limit, rounds, 0, 0.0)
      ensures redis.store == p.store
    {
      hide EvaluateEntry, RetryDelay, Accepts, FallbackDelay, Received, AfterOthers, ReplyFrom, StoreAfter;
      var i, totalWait, taken, lost := 0, 0.0, 0, 0;
      ghost var whole := WaitFrom(redis.store, key, limit, rounds, 0, 0.0);
      while i < |rounds| && !rounds[i].cancelled
        invariant 0 <= i <= |rounds|
        invariant var rest := WaitFrom(redis.store, key, limit, rounds, i, totalWait);
                  whole == rest.(taken := rest.taken + taken, lost := rest.lost + lost)
      {
        var r := rounds[i];
        redis.Interfere(r.others);
        i := i + 1;
        if r.delivery.Unreachable? {
          totalWait := totalWait + FallbackDelay(limit);
          continue;
        }
        var reply := redis.EvalScript(key, r.call, limit);
        taken := taken + if reply.acquired then 1 else 0;
        if r.delivery.Late? {
          lost := lost + if reply.acquired then 1 else 0;
          totalWait := totalWait + FallbackDelay(limit);
          continue;
        }
        var result := Received(reply);
        if Accepts(result) {
          return Progress(Returned, redis.store, i, totalWait, taken, lost);
        }
        totalWait := totalWait + RetryDelay(result, limit.rps);
      }
      return Progress(if i < |rounds| then Cancelled else Waiting, redis.store, i, totalWait, taken, lost);
    }

    /** The provider overload: without a positive limit it returns at once, unless it is cancelled. */
    method WaitProvider(key: string, maxRps: int, multiplier: real, rounds: seq<Round>) returns (p: Progress)
      requires ValidRounds(rounds)
      modifies redis
      ensures redis.store == p.store
      ensures maxRps > 0 ==>
                p == WaitFrom(old(redis.store), key, Limit(maxRps, ResolveCapacity(maxRps, multiplier)), rounds, 0, 0.0)
      ensures maxRps <= 0 ==>
                p == Progress(if |rounds| > 0 && rounds[0].cancelled then Cancelled else Returned,
                              old(redis.store), 0, 0.0, 0, 0)
    {
      if maxRps <= 0 {
        return Progress(if |rounds| > 0 && rounds[0].cancelled then Cancelled else Returned, redis.store, 0, 0.0, 0, 0);
      }
      p := Loop(key, Limit(maxRps, ResolveCapacity(maxRps, multiplier)), rounds);
    }

    /** The credential overload: a blank credential or no limit returns at once, cancelled or not. */
    method WaitCredential(key: string, blank: bool, maxRps: int, multiplier: real, rounds: seq<Round>)
      returns (p: Progress)
      requires ValidRounds(rounds)
      modifies redis
      ensures redis.store == p.store
      ensures !blank && maxRps > 0 ==>
                p == WaitFrom(old(redis.store), key, Limit(maxRps, ResolveCapacity(maxRps, multiplier)), rounds, 0, 0.0)
      ensures blank || maxRps <= 0 ==> p == Progress(Returned, old(redis.store), 0, 0.0, 0, 0)
    {
      if blank || maxRps <= 0 {
        return Progress(Returned, redis.store, 0, 0.0, 0, 0);
      }
      p := Loop(key, Limit(maxRps, ResolveCapacity(maxRps, multiplier)), rounds);
    }
  }

  // ----- What a call of the loop amounts to -----

  /** Lost replies only tighten the limit: a call returns normally exactly when one of its own acquisitions
      was answered, and every other token taken for it was lost on the way back. */
  lemma {:induction false} ReturnsOnlyOnOwnGrant(store: Store, key: string, limit: Limit, rounds: seq<Round>,
                                                 i: nat, waited: real)
    requires limit.Valid() && ValidRounds(rounds) && i <= |rounds|
    ensures var p := WaitFrom(store, key, limit, rounds, i, waited);
            && p.taken == p.lost + (if p.status == Returned then 1 else 0)
            && i <= p.rounds <= |rounds|
            && (p.status == Returned ==> p.rounds > i && rounds[p.rounds - 1].delivery == Answered)
            && (p.status == Waiting ==> p.rounds == |rounds|)
            && (p.status == Cancelled ==> p.rounds < |rounds| && rounds[p.rounds].cancelled)
            && forall k :: i <= k < p.rounds ==> !rounds[k].cancelled
    decreases |rounds| - i
  {
    hide EvaluateEntry, RetryDelay, StoreAfter, FallbackDelay, Accepts, Received, AfterOthers, ReplyFrom;
    if i == |rounds| || rounds[i].cancelled {
    } else {
      var r := rounds[i];
      var before := AfterOthers(store, r.others, |r.others|);
      var fallback := FallbackDelay(limit);
      if r.delivery.Unreachable? {
        ReturnsOnlyOnOwnGrant(before, key, limit, rounds, i + 1, waited + fallback);
      } else {
        var reply := ReplyFrom(before, key, limit, r.call);
        var after := StoreAfter(before, key, limit, r.call);
        var result := Received(reply);
        VerdictOnStore(before, key, limit, r.call);
        if r.delivery.Late? {
          ReturnsOnlyOnOwnGrant(after, key, limit, rounds, i + 1, waited + fallback);
        } else if !Accepts(result) {
          ReturnsOnlyOnOwnGrant(after, key, limit, rounds, i + 1, waited + RetryDelay(result, limit.rps));
        }
      }
    }
  }

  lemma VerdictOnStore(store: Store, key: string, limit: Limit, call: Call)
    requires limit.Valid()
    ensures var r := ReplyFrom(store, key, limit, call); Accepts(Received(r)) <==> r.acquired
  {
    VerdictSurvivesTheWire(Live(Lookup(store, key), call.server), call.clock, limit);
  }

  /** No bucket of the store is overdrawn. */
  ghost predicate NotOverdrawn(store: Store) { forall k :: k in store ==> store[k].bucket.tokens >= 0.0 }

  lemma EvaluationKeepsStore(store: Store, key: string, limit: Limit, call: Call)
    requires limit.Valid() && NotOverdrawn(store)
    ensures NotOverdrawn(StoreAfter(store, key, limit, call))
    ensures Refilled(Live(Lookup(store, key), call.server), call.clock, limit).tokens >= 0.0
  {
    hide Earned, Ttl;
    EarnedSign(limit, 0.0);
  }

  lemma {:induction false} OthersKeepStore(store: Store, others: seq<ForeignCall>, n: nat)
    requires ValidCalls(others) && n <= |others| && NotOverdrawn(store)
    ensures NotOverdrawn(AfterOthers(store, others, n))
  {
    hide StoreAfter, NotOverdrawn;
    if n == 0 {
    } else {
      OthersKeepStore(store, others, n - 1);
      var o := others[n - 1];
      EvaluationKeepsStore(AfterOthers(store, others, n - 1), o.key, o.limit, o.call);
    }
  }

  /** The turns from i to n that got no answer. */
  function Unanswered(rounds: seq<Round>, i: nat, n: nat): nat
    requires i <= n <= |rounds|
    decreases n - i
  {
    if i == n then 0 else (if rounds[i].delivery == Answered then 0 else 1) + Unanswered(rounds, i + 1, n)
  }

  /** n delays of the same length. */
  function Delays(n: int, each: real): real { n as real * each }

  lemma OneMoreDelay(n: int, each: real)
    ensures Delays(n + 1, each) == Delays(n, each) + each && Delays(0, each) == 0.0
  {
  }

  lemma DelaysAre(n: int, each: real)
    ensures Delays(n, each) == n as real * each
  {
  }

  lemma RefusalDelay(store: Store, key: string, limit: Limit, call: Call)
    requires limit.Valid() && NotOverdrawn(store) && !ReplyFrom(store, key, limit, call).acquired
    ensures RetryDelay(Received(ReplyFrom(store, key, limit, call)), limit.rps) == Max(0.001, 1.0 / limit.rps as real)
  {
    EvaluationKeepsStore(store, key, limit, call);
    DelayOfRefusal(Live(Lookup(store, key), call.server), call.clock, limit);
  }

  // One turn: does it return, with which store and after which delay does the loop go on?

  predicate TurnReturns(store: Store, key: string, limit: Limit, r: Round)
    requires limit.Valid()
  {
    r.delivery.Answered? && Accepts(Received(ReplyFrom(store, key, limit, r.call)))
  }

  function TurnStore(store: Store, key: string, limit: Limit, r: Round): Store
    requires limit.Valid()
  {
    if r.delivery.Unreachable? then store else StoreAfter(store, key, limit, r.call)
  }

  function TurnDelay(store: Store, key: string, limit: Limit, r: Round): real
    requires limit.Valid()
  {
    if r.delivery.Answered? then RetryDelay(Received(ReplyFrom(store, key, limit, r.call)), limit.rps)
    else FallbackDelay(limit)
  }

  lemma OneTurn(store: Store, key: string, limit: Limit, rounds: seq<Round>, i: nat, waited: real)
    requires limit.Valid() && ValidRounds(rounds) && i < |rounds| && !rounds[i].cancelled
    ensures var p, before := WaitFrom(store, key, limit, rounds, i, waited),
                             AfterOthers(store, rounds[i].others, |rounds[i].others|);
            if TurnReturns(before, key, limit, rounds[i])
            then p.status == Returned && p.rounds == i + 1 && p.waited == waited
                 && p.store == TurnStore(before, key, limit, rounds[i])
            else var rest := WaitFrom(TurnStore(before, key, limit, rounds[i]), key, limit, rounds, i + 1,
                                      waited + TurnDelay(before, key, limit, rounds[i]));
                 p.status == rest.status && p.rounds == rest.rounds && p.waited == rest.waited && p.store == rest.store
  {
    hide EvaluateEntry, RetryDelay, StoreAfter, FallbackDelay, Accepts, Received, AfterOthers, ReplyFrom;
  }

  lemma NoTurn(store: Store, key: string, limit: Limit, rounds: seq<Round>, i: nat, waited: real)
    requires limit.Valid() && ValidRounds(rounds) && i <= |rounds| && (i == |rounds| || rounds[i].cancelled)
    ensures var p := WaitFrom(store, key, limit, rounds, i, waited);
            p.status != Returned && p.rounds == i && p.waited == waited && p.store == store
  {
  }

  /** The two delays: the time of one token, and the same but at least a millisecond. */
  predicate AreDelays(limit: Limit, token: real, refusal: real)
    requires limit.Valid()
  {
    token == 1.0 / limit.rps as real && refusal == Max(0.001, 1.0 / limit.rps as real)
  }

  lemma TurnDelayIs(store: Store, key: string, limit: Limit, r: Round, token: real, refusal: real)
    requires limit.Valid() && NotOverdrawn(store) && !TurnReturns(store, key, limit, r)
    requires AreDelays(limit, token, refusal)
    ensures NotOverdrawn(TurnStore(store, key, limit, r))
    ensures TurnDelay(store, key, limit, r) == if r.delivery == Answered then refusal else token
  {
    EvaluationKeepsStore(store, key, limit, r.call);
    VerdictOnStore(store, key, limit, r.call);
    hide NotOverdrawn, StoreAfter, RetryDelay, Accepts, Received, Max;
    if r.delivery.Answered? {
      RefusalDelay(store, key, limit, r.call);
    }
  }

  lemma ReturnIsAnswered(store: Store, key: string, limit: Limit, r: Round)
    requires limit.Valid() && TurnReturns(store, key, limit, r)
    ensures r.delivery == Answered
  {
  }

  lemma {:induction false} WaitAddsUp(store: Store, key: string, limit: Limit, rounds: seq<Round>, i: nat,
                                      waited: real, token: real, refusal: real)
    requires limit.Valid() && ValidRounds(rounds) && i <= |rounds| && NotOverdrawn(store)
    requires AreDelays(limit, token, refusal)
    ensures var p := WaitFrom(store, key, limit, rounds, i, waited);
            && i <= p.rounds <= |rounds|
            && var failed := p.rounds - i - (if p.status == Returned then 1 else 0);
               var unanswered := Unanswered(rounds, i, p.rounds);
               0 <= unanswered <= failed
               && p.waited == waited + Delays(unanswered, token) + Delays(failed - unanswered, refusal)
    decreases |rounds| - i
  {
    OneMoreDelay(0, token);
    OneMoreDelay(0, refusal);
    hide WaitFrom, AfterOthers, Delays, NotOverdrawn, AreDelays, TurnReturns, TurnStore, TurnDelay;
    if i == |rounds| || rounds[i].cancelled {
      NoTurn(store, key, limit, rounds, i, waited);
    } else {
      var r := rounds[i];
      assert r in rounds;
      var before := AfterOthers(store, r.others, |r.others|);
      OthersKeepStore(store, r.others, |r.others|);
      OneTurn(store, key, limit, rounds, i, waited);
      if TurnReturns(before, key, limit, r) {
        ReturnIsAnswered(before, key, limit, r);
        assert Unanswered(rounds, i, i + 1) == Unanswered(rounds, i + 1, i + 1);
      } else {
        TurnDelayIs(before, key, limit, r, token, refusal);
        var next, total := TurnStore(before, key, limit, r), waited + TurnDelay(before, key, limit, r);
        WaitAddsUp(next, key, limit, rounds, i + 1, total, token, refusal);
        var p := WaitFrom(next, key, limit, rounds, i + 1, total);
        var unanswered := Unanswered(rounds, i + 1, p.rounds);
        OneMoreDelay(unanswered, token);
        OneMoreDelay(p.rounds - (i + 1) - (if p.status == Returned then 1 else 0) - unanswered, refusal);
      }
    }
  }

  /** What a call waits, exactly: the time of one token for every turn without an answer, and the same but at least
      a millisecond for every refusal. So a failing Redis slows a client down and never lets it spin. */
  lemma WaitIsExact(store: Store, key: string, limit: Limit, rounds: seq<Round>, i: nat, waited: real)
    requires limit.Valid() && ValidRounds(rounds) && i <= |rounds| && NotOverdrawn(store)
    ensures var p := WaitFrom(store, key, limit, rounds, i, waited);
            && i <= p.rounds <= |rounds|
            && var failed := p.rounds - i - (if p.status == Returned then 1 else 0);
               var unanswered := Unanswered(rounds, i, p.rounds);
               0 <= unanswered <= failed
               && p.waited == waited + unanswered as real * (1.0 / limit.rps as real)
                            + (failed - unanswered) as real * Max(0.001, 1.0 / limit.rps as real)
  {
    hide WaitFrom, Max, Delays, Unanswered;
    var token, refusal := 1.0 / limit.rps as real, Max(0.001, 1.0 / limit.rps as real);
    WaitAddsUp(store, key, limit, rounds, i, waited, token, refusal);
    var p := WaitFrom(store, key, limit, rounds, i, waited);
    var unanswered := Unanswered(rounds, i, p.rounds);
    DelaysAre(unanswered, token);
    DelaysAre(p.rounds - i - (if p.status == Returned then 1 else 0) - unanswered, refusal);
  }

  lemma QuotientIsDelays(n: int, limit: Limit)
    requires limit.Valid()
    ensures n as real / limit.rps as real == Delays(n, 1.0 / limit.rps as real)
  {
    var rps := limit.rps as real;
    assert 1.0 / rps * rps == 1.0;
    assert n as real * (1.0 / rps) * rps == n as real;
  }

  lemma TurnDelayIsAtLeast(store: Store, key: string, limit: Limit, r: Round, token: real)
    requires limit.Valid() && token == 1.0 / limit.rps as real
    ensures TurnDelay(store, key, limit, r) >= token
    ensures r.delivery != Answered ==> TurnDelay(store, key, limit, r) == token
  {
    DelayIsAtLeastOneToken(Received(ReplyFrom(store, key, limit, r.call)), limit.rps);
    hide RetryDelay, Received, ReplyFrom;
  }

  lemma {:induction false} FailedTurnsAddUp(store: Store, key: string, limit: Limit, rounds: seq<Round>, i: nat,
                                            waited: real, token: real)
    requires limit.Valid() && ValidRounds(rounds) && i <= |rounds| && token == 1.0 / limit.rps as real
    ensures var p := WaitFrom(store, key, limit, rounds, i, waited);
            var failed := p.rounds - i - (if p.status == Returned then 1 else 0);
            && failed >= 0 && p.waited >= waited + Delays(failed, token)
            && ((forall k :: i <= k < |rounds| ==> rounds[k].delivery != Answered)
                ==> p.status != Returned && p.waited == waited + Delays(failed, token))
    decreases |rounds| - i
  {
    OneMoreDelay(0, token);
    hide WaitFrom, AfterOthers, Delays, TurnReturns, TurnStore, TurnDelay;
    if i == |rounds| || rounds[i].cancelled {
      NoTurn(store, key, limit, rounds, i, waited);
    } else {
      var r := rounds[i];
      assert r in rounds;
      var before := AfterOthers(store, r.others, |r.others|);
      OneTurn(store, key, limit, rounds, i, waited);
      if TurnReturns(before, key, limit, r) {
        ReturnIsAnswered(before, key, limit, r);
      } else {
        TurnDelayIsAtLeast(before, key, limit, r, token);
        var next, total := TurnStore(before, key, limit, r), waited + TurnDelay(before, key, limit, r);
        FailedTurnsAddUp(next, key, limit, rounds, i + 1, total, token);
        var p := WaitFrom(next, key, limit, rounds, i + 1, total);
        OneMoreDelay(p.rounds - (i + 1) - (if p.status == Returned then 1 else 0), token);
      }
    }
  }

  /** Every turn that does not end in a grant, answered or not, is paid for with a delay of at least the time
      one token takes to earn; while no turn is answered, with exactly that time. */
  lemma EveryFailedTurnWaits(store: Store, key: string, limit: Limit, rounds: seq<Round>, i: nat, waited: real)
    requires limit.Valid() && ValidRounds(rounds) && i <= |rounds|
    ensures var p := WaitFrom(store, key, limit, rounds, i, waited);
            var failed := p.rounds - i - (if p.status == Returned then 1 else 0);
            && failed >= 0 && p.waited >= waited + failed as real / limit.rps as real
            && ((forall k :: i <= k < |rounds| ==> rounds[k].delivery != Answered)
                ==> p.status != Returned && p.waited == waited + failed as real / limit.rps as real)
  {
    FailedTurnsAddUp(store, key, limit, rounds, i, waited, 1.0 / limit.rps as real);
    var p := WaitFrom(store, key, limit, rounds, i, waited);
    QuotientIsDelays(p.rounds - i - (if p.status == Returned then 1 else 0), limit);
    hide WaitFrom, Delays;
  }

  lemma {:induction false} OthersKeepKey(store: Store, others: seq<ForeignCall>, n: nat, key: string)
    requires ValidCalls(others) && n <= |others| && (forall o :: o in others ==> o.key != key)
    ensures Lookup(AfterOthers(store, others, n), key) == Lookup(store, key)
  {
    hide EvaluateEntry;
    if n == 0 {
    } else {
      OthersKeepKey(store, others, n - 1, key);
    }
  }

  /** Waiting on one key leaves every other bucket alone that nobody else touches. */
  lemma {:induction false} WaitKeepsOtherKeys(store: Store, key: string, limit: Limit, rounds: seq<Round>,
                                              i: nat, waited: real, other: string)
    requires limit.Valid() && ValidRounds(rounds) && i <= |rounds| && other != key
    requires forall r, o :: r in rounds && o in r.others ==> o.key != other
    ensures Lookup(WaitFrom(store, key, limit, rounds, i, waited).store, other) == Lookup(store, other)
    decreases |rounds| - i
  {
    hide EvaluateEntry, RetryDelay, Accepts, FallbackDelay, Received, AfterOthers, ReplyFrom;
    if i == |rounds| || rounds[i].cancelled {
    } else {
      var r := rounds[i];
      assert r in rounds;
      var before := AfterOthers(store, r.others, |r.others|);
      var after := StoreAfter(before, key, limit, r.call);
      var fallback := waited + FallbackDelay(limit);
      OthersKeepKey(store, r.others, |r.others|, other);
      WaitKeepsOtherKeys(before, key, limit, rounds, i + 1, fallback, other);
      WaitKeepsOtherKeys(after, key, limit, rounds, i + 1, fallback, other);
      var result := Received(ReplyFrom(before, key, limit, r.call));
      WaitKeepsOtherKeys(after, key, limit, rounds, i + 1, waited + RetryDelay(result, limit.rps), other);
    }
  }

  // ----- What a key goes through -----

  /** The evaluations of the turns from i to n in the order in which Redis runs them: those of the others, then
      our own unless it never got there. */
  function CallsOf(rounds: seq<Round>, key: string, limit: Limit, i: nat, n: nat): seq<ForeignCall>
    requires i <= n <= |rounds|
    decreases n - i
  {
    if i == n then []
    else
      rounds[i].others + (if rounds[i].delivery.Unreachable? then [] else [ForeignCall(key, limit, rounds[i].call)])
      + CallsOf(rounds, key, limit, i + 1, n)
  }

  lemma {:induction false} CallsAreValid(rounds: seq<Round>, key: string, limit: Limit, i: nat, n: nat)
    requires limit.Valid() && ValidRounds(rounds) && i <= n <= |rounds|
    ensures ValidCalls(CallsOf(rounds, key, limit, i, n))
    decreases n - i
  {
    if i == n {
    } else {
      CallsAreValid(rounds, key, limit, i + 1, n);
      assert rounds[i] in rounds;
    }
  }

  function OnKey(key: string): ForeignCall -> bool { (c: ForeignCall) => c.key == key }

  /** A single key evaluated by one call after the other. */
  function EvaluateAll(entry: Option<Entry>, calls: seq<ForeignCall>): Option<Entry>
    requires ValidCalls(calls)
  {
    if calls == [] then entry
    else
      var last := calls[|calls| - 1];
      Some(EvaluateEntry(EvaluateAll(entry, calls[..|calls| - 1]), last.call, last.limit).1)
  }

  lemma EvaluateAppend(entry: Option<Entry>, calls: seq<ForeignCall>, last: ForeignCall)
    requires ValidCalls(calls + [last])
    ensures ValidCalls(calls)
    ensures EvaluateAll(entry, calls + [last])
         == Some(EvaluateEntry(EvaluateAll(entry, calls), last.call, last.limit).1)
  {
    assert (calls + [last])[..|calls|] == calls;
    assert forall c :: c in calls ==> c in calls + [last];
  }

  lemma LookupAfterCall(store: Store, c: ForeignCall, key: string)
    requires c.limit.Valid()
    ensures Lookup(StoreAfter(store, c.key, c.limit, c.call), key)
         == if c.key == key then Some(EvaluateEntry(Lookup(store, key), c.call, c.limit).1) else Lookup(store, key)
  {
    hide EvaluateEntry;
  }

  lemma SelectedAreValid(calls: seq<ForeignCall>, key: string)
    requires ValidCalls(calls)
    ensures ValidCalls(Select(calls, OnKey(key)))
  {
    SelectIsPart(calls, OnKey(key));
    hide Select;
  }

  lemma LookupAfterOneMore(entry: Option<Entry>, calls: seq<ForeignCall>, last: ForeignCall, store: Store, key: string)
    requires ValidCalls(calls) && ValidCalls(calls + [last]) && last.limit.Valid()
    requires ValidCalls(Select(calls, OnKey(key))) && ValidCalls(Select(calls + [last], OnKey(key)))
    requires Lookup(store, key) == EvaluateAll(entry, Select(calls, OnKey(key)))
    ensures Lookup(StoreAfter(store, last.key, last.limit, last.call), key)
         == EvaluateAll(entry, Select(calls + [last], OnKey(key)))
  {
    hide EvaluateEntry, EvaluateAll, StoreAfter, Lookup, Select, ValidCalls;
    SelectAppend(calls, last, OnKey(key));
    LookupAfterCall(store, last, key);
    if last.key == key {
      EvaluateAppend(entry, Select(calls, OnKey(key)), last);
    } else {
      assert Select(calls, OnKey(key)) + [] == Select(calls, OnKey(key));
    }
  }

  lemma {:induction false} LookupAfterOthers(store: Store, calls: seq<ForeignCall>, n: nat, key: string)
    requires ValidCalls(calls) && n <= |calls|
    ensures ValidCalls(Select(calls[..n], OnKey(key)))
    ensures Lookup(AfterOthers(store, calls, n), key)
         == EvaluateAll(Lookup(store, key), Select(calls[..n], OnKey(key)))
  {
    SelectedAreValid(calls[..n], key);
    if n == 0 {
    } else {
      var before, last := calls[..n - 1], calls[n - 1];
      assert last.limit.Valid() && ValidCalls(before) && ValidCalls(before + [last]);
      assert calls[..n] == before + [last];
      hide EvaluateEntry, EvaluateAll, StoreAfter, Lookup, Select, ValidCalls;
      LookupAfterOthers(store, calls, n - 1, key);
      LookupAfterOneMore(Lookup(store, key), before, last, AfterOthers(store, calls, n - 1), key);
    }
  }

  lemma {:induction false} OthersConcat(store: Store, a: seq<ForeignCall>, b: seq<ForeignCall>, n: nat)
    requires ValidCalls(a) && ValidCalls(b) && n <= |b|
    ensures AfterOthers(store, a + b, |a| + n) == AfterOthers(AfterOthers(store, a, |a|), b, n)
  {
    hide StoreAfter;
    if n == 0 {
      OthersPrefix(store, a, b, |a|);
    } else {
      OthersConcat(store, a, b, n - 1);
      assert (a + b)[|a| + n - 1] == b[n - 1];
    }
  }

  lemma {:induction false} OthersPrefix(store: Store, a: seq<ForeignCall>, b: seq<ForeignCall>, n: nat)
    requires ValidCalls(a) && ValidCalls(b) && n <= |a|
    ensures AfterOthers(store, a + b, n) == AfterOthers(store, a, n)
  {
    hide StoreAfter;
    if n == 0 {
    } else {
      OthersPrefix(store, a, b, n - 1);
    }
  }

  lemma TurnAsCalls(store: Store, key: string, limit: Limit, r: Round)
    requires limit.Valid() && ValidCalls(r.others)
    ensures var own := if r.delivery.Unreachable? then [] else [ForeignCall(key, limit, r.call)];
            && ValidCalls(r.others + own)
            && AfterOthers(store, r.others + own, |r.others + own|)
               == TurnStore(AfterOthers(store, r.others, |r.others|), key, limit, r)
  {
    hide StoreAfter;
    if r.delivery.Unreachable? {
      assert r.others + [] == r.others;
    } else {
      var own := [ForeignCall(key, limit, r.call)];
      OthersConcat(store, r.others, own, 1);
      assert AfterOthers(AfterOthers(store, r.others, |r.others|), own, 0) == AfterOthers(store, r.others, |r.others|);
    }
  }

  lemma {:induction false} WaitIsItsCalls(store: Store, key: string, limit: Limit, rounds: seq<Round>, i: nat,
                                          waited: real)
    requires limit.Valid() && ValidRounds(rounds) && i <= |rounds|
    ensures var p := WaitFrom(store, key, limit, rounds, i, waited);
            && i <= p.rounds <= |rounds|
            && var calls := CallsOf(rounds, key, limit, i, p.rounds);
               ValidCalls(calls) && p.store == AfterOthers(store, calls, |calls|)
    decreases |rounds| - i
  {
    hide WaitFrom, AfterOthers, TurnReturns, TurnStore, TurnDelay, ValidCalls;
    if i == |rounds| || rounds[i].cancelled {
      NoTurn(store, key, limit, rounds, i, waited);
      CallsAreValid(rounds, key, limit, i, i);
      NoCalls(store);
    } else {
      var r := rounds[i];
      assert r in rounds;
      var before := AfterOthers(store, r.others, |r.others|);
      var next, total := TurnStore(before, key, limit, r), waited + TurnDelay(before, key, limit, r);
      OneTurn(store, key, limit, rounds, i, waited);
      TurnAsCalls(store, key, limit, r);
      var first := r.others + (if r.delivery.Unreachable? then [] else [ForeignCall(key, limit, r.call)]);
      if TurnReturns(before, key, limit, r) {
        assert CallsOf(rounds, key, limit, i, i + 1) == first + [];
        assert first + [] == first;
      } else {
        WaitIsItsCalls(next, key, limit, rounds, i + 1, total);
        var p := WaitFrom(next, key, limit, rounds, i + 1, total);
        var rest := CallsOf(rounds, key, limit, i + 1, p.rounds);
        CallsAreValid(rounds, key, limit, i, p.rounds);
        assert CallsOf(rounds, key, limit, i, p.rounds) == first + rest;
        OthersConcat(store, first, rest, |rest|);
      }
    }
  }

  lemma NoCalls(store: Store)
    ensures ValidCalls([]) && AfterOthers(store, [], 0) == store
  {
  }

  /** Whatever a call of the loop and everybody else do meanwhile, each key ends as it was left by the evaluations
      on that key alone: those of the others, and the call's own that reached Redis. */
  lemma KeySeesItsCallsOnly(store: Store, key: string, limit: Limit, rounds: seq<Round>, i: nat, waited: real,
                            other: string)
    requires limit.Valid() && ValidRounds(rounds) && i <= |rounds|
    ensures var p := WaitFrom(store, key, limit, rounds, i, waited);
            && i <= p.rounds <= |rounds|
            && var calls := Select(CallsOf(rounds, key, limit, i, p.rounds), OnKey(other));
               ValidCalls(calls) && Lookup(p.store, other) == EvaluateAll(Lookup(store, other), calls)
  {
    hide WaitFrom, AfterOthers, Select, CallsOf;
    WaitIsItsCalls(store, key, limit, rounds, i, waited);
    var calls := CallsOf(rounds, key, limit, i, WaitFrom(store, key, limit, rounds, i, waited).rounds);
    LookupAfterOthers(store, calls, |calls|, other);
    assert calls[..|calls|] == calls;
  }

  /** An uncontended client whose replies arrive needs at most two turns of the loop. */
  lemma UncontendedWaitTakesTwoTurns(store: Store, key: string, limit: Limit, rounds: seq<Round>)
    requires limit.Valid() && ValidRounds(rounds) && |rounds| >= 2
    requires forall k :: 0 <= k < 2 ==> !rounds[k].cancelled && rounds[k].others == [] && rounds[k].delivery == Answered
    requires var stored := Live(Lookup(store, key), rounds[0].call.server);
             InRange(stored, limit) && (stored.Some? ==> stored.value.lastRefill <= rounds[0].call.clock)
    requires rounds[1].call.clock >= rounds[0].call.clock
               + RetryDelay(Received(ReplyFrom(store, key, limit, rounds[0].call)), limit.rps)
    ensures var p := WaitFrom(store, key, limit, rounds, 0, 0.0); p.status == Returned && p.rounds <= 2
  {
    hide RetryDelay, Accepts, FallbackDelay, Received, Evaluate, Ttl;
    var first, second := rounds[0].call, rounds[1].call;
    var stored := Live(Lookup(store, key), first.server);
    var after := StoreAfter(store, key, limit, first);
    assert AfterOthers(store, rounds[0].others, 0) == store && AfterOthers(after, rounds[1].others, 0) == after;
    VerdictOnStore(store, key, limit, first);
    VerdictOnStore(after, key, limit, second);
    if !ReplyFrom(store, key, limit, first).acquired {
      SecondAttemptSucceeds(stored, first, second, limit);
      EvaluateFresh(second.clock, limit);
      assert ReplyFrom(after, key, limit, second).acquired;
      var waited := RetryDelay(Received(ReplyFrom(store, key, limit, first)), limit.rps);
      assert WaitFrom(after, key, limit, rounds, 1, 0.0 + waited).status == Returned;
    }
  }
}
