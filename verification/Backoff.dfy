/** Retry delays and the headers of the delayed copy. */
module Backoff {
  import opened Options

  datatype Policy = Policy(maxRetries: int, baseDelaySeconds: int, maxDelaySeconds: int)

  const INT32_MAX := 0x7fff_ffff
  const INT32_MIN := -0x8000_0000

  function Min(a: int, b: int): int { if a <= b then a else b }

  function Max(a: int, b: int): int { if a >= b then a else b }

  function Pow2(n: nat): nat { if n == 0 then 1 else 2 * Pow2(n - 1) }

  // ----- The delay -----

  function BaseMs(p: Policy): nat { Max(1, p.baseDelaySeconds) * 1000 }

  function CapMs(p: Policy): nat { Max(BaseMs(p), p.maxDelaySeconds * 1000) }

  /** The cast of a double to int saturates. */
  function ToInt32(x: int): int { Max(INT32_MIN, Min(INT32_MAX, x)) }

  function CalculateRetryDelayMs(attempt: int, p: Policy): int {
    ToInt32(Min(CapMs(p), BaseMs(p) * Pow2(Max(0, attempt - 1))))
  }

  /** Exponential backoff with a cap: base, 2 base, 4 base, ..., never above the cap. */
  function CappedExponential(n: nat, p: Policy): nat
    requires n >= 1
  {
    Min(CapMs(p), BaseMs(p) * Pow2(n - 1))
  }

  /** The delay is the capped exponential exactly when that number fits an int32. */
  lemma DelayIsExactIff(n: nat, p: Policy)
    requires n >= 1
    ensures CalculateRetryDelayMs(n, p) == CappedExponential(n, p) <==> CappedExponential(n, p) <= INT32_MAX
  {
  }

  /** The delay in the policy's own terms: the base, at least a second, doubled with every attempt after the first,
      up to the larger of base and maximum, and never more than an int32 holds. */
  lemma DelayInSeconds(attempt: int, p: Policy)
    ensures var base := if p.baseDelaySeconds > 1 then p.baseDelaySeconds * 1000 else 1000;
            var cap := if p.maxDelaySeconds * 1000 > base then p.maxDelaySeconds * 1000 else base;
            var doubled := if attempt > 1 then base * Pow2(attempt - 1) else base;
            CalculateRetryDelayMs(attempt, p)
            == if doubled < cap then (if doubled < 2147483647 then doubled else 2147483647)
               else if cap < 2147483647 then cap else 2147483647
    ensures Pow2(0) == 1 && (attempt > 0 ==> Pow2(attempt) == 2 * Pow2(attempt - 1))
  {
    Pow2Grows(0, if attempt > 1 then attempt - 1 else 0);
    if attempt > 1 {
      MulGrows(BaseMs(p), 1, Pow2(attempt - 1));
    }
  }

  lemma DelayIsExactWhenCapFits(n: nat, p: Policy)
    requires n >= 1 && CapMs(p) <= INT32_MAX
    ensures CalculateRetryDelayMs(n, p) == CappedExponential(n, p)
  {
  }

  lemma {:induction false} Pow2Grows(m: nat, n: nat)
    requires m <= n
    ensures 1 <= Pow2(m) <= Pow2(n)
    decreases n
  {
    if m < n {
      Pow2Grows(m, n - 1);
    } else if m > 0 {
      Pow2Grows(m - 1, n - 1);
    } else {
    }
  }

  lemma ScaledPow2Grows(b: nat, m: nat, n: nat)
    requires m <= n
    ensures b <= b * Pow2(m) <= b * Pow2(n)
  {
    Pow2Grows(m, n);
    MulGrows(b, 1, Pow2(m));
    MulGrows(b, Pow2(m), Pow2(n));
  }

  lemma MulGrows(b: nat, x: nat, y: nat)
    requires x <= y
    ensures b * x <= b * y
  {
  }

  /** Whatever the policy, delays never shrink from one attempt to the next; with a cap that fits, every
      delay lies between the base and the cap. */
  lemma DelayGrowsWithinBounds(m: nat, n: nat, p: Policy)
    requires 1 <= m <= n
    ensures CalculateRetryDelayMs(m, p) <= CalculateRetryDelayMs(n, p)
    ensures CapMs(p) <= INT32_MAX ==> BaseMs(p) <= CalculateRetryDelayMs(m, p) <= CapMs(p)
  {
    ScaledPow2Grows(BaseMs(p), m - 1, n - 1);
    ScaledPow2Grows(BaseMs(p), 0, m - 1);
  }

  function TotalDelay(k: nat, p: Policy): int {
    if k == 0 then 0 else TotalDelay(k - 1, p) + CalculateRetryDelayMs(k, p)
  }

  /** How many of the first k delays are below or at the cap. */
  function Uncapped(k: nat, p: Policy): (j: nat)
    ensures j <= k
  {
    if k == 0 then 0
    else if BaseMs(p) * Pow2(k - 1) <= CapMs(p) then k
    else Uncapped(k - 1, p)
  }

  /** Delay number j is the last one not above the cap, and the next one is above it. */
  lemma {:induction false} UncappedIsLast(k: nat, p: Policy)
    ensures var j := Uncapped(k, p);
            && (j > 0 ==> BaseMs(p) * Pow2(j - 1) <= CapMs(p))
            && (j < k ==> BaseMs(p) * Pow2(j) > CapMs(p))
  {
    hide BaseMs, CapMs, Pow2;
    if k == 0 {
    } else if BaseMs(p) * Pow2(k - 1) > CapMs(p) {
      UncappedIsLast(k - 1, p);
    } else {
    }
  }

  /** A geometric series from b that ends before b * x, and then c a number of times. */
  function Series(b: int, x: int, c: int, times: int): int { b * (x - 1) + times * c }

  lemma SeriesGrows(b: int, x: int, c: int, times: int)
    ensures Series(b, x, c, 0) + b * x == Series(b, 2 * x, c, 0)
    ensures Series(b, x, c, times) + c == Series(b, x, c, times + 1)
  {
  }

  lemma OneMoreDelay(k: nat, p: Policy)
    requires k > 0
    ensures var j := Uncapped(k - 1, p);
            if BaseMs(p) * Pow2(k - 1) <= CapMs(p) then j == k - 1 && Uncapped(k, p) == k else Uncapped(k, p) == j
  {
    var j := Uncapped(k - 1, p);
    UncappedIsLast(k - 1, p);
    if j < k - 1 {
      ScaledPow2Grows(BaseMs(p), j, k - 1);
    }
  }

  lemma {:induction false} TotalDelayIsSeries(k: nat, p: Policy)
    requires CapMs(p) <= INT32_MAX
    ensures var j := Uncapped(k, p);
            TotalDelay(k, p) == Series(BaseMs(p), Pow2(j), CapMs(p), k - j)
  {
    if k == 0 {
      assert Series(BaseMs(p), 1, CapMs(p), 0) == 0;
    } else {
      hide Series;
      var j := Uncapped(k - 1, p);
      TotalDelayIsSeries(k - 1, p);
      DelayIsExactWhenCapFits(k, p);
      OneMoreDelay(k, p);
      SeriesGrows(BaseMs(p), Pow2(j), CapMs(p), k - 1 - j);
      hide BaseMs, CapMs, CalculateRetryDelayMs, Uncapped;
    }
  }

  /** The total wait over k retries: a geometric series up to the cap, then the cap again and again. */
  lemma TotalDelayClosedForm(k: nat, p: Policy)
    requires CapMs(p) <= INT32_MAX
    ensures var j := Uncapped(k, p);
            TotalDelay(k, p) == BaseMs(p) * (Pow2(j) - 1) + (k - j) * CapMs(p)
  {
    TotalDelayIsSeries(k, p);
  }

  // ----- Headers -----

  /** A header value as `GetRetryAttempt` distinguishes them. A text or a byte string is what `int.TryParse`
      makes of it. */
  datatype HeaderValue =
    | Null | Int(value: int) | Long(long: int) | Small(small: int) | Text(parsed: Option<int>) | Other(tag: nat)

  type Headers = map<string, HeaderValue>

  const RETRY_COUNT := "x-retry-count"
  const DELAY := "x-delay"

  /** An unchecked cast of a 64-bit integer to 32 bits keeps the low bits. */
  function Wrap32(x: int): int {
    var low := x % 0x1_0000_0000;
    if low > INT32_MAX then low - 0x1_0000_0000 else low
  }

  function GetRetryAttempt(headers: Option<Headers>): int {
    if headers.None? || RETRY_COUNT !in headers.value then 0
    else match headers.value[RETRY_COUNT]
      case Int(v) => v
      case Long(v) => Wrap32(v)
      case Small(v) => v
      case Text(Some(v)) => v
      case _ => 0
  }

  /** A 64-bit count wraps around to the int32 with the same low bits. */
  lemma Wrap32Is(x: int)
    ensures -0x8000_0000 <= Wrap32(x) < 0x8000_0000 && (x - Wrap32(x)) % 0x1_0000_0000 == 0
  {
  }

  /** The attempt a delivery carries, by the form of its header; without a readable count it is the first. */
  lemma AttemptIs(headers: Headers, v: int)
    ensures GetRetryAttempt(None) == 0
    ensures "x-retry-count" !in headers ==> GetRetryAttempt(Some(headers)) == 0
    ensures GetRetryAttempt(Some(headers["x-retry-count" := Int(v)])) == v
    ensures GetRetryAttempt(Some(headers["x-retry-count" := Small(v)])) == v
    ensures GetRetryAttempt(Some(headers["x-retry-count" := Text(Some(v))])) == v
    ensures GetRetryAttempt(Some(headers["x-retry-count" := Long(v)])) == Wrap32(v)
    ensures GetRetryAttempt(Some(headers["x-retry-count" := Text(None)])) == 0
    ensures GetRetryAttempt(Some(headers["x-retry-count" := Null])) == 0
    ensures forall tag :: GetRetryAttempt(Some(headers["x-retry-count" := Other(tag)])) == 0
    ensures DELAY == "x-delay"
  {
  }

  function CloneHeaders(source: Option<Headers>): Headers {
    if source.None? then map[] else source.value
  }

  /** What a delivery or a delayed copy consists of, as far as the retry code reads or writes it. */
  datatype Message = Message(headers: Option<Headers>, body: seq<int>)

  function RetryCopy(received: Message, retryCount: int, delayMs: int): Message {
    var headers := CloneHeaders(received.headers)[DELAY := Int(Max(1, delayMs))][RETRY_COUNT := Int(retryCount)];
    Message(Some(headers), received.body)
  }

  /** The delayed copy that `PublishRetryAsync` hands to the channel, its headers written one after the other:
      the next handler reads the attempt back, the exchange finds the delay, and all else is as received. */
  method BuildRetryCopy(received: Message, retryCount: int, delayMs: int) returns (copy: Message)
    ensures GetRetryAttempt(copy.headers) == retryCount
    ensures copy.headers.Some? && DELAY in copy.headers.value && copy.headers.value[DELAY] == Int(Max(1, delayMs))
    ensures copy.headers.value - {DELAY, RETRY_COUNT} == CloneHeaders(received.headers) - {DELAY, RETRY_COUNT}
    ensures copy.body == received.body
    ensures copy == RetryCopy(received, retryCount, delayMs)
  {
    var headers := CloneHeaders(received.headers);
    headers := headers[DELAY := Int(Max(1, delayMs))];
    headers := headers[RETRY_COUNT := Int(retryCount)];
    copy := Message(Some(headers), received.body);
  }

  /** The message after n retries, each scheduled by the handler from the message it received. */
  function MessageAfter(initial: Message, p: Policy, n: nat): Message {
    if n == 0 then initial
    else
      var received := MessageAfter(initial, p, n - 1);
      var next := GetRetryAttempt(received.headers) + 1;
      RetryCopy(received, next, CalculateRetryDelayMs(next, p))
  }

  /** The header chain: after n retries the attempt reads back as n more than at first, the delay header
      holds that attempt's delay, and the body and every other header are what they were. */
  lemma {:induction false} HeaderChain(initial: Message, p: Policy, n: nat)
    ensures var start, m := GetRetryAttempt(initial.headers), MessageAfter(initial, p, n);
            && GetRetryAttempt(m.headers) == start + n
            && (n > 0 ==> m.headers.Some? && DELAY in m.headers.value
                          && m.headers.value[DELAY] == Int(Max(1, CalculateRetryDelayMs(start + n, p))))
            && CloneHeaders(m.headers) - {DELAY, RETRY_COUNT} == CloneHeaders(initial.headers) - {DELAY, RETRY_COUNT}
            && m.body == initial.body
  {
    if n == 0 {
    } else {
      HeaderChain(initial, p, n - 1);
    }
  }
}
