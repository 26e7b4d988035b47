/** The retry loop of the Jira client (internal/client/jira/jira.go). Delays are int64 nanoseconds. */
module Backoff {
  import opened Wrappers
  import opened Int64

  const SECOND: int := 1_000_000_000
  const MULTIPLIER: int := 2
  const TWO_62: int := 0x4000_0000_0000_0000

  /** What comes back from one HTTP call. `retryAfter` is the header's value if it parses as an integer. */
  datatype Reply = NetworkError | Response(status: int, retryAfter: Option<int>)

  /** What one iteration of the loop meets: the rate limiter lets it pass or not, the request can be built
      or not, a reply, and then whether the context is done when a network error is handled and whether
      it stays alive during the wait. */
  datatype Attempt = Attempt(limiterOk: bool, requestOk: bool, reply: Reply, ctxDone: bool, waitOk: bool)

  datatype End =
    | StillTrying
    | LimiterFailed | RequestInvalid
    | Returned
    | ApiError(status: int)
    | Cancelled | NetworkGaveUp | StatusGaveUp(status: int) | WaitCancelled

  /** Wait `waited`, then go round again with delay `next`; or leave the loop. */
  datatype Step = Retry(waited: int, next: int) | Stop(end: End)

  predicate RetryStatus(status: int) {
    status == 429 || status == 503
  }

  function WaitThenRetry(waitOk: bool, delay: int): Step {
    if waitOk then Retry(delay, Wrap64(delay * MULTIPLIER)) else Stop(WaitCancelled)
  }

  function HandleNetworkError(max: int, a: Attempt, delay: int): Step {
    if a.ctxDone then Stop(Cancelled)
    else if delay > max then Stop(NetworkGaveUp)
    else WaitThenRetry(a.waitOk, delay)
  }

  /** A parseable Retry-After replaces the delay; the product of the conversion wraps. */
  function HandleRetryStatus(max: int, a: Attempt, delay: int): Step
    requires a.reply.Response?
  {
    var asked := if a.reply.retryAfter.Some? then Wrap64(a.reply.retryAfter.value * SECOND) else delay;
    if asked > max then Stop(StatusGaveUp(a.reply.status)) else WaitThenRetry(a.waitOk, asked)
  }

  function HandleResponse(max: int, a: Attempt, delay: int): Step {
    match a.reply
    case NetworkError => HandleNetworkError(max, a, delay)
    case Response(status, _) =>
      if status == 200 then Stop(Returned)
      else if RetryStatus(status) then HandleRetryStatus(max, a, delay)
      else Stop(ApiError(status))
  }

  predicate ReachesHTTP(a: Attempt) {
    a.limiterOk && a.requestOk
  }

  function Try(max: int, a: Attempt, delay: int): Step {
    if !a.limiterOk then Stop(LimiterFailed)
    else if !a.requestOk then Stop(RequestInvalid)
    else HandleResponse(max, a, delay)
  }

  /** A whole call: the waits it made, the requests it sent, and how it ended. */
  datatype Call = Call(waits: seq<int>, requests: nat, end: End)

  function Attempts(max: int, delay: int, script: seq<Attempt>): Call
    decreases |script|
  {
    if script == [] then
      Call([], 0, StillTrying)
    else
      match Try(max, script[0], delay)
      case Stop(end) => Call([], if ReachesHTTP(script[0]) then 1 else 0, end)
      case Retry(waited, next) =>
        var rest := Attempts(max, next, script[1..]);
        Call([waited] + rest.waits, rest.requests + 1, rest.end)
  }

  lemma NextAttempt(max: int, delay: int, script: seq<Attempt>, i: nat)
    requires i < |script|
    ensures var call, step := Attempts(max, delay, script[i..]), Try(max, script[i], delay);
      && (step.Stop? ==> call == Call([], if ReachesHTTP(script[i]) then 1 else 0, step.end))
      && (step.Retry? ==>
            var rest := Attempts(max, step.next, script[i + 1..]);
            call == After([step.waited], 1, rest))
  {
    assert script[i..][1..] == script[i + 1..];
  }

  /** A call that goes on after some waits and requests. */
  function After(waits: seq<int>, requests: nat, rest: Call): Call {
    Call(waits + rest.waits, requests + rest.requests, rest.end)
  }

  lemma AfterOneMore(waits: seq<int>, requests: nat, waited: int, rest: Call)
    ensures After(waits, requests, After([waited], 1, rest)) == After(waits + [waited], requests + 1, rest)
  {
  }

  /** The loop; `waits` are the delays it sleeps, in order. It is left when the script of the environment is
      used up, which is not an end of its own. */
  method Do(min: int, max: int, script: seq<Attempt>) returns (end: End, waits: seq<int>, requests: nat, retries: nat)
    ensures Call(waits, requests, end) == Attempts(max, min, script)
    ensures retries == |waits|
  {
    var delay, attempt := min, 0;
    waits, requests, retries := [], 0, 0;
    while attempt < |script|
      invariant attempt <= |script| && retries == |waits|
      invariant Attempts(max, min, script) == After(waits, requests, Attempts(max, delay, script[attempt..]))
      decreases |script| - attempt
    {
      var a := script[attempt];
      NextAttempt(max, delay, script, attempt);
      if !a.limiterOk {
        return LimiterFailed, waits, requests, retries;
      }
      if !a.requestOk {
        return RequestInvalid, waits, requests, retries;
      }
      requests := requests + 1;
      match HandleResponse(max, a, delay) {
        case Retry(waited, newDelay) =>
          AfterOneMore(waits, requests - 1, waited, Attempts(max, newDelay, script[attempt + 1..]));
          retries, waits := retries + 1, waits + [waited];
          delay := newDelay;
        case Stop(stopped) =>
          return stopped, waits, requests, retries;
      }
      attempt := attempt + 1;
    }
    return StillTrying, waits, requests, retries;
  }

  // ---------- what each reply leads to ----------

  /** A reply 200 is returned after one request and no wait; any other status but 429 and 503 is an error
      after one request. */
  lemma FinalReply(max: int, delay: int, a: Attempt, rest: seq<Attempt>)
    requires a.limiterOk && a.requestOk && a.reply.Response?
    ensures a.reply.status == 200 ==> Attempts(max, delay, [a] + rest) == Call([], 1, Returned)
    ensures a.reply.status !in {200, 429, 503} ==>
      Attempts(max, delay, [a] + rest) == Call([], 1, ApiError(a.reply.status))
  {
  }

  /** A reply 429 or 503 asks for a wait: what its Retry-After says, in seconds of 10^9 ns and wrapped to 64
      bits, or else the current delay. A wait above the maximum is given up, one that is interrupted ends the
      call, and after any other the next attempt has twice the delay. */
  lemma ThrottlingReply(max: int, delay: int, a: Attempt, rest: seq<Attempt>, wait: int)
    requires a.limiterOk && a.requestOk && a.reply.Response? && a.reply.status in {429, 503}
    requires wait == if a.reply.retryAfter.Some? then Wrap64(a.reply.retryAfter.value * 1_000_000_000) else delay
    ensures var call := Attempts(max, delay, [a] + rest);
      && (wait > max ==> call == Call([], 1, StatusGaveUp(a.reply.status)))
      && (wait <= max && !a.waitOk ==> call == Call([], 1, WaitCancelled))
      && (wait <= max && a.waitOk ==> call == After([wait], 1, Attempts(max, Wrap64(2 * wait), rest)))
  {
    assert ([a] + rest)[1..] == rest;
  }

  /** A network error is retried after the current delay, unless the context is done, the delay is above the
      maximum, or the wait is interrupted. */
  lemma NetworkFailure(max: int, delay: int, a: Attempt, rest: seq<Attempt>)
    requires a.limiterOk && a.requestOk && a.reply.NetworkError?
    ensures var call := Attempts(max, delay, [a] + rest);
      && (a.ctxDone ==> call == Call([], 1, Cancelled))
      && (!a.ctxDone && delay > max ==> call == Call([], 1, NetworkGaveUp))
      && (!a.ctxDone && delay <= max && !a.waitOk ==> call == Call([], 1, WaitCancelled))
      && (!a.ctxDone && delay <= max && a.waitOk ==> call == After([delay], 1, Attempts(max, Wrap64(2 * delay), rest)))
  {
    assert ([a] + rest)[1..] == rest;
  }

  /** An attempt that the limiter stops, or whose request cannot be built, sends nothing. */
  lemma NothingSent(max: int, delay: int, a: Attempt, rest: seq<Attempt>)
    requires !(a.limiterOk && a.requestOk)
    ensures Attempts(max, delay, [a] + rest) == Call([], 0, if a.limiterOk then RequestInvalid else LimiterFailed)
  {
  }

  // ---------- any run ----------

  /** Any run at all: no wait is above the maximum, and a call sends one request more than it retries,
      unless its last iteration never reaches the HTTP call. */
  lemma {:induction false} WaitsBounded(max: int, delay: int, script: seq<Attempt>)
    ensures var call := Attempts(max, delay, script);
      && (forall k :: 0 <= k < |call.waits| ==> call.waits[k] <= max)
      && call.requests == |call.waits| + (if call.end in {StillTrying, LimiterFailed, RequestInvalid} then 0 else 1)
      && (call.end == StillTrying <==> |call.waits| == |script|)
    decreases |script|
  {
    if script != [] && Try(max, script[0], delay).Retry? {
      WaitsBounded(max, Try(max, script[0], delay).next, script[1..]);
    }
  }

  // ---------- exponential backoff ----------

  predicate NoRetryAfter(script: seq<Attempt>) {
    forall i :: 0 <= i < |script| && script[i].reply.Response? ==> script[i].reply.retryAfter == None
  }

  function Pow2(k: nat): nat {
    if k == 0 then 1 else 2 * Pow2(k - 1)
  }

  /** The largest k with 2^k <= n. */
  function Log2(n: nat): nat
    requires n >= 1
  {
    if n < 2 then 0 else 1 + Log2(n / 2)
  }

  /** How often min can be doubled without passing max. */
  function Rounds(min: int, max: int): nat
    requires 0 < min <= max
    decreases max - min
  {
    if 2 * min > max then 0 else 1 + Rounds(2 * min, max)
  }

  lemma MulMonotone(d: int, a: int, b: int)
    requires d >= 0 && a <= b
    ensures d * a <= d * b
  {
  }

  lemma DivisionBounds(n: int, d: int)
    requires d > 0
    ensures d * (n / d) <= n < d * (n / d) + d
  {
  }

  lemma QuotientIs(n: int, d: int, q: int)
    requires d > 0 && d * q <= n < d * q + d
    ensures n / d == q
  {
    var e := n / d;
    DivisionBounds(n, d);
    if e > q {
      MulMonotone(d, q + 1, e);
    } else if e < q {
      MulMonotone(d, e + 1, q);
    }
  }

  lemma Twice(m: int, q: int)
    ensures 2 * m * q == 2 * (m * q) && m * (2 * q) == 2 * (m * q) && m * (2 * q + 1) == 2 * (m * q) + m
  {
  }

  lemma HalfQuotient(min: int, max: int)
    requires 0 < min && 2 * min <= max
    ensures max / min >= 2 && max / min / 2 == max / (2 * min)
  {
    var q := max / (2 * min);
    var p := min * q;
    DivisionBounds(max, 2 * min);
    Twice(min, q);
    if max < 2 * p + min {
      QuotientIs(max, min, 2 * q);
    } else {
      QuotientIs(max, min, 2 * q + 1);
    }
    if q < 1 {
      MulMonotone(2 * min, q, 0);
    }
  }

  lemma {:induction false} RoundsAreLog2(min: int, max: int)
    requires 0 < min <= max
    ensures Rounds(min, max) == Log2(max / min)
    decreases max - min
  {
    if 2 * min > max {
      QuotientIs(max, min, 1);
    } else {
      HalfQuotient(min, max);
      RoundsAreLog2(2 * min, max);
    }
  }

  function Sum(waits: seq<int>): int {
    if waits == [] then 0 else waits[0] + Sum(waits[1..])
  }

  /** The k-th wait is 2^k times the first. */
  ghost predicate Doubling(first: int, waits: seq<int>) {
    forall k :: 0 <= k < |waits| ==> waits[k] == first * Pow2(k)
  }

  /** The first delay of min, 2 min, 4 min, ... that cannot be doubled in an int64. */
  function Top(min: int): (top: int)
    requires 0 < min
    ensures min <= top && TWO_62 <= top
    decreases TWO_62 - min
  {
    if min >= TWO_62 then min else Top(2 * min)
  }

  /** Without a Retry-After, and if no delay up to the maximum overflows, each wait is twice the one
      before. */
  lemma {:induction false} WaitsDouble(min: int, max: int, script: seq<Attempt>)
    requires 0 < min && max < Top(min) && NoRetryAfter(script)
    ensures Doubling(min, Attempts(max, min, script).waits)
    decreases |script|
  {
    if script != [] && Try(max, script[0], min).Retry? {
      assert min <= max;
      WaitsDouble(2 * min, max, script[1..]);
      var rest := Attempts(max, 2 * min, script[1..]).waits;
      forall k | 0 < k <= |rest|
        ensures ([min] + rest)[k] == min * Pow2(k)
      {
        assert ([min] + rest)[k] == rest[k - 1] == 2 * min * Pow2(k - 1);
      }
    }
  }

  lemma {:induction false} WaitsAddUp(min: int, max: int, script: seq<Attempt>)
    requires 0 < min <= max < Top(min) && NoRetryAfter(script)
    ensures Sum(Attempts(max, min, script).waits) <= 2 * max - min
    ensures |Attempts(max, min, script).waits| <= Rounds(min, max) + 1
    decreases |script|
  {
    if script != [] && Try(max, script[0], min).Retry? {
      if 2 * min <= max {
        WaitsAddUp(2 * min, max, script[1..]);
      } else {
        NoRoomNoRetry(2 * min, max, script[1..]);
      }
      var rest := Attempts(max, 2 * min, script[1..]).waits;
      assert ([min] + rest)[1..] == rest;
    }
  }

  /** A delay above the maximum means no retry at all. */
  lemma NoRoomNoRetry(min: int, max: int, script: seq<Attempt>)
    requires min > max && NoRetryAfter(script)
    ensures Attempts(max, min, script).waits == []
  {
  }

  /** The bound of exponential backoff. */
  ghost predicate WithinBound(min: int, max: int, call: Call)
    requires 0 < min <= max
  {
    |call.waits| <= Log2(max / min) + 1
  }

  /** Backoff without a Retry-After: the k-th wait is min 2^(k-1); there are at most log2(max / min) + 1
      retries; the waits add up to less than twice the maximum; and the call ends by itself. */
  lemma BackoffBound(min: int, max: int, script: seq<Attempt>)
    requires 0 < min <= max < Top(min) && NoRetryAfter(script)
    ensures var call := Attempts(max, min, script);
      && Doubling(min, call.waits)
      && WithinBound(min, max, call)
      && Sum(call.waits) < 2 * max
      && (|script| > Log2(max / min) + 1 ==> call.end != StillTrying)
  {
    WaitsBounded(max, min, script);
    WaitsDouble(min, max, script);
    WaitsAddUp(min, max, script);
    RoundsAreLog2(min, max);
  }

  const NETWORK_ERROR: Attempt := Attempt(true, true, NetworkError, false, true)

  function Repeat(a: Attempt, n: nat): (r: seq<Attempt>)
    ensures |r| == n
    ensures forall i :: 0 <= i < n ==> r[i] == a
  {
    seq(n, i => a)
  }

  lemma RepeatTail(a: Attempt, n: nat)
    requires n > 0
    ensures Repeat(a, n)[1..] == Repeat(a, n - 1)
  {
  }

  /** If the first delay of the row that cannot be doubled is not above the maximum, doubling it wraps to a
      negative delay, and the retries go on past the bound. */
  lemma {:induction false} WrapsPastTheBound(min: int, max: int)
    requires 0 < min < TWO_63 && Top(min) <= max < TWO_63
    ensures |Attempts(max, min, Repeat(NETWORK_ERROR, Rounds(min, max) + 2)).waits| == Rounds(min, max) + 2
    decreases TWO_62 - min
  {
    RepeatTail(NETWORK_ERROR, Rounds(min, max) + 2);
    if min >= TWO_62 {
      RepeatTail(NETWORK_ERROR, 1);
      var wrapped := Wrap64(min * MULTIPLIER);
      assert wrapped == 2 * min - TWO_64 < 0;
      assert Try(max, NETWORK_ERROR, min) == Retry(min, wrapped);
      assert Try(max, NETWORK_ERROR, wrapped).Retry?;
      assert |Attempts(max, wrapped, Repeat(NETWORK_ERROR, 1)).waits| == 1;
    } else {
      WrapsPastTheBound(2 * min, max);
    }
  }

  /** The exact condition on the two settings: the bound on retries holds for every run without a
      Retry-After if and only if the first delay of the row that cannot be doubled is above the maximum. */
  lemma BoundHoldsIff(min: int, max: int)
    requires 0 < min <= max < TWO_63
    ensures (forall script :: NoRetryAfter(script) ==> WithinBound(min, max, Attempts(max, min, script))) <==>
            max < Top(min)
  {
    if max < Top(min) {
      forall script | NoRetryAfter(script)
        ensures WithinBound(min, max, Attempts(max, min, script))
      {
        BackoffBound(min, max, script);
      }
    } else {
      WrapsPastTheBound(min, max);
      RoundsAreLog2(min, max);
      var script := Repeat(NETWORK_ERROR, Rounds(min, max) + 2);
      assert NoRetryAfter(script) && !WithinBound(min, max, Attempts(max, min, script));
    }
  }

  // ---------- Retry-After ----------

  function Throttled(status: int, seconds: int): Attempt {
    Attempt(true, true, Response(status, Some(seconds)), false, true)
  }

  /** A server that always asks for the same wait is asked again for ever if and only if that wait, as the
      client computes it, is at most the maximum; otherwise the first request is the last. */
  lemma {:induction false} SteadyRetryAfter(min: int, max: int, status: int, seconds: int, n: nat)
    requires RetryStatus(status)
    ensures var call := Attempts(max, min, Repeat(Throttled(status, seconds), n + 1));
      && (Wrap64(seconds * SECOND) <= max ==> call.end == StillTrying && call.requests == n + 1)
      && (Wrap64(seconds * SECOND) > max ==> call.end == StatusGaveUp(status) && call.requests == 1)
    decreases n
  {
    RepeatTail(Throttled(status, seconds), n + 1);
    if n > 0 && Wrap64(seconds * SECOND) <= max {
      SteadyRetryAfter(Wrap64(Wrap64(seconds * SECOND) * MULTIPLIER), max, status, seconds, n - 1);
    }
  }

  lemma {:induction false} ZeroDelayStays(max: int, n: nat)
    requires max >= 0
    ensures var call := Attempts(max, 0, Repeat(NETWORK_ERROR, n));
      call.end == StillTrying && forall k :: 0 <= k < |call.waits| ==> call.waits[k] == 0
  {
    if n > 0 {
      RepeatTail(NETWORK_ERROR, n);
      ZeroDelayStays(max, n - 1);
    }
  }

  /** One Retry-After of zero takes the backoff away for good: every later network error is retried at
      once, without end. */
  lemma ZeroRetryAfterLasts(min: int, max: int, status: int, n: nat)
    requires RetryStatus(status) && max >= 0
    ensures var call := Attempts(max, min, [Throttled(status, 0)] + Repeat(NETWORK_ERROR, n));
      call.end == StillTrying && forall k :: 0 <= k < |call.waits| ==> call.waits[k] == 0
  {
    ZeroDelayStays(max, n);
    var script := [Throttled(status, 0)] + Repeat(NETWORK_ERROR, n);
    assert script[1..] == Repeat(NETWORK_ERROR, n);
  }

  /** A Retry-After of more than some 292 years, up to twice that, wraps to a negative delay: the client
      retries at once, for ever, instead of giving up. */
  lemma HugeRetryAfterRetries(min: int, max: int, status: int, seconds: int, n: nat)
    requires RetryStatus(status) && max >= 0 && TWO_63 <= seconds * SECOND < TWO_64
    ensures var call := Attempts(max, min, Repeat(Throttled(status, seconds), n + 1));
      call.end == StillTrying && call.requests == n + 1 && call.waits[0] < 0
  {
    SteadyRetryAfter(min, max, status, seconds, n);
    RepeatTail(Throttled(status, seconds), n + 1);
    assert Wrap64(seconds * SECOND) == seconds * SECOND - TWO_64;
  }

  // ---------- which Retry-After keeps the bound ----------

  predicate Int64Value(x: int) {
    -TWO_63 <= x < TWO_63
  }

  /** The delay after k doublings, each of which wraps. */
  function Doubled(delay: int, k: nat): int {
    if k == 0 then delay else Wrap64(Doubled(delay, k - 1) * MULTIPLIER)
  }

  lemma {:induction false} DoubledFirst(delay: int, k: nat)
    ensures Doubled(delay, k + 1) == Doubled(Wrap64(delay * MULTIPLIER), k)
  {
    if k > 0 {
      DoubledFirst(delay, k - 1);
    }
  }

  lemma WrapDouble(x: int) returns (j: int)
    requires Int64Value(x)
    ensures Wrap64(x * MULTIPLIER) == 2 * x + j * TWO_64
    ensures j == if 2 * x >= TWO_63 then -1 else if 2 * x < -TWO_63 then 1 else 0
  {
    j := if 2 * x >= TWO_63 then -1 else if 2 * x < -TWO_63 then 1 else 0;
  }

  lemma {:induction false} Pow2Adds(j: nat, k: nat)
    ensures Pow2(j + k) == Pow2(j) * Pow2(k)
  {
    if j > 0 {
      Pow2Adds(j - 1, k);
      TwiceProduct(Pow2(j - 1), Pow2(k));
    }
  }

  lemma TwiceProduct(a: int, b: int)
    ensures (2 * a) * b == 2 * (a * b)
  {
  }

  lemma Pow2Powers()
    ensures Pow2(62) == TWO_62 && Pow2(63) == TWO_63 && Pow2(64) == TWO_64
  {
    assert Pow2(8) == 256;
    Pow2Adds(8, 8);
    Pow2Adds(16, 16);
    Pow2Adds(32, 30);
    Pow2Adds(16, 14);
    Pow2Adds(8, 6);
    assert Pow2(6) == 64;
  }

  /** The k-th delay of the row is a multiple of 2^k. */
  lemma {:induction false} DoubledMultiple(delay: int, k: nat) returns (q: int)
    requires Int64Value(delay) && k <= 64
    ensures Doubled(delay, k) == q * Pow2(k) && Int64Value(Doubled(delay, k))
  {
    if k == 0 {
      q := delay;
    } else {
      var half := DoubledMultiple(delay, k - 1);
      var j := WrapDouble(Doubled(delay, k - 1));
      Pow2Powers();
      Pow2Adds(64 - k, k);
      q := half + j * Pow2(64 - k);
      Distribute(half, j, Pow2(64 - k), Pow2(k - 1));
    }
  }

  lemma Distribute(half: int, j: int, p: int, r: int)
    ensures 2 * (half * r) + j * (p * (2 * r)) == (half + j * p) * (2 * r)
  {
  }

  /** After 64 doublings nothing is left. */
  lemma {:induction false} DoubledVanishes(delay: int, k: nat)
    requires Int64Value(delay) && k >= 64
    ensures Doubled(delay, k) == 0
  {
    if k == 64 {
      var q := DoubledMultiple(delay, 64);
      Pow2Powers();
    } else {
      DoubledVanishes(delay, k - 1);
    }
  }

  /** Some delay of the row delay, 2 delay, 4 delay, ..., each wrapped, is above the maximum. After 64
      doublings the row is 0. */
  ghost predicate Climbs(delay: int, max: int) {
    exists k: nat :: k < 64 && Doubled(delay, k) > max
  }

  /** Without a further Retry-After there are at most n retries from this delay on. */
  ghost predicate RetriesAtMost(max: int, delay: int, n: nat) {
    forall rest :: NoRetryAfter(rest) ==> |Attempts(max, delay, rest).waits| <= n
  }

  lemma {:induction false} ClimbingEnds(max: int, delay: int, k: nat, rest: seq<Attempt>)
    requires Doubled(delay, k) > max && NoRetryAfter(rest)
    ensures |Attempts(max, delay, rest).waits| <= k
    decreases k
  {
    if rest != [] && Try(max, rest[0], delay).Retry? {
      DoubledFirst(delay, k - 1);
      ClimbingEnds(max, Wrap64(delay * MULTIPLIER), k - 1, rest[1..]);
    }
  }

  lemma {:induction false} NeverClimbing(max: int, delay: int, n: nat)
    requires forall k: nat :: Doubled(delay, k) <= max
    ensures |Attempts(max, delay, Repeat(NETWORK_ERROR, n)).waits| == n
    decreases n
  {
    if n > 0 {
      RepeatTail(NETWORK_ERROR, n);
      var next := Wrap64(delay * MULTIPLIER);
      forall k: nat
        ensures Doubled(next, k) <= max
      {
        DoubledFirst(delay, k);
      }
      assert Doubled(delay, 0) == delay;
      NeverClimbing(max, next, n - 1);
    }
  }

  lemma RetriesBoundedIff(max: int, delay: int)
    requires max >= 0 && Int64Value(delay)
    ensures (exists n: nat :: RetriesAtMost(max, delay, n)) <==> Climbs(delay, max)
  {
    if Climbs(delay, max) {
      var k: nat :| k < 64 && Doubled(delay, k) > max;
      forall rest | NoRetryAfter(rest)
        ensures |Attempts(max, delay, rest).waits| <= k
      {
        ClimbingEnds(max, delay, k, rest);
      }
      assert RetriesAtMost(max, delay, k);
    } else {
      forall k: nat
        ensures Doubled(delay, k) <= max
      {
        if k >= 64 {
          DoubledVanishes(delay, k);
        }
      }
      forall n: nat
        ensures !RetriesAtMost(max, delay, n)
      {
        NeverClimbing(max, delay, n + 1);
        assert NoRetryAfter(Repeat(NETWORK_ERROR, n + 1));
      }
    }
  }

  /** After one Retry-After of so many seconds there are at most n retries in all. */
  ghost predicate AtMostAfter(min: int, max: int, status: int, seconds: int, n: nat) {
    forall rest :: NoRetryAfter(rest) ==> |Attempts(max, min, [Throttled(status, seconds)] + rest).waits| <= n
  }

  lemma AfterThrottled(min: int, max: int, status: int, seconds: int, rest: seq<Attempt>)
    requires RetryStatus(status)
    ensures var asked := Wrap64(seconds * SECOND);
      |Attempts(max, min, [Throttled(status, seconds)] + rest).waits| ==
      if asked > max then 0 else 1 + |Attempts(max, Wrap64(asked * MULTIPLIER), rest).waits|
  {
    assert ([Throttled(status, seconds)] + rest)[1..] == rest;
  }

  lemma ClimbsNext(delay: int, max: int)
    requires max >= 0 && Int64Value(delay) && delay <= max
    ensures Climbs(delay, max) <==> Climbs(Wrap64(delay * MULTIPLIER), max)
  {
    var next := Wrap64(delay * MULTIPLIER);
    if Climbs(delay, max) {
      var k: nat :| k < 64 && Doubled(delay, k) > max;
      DoubledFirst(delay, k - 1);
      assert Doubled(next, k - 1) > max;
    }
    if Climbs(next, max) {
      var k: nat :| k < 64 && Doubled(next, k) > max;
      DoubledFirst(delay, k);
      if k == 63 {
        DoubledVanishes(delay, 64);
      }
      assert Doubled(delay, k + 1) > max;
    }
  }

  /** The exact condition on a Retry-After, for any value and any maximum: whatever comes after it without
      another one, the retries stay bounded if and only if the row of doubled delays it starts climbs over
      the maximum. */
  lemma RetryAfterBoundedIff(min: int, max: int, status: int, seconds: int)
    requires RetryStatus(status) && max >= 0
    ensures (exists n: nat :: AtMostAfter(min, max, status, seconds, n)) <==> Climbs(Wrap64(seconds * SECOND), max)
  {
    var asked := Wrap64(seconds * SECOND);
    var next := Wrap64(asked * MULTIPLIER);
    forall rest
      ensures |Attempts(max, min, [Throttled(status, seconds)] + rest).waits| ==
              if asked > max then 0 else 1 + |Attempts(max, next, rest).waits|
    {
      AfterThrottled(min, max, status, seconds, rest);
    }
    if asked > max {
      assert AtMostAfter(min, max, status, seconds, 0);
      assert Doubled(asked, 0) > max;
    } else {
      ClimbsNext(asked, max);
      RetriesBoundedIff(max, next);
      if exists n: nat :: AtMostAfter(min, max, status, seconds, n) {
        var n: nat :| AtMostAfter(min, max, status, seconds, n);
        assert RetriesAtMost(max, next, n);
      }
      if exists n: nat :: RetriesAtMost(max, next, n) {
        var n: nat :| RetriesAtMost(max, next, n);
        assert AtMostAfter(min, max, status, seconds, n + 1);
      }
    }
  }

  // ---------- which rows climb ----------

  /** 0, or the negation of a power of two. */
  ghost predicate Vanishing(delay: int) {
    delay == 0 || NegatedPower(delay)
  }

  ghost predicate NegatedPower(delay: int) {
    exists m: nat :: -delay == Pow2(m)
  }

  lemma {:induction false} Pow2Monotone(j: nat, k: nat)
    requires j <= k
    ensures 1 <= Pow2(j) <= Pow2(k)
    decreases k
  {
    if j < k {
      Pow2Monotone(j, k - 1);
    } else if k > 0 {
      Pow2Monotone(k - 1, k - 1);
    }
  }

  lemma PositiveNotVanishing(delay: int)
    requires delay > 0
    ensures !Vanishing(delay)
  {
    forall m: nat
      ensures -delay != Pow2(m)
    {
      Pow2Monotone(0, m);
    }
  }

  lemma VanishingNext(delay: int)
    requires Int64Value(delay) && delay <= 0
    ensures Vanishing(delay) <==> Vanishing(Wrap64(delay * MULTIPLIER))
    ensures Vanishing(delay) ==> Wrap64(delay * MULTIPLIER) <= 0
  {
    var j := WrapDouble(delay);
    var next := Wrap64(delay * MULTIPLIER);
    Pow2Powers();
    if delay != 0 {
      if NegatedPower(delay) {
        var m: nat :| -delay == Pow2(m);
        if m > 63 {
          Pow2Monotone(64, m);
        } else if m < 63 {
          Pow2Monotone(m, 62);
          assert -next == Pow2(m + 1);
        }
      }
      if next == 0 {
        assert -delay == Pow2(63);
      } else if NegatedPower(next) {
        var m: nat :| -next == Pow2(m);
        Pow2Monotone(0, m);
        assert next < 0 && j == 0 && m > 0;
        assert -delay == Pow2(m - 1);
      }
    }
  }

  lemma {:induction false} VanishingNeverClimbs(delay: int, k: nat)
    requires Int64Value(delay) && Vanishing(delay) && delay <= 0
    ensures Doubled(delay, k) <= 0 && Vanishing(Doubled(delay, k)) && Int64Value(Doubled(delay, k))
  {
    if k > 0 {
      VanishingNeverClimbs(delay, k - 1);
      VanishingNext(Doubled(delay, k - 1));
    }
  }

  lemma {:induction false} OthersClimb(delay: int, max: int) returns (k: nat)
    requires Int64Value(delay) && 0 <= max < TWO_62 && !Vanishing(delay)
    ensures Doubled(delay, k) > max
    decreases if delay < 0 then 1 else 0, if delay < 0 then delay + TWO_63 else max - delay
  {
    if delay > max {
      k := 0;
    } else {
      var j := WrapDouble(delay);
      var next := Wrap64(delay * MULTIPLIER);
      if delay < 0 {
        VanishingNext(delay);
      } else {
        PositiveNotVanishing(next);
      }
      var rest := OthersClimb(next, max);
      DoubledFirst(delay, rest);
      k := rest + 1;
    }
  }

  /** With a maximum below 2^62 a row fails to climb exactly when it starts at 0 or at the negation of a
      power of two: every other row, also one that a wrapped product starts below zero, climbs. */
  lemma ClimbsIff(delay: int, max: int)
    requires Int64Value(delay) && 0 <= max < TWO_62
    ensures Climbs(delay, max) <==> !Vanishing(delay)
  {
    if Vanishing(delay) {
      if NegatedPower(delay) {
        var m: nat :| -delay == Pow2(m);
        Pow2Monotone(0, m);
      }
      forall k: nat
        ensures Doubled(delay, k) <= max
      {
        VanishingNeverClimbs(delay, k);
      }
    } else {
      var k := OthersClimb(delay, max);
      if k >= 64 {
        DoubledVanishes(delay, k);
      }
      assert k < 64 && Doubled(delay, k) > max;
    }
  }

  /** A Retry-After that is granted as it stands keeps the retries bounded if and only if it is not 0. */
  lemma GrantedRetryAfterBoundedIff(min: int, max: int, status: int, seconds: nat)
    requires RetryStatus(status) && seconds * SECOND <= max < TWO_62
    ensures (exists n: nat :: AtMostAfter(min, max, status, seconds, n)) <==> seconds != 0
  {
    RetryAfterBoundedIff(min, max, status, seconds);
    ClimbsIff(seconds * SECOND, max);
    if seconds != 0 {
      PositiveNotVanishing(seconds * SECOND);
    }
  }
}
