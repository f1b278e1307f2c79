/**
  The retry interceptor (RetryInterceptor.kt): a bounded loop over
  `proceed` with exponential backoff after IOExceptions. Its behaviour is
  stated as a function of the scripted downstream outcomes: the requests
  sent, the delays slept and the result returned or thrown.
 */
module RetryInterceptor {
  import opened Http
  import opened Config

  const TwoTo63: int := 0x8000_0000_0000_0000
  const TwoTo64: int := 0x1_0000_0000_0000_0000

  /** Kotlin `Long` arithmetic: the two's-complement value congruent to `x` modulo 2^64. */
  function ToLong(x: int): Int64 {
    (x + TwoTo63) % TwoTo64 - TwoTo63
  }

  lemma ToLongCongruent(x: int, y: int, q: int)
    requires x == y + q * TwoTo64
    ensures ToLong(x) == ToLong(y)
  {
    var a := y + TwoTo63;
    assert x + TwoTo63 == a + q * TwoTo64;
    var r := a % TwoTo64;
    var t := a / TwoTo64;
    assert a == t * TwoTo64 + r;
    assert a + q * TwoTo64 == (t + q) * TwoTo64 + r;
  }

  /** A value that fits in a Long is its own Long. */
  lemma ToLongInRange(x: int)
    requires -TwoTo63 <= x < TwoTo63
    ensures ToLong(x) == x
  {
  }

  /** `currentDelay *= 2` wraps like the exact product does. */
  lemma {:induction false} DoubleToLong(x: int)
    ensures ToLong(ToLong(x) * 2) == ToLong(x * 2)
  {
    var a := x + TwoTo63;
    var q := a / TwoTo64;
    assert a == q * TwoTo64 + a % TwoTo64;
    assert ToLong(x) == x - q * TwoTo64;
    assert ToLong(x) * 2 == x * 2 + (-2 * q) * TwoTo64;
    ToLongCongruent(ToLong(x) * 2, x * 2, -2 * q);
  }

  function Pow2(k: nat): nat {
    if k == 0 then 1 else 2 * Pow2(k - 1)
  }

  /** The k-th backoff delay (counting from 0): `initialDelayMillis * 2^k` in Long arithmetic. */
  function BackoffDelay(initial: Int64, k: nat): Int64 {
    ToLong(initial * Pow2(k))
  }

  /** The first n backoff delays. */
  function Backoff(initial: Int64, n: nat): seq<Int64> {
    seq(n, k requires 0 <= k < n => BackoffDelay(initial, k))
  }

  lemma BackoffSnoc(initial: Int64, n: nat)
    ensures Backoff(initial, n + 1) == Backoff(initial, n) + [BackoffDelay(initial, n)]
  {
  }

  lemma BackoffStep(initial: Int64, c: nat)
    ensures ToLong(BackoffDelay(initial, c) * 2) == BackoffDelay(initial, c + 1)
  {
    DoubleToLong(initial * Pow2(c));
    assert initial * Pow2(c) * 2 == initial * Pow2(c + 1);
  }

  // ---------------------------------------------------------------------
  // The outcome of an attempt, as the loop sees it

  /** An attempt that ends the loop: a successful response, or an exception that is no IOException. */
  predicate Decisive(o: Outcome) {
    (o.Responded? && IsSuccessful(o.response)) || (o.Threw? && !IsIoException(o.fault))
  }

  predicate IsIoOutcome(o: Outcome) {
    o.Threw? && IsIoException(o.fault)
  }

  /** The first decisive attempt in [from, n), or n when there is none. */
  function FirstDecisive(d: Downstream, from: nat, n: nat): (k: nat)
    requires from <= n
    ensures from <= k <= n
    ensures forall j :: from <= j < k ==> !Decisive(d(j))
    ensures k < n ==> Decisive(d(k))
    decreases n - from
  {
    if from == n then n
    else if Decisive(d(from)) then from
    else FirstDecisive(d, from + 1, n)
  }

  lemma FirstDecisiveIs(d: Downstream, n: nat, k: nat)
    requires k <= n
    requires forall j :: 0 <= j < k ==> !Decisive(d(j))
    requires k < n ==> Decisive(d(k))
    ensures FirstDecisive(d, 0, n) == k
  {
  }

  /** How many of the first n attempts threw an IOException. */
  function CountIo(d: Downstream, n: nat): nat {
    if n == 0 then 0 else CountIo(d, n - 1) + (if IsIoOutcome(d(n - 1)) then 1 else 0)
  }

  lemma {:induction false} CountIoBound(d: Downstream, n: nat)
    ensures CountIo(d, n) <= n
  {
    if n > 0 {
      CountIoBound(d, n - 1);
    }
  }

  lemma {:induction false} CountIoNone(d: Downstream, n: nat)
    requires forall j :: 0 <= j < n ==> !IsIoOutcome(d(j))
    ensures CountIo(d, n) == 0
  {
    if n > 0 {
      CountIoNone(d, n - 1);
    }
  }

  /** The IOException of the last of the first n attempts that threw one. */
  function LastIo(d: Downstream, n: nat): Option<Fault> {
    if n == 0 then None
    else if IsIoOutcome(d(n - 1)) then Some(d(n - 1).fault)
    else LastIo(d, n - 1)
  }

  /** LastIo is present exactly when some attempt threw an IOException, and then it is the last such attempt's. */
  lemma {:induction false} LastIoSpec(d: Downstream, n: nat)
    ensures LastIo(d, n).Some? <==> exists j :: 0 <= j < n && IsIoOutcome(d(j))
    ensures LastIo(d, n).Some? ==>
              exists j :: 0 <= j < n && d(j) == Threw(LastIo(d, n).value) && IsIoException(LastIo(d, n).value)
                          && forall m :: j < m < n ==> !IsIoOutcome(d(m))
  {
    if n > 0 {
      LastIoSpec(d, n - 1);
      if IsIoOutcome(d(n - 1)) {
        assert d(n - 1) == Threw(LastIo(d, n).value);
      }
    }
  }

  // ---------------------------------------------------------------------
  // The specification

  /** The requests sent to the chain, the delays slept (milliseconds), and what `intercept` returns or throws. */
  datatype RetryTrace = RetryTrace(sent: seq<Request>, delays: seq<Int64>, result: Outcome)

  function Repeat(request: Request, n: nat): seq<Request> {
    seq(n, _ => request)
  }

  lemma RepeatSnoc(request: Request, n: nat)
    ensures Repeat(request, n + 1) == Repeat(request, n) + [request]
  {
  }

  /** How many attempts so far may have been followed by a delay: all but the last one. */
  function DelayWindow(attempt: nat, n: int): nat {
    if attempt < n || n <= 0 then attempt else n - 1
  }

  /**
    `intercept` as a function of the downstream outcomes: without a retry
    configuration one pass-through call; otherwise attempts go on until the
    first decisive one; when there is none, all `maxRetries` attempts are made
    and the last IOException (or the synthesised one) is thrown. Only
    IOExceptions before the last attempt are followed by a delay, the k-th
    delay being `initialDelayMillis * 2^k`.
   */
  function Retry(config: Option<RetryConfiguration>, request: Request, d: Downstream): RetryTrace {
    match config
    case None => RetryTrace([request], [], d(0))
    case Some(c) =>
      var n := c.maxRetries;
      if n <= 0 then RetryTrace([], [], Threw(RetriesExhausted(n)))
      else
        var k := FirstDecisive(d, 0, n);
        if k < n then RetryTrace(Repeat(request, k + 1), Backoff(c.initialDelayMillis, CountIo(d, k)), d(k))
        else RetryTrace(Repeat(request, n), Backoff(c.initialDelayMillis, CountIo(d, n - 1)),
                        Threw(LastIo(d, n).GetOr(RetriesExhausted(n))))
  }

  /** The specification when attempt k is the first decisive one. */
  lemma RetryDecidedAt(c: RetryConfiguration, request: Request, d: Downstream, k: nat)
    requires k < c.maxRetries
    requires forall j :: 0 <= j < k ==> !Decisive(d(j))
    requires Decisive(d(k))
    ensures Retry(Some(c), request, d) ==
            RetryTrace(Repeat(request, k + 1), Backoff(c.initialDelayMillis, CountIo(d, k)), d(k))
  {
    FirstDecisiveIs(d, c.maxRetries, k);
  }

  /** The specification when no attempt is decisive: every attempt is made and the last IOException is thrown. */
  lemma RetryExhausted(c: RetryConfiguration, request: Request, d: Downstream, attempts: nat)
    requires attempts == if c.maxRetries > 0 then c.maxRetries else 0
    requires forall j :: 0 <= j < attempts ==> !Decisive(d(j))
    ensures Retry(Some(c), request, d) ==
            RetryTrace(Repeat(request, attempts),
                       Backoff(c.initialDelayMillis, CountIo(d, DelayWindow(attempts, c.maxRetries))),
                       Threw(LastIo(d, attempts).GetOr(RetriesExhausted(c.maxRetries))))
  {
    if c.maxRetries > 0 {
      FirstDecisiveIs(d, c.maxRetries, c.maxRetries);
    } else {
      assert Repeat(request, 0) == [];
      assert Backoff(c.initialDelayMillis, 0) == [];
    }
  }

  /** `RetryInterceptor.intercept`, with the delays recorded instead of slept. */
  method Intercept(networkConfiguration: NetworkConfiguration, request: Request, d: Downstream)
    returns (trace: RetryTrace)
    ensures trace == Retry(networkConfiguration.retryConfiguration, request, d)
  {
    if networkConfiguration.retryConfiguration.None? {
      return RetryTrace([request], [], d(0));
    }
    ghost var c := networkConfiguration.retryConfiguration.value;
    var maxRetries: int := networkConfiguration.retryConfiguration.value.maxRetries;
    var initialDelayMillis := networkConfiguration.retryConfiguration.value.initialDelayMillis;
    var lastException: Option<Fault> := None;
    var currentDelay: Int64 := initialDelayMillis;
    var sent: seq<Request> := [];
    var delays: seq<Int64> := [];
    var attempt: nat := 0;
    while attempt < maxRetries
      invariant maxRetries > 0 ==> attempt <= maxRetries
      invariant maxRetries <= 0 ==> attempt == 0
      invariant forall j :: 0 <= j < attempt ==> !Decisive(d(j))
      invariant sent == Repeat(request, attempt)
      invariant lastException == LastIo(d, attempt)
      invariant delays == Backoff(initialDelayMillis, CountIo(d, DelayWindow(attempt, maxRetries)))
      invariant currentDelay == BackoffDelay(initialDelayMillis, |delays|)
    {
      var outcome := d(attempt);
      RepeatSnoc(request, attempt);
      sent := sent + [request];
      if outcome.Responded? {
        if IsSuccessful(outcome.response) {
          RetryDecidedAt(c, request, d, attempt);
          return RetryTrace(sent, delays, outcome);
        }
        // response.close(): the unsuccessful response is dropped
      } else if !IsIoException(outcome.fault) {
        RetryDecidedAt(c, request, d, attempt);
        return RetryTrace(sent, delays, outcome);
      } else {
        lastException := Some(outcome.fault);
        if attempt < maxRetries - 1 {
          BackoffStep(initialDelayMillis, |delays|);
          BackoffSnoc(initialDelayMillis, |delays|);
          delays := delays + [currentDelay];
          currentDelay := ToLong(currentDelay * 2);
        }
      }
      attempt := attempt + 1;
    }
    RetryExhausted(c, request, d, attempt);
    return RetryTrace(sent, delays, Threw(lastException.GetOr(RetriesExhausted(maxRetries))));
  }

  // ---------------------------------------------------------------------
  // Properties

  /** With the default configuration (no retry policy) there is exactly one pass-through call. */
  lemma DefaultConfigurationPassesThrough(homeServerUrl: string, request: Request, d: Downstream)
    ensures Retry(DefaultConfiguration(homeServerUrl).retryConfiguration, request, d)
            == RetryTrace([request], [], d(0))
  {
  }

  /**
    With a policy there are at most `maxRetries` calls, each with the chain's
    request, none at all when `maxRetries <= 0`, and at most one delay fewer
    than there are attempts.
   */
  lemma CallsBounded(c: RetryConfiguration, request: Request, d: Downstream)
    ensures var t := Retry(Some(c), request, d);
      && (c.maxRetries <= 0 ==> t.sent == [] && t.result == Threw(RetriesExhausted(c.maxRetries)))
      && (c.maxRetries > 0 ==> 1 <= |t.sent| <= c.maxRetries && |t.delays| < c.maxRetries && |t.delays| < |t.sent|)
      && forall i :: 0 <= i < |t.sent| ==> t.sent[i] == request
  {
    if c.maxRetries > 0 {
      var k := FirstDecisive(d, 0, c.maxRetries);
      CountIoBound(d, k);
      CountIoBound(d, c.maxRetries - 1);
    }
  }

  /** With a policy, a response that is not successful is never handed back to the caller. */
  lemma NeverReturnsUnsuccessful(c: RetryConfiguration, request: Request, d: Downstream)
    ensures var t := Retry(Some(c), request, d);
      t.result.Responded? ==> IsSuccessful(t.result.response)
  {
  }

  /** A successful attempt k, after k attempts that decided nothing, is returned at once: k + 1 calls. */
  lemma FirstSuccessReturned(c: RetryConfiguration, request: Request, d: Downstream, k: nat)
    requires k < c.maxRetries
    requires forall j :: 0 <= j < k ==> !Decisive(d(j))
    requires d(k).Responded? && IsSuccessful(d(k).response)
    ensures var t := Retry(Some(c), request, d);
      |t.sent| == k + 1 && t.result == d(k)
  {
    FirstDecisiveIs(d, c.maxRetries, k);
  }

  /** An exception that is not an IOException propagates at once, with no further attempt. */
  lemma OtherExceptionPropagates(c: RetryConfiguration, request: Request, d: Downstream, k: nat)
    requires k < c.maxRetries
    requires forall j :: 0 <= j < k ==> !Decisive(d(j))
    requires d(k).Threw? && !IsIoException(d(k).fault)
    ensures var t := Retry(Some(c), request, d);
      |t.sent| == k + 1 && t.result == d(k)
  {
    FirstDecisiveIs(d, c.maxRetries, k);
  }

  /**
    When no attempt succeeds, all `maxRetries` calls are made and the most
    recent IOException is thrown, even when later attempts only returned
    unsuccessful responses; with no IOException at all, the synthesised one.
   */
  lemma ExhaustedThrowsLastIoException(c: RetryConfiguration, request: Request, d: Downstream, j: nat)
    requires c.maxRetries > 0
    requires forall i :: 0 <= i < c.maxRetries ==> !Decisive(d(i))
    ensures var t := Retry(Some(c), request, d);
      && |t.sent| == c.maxRetries
      && ((j < c.maxRetries && IsIoOutcome(d(j)) && (forall m :: j < m < c.maxRetries ==> !IsIoOutcome(d(m))))
            ==> t.result == d(j))
      && ((forall i :: 0 <= i < c.maxRetries ==> !IsIoOutcome(d(i)))
            ==> t.result == Threw(RetriesExhausted(c.maxRetries)))
  {
    FirstDecisiveIs(d, c.maxRetries, c.maxRetries);
    var last := LastIo(d, c.maxRetries);
    LastIoSpec(d, c.maxRetries);
    if last.Some? {
      var i :| 0 <= i < c.maxRetries && d(i) == Threw(last.value) && IsIoException(last.value)
               && forall m :: i < m < c.maxRetries ==> !IsIoOutcome(d(m));
      if j < c.maxRetries && IsIoOutcome(d(j)) && (forall m :: j < m < c.maxRetries ==> !IsIoOutcome(d(m))) {
        assert i == j;
      }
    }
  }

  /**
    The k-th delay is `initialDelayMillis * 2^k`, wrapped to a Long; while that
    product fits in a Long it is the product itself.
   */
  lemma DelaysDouble(c: RetryConfiguration, request: Request, d: Downstream, k: nat)
    requires k < |Retry(Some(c), request, d).delays|
    ensures var delay := Retry(Some(c), request, d).delays[k];
      && delay == ToLong(c.initialDelayMillis * Pow2(k))
      && (-TwoTo63 <= c.initialDelayMillis * Pow2(k) < TwoTo63 ==> delay == c.initialDelayMillis * Pow2(k))
  {
    if -TwoTo63 <= c.initialDelayMillis * Pow2(k) < TwoTo63 {
      ToLongInRange(c.initialDelayMillis * Pow2(k));
    }
  }

  /** Unsuccessful responses are retried without any delay: only IOExceptions cause one. */
  lemma NoDelayWithoutIoException(c: RetryConfiguration, request: Request, d: Downstream)
    requires forall j :: 0 <= j < c.maxRetries ==> !IsIoOutcome(d(j))
    ensures Retry(Some(c), request, d).delays == []
  {
    if c.maxRetries > 0 {
      var k := FirstDecisive(d, 0, c.maxRetries);
      CountIoNone(d, k);
      CountIoNone(d, c.maxRetries - 1);
    }
  }

  /**
    The worked example: policy {maxRetries = 3, initialDelay = 100 ms}, two
    IOExceptions then a success: three calls, delays of 100 then 200 ms, and
    the successful response is returned.
   */
  lemma ThreeAttemptsExample(request: Request, ok: Response)
    requires IsSuccessful(ok)
    ensures var d: Downstream := (i: nat) => if i < 2 then Threw(IoFault(i)) else Responded(ok);
      var t := Retry(Some(RetryConfiguration(3, 100)), request, d);
      |t.sent| == 3 && t.delays == [100, 200] && t.result == Responded(ok)
  {
    var d: Downstream := (i: nat) => if i < 2 then Threw(IoFault(i)) else Responded(ok);
    FirstDecisiveIs(d, 3, 2);
    assert CountIo(d, 2) == 2;
    assert BackoffDelay(100, 0) == 100;
    assert Pow2(1) == 2;
    assert BackoffDelay(100, 1) == 200;
  }
}
