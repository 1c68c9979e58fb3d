/**
 The SDK's action runner: at most three attempts of a read, exactly one of a write, with abortable
 backoff and a diagnostic trace.  The action, the abort and the random draws are parameters.
 */
module RetryEngine {
  import opened Basics

  const MAX_ATTEMPTS: int := 3
  const MAX_TIMEOUT: real := 300_000.0
  const MAX_BACKOFF: real := 30_000.0
  const MAX_SAFE_INTEGER: real := 9_007_199_254_740_991.0

  // ---------------------------------------------------------------- controls

  /** A JavaScript number. */
  datatype Number = Finite(value: real) | NotFinite

  predicate IsInteger(n: Number) { n.Finite? && n.value.Floor as real == n.value }

  predicate IsSafeInteger(n: Number) { IsInteger(n) && -MAX_SAFE_INTEGER <= n.value <= MAX_SAFE_INTEGER }

  datatype RetryOptions = RetryOptions(
    maxAttempts: Option<Number>, baseDelayMs: Option<Number>, maximumDelayMs: Option<Number>,
    jitterRatio: Option<Number>)

  datatype Retry = Retry(maxAttempts: int, baseDelayMs: real, maximumDelayMs: real, jitterRatio: real)
  {
    predicate Valid() {
      1 <= maxAttempts <= MAX_ATTEMPTS && 0.0 <= baseDelayMs <= maximumDelayMs <= MAX_BACKOFF
          && 0.0 <= jitterRatio <= 1.0
    }
  }

  function Default(n: Option<Number>, value: real): Number { if n.Some? then n.value else Finite(value) }

  /** `validateRetry`: every accepted setting bounds the attempts and the delays. */
  function ValidateRetry(options: Option<RetryOptions>): (r: Option<Retry>)
    ensures r.Some? ==> r.value.Valid()
    ensures options.None? ==> r.Some? && r.value.maxAttempts == 1
  {
    var given := if options.Some? then options.value else RetryOptions(None, None, None, None);
    var attempts, low := Default(given.maxAttempts, 1.0), Default(given.baseDelayMs, 150.0);
    var high, jitter := Default(given.maximumDelayMs, 2_000.0), Default(given.jitterRatio, 0.2);
    if !IsInteger(attempts) || attempts.value < 1.0 || attempts.value > MAX_ATTEMPTS as real then None
    else if !IsSafeInteger(low) || low.value < 0.0 || low.value > MAX_BACKOFF then None
    else if !IsSafeInteger(high) || high.value < 0.0 || high.value > MAX_BACKOFF then None
    else if high.value < low.value then None
    else if jitter.NotFinite? || jitter.value < 0.0 || jitter.value > 1.0 then None
    else Some(Retry(attempts.value.Floor, low.value, high.value, jitter.value))
  }

  /** `validateTimeout`. */
  predicate ValidTimeout(timeout: Option<Number>) {
    timeout.None? || (IsSafeInteger(timeout.value) && 1.0 <= timeout.value.value <= MAX_TIMEOUT)
  }

  function Min(a: real, b: real): real { if a < b then a else b }

  function Round(x: real): real { (x + 0.5).Floor as real }

  function Exponential(retry: Retry, failure: nat): real {
    Min(retry.maximumDelayMs, retry.baseDelayMs * Pow2(if failure > 1 then failure - 1 else 0) as real)
  }

  function Times(a: real, b: real): real { a * b }

  function Jitter(delay: real, ratio: real, draw: real): real { Times(Times(delay, ratio), draw * 2.0 - 1.0) }

  /** `retryDelay`, given its random draw. */
  function RetryDelay(retry: Retry, failure: nat, retryAfterMs: Option<real>, draw: real): real {
    var exponential := Exponential(retry, failure);
    var jitter := Jitter(exponential, retry.jitterRatio, draw);
    var wished := if retryAfterMs.Some? then retryAfterMs.value else Round(exponential + jitter);
    Min(MAX_BACKOFF, if wished > 0.0 then wished else 0.0)
  }

  lemma Scaled(x: real, factor: real)
    requires x >= 0.0 && -1.0 <= factor <= 1.0
    ensures -x <= Times(x, factor) <= x && (factor >= 0.0 ==> Times(x, factor) >= 0.0)
  {
    NonNegativeProduct(x, 1.0 - factor);
    NonNegativeProduct(x, 1.0 + factor);
    if factor >= 0.0 {
      NonNegativeProduct(x, factor);
    }
  }

  lemma JitterWithin(x: real, ratio: real, draw: real)
    requires x >= 0.0 && 0.0 <= ratio <= 1.0 && 0.0 <= draw <= 1.0
    ensures -x <= Jitter(x, ratio, draw) <= x
  {
    hide Times;
    Scaled(x, ratio);
    Scaled(Times(x, ratio), draw * 2.0 - 1.0);
  }

  lemma RoundsUpByHalf(x: real)
    ensures Round(x) <= x + 0.5
  {
  }

  /** Backoff is bounded whatever the server asks for; without its wish, by twice the configured maximum. */
  lemma DelayIsBounded(retry: Retry, failure: nat, retryAfterMs: Option<real>, draw: real)
    requires retry.Valid() && 0.0 <= draw <= 1.0
    ensures 0.0 <= RetryDelay(retry, failure, retryAfterMs, draw) <= MAX_BACKOFF
    ensures retryAfterMs.None? ==> RetryDelay(retry, failure, retryAfterMs, draw) <= 2.0 * retry.maximumDelayMs + 0.5
    ensures retryAfterMs.Some? && 0.0 <= retryAfterMs.value <= MAX_BACKOFF ==>
              RetryDelay(retry, failure, retryAfterMs, draw) == retryAfterMs.value
  {
    hide Jitter;
    var power := Pow2(if failure > 1 then failure - 1 else 0) as real;
    NonNegativeProduct(retry.baseDelayMs, power);
    var exponential := Exponential(retry, failure);
    JitterWithin(exponential, retry.jitterRatio, draw);
    RoundsUpByHalf(exponential + Jitter(exponential, retry.jitterRatio, draw));
  }

  lemma NonNegativeProduct(a: real, b: real)
    requires a >= 0.0 && b >= 0.0
    ensures a * b >= 0.0
  {
  }

  // ---------------------------------------------------------------- one run's world

  datatype Kind = Read | Write | Broadcast

  datatype SdkError = SdkError(code: string, safeToRetry: bool, retryAfterMs: Option<real>)

  /** What an action throws: an SDK error, or anything else with what normalising makes of it. */
  datatype Thrown = Sdk(error: SdkError) | Foreign(normalized: SdkError)

  datatype Outcome<T> = Success(value: T) | Threw(thrown: Thrown)

  /**
   What each attempt would do, when the caller cancels, when the timer fires, and the random draws.
   Moments at which the runner looks at the signal are numbered in the order they happen.
   */
  datatype World<!T> = World(
    outcome: nat -> Outcome<T>, cancelledAt: Option<nat>, timedOutAt: Option<nat>, draw: nat -> real)
  {
    /** The timer has fired, perhaps after the caller had cancelled. */
    predicate TimedOut(moment: nat) { timedOutAt.Some? && timedOutAt.value <= moment }
    predicate Aborted(moment: nat) { (cancelledAt.Some? && cancelledAt.value <= moment) || TimedOut(moment) }
    predicate EverAborted() { cancelledAt.Some? || timedOutAt.Some? }
  }

  /** Before an attempt, when it settles, when its error is looked at, and during the wait after it. */
  function Begin(attempt: nat): nat { 4 * attempt }
  function Settle(attempt: nat): nat { 4 * attempt + 1 }
  function Check(attempt: nat): nat { 4 * attempt + 2 }
  function Wait(attempt: nat): nat { 4 * attempt + 3 }

  datatype Options = Options(timeoutMs: Option<Number>, retry: Option<RetryOptions>, hasSignal: bool)

  /** Nothing aborts without a signal or a timeout, and no timeout fires that was not set. */
  ghost predicate Consistent<T>(w: World<T>, options: Options) {
    && (w.cancelledAt.Some? ==> options.hasSignal)
    && (w.timedOutAt.Some? ==> options.timeoutMs.Some?)
    && forall n :: 0.0 <= w.draw(n) <= 1.0
  }

  const CANCELLED := SdkError("TORIUM_CANCELLED", false, None)
  const TIMEOUT := SdkError("TORIUM_TIMEOUT", false, None)
  const CONFIG_INVALID := SdkError("TORIUM_CONFIG_INVALID", false, None)

  /** `operation.normalize`, in its two forms. */
  function Normalize<T>(w: World<T>, options: Options, moment: nat, thrown: Thrown): SdkError {
    if options.timeoutMs.None? && options.hasSignal then
      if thrown.Sdk? && thrown.error.code == "TORIUM_RPC_ABORTED" then thrown.error
      else if w.Aborted(moment) then CANCELLED
      else if thrown.Sdk? then thrown.error else thrown.normalized
    else
      if w.TimedOut(moment) then TIMEOUT
      else if thrown.Sdk? then thrown.error
      else if w.Aborted(moment) then CANCELLED else thrown.normalized
  }

  /** `enforceOperationSafety`. */
  function Enforce(error: SdkError, kind: Kind): SdkError {
    if kind == Read || !error.safeToRetry then error else error.(safeToRetry := false)
  }

  /** The error an attempt ends in, as the runner judges it. */
  function Judged<T>(w: World<T>, options: Options, kind: Kind, attempt: nat, thrown: Thrown): SdkError {
    Enforce(Normalize(w, options, Check(attempt), thrown), kind)
  }

  datatype Event = Started(attempt: nat) | Retrying(attempt: nat, error: SdkError) | Succeeded(attempt: nat)
      | FailedAt(attempt: nat, error: SdkError)

  datatype Result<T> = Returned(value: T) | Raised(error: SdkError)

  function UpTo(n: nat): (r: seq<nat>)
    ensures |r| == n && forall i :: 0 <= i < n ==> r[i] == i + 1
  {
    seq(n, i => i + 1)
  }

  /** `start`, then one `retry` for each further attempt, in order. */
  predicate Opening(events: seq<Event>, attempt: nat) {
    && |events| == attempt && attempt >= 1 && events[0] == Started(1)
    && forall i :: 1 <= i < |events| ==>
         events[i].Retrying? && events[i].attempt == i + 1 && events[i].error.safeToRetry
  }

  function Sum(delays: seq<real>): real {
    if delays == [] then 0.0 else Sum(delays[..|delays| - 1]) + delays[|delays| - 1]
  }

  /** Attempt `k` was invoked and failed with an error that may be retried. */
  predicate RetriedFrom<T>(w: World<T>, options: Options, kind: Kind, k: nat) {
    && !w.Aborted(Wait(k)) && w.outcome(k).Threw?
    && Judged(w, options, kind, k, w.outcome(k).thrown).safeToRetry
  }

  /** The trace ends in exactly one `success` or `failure`, which carries the result. */
  predicate Ends<T(==)>(r: Result<T>, events: seq<Event>) {
    && |events| >= 2 && Opening(events[..|events| - 1], |events| - 1)
    && events[|events| - 1] == if r.Returned? then Succeeded(|events| - 1) else FailedAt(|events| - 1, r.error)
  }

  /** Attempts are invoked in order, none after the abort was seen. */
  predicate Invoked<T>(w: World<T>, invoked: seq<nat>) {
    invoked == UpTo(|invoked|) && forall k :: 1 <= k <= |invoked| ==> !w.Aborted(Begin(k))
  }

  /** Only failures that are safe to retry are followed by another invocation. */
  predicate RetriedSafely<T>(w: World<T>, options: Options, kind: Kind, invocations: nat) {
    forall k :: 1 <= k < invocations ==> RetriedFrom(w, options, kind, k)
  }

  /** Each wait is bounded, and there is one less than there are opening events, or as many. */
  predicate Delayed(delays: seq<real>) {
    && |delays| < MAX_ATTEMPTS && Sum(delays) <= |delays| as real * MAX_BACKOFF
    && forall i :: 0 <= i < |delays| ==> 0.0 <= delays[i] <= MAX_BACKOFF
  }

  /** `runAction`. */
  method RunAction<T(0,==)>(w: World<T>, kind: Kind, options: Options, allowRetry: bool)
    returns (r: Result<T>, events: seq<Event>, invoked: seq<nat>, delays: seq<real>)
    requires Consistent(w, options) && (allowRetry <==> kind == Read)
    ensures var retry := ValidateRetry(if allowRetry then options.retry else None);
            if ValidTimeout(options.timeoutMs) && retry.Some? then
              && Ends(r, events) && Invoked(w, invoked) && |events| - 2 <= |invoked| <= |events| - 1
              && |invoked| <= retry.value.maxAttempts
              && RetriedSafely(w, options, kind, |invoked|) && Delayed(delays)
              && (r.Raised? && r.error.safeToRetry ==> |invoked| == retry.value.maxAttempts || w.EverAborted())
            else r == Raised(CONFIG_INVALID) && events == [] && invoked == [] && delays == []
    ensures r.Returned? ==> |invoked| == |events| - 1 && w.outcome(|invoked|) == Success(r.value)
    ensures !allowRetry ==> |invoked| <= 1 && delays == []
    ensures r.Raised? && kind != Read ==> !r.error.safeToRetry
  {
    hide Ends, Invoked, RetriedSafely, Delayed;
    events, invoked, delays := [], [], [];
    var retry := ValidateRetry(if allowRetry then options.retry else None);
    if !ValidTimeout(options.timeoutMs) || retry.None? {
      return Raised(CONFIG_INVALID), events, invoked, delays;
    }
    r, events, invoked, delays := Attempts(w, kind, options, allowRetry, retry.value);
  }

  /** The attempt loop. */
  method Attempts<T(0,==)>(w: World<T>, kind: Kind, options: Options, allowRetry: bool, retry: Retry)
    returns (r: Result<T>, events: seq<Event>, invoked: seq<nat>, delays: seq<real>)
    requires Consistent(w, options) && (allowRetry <==> kind == Read) && retry.Valid()
    ensures Ends(r, events) && Invoked(w, invoked) && |events| - 2 <= |invoked| <= |events| - 1
    ensures |invoked| <= retry.maxAttempts
    ensures RetriedSafely(w, options, kind, |invoked|) && Delayed(delays)
    ensures r.Raised? && r.error.safeToRetry ==> |invoked| == retry.maxAttempts || w.EverAborted()
    ensures r.Returned? ==> |invoked| == |events| - 1 && w.outcome(|invoked|) == Success(r.value)
    ensures !allowRetry ==> |invoked| <= 1 && delays == []
    ensures r.Raised? && kind != Read ==> !r.error.safeToRetry
  {
    hide Opening, RetriedFrom, Normalize, RetryDelay, Ends, Invoked, UpTo, Delayed;
    var attempt := 1;
    events, invoked, delays := [Started(attempt)], [], [];
    NothingYet(w, options, kind, events);
    while true
      invariant 1 <= attempt <= retry.maxAttempts && |events| == attempt && Opening(events, attempt)
      invariant Invoked(w, invoked) && |invoked| == attempt - 1
      invariant RetriedSafely(w, options, kind, attempt)
      invariant Delayed(delays) && |delays| == attempt - 1
      invariant !allowRetry ==> attempt == 1
      decreases retry.maxAttempts - attempt
    {
      var outcome: Outcome<T>;
      if w.Aborted(Begin(attempt)) {
        outcome := Threw(Sdk(if w.TimedOut(Begin(attempt)) then TIMEOUT else CANCELLED));
      } else {
        InvokedNext(w, invoked, attempt);
        invoked := invoked + [attempt];
        outcome := if w.Aborted(Settle(attempt)) then Threw(Sdk(CANCELLED)) else w.outcome(attempt);
      }
      if outcome.Success? {
        EndsWith(Returned(outcome.value), events, attempt);
        return Returned(outcome.value), events + [Succeeded(attempt)], invoked, delays;
      }
      var normalized := Judged(w, options, kind, attempt, outcome.thrown);
      if !allowRetry || !normalized.safeToRetry || attempt >= retry.maxAttempts || w.Aborted(Check(attempt)) {
        EndsWith<T>(Raised(normalized), events, attempt);
        return Raised(normalized), events + [FailedAt(attempt, normalized)], invoked, delays;
      }
      OpeningNext(events, attempt, normalized);
      attempt := attempt + 1;
      events := events + [Retrying(attempt, normalized)];
      var delay := RetryDelay(retry, attempt - 1, normalized.retryAfterMs, w.draw(attempt));
      DelayIsBounded(retry, attempt - 1, normalized.retryAfterMs, w.draw(attempt));
      if w.Aborted(Wait(attempt - 1)) {
        var interrupted := Enforce(Normalize(w, options, Wait(attempt - 1), Sdk(CANCELLED)), kind);
        EndsWith<T>(Raised(interrupted), events, attempt);
        return Raised(interrupted), events + [FailedAt(attempt, interrupted)], invoked, delays;
      }
      WasRetried(w, options, kind, attempt - 1);
      DelayNext(delays, delay);
      delays := delays + [delay];
    }
  }

  lemma NothingYet<T>(w: World<T>, options: Options, kind: Kind, events: seq<Event>)
    requires events == [Started(1)]
    ensures RetriedSafely(w, options, kind, 1)
    ensures Opening(events, 1) && Invoked(w, []) && Delayed([])
  {
  }

  lemma OpeningNext(events: seq<Event>, attempt: nat, error: SdkError)
    requires Opening(events, attempt) && error.safeToRetry
    ensures Opening(events + [Retrying(attempt + 1, error)], attempt + 1)
  {
  }

  lemma EndsWith<T>(r: Result<T>, events: seq<Event>, attempt: nat)
    requires Opening(events, attempt)
    ensures Ends(r, events + [if r.Returned? then Succeeded(attempt) else FailedAt(attempt, r.error)])
  {
    var all := events + [if r.Returned? then Succeeded(attempt) else FailedAt(attempt, r.error)];
    assert all[..|all| - 1] == events;
  }

  lemma InvokedNext<T>(w: World<T>, invoked: seq<nat>, attempt: nat)
    requires Invoked(w, invoked) && |invoked| == attempt - 1 && !w.Aborted(Begin(attempt))
    ensures Invoked(w, invoked + [attempt])
  {
    assert UpTo(attempt) == UpTo(attempt - 1) + [attempt];
  }

  lemma WasRetried<T>(w: World<T>, options: Options, kind: Kind, k: nat)
    requires !w.Aborted(Wait(k)) && w.outcome(k).Threw? && Judged(w, options, kind, k, w.outcome(k).thrown).safeToRetry
    requires RetriedSafely(w, options, kind, k)
    ensures RetriedSafely(w, options, kind, k + 1)
  {
  }

  lemma DelayNext(delays: seq<real>, delay: real)
    requires Delayed(delays) && |delays| + 1 < MAX_ATTEMPTS && 0.0 <= delay <= MAX_BACKOFF
    ensures Delayed(delays + [delay])
  {
    assert (delays + [delay])[..|delays|] == delays;
  }
}
