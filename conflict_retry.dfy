/**
 * The rate-limit handling of ConflictScanner: which errors are retried, how long to wait before
 * the next attempt (a `retry-after` header, an `x-ratelimit-reset-requests` duration such as
 * "2m30s", or exponential back-off), and chat_with_retry itself.
 */
module ConflictRetry {
  import opened Wrappers
  import opened Strings
  import opened ReasoningService
  import Sequences

  const MaxRetries: nat := 5
  const BaseDelay: nat := 1

  // =============================================================================================
  // Which errors are retried

  /** rate_limit_error?: a TooManyRequestsError, or an error whose message mentions 429. */
  predicate RateLimited(e: ServiceError) {
    e.kind == ErrorKind.TooManyRequests || OccursFrom(e.message, "429", 0)
  }

  /** Rate limiting is the error class, or "429" anywhere in the message. */
  lemma RateLimitedMeaning(e: ServiceError)
    ensures RateLimited(e) <==> e.kind == ErrorKind.TooManyRequests || Contains(e.message, "429")
  {
    OccursFromContains(e.message, "429", 0);
  }

  /** The rescue clause takes Faraday errors only, and then re-raises what is not rate limiting. */
  predicate Retryable(e: ServiceError) {
    e.kind != ErrorKind.NotFaraday && RateLimited(e)
  }

  // =============================================================================================
  // parse_reset_time

  datatype TimeUnit = Hours | Minutes | Seconds

  /** One match of `/(\d+(?:\.\d+)?)([hms])/`: the number read with `to_f`, and its unit letter. */
  datatype Component = Component(value: real, unit: TimeUnit)

  function UnitOf(c: char): Option<TimeUnit> {
    if c == 'h' then Some(Hours) else if c == 'm' then Some(Minutes) else if c == 's' then Some(Seconds) else None
  }

  /** The end of the run of ASCII digits (Ruby's `\d`) that starts at `i`. */
  function DigitsEnd(s: string, i: nat): (j: nat)
    requires i <= |s|
    ensures i <= j <= |s|
    ensures forall k :: i <= k < j ==> IsDigit(s[k])
    ensures j < |s| ==> !IsDigit(s[j])
    decreases |s| - i
  {
    if i < |s| && IsDigit(s[i]) then DigitsEnd(s, i + 1) else i
  }

  /** The decimal value of a run of digits. */
  function DecimalValue(ds: string): nat
    requires forall k :: 0 <= k < |ds| ==> IsDigit(ds[k])
  {
    if ds == [] then 0 else 10 * DecimalValue(ds[..|ds| - 1]) + DigitValue(ds[|ds| - 1])
  }

  function Pow10(n: nat): (r: nat)
    ensures r >= 1
  {
    if n == 0 then 1 else 10 * Pow10(n - 1)
  }

  /**
   * The match of the pattern that starts at `i`, with the position after it. The digits are taken
   * greedily, then a `.` and more digits if they follow, and the next character must be a unit;
   * backtracking into the digits never helps, since it leaves a digit where `.` or the unit must be.
   */
  function MatchAt(s: string, i: nat): (r: Option<(Component, nat)>)
    requires i <= |s|
    ensures r.Some? ==> i < r.value.1 <= |s|
  {
    if i == |s| || !IsDigit(s[i]) then None
    else
      var j := DigitsEnd(s, i);
      var whole := DecimalValue(s[i..j]) as real;
      if j + 1 < |s| && s[j] == '.' && IsDigit(s[j + 1]) then
        var m := DigitsEnd(s, j + 1);
        if m < |s| && UnitOf(s[m]).Some? then
          Some((Component(whole + DecimalValue(s[j + 1..m]) as real / Pow10(m - j - 1) as real, UnitOf(s[m]).value), m + 1))
        else None
      else if j < |s| && UnitOf(s[j]).Some? then Some((Component(whole, UnitOf(s[j]).value), j + 1))
      else None
  }

  /** `String#scan` from position `i`: the leftmost match, then the matches after its end. */
  function ScanFrom(s: string, i: nat): seq<Component>
    requires i <= |s|
    decreases |s| - i
  {
    if i == |s| then []
    else match MatchAt(s, i)
      case None => ScanFrom(s, i + 1)
      case Some((c, e)) => [c] + ScanFrom(s, e)
  }

  function ComponentSeconds(c: Component): real {
    match c.unit
    case Hours => c.value * 3600.0
    case Minutes => c.value * 60.0
    case Seconds => c.value
  }

  /** The sum of the components' durations, in seconds, added up in order. */
  function TotalSeconds(cs: seq<Component>): real {
    if cs == [] then 0.0 else TotalSeconds(cs[..|cs| - 1]) + ComponentSeconds(cs[|cs| - 1])
  }

  /** What parse_reset_time answers: the total duration of the matches when it is positive. */
  function ResetSeconds(timeStr: Option<string>): Option<real> {
    match timeStr
    case None => None
    case Some(s) =>
      var seconds := TotalSeconds(ScanFrom(s, 0));
      if seconds > 0.0 then Some(seconds) else None
  }

  /** A duration comes back exactly when the matches add up to a positive total, and it is that total. */
  lemma ResetSecondsPositive(timeStr: Option<string>)
    ensures ResetSeconds(timeStr).Some? ==>
      timeStr.Some? && ResetSeconds(timeStr).value > 0.0
      && ResetSeconds(timeStr).value == TotalSeconds(ScanFrom(timeStr.value, 0))
    ensures timeStr.Some? && TotalSeconds(ScanFrom(timeStr.value, 0)) > 0.0 ==> ResetSeconds(timeStr).Some?
  {
  }

  /** parse_reset_time: the matches are added up one by one, by unit. */
  method ParseResetTime(timeStr: Option<string>) returns (r: Option<real>)
    ensures r == ResetSeconds(timeStr)
  {
    if timeStr.None? {
      return None;
    }
    var components := ScanFrom(timeStr.value, 0);
    var seconds := 0.0;
    for i := 0 to |components|
      invariant seconds == TotalSeconds(components[..i])
    {
      var c := components[i];
      assert components[..i + 1][..i] == components[..i];
      match c.unit {
        case Hours => seconds := seconds + c.value * 3600.0;
        case Minutes => seconds := seconds + c.value * 60.0;
        case Seconds => seconds := seconds + c.value;
      }
    }
    assert components[..|components|] == components;
    r := if seconds > 0.0 then Some(seconds) else None;
  }

  /** A duration in whole seconds. */
  lemma WholeSeconds()
    ensures ResetSeconds(Some("1s")) == Some(1.0)
  {
    assert MatchAt("1s", 0) == Some((Component(1.0, Seconds), 2));
  }

  /** Minutes before seconds are added up. */
  lemma MinutesThenSeconds()
    ensures ResetSeconds(Some("2m30s")) == Some(150.0)
  {
    var s := "2m30s";
    assert DigitsEnd(s, 0) == 1 && s[0..1] == "2";
    assert DigitsEnd(s, 2) == 4 && s[2..4] == "30";
    assert "30"[..1] == "3" && DecimalValue("30") == 30;
    assert MatchAt(s, 0) == Some((Component(2.0, Minutes), 2));
    assert MatchAt(s, 2) == Some((Component(30.0, Seconds), 5));
    assert ScanFrom(s, 2) == [Component(30.0, Seconds)];
    var cs := [Component(2.0, Minutes), Component(30.0, Seconds)];
    assert ScanFrom(s, 0) == cs;
    assert cs[..1] == [Component(2.0, Minutes)] && [Component(2.0, Minutes)][..0] == [];
    assert TotalSeconds(cs[..1]) == 120.0;
  }

  /** A fraction of a second is kept. */
  lemma FractionalSeconds()
    ensures ResetSeconds(Some("1.5s")) == Some(1.5)
  {
    assert "1.5s"[0..1] == "1" && "1.5s"[2..3] == "5";
    assert MatchAt("1.5s", 0) == Some((Component(1.5, Seconds), 4));
  }

  /** A zero duration, and text with no duration in it, give no delay. */
  lemma NoPositiveDuration()
    ensures ResetSeconds(Some("0s")) == None
    ensures ResetSeconds(Some("soon")) == None
  {
    assert MatchAt("0s", 0) == Some((Component(0.0, Seconds), 2));
  }

  /**
   * Milliseconds are not understood: in "120ms" the pattern takes "120m" as minutes and the
   * lone "s" matches nothing, so the wait becomes two hours.
   */
  lemma MillisecondsReadAsMinutes()
    ensures ResetSeconds(Some("120ms")) == Some(7200.0)
  {
    assert "120ms"[0..3] == "120";
    assert "120"[..2] == "12" && "12"[..1] == "1" && "1"[..0] == "";
    assert DecimalValue("120") == 120;
    assert MatchAt("120ms", 0) == Some((Component(120.0, Minutes), 4));
    assert MatchAt("120ms", 4).None?;
    assert ScanFrom("120ms", 0) == [Component(120.0, Minutes)];
  }

  // =============================================================================================
  // extract_retry_delay and the back-off

  /**
   * extract_retry_delay: nothing unless the error's response is a Hash; then `retry-after` when
   * present, whatever number it reads as, and otherwise the reset header's duration.
   */
  function ExtractRetryDelay(e: ServiceError): Option<real>
  {
    match e.response
    case NotAHash => None
    case HashResponse(h) =>
      var headers := h.GetOr(Headers(None, None));
      if headers.retryAfter.Some? then headers.retryAfter
      else if headers.resetRequests.Some? then ResetSeconds(headers.resetRequests)
      else None
  }

  /** Which header the delay comes from. */
  lemma RetryDelaySources(e: ServiceError)
    ensures e.response.NotAHash? ==> ExtractRetryDelay(e).None?
    ensures e.response.HashResponse? && e.response.headers.Some? && e.response.headers.value.retryAfter.Some? ==>
      ExtractRetryDelay(e) == e.response.headers.value.retryAfter
    ensures ExtractRetryDelay(e).Some? ==> e.response.HashResponse? && e.response.headers.Some?
    ensures ExtractRetryDelay(e).Some? && e.response.headers.value.retryAfter.None? ==>
      ExtractRetryDelay(e) == ResetSeconds(e.response.headers.value.resetRequests) && ExtractRetryDelay(e).value > 0.0
  {
    if e.response.HashResponse? && e.response.headers.Some? && e.response.headers.value.retryAfter.None? {
      ResetSecondsPositive(e.response.headers.value.resetRequests);
    }
  }

  function Pow2(n: nat): (r: nat)
    ensures r >= 1
  {
    if n == 0 then 1 else 2 * Pow2(n - 1)
  }

  /** The wait before retry number `retries`: the header's, or BASE_DELAY * 2**(retries - 1). */
  function RetryDelay(e: ServiceError, retries: nat): real
    requires retries >= 1
  {
    ExtractRetryDelay(e).GetOr((BaseDelay * Pow2(retries - 1)) as real)
  }

  /** Without usable headers the waits double: 1, 2, 4, 8 and 16 seconds. */
  lemma BackoffDoubles(e: ServiceError, retries: nat)
    requires 1 <= retries && ExtractRetryDelay(e).None?
    ensures RetryDelay(e, retries) == Pow2(retries - 1) as real
    ensures RetryDelay(e, retries + 1) == 2.0 * RetryDelay(e, retries)
    ensures retries <= MaxRetries ==> RetryDelay(e, retries) <= 16.0
  {
    if retries <= MaxRetries {
      assert Pow2(retries - 1) <= Pow2(4) by { Pow2Monotone(retries - 1, 4); }
    }
  }

  lemma {:induction false} Pow2Monotone(a: nat, b: nat)
    requires a <= b
    ensures Pow2(a) <= Pow2(b)
    decreases b
  {
    if a < b {
      Pow2Monotone(a, b - 1);
    }
  }

  // =============================================================================================
  // chat_with_retry

  /** What `sleep` raises for a negative wait (a negative `retry-after`). */
  const NegativeSleep: Exception := Exception("ArgumentError", "time interval must not be negative")

  /** How chat_with_retry ended: the reply or what it raised, the requests it sent, the waits it slept. */
  datatype RetryRun = RetryRun(outcome: Result<Option<AssistantMessage>, Exception>, requests: nat, delays: seq<real>)

  /** What one request leads to: its reply, an exception raised, or a wait before the next one. */
  datatype Attempt = Replied(reply: Option<AssistantMessage>) | Raised(error: Exception) | Waited(delay: real)

  /**
   * The request numbered `start + retries`, sent after `retries` retries: a reply is returned, an
   * error that is not retried (or comes when the retries are spent) is raised, and otherwise the
   * wait before the next request is computed, which `sleep` refuses when it is negative.
   */
  function AttemptAt(chat: Chat, messages: seq<Message>, start: nat, retries: nat): (a: Attempt)
    ensures a.Waited? ==> retries < MaxRetries
  {
    match chat(messages, start + retries)
    case Success(reply) => Replied(reply)
    case Failure(e) =>
      if !Retryable(e) || retries + 1 > MaxRetries then Raised(e.AsException())
      else
        var delay := RetryDelay(e, retries + 1);
        if delay < 0.0 then Raised(NegativeSleep) else Waited(delay)
  }

  /** chat_with_retry as a specification, once `retries` rate-limited attempts have gone. */
  function RetryFrom(chat: Chat, messages: seq<Message>, start: nat, retries: nat): RetryRun
    requires retries <= MaxRetries
    decreases MaxRetries - retries
  {
    match AttemptAt(chat, messages, start, retries)
    case Replied(reply) => RetryRun(Success(reply), retries + 1, [])
    case Raised(x) => RetryRun(Failure(x), retries + 1, [])
    case Waited(delay) =>
      var rest := RetryFrom(chat, messages, start, retries + 1);
      rest.(delays := [delay] + rest.delays)
  }

  /**
   * A wait follows exactly a retried error while retries remain, and is the back-off for the next
   * retry; an exception is the error itself when it is not retried or the retries are spent, and
   * the refusal of a negative wait otherwise.
   */
  lemma AttemptCases(chat: Chat, messages: seq<Message>, start: nat, retries: nat)
    ensures var c := chat(messages, start + retries);
      AttemptAt(chat, messages, start, retries).Waited? <==>
        c.Failure? && Retryable(c.error) && retries < MaxRetries && RetryDelay(c.error, retries + 1) >= 0.0
    ensures var c := chat(messages, start + retries);
      AttemptAt(chat, messages, start, retries).Waited? ==>
        AttemptAt(chat, messages, start, retries).delay == RetryDelay(c.error, retries + 1)
    ensures var c := chat(messages, start + retries);
      (c.Success? ==> AttemptAt(chat, messages, start, retries) == Replied(c.value))
      && (AttemptAt(chat, messages, start, retries).Replied? ==> c.Success?)
    ensures var c := chat(messages, start + retries);
      AttemptAt(chat, messages, start, retries).Raised? ==>
        c.Failure? &&
        ((AttemptAt(chat, messages, start, retries).error == c.error.AsException()
          && (!Retryable(c.error) || retries >= MaxRetries))
         || (AttemptAt(chat, messages, start, retries).error == NegativeSleep
             && Retryable(c.error) && retries < MaxRetries && RetryDelay(c.error, retries + 1) < 0.0))
  {
  }

  /**
   * The request with number `start + retries + k` failed with an error that is retried, and
   * `delays[k]` was the wait after it.
   */
  predicate RetriedAt(chat: Chat, messages: seq<Message>, start: nat, retries: nat, k: nat, delays: seq<real>) {
    k < |delays| && AttemptAt(chat, messages, start, retries + k) == Waited(delays[k])
  }

  /** The last request of a run decides its outcome: a reply or an exception, never a wait. */
  predicate EndsWith(chat: Chat, messages: seq<Message>, start: nat, run: RetryRun)
    requires run.requests >= 1
  {
    match AttemptAt(chat, messages, start, run.requests - 1)
    case Replied(reply) => run.outcome == Success(reply)
    case Raised(x) => run.outcome == Failure(x)
    case Waited(_) => false
  }

  /** A run sends between one and six requests, and sleeps once before each request after the first. */
  lemma {:induction false} RetryFromCounts(chat: Chat, messages: seq<Message>, start: nat, retries: nat)
    requires retries <= MaxRetries
    ensures var run := RetryFrom(chat, messages, start, retries);
      retries + 1 <= run.requests <= MaxRetries + 1 && |run.delays| == run.requests - 1 - retries
    decreases MaxRetries - retries
  {
    if AttemptAt(chat, messages, start, retries).Waited? {
      RetryFromCounts(chat, messages, start, retries + 1);
    }
  }

  /** Every request of a run but the last failed with a retried error and was followed by its wait. */
  lemma {:induction false} RetryFromWaits(chat: Chat, messages: seq<Message>, start: nat, retries: nat)
    requires retries <= MaxRetries
    ensures forall k :: 0 <= k < |RetryFrom(chat, messages, start, retries).delays| ==>
      RetriedAt(chat, messages, start, retries, k, RetryFrom(chat, messages, start, retries).delays)
    decreases MaxRetries - retries
  {
    var a := AttemptAt(chat, messages, start, retries);
    if a.Waited? {
      var run := RetryFrom(chat, messages, start, retries);
      var rest := RetryFrom(chat, messages, start, retries + 1);
      assert run.delays == [a.delay] + rest.delays;
      RetryFromWaits(chat, messages, start, retries + 1);
      forall k | 0 <= k < |run.delays|
        ensures RetriedAt(chat, messages, start, retries, k, run.delays)
      {
        if k > 0 {
          var j := k - 1;
          assert j < |rest.delays| && run.delays[k] == rest.delays[j];
          assert RetriedAt(chat, messages, start, retries + 1, j, rest.delays);
        }
      }
    }
  }

  /** The last request of a run decides it, as EndsWith and AttemptCases say. */
  lemma {:induction false} RetryFromEnd(chat: Chat, messages: seq<Message>, start: nat, retries: nat)
    requires retries <= MaxRetries
    ensures RetryFrom(chat, messages, start, retries).requests >= 1
    ensures EndsWith(chat, messages, start, RetryFrom(chat, messages, start, retries))
    decreases MaxRetries - retries
  {
    if AttemptAt(chat, messages, start, retries).Waited? {
      RetryFromEnd(chat, messages, start, retries + 1);
    }
  }

  /** A first request that fails with anything but rate limiting is raised at once. */
  lemma OtherErrorsNotRetried(chat: Chat, messages: seq<Message>, start: nat)
    requires chat(messages, start).Failure? && !Retryable(chat(messages, start).error)
    ensures RetryFrom(chat, messages, start, 0) == RetryRun(Failure(chat(messages, start).error.AsException()), 1, [])
  {
  }

  /** The delays a run has slept once `pre` were slept before. */
  function AfterDelays(pre: seq<real>, run: RetryRun): RetryRun {
    run.(delays := pre + run.delays)
  }

  /** chat_with_retry: the request, and on a retried error the wait and the request again. */
  method ChatWithRetry(chat: Chat, messages: seq<Message>, start: nat) returns (run: RetryRun)
    ensures run == RetryFrom(chat, messages, start, 0)
  {
    var retries := 0;
    var delays: seq<real> := [];
    while true
      invariant retries <= MaxRetries
      invariant RetryFrom(chat, messages, start, 0) == AfterDelays(delays, RetryFrom(chat, messages, start, retries))
      decreases MaxRetries - retries
    {
      AttemptCases(chat, messages, start, retries);
      var reply := chat(messages, start + retries);
      if reply.Success? {
        return RetryRun(Success(reply.value), retries + 1, delays);
      }
      var e := reply.error;
      if !Retryable(e) {
        return RetryRun(Failure(e.AsException()), retries + 1, delays);
      }
      retries := retries + 1;
      if retries > MaxRetries {
        return RetryRun(Failure(e.AsException()), retries, delays);
      }
      var delay := RetryDelay(e, retries);
      if delay < 0.0 {
        return RetryRun(Failure(NegativeSleep), retries, delays);
      }
      Sequences.Associative(delays, [delay], RetryFrom(chat, messages, start, retries).delays);
      delays := delays + [delay];
    }
  }
}
