/**
 * The bounded retry loop every `ZendeskFacade` operation is built from:
 * `for (i = 0; i < maxRequestAttempts; i++) { try { return call(); } catch ... }`.
 *
 * The server is not modelled as code but as a script: the outcome each successive
 * request will have (`Ok`, a rate-limit answer carrying its `Retry-After` delay, or any
 * other failure).  Requests past the end of the script succeed.  The channel records
 * which part of the script is still to come, the sleeps `apiRateLimitWait` asked for, in
 * milliseconds, and how many requests were sent.
 */
module Retry {
  import opened JavaText
  import opened RateLimit

  datatype Attempt = Ok | RateLimited(e: RateLimitException) | Failed

  datatype Channel = Channel(script: seq<Attempt>, sleeps: seq<int>, requests: nat)

  /** What one run of the loop did: whether an attempt went through, how many requests
      it sent, the sleeps it asked for and the part of the script it left. */
  datatype Run = Run(succeeded: bool, attempts: nat, sleeps: seq<int>, rest: seq<Attempt>)

  function Next(script: seq<Attempt>): Attempt {
    if script == [] then Ok else script[0]
  }

  function Rest(script: seq<Attempt>): seq<Attempt> {
    if script == [] then [] else script[1..]
  }

  /** The argument of `Thread.sleep(seconds * 1000)`: a `long` product, which wraps
      around past the `long` range. */
  function SleepMillis(seconds: int): (ms: int)
    ensures LONG_MIN <= ms <= LONG_MAX
    ensures LONG_MIN <= seconds * 1000 <= LONG_MAX ==> ms == seconds * 1000
    ensures (ms - seconds * 1000) % 0x1_0000_0000_0000_0000 == 0
  {
    (seconds * 1000 - LONG_MIN) % 0x1_0000_0000_0000_0000 + LONG_MIN
  }

  /** The loop run with `max` attempts left against `script`. */
  function RetryRun(max: int, script: seq<Attempt>): (r: Run)
    decreases max
    ensures max <= 0 ==> r == Run(false, 0, [], script)
    ensures max > 0 ==> 1 <= r.attempts <= max
    ensures max > 0 && !r.succeeded ==> r.attempts == max
  {
    if max <= 0 then Run(false, 0, [], script)
    else match Next(script)
      case Ok => Run(true, 1, [], Rest(script))
      case RateLimited(e) =>
        var r := RetryRun(max - 1, Rest(script));
        Run(r.succeeded, r.attempts + 1, [SleepMillis(e.retryAfter)] + r.sleeps, r.rest)
      case Failed =>
        var r := RetryRun(max - 1, Rest(script));
        r.(attempts := r.attempts + 1)
  }

  /** The channel after one run of the loop. */
  function AfterRetry(ch: Channel, max: int): Channel {
    var r := RetryRun(max, ch.script);
    Channel(r.rest, ch.sleeps + r.sleeps, ch.requests + r.attempts)
  }

  /** Whether a run of the loop on this channel gets an answer. */
  predicate Answered(max: int, ch: Channel) {
    RetryRun(max, ch.script).succeeded
  }

  /** Index of the first request of the script that goes through. */
  function FirstOk(script: seq<Attempt>): (n: nat)
    ensures n <= |script|
    ensures forall j | 0 <= j < n :: !script[j].Ok?
    ensures n < |script| ==> script[n].Ok?
  {
    if script == [] || script[0].Ok? then 0 else 1 + FirstOk(script[1..])
  }

  /** The sleeps a sequence of answers asks for: one per rate-limit answer, in order. */
  function Waits(answers: seq<Attempt>): seq<int> {
    if answers == [] then []
    else (if answers[0].RateLimited? then [SleepMillis(answers[0].e.retryAfter)] else [])
         + Waits(answers[1..])
  }

  /** The loop succeeds exactly when the first answer that goes through comes within
      `max` requests, and then it has sent exactly the requests up to that answer. */
  lemma {:induction false} RetryRunFirstOk(max: int, script: seq<Attempt>)
    ensures RetryRun(max, script).succeeded <==> FirstOk(script) < max
    ensures RetryRun(max, script).succeeded ==> RetryRun(max, script).attempts == FirstOk(script) + 1
    decreases max
  {
    if max > 0 && script != [] && !script[0].Ok? {
      RetryRunFirstOk(max - 1, script[1..]);
    }
  }

  /** The loop consumes one scripted answer per request and sleeps after exactly the
      rate-limit answers among them, for their `Retry-After` delay; any other failure
      is retried at once. */
  lemma {:induction false} RetryRunSleeps(max: int, script: seq<Attempt>)
    ensures var r := RetryRun(max, script);
            var n := if r.attempts <= |script| then r.attempts else |script|;
            r.rest == script[n..] && r.sleeps == Waits(script[..n])
    decreases max
  {
    if max > 0 && script != [] {
      if script[0].Ok? {
        assert script[..1][1..] == [];
      } else {
        var tail := script[1..];
        RetryRunSleeps(max - 1, tail);
        var r' := RetryRun(max - 1, tail);
        var n' := if r'.attempts <= |tail| then r'.attempts else |tail|;
        assert tail[n'..] == script[n' + 1..];
        WaitsFirst(script, n' + 1);
        assert script[..n' + 1][1..] == tail[..n'];
      }
    }
  }

  /** The sleeps of a non-empty prefix: those of its first answer, then those of the rest. */
  lemma WaitsFirst(script: seq<Attempt>, n: nat)
    requires 1 <= n <= |script|
    ensures Waits(script[..n])
            == (if script[0].RateLimited? then [SleepMillis(script[0].e.retryAfter)] else [])
               + Waits(script[..n][1..])
  {
    assert script[..n][0] == script[0];
  }

  /** One turn of the loop, as the method `Retry` performs it: the request goes out and
      either ends the run or leaves a run one attempt shorter. */
  lemma AfterRetryStep(ch: Channel, m: int)
    requires m > 0
    ensures var sent := Channel(Rest(ch.script), ch.sleeps, ch.requests + 1);
            match Next(ch.script)
              case Ok =>
                AfterRetry(ch, m) == sent && Answered(m, ch)
              case RateLimited(e) =>
                AfterRetry(ch, m) == AfterRetry(sent.(sleeps := ch.sleeps + [SleepMillis(e.retryAfter)]), m - 1)
                && (Answered(m, ch) <==> Answered(m - 1, sent))
              case Failed =>
                AfterRetry(ch, m) == AfterRetry(sent, m - 1)
                && (Answered(m, ch) <==> Answered(m - 1, sent))
  {
    var sent := Channel(Rest(ch.script), ch.sleeps, ch.requests + 1);
    match Next(ch.script)
    case Ok =>
      assert ch.sleeps + [] == ch.sleeps;
    case RateLimited(e) =>
      var r := RetryRun(m - 1, Rest(ch.script));
      assert ch.sleeps + ([SleepMillis(e.retryAfter)] + r.sleeps)
          == (ch.sleeps + [SleepMillis(e.retryAfter)]) + r.sleeps;
    case Failed =>
  }

  /** With no attempts left the loop sends nothing. */
  lemma AfterRetryNone(ch: Channel, m: int)
    requires m <= 0
    ensures AfterRetry(ch, m) == ch && !Answered(m, ch)
  {
    assert ch.sleeps + [] == ch.sleeps;
  }
}
