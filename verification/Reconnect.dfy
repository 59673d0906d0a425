/** The producer's reconnect loop: jittered exponential backoff, a retry limit, and a reset after a long attempt. */
module Reconnect {
  import opened Base

  /** Durations in nanoseconds. */
  const DURATION_MAX: int := MAX_U64 * 1_000_000_000 + 999_999_999
  const ONE_SECOND: int := 1_000_000_000
  const ONE_MILLI: int := 1_000_000

  type Duration = x: int | 0 <= x <= DURATION_MAX

  datatype ReconnectConfig = ReconnectConfig(initialDelay: Duration, maxDelay: Duration, maxRetries: Option<u32>,
                                             resetAfter: Option<Duration>)

  datatype StatusCode = InvalidArgument | Unauthenticated | PermissionDenied | OtherCode

  datatype GrpcError =
    | InvalidConfig
    | InvalidMetadataValue
    | Connect
    | Subscribe(code: StatusCode)
    | ReceiveFailed(code: StatusCode)
    | Normalize
    | ReceiverClosed
    | StreamClosed

  predicate IsRetryable(e: GrpcError) {
    match e
    case Connect | StreamClosed => true
    case Subscribe(code) => code == OtherCode
    case ReceiveFailed(code) => code == OtherCode
    case InvalidConfig | InvalidMetadataValue | Normalize | ReceiverClosed => false
  }

  /** An attempt is worth repeating unless the server has refused the request or the producer itself is at fault. */
  lemma RetryableErrors(e: GrpcError)
    ensures IsRetryable(e)
       <==> e in {Connect, StreamClosed, Subscribe(OtherCode), ReceiveFailed(OtherCode)}
  {
  }

  function Normalized(c: ReconnectConfig): (n: ReconnectConfig)
    ensures 0 < n.initialDelay <= n.maxDelay
    ensures 0 < c.initialDelay <= c.maxDelay ==> n == c
    ensures n.initialDelay == c.initialDelay || (c.initialDelay == 0 && n.initialDelay == 1_000_000_000)
    ensures n.maxDelay >= c.maxDelay && (n.maxDelay == c.maxDelay || n.maxDelay == n.initialDelay)
    ensures n.maxRetries == c.maxRetries && n.resetAfter == c.resetAfter
  {
    var initial := if c.initialDelay == 0 then ONE_SECOND else c.initialDelay;
    c.(initialDelay := initial, maxDelay := Max(c.maxDelay, initial))
  }

  /** `draw` picks the jitter, which is any whole number of milliseconds up to the current delay's. */
  function NextDelay(current: Duration, max: Duration, draw: u64): Duration {
    var base := Min(2 * current, DURATION_MAX);
    var jitter := draw % (Millis(current) + 1) * ONE_MILLI;
    Min(Min(base + jitter, DURATION_MAX), max)
  }

  /** The cast to 64 bits drops the high part of very long durations. */
  function Millis(d: Duration): u64 {
    d / ONE_MILLI % (MAX_U64 + 1)
  }

  // ---------------------------------------------------------------- the loop over attempts

  /** What the world does with one attempt: resume point, result, how long it lasted, the jitter drawn after it. */
  datatype Attempt = Attempt(fromSlot: Option<u64>, outcome: Result<(), GrpcError>, elapsed: Duration, draw: u64)

  datatype LoopState = Running(retry: u32, delay: Duration) | Ended(result: Result<(), GrpcError>)

  datatype ReconnectEvent = ReconnectEvent(retry: u32, delay: Duration, error: GrpcError, fromSlot: Option<u64>)

  /** The attempt lasted long enough to start counting afresh. */
  predicate Lasted(c: ReconnectConfig, a: Attempt) {
    c.resetAfter.Some? && a.elapsed >= c.resetAfter.value
  }

  predicate Retryable(a: Attempt) {
    a.outcome.Err? && IsRetryable(a.outcome.error)
  }

  predicate Quick(c: ReconnectConfig, a: Attempt) {
    Retryable(a) && !Lasted(c, a)
  }

  function Step(c: ReconnectConfig, s: LoopState, a: Attempt): LoopState
    requires s.Running?
  {
    if !Retryable(a) then Ended(a.outcome)
    else if Lasted(c, a) then Running(0, c.initialDelay)
    else
      var retry := Min(s.retry + 1, MAX_U32);
      if c.maxRetries.Some? && retry > c.maxRetries.value then Ended(a.outcome)
      else Running(retry, NextDelay(s.delay, c.maxDelay, a.draw))
  }

  /** The loop after these attempts; once it has ended, later ones are never made. */
  function LoopAfter(c: ReconnectConfig, attempts: seq<Attempt>): LoopState {
    if attempts == [] then Running(0, c.initialDelay)
    else
      var s := LoopAfter(c, attempts[..|attempts| - 1]);
      if s.Ended? then s else Step(c, s, attempts[|attempts| - 1])
  }

  /** The event sent after the `i`-th attempt: why it failed, where it had resumed, and the wait it causes. */
  ghost predicate Reports(c: ReconnectConfig, script: seq<Attempt>, i: nat, event: ReconnectEvent)
    requires i < |script|
  {
    && Retryable(script[i])
    && LoopAfter(c, script[..i + 1]) == Running(event.retry, event.delay)
    && event.error == script[i].outcome.error && event.fromSlot == script[i].fromSlot
  }

  /** The attempt lasted at least as long as the grace period. */
  ghost predicate Outlasted(grace: Option<Duration>, a: Attempt) {
    exists g: Duration :: grace == Some(g) && a.elapsed >= g
  }

  /** Retry count and delay before the `i`-th attempt: those of the failure reported before it, or the initial ones. */
  ghost function RetryBefore(events: seq<ReconnectEvent>, i: nat): u32
    requires i <= |events|
  {
    if i == 0 then 0 else events[i - 1].retry
  }

  ghost function DelayBefore(c: ReconnectConfig, events: seq<ReconnectEvent>, i: nat): Duration
    requires i <= |events|
  {
    if i == 0 then c.initialDelay else events[i - 1].delay
  }

  /**
   A failure that outlasted the grace period starts the counting afresh; any other one counts, is within the limit, and
   lets the loop wait two to three times as long as before, up to the maximum.
   */
  ghost predicate Counted(c: ReconnectConfig, a: Attempt, retry: u32, delay: Duration, retry': u32, delay': Duration) {
    if Outlasted(c.resetAfter, a) then retry' == 0 && delay' == c.initialDelay
    else
      && retry' == Min(retry + 1, MAX_U32) && (c.maxRetries.Some? ==> retry' <= c.maxRetries.value)
      && Min(2 * delay, c.maxDelay) <= delay' <= Min(3 * delay, c.maxDelay)
  }

  ghost predicate Counts(c: ReconnectConfig, script: seq<Attempt>, events: seq<ReconnectEvent>, i: nat)
    requires i < |events| <= |script|
  {
    Counted(c, script[i], RetryBefore(events, i), DelayBefore(c, events, i), events[i].retry, events[i].delay)
  }

  /** Why the last attempt ended the loop. */
  ghost predicate Decides(c: ReconnectConfig, script: seq<Attempt>, events: seq<ReconnectEvent>)
    requires |events| < |script|
  {
    var a := script[|events|];
    || a.outcome.Ok? || !IsRetryable(a.outcome.error)
    || (!Outlasted(c.resetAfter, a) && c.maxRetries.Some?
        && Min(RetryBefore(events, |events|) + 1, MAX_U32) > c.maxRetries.value)
  }

  /** Every attempt fails in a way that is worth a retry, and none outlasts the grace period. */
  ghost predicate AllQuick(c: ReconnectConfig, script: seq<Attempt>) {
    forall i | 0 <= i < |script| ::
      script[i].outcome.Err? && IsRetryable(script[i].outcome.error) && !Outlasted(c.resetAfter, script[i])
  }

  /** Quick failures are counted one by one. */
  lemma {:induction false} QuickRetries(c: ReconnectConfig, script: seq<Attempt>, events: seq<ReconnectEvent>, i: nat)
    requires i <= |events| && Reported(c, script, events)
    ensures AllQuick(c, script) ==> RetryBefore(events, i) == Min(i, MAX_U32)
    ensures AllQuick(c, script) && c.maxRetries.Some? ==> RetryBefore(events, i) <= c.maxRetries.value
  {
    if i > 0 {
      QuickRetries(c, script, events, i - 1);
      assert ReportedAt(c, script, events, i - 1);
    }
  }

  /** All failures so far have been reported, as the loop's state and as the world demand. */
  ghost predicate Reported(c: ReconnectConfig, script: seq<Attempt>, events: seq<ReconnectEvent>) {
    |events| <= |script| && forall i: nat | i < |events| :: ReportedAt(c, script, events, i)
  }

  ghost predicate ReportedAt(c: ReconnectConfig, script: seq<Attempt>, events: seq<ReconnectEvent>, i: nat)
    requires i < |events| <= |script|
  {
    Reports(c, script, i, events[i]) && Counts(c, script, events, i)
  }

  lemma ReportedNext(c: ReconnectConfig, script: seq<Attempt>, events: seq<ReconnectEvent>, event: ReconnectEvent,
                     retry: u32, delay: Duration)
    requires |events| < |script| && Reported(c, script, events)
    requires retry == RetryBefore(events, |events|) && delay == DelayBefore(c, events, |events|)
    requires Reports(c, script, |events|, event)
    requires Counted(c, script[|events|], retry, delay, event.retry, event.delay)
    ensures Reported(c, script, events + [event])
  {
    var more := events + [event];
    forall i: nat | i < |more| ensures ReportedAt(c, script, more, i) {
      if i < |events| { assert ReportedAt(c, script, events, i); }
    }
  }

  /** If all failures are quick, the limit decides: the loop makes one attempt more than it allows. */
  lemma QuickEnds(c: ReconnectConfig, script: seq<Attempt>, ending: Option<Result<(), GrpcError>>, made: nat,
                  events: seq<ReconnectEvent>)
    requires AllQuick(c, script) && c.maxRetries.Some? && c.maxRetries.value < MAX_U32 && Reported(c, script, events)
    requires ending.None? ==> made == |script| == |events|
    requires ending.Some? ==> made == |events| + 1 <= |script| && Decides(c, script, events)
    ensures if |script| <= c.maxRetries.value then ending.None? else ending.Some? && made == c.maxRetries.value + 1
  {
    QuickRetries(c, script, events, |events|);
  }

  lemma LastedIff(c: ReconnectConfig, a: Attempt)
    ensures Lasted(c, a) <==> Outlasted(c.resetAfter, a)
  {
    if c.resetAfter.Some? { assert c.resetAfter == Some(c.resetAfter.value); }
  }

  /** What a failure worth a retry makes of the counter and the delay; `spent` if the limit is exceeded. */
  method CountFailure(c: ReconnectConfig, a: Attempt, retry: u32, delay: Duration)
    returns (spent: bool, retry': u32, delay': Duration)
    requires Retryable(a) && c.initialDelay <= c.maxDelay && delay <= c.maxDelay
    ensures Step(c, Running(retry, delay), a) == if spent then Ended(a.outcome) else Running(retry', delay')
    ensures spent <==> !Outlasted(c.resetAfter, a) && c.maxRetries.Some? && Min(retry + 1, MAX_U32) > c.maxRetries.value
    ensures !spent ==> Counted(c, a, retry, delay, retry', delay') && delay' <= c.maxDelay
  {
    LastedIff(c, a);
    if Lasted(c, a) {
      return false, 0, c.initialDelay;
    }
    retry' := Min(retry + 1, MAX_U32);
    if c.maxRetries.Some? && retry' > c.maxRetries.value {
      return true, retry', delay;
    }
    BackoffStep(delay, c.maxDelay, a.draw);
    return false, retry', NextDelay(delay, c.maxDelay, a.draw);
  }

  /** The script says how each attempt would go; `ending` is unset if the loop outlives it. */
  method RunReconnectLoop(reconnect: ReconnectConfig, script: seq<Attempt>)
    returns (ending: Option<Result<(), GrpcError>>, made: nat, events: seq<ReconnectEvent>)
    ensures made <= |script|
    ensures ending.None? ==> made == |script| == |events| && LoopAfter(Normalized(reconnect), script).Running?
    ensures ending.Some? ==> made == |events| + 1 && ending.value == script[made - 1].outcome
    ensures ending.Some? ==> LoopAfter(Normalized(reconnect), script[..made]) == Ended(ending.value)
    ensures Reported(Normalized(reconnect), script, events)
    ensures ending.Some? ==> Decides(Normalized(reconnect), script, events)
    ensures reconnect.maxRetries.Some? && reconnect.maxRetries.value < MAX_U32 && AllQuick(reconnect, script) ==>
              if |script| <= reconnect.maxRetries.value then ending.None?
              else made == reconnect.maxRetries.value + 1 && ending == Some(script[made - 1].outcome)
  {
    ending, made, events := RunAttempts(Normalized(reconnect), script);
    if reconnect.maxRetries.Some? && reconnect.maxRetries.value < MAX_U32 && AllQuick(reconnect, script) {
      QuickEnds(Normalized(reconnect), script, ending, made, events);
    }
  }

  method RunAttempts(c: ReconnectConfig, script: seq<Attempt>)
    returns (ending: Option<Result<(), GrpcError>>, made: nat, events: seq<ReconnectEvent>)
    requires c.initialDelay <= c.maxDelay
    ensures made <= |script|
    ensures ending.None? ==> made == |script| == |events| && LoopAfter(c, script).Running?
    ensures ending.Some? ==> made == |events| + 1 && ending.value == script[made - 1].outcome
    ensures ending.Some? ==> LoopAfter(c, script[..made]) == Ended(ending.value)
    ensures Reported(c, script, events)
    ensures ending.Some? ==> Decides(c, script, events)
  {
    var retry: u32, delay: Duration := 0, c.initialDelay;
    made, events := 0, [];
    while made < |script|
      invariant made == |events| <= |script|
      invariant LoopAfter(c, script[..made]) == Running(retry, delay)
      invariant Reported(c, script, events)
      invariant retry == RetryBefore(events, made) && delay == DelayBefore(c, events, made) <= c.maxDelay
    {
      var a := script[made];
      assert script[..made + 1][..made] == script[..made];
      made := made + 1;
      if a.outcome.Ok? || !IsRetryable(a.outcome.error) {
        return Some(a.outcome), made, events;
      }
      var spent, retry', delay' := CountFailure(c, a, retry, delay);
      if spent {
        return Some(a.outcome), made, events;
      }
      var event := ReconnectEvent(retry', delay', a.outcome.error, a.fromSlot);
      ReportedNext(c, script, events, event, retry, delay);
      events, retry, delay := events + [event], retry', delay';
    }
    assert script[..made] == script;
    ending := None;
  }

  /** What would have come after the end makes no difference. */
  lemma {:induction false} EndedStays(c: ReconnectConfig, attempts: seq<Attempt>, i: nat)
    requires i <= |attempts| && LoopAfter(c, attempts[..i]).Ended?
    ensures LoopAfter(c, attempts) == LoopAfter(c, attempts[..i])
  {
    if i == |attempts| {
      assert attempts[..i] == attempts;
    } else {
      var front := attempts[..|attempts| - 1];
      assert front[..i] == attempts[..i];
      EndedStays(c, front, i);
    }
  }

  // ---------------------------------------------------------------- when the loop ends

  /** The number of quick failures since the last reset, or since the start. */
  function Streak(c: ReconnectConfig, attempts: seq<Attempt>): nat {
    if attempts == [] || !Quick(c, attempts[|attempts| - 1]) then 0
    else 1 + Streak(c, attempts[..|attempts| - 1])
  }

  /** Somewhere `n` attempts in a row fail quickly. */
  ghost predicate HasQuickRun(c: ReconnectConfig, attempts: seq<Attempt>, n: nat) {
    exists i :: 0 <= i && QuickRunAt(c, attempts, i, n)
  }

  ghost predicate QuickRunAt(c: ReconnectConfig, attempts: seq<Attempt>, i: nat, n: nat) {
    i + n <= |attempts| && forall k | i <= k < i + n :: Quick(c, attempts[k])
  }

  /** A limit of `u32::MAX` is none: the saturating counter never exceeds it. */
  predicate Limited(c: ReconnectConfig) {
    c.maxRetries.Some? && c.maxRetries.value < MAX_U32
  }

  lemma {:induction false} RetryCountsStreak(c: ReconnectConfig, attempts: seq<Attempt>)
    requires LoopAfter(c, attempts).Running?
    ensures LoopAfter(c, attempts).retry == Min(Streak(c, attempts), MAX_U32)
    ensures c.maxRetries.Some? ==> LoopAfter(c, attempts).retry <= c.maxRetries.value
  {
    if attempts != [] { RetryCountsStreak(c, attempts[..|attempts| - 1]); }
  }

  lemma {:induction false} StreakIsQuick(c: ReconnectConfig, attempts: seq<Attempt>)
    ensures Streak(c, attempts) <= |attempts|
    ensures QuickRunAt(c, attempts, |attempts| - Streak(c, attempts), Streak(c, attempts))
    ensures Streak(c, attempts) < |attempts| ==> !Quick(c, attempts[|attempts| - Streak(c, attempts) - 1])
  {
    if attempts != [] && Quick(c, attempts[|attempts| - 1]) { StreakIsQuick(c, attempts[..|attempts| - 1]); }
  }

  /** A run that is new with the last attempt ends with it, so it is part of the streak. */
  lemma QuickRunGrows(c: ReconnectConfig, attempts: seq<Attempt>, n: nat)
    requires attempts != [] && n > 0
    ensures HasQuickRun(c, attempts, n)
       <==> HasQuickRun(c, attempts[..|attempts| - 1], n) || Streak(c, attempts) >= n
  {
    var front, s := attempts[..|attempts| - 1], Streak(c, attempts);
    StreakIsQuick(c, attempts);
    if HasQuickRun(c, front, n) {
      var i :| 0 <= i && QuickRunAt(c, front, i, n);
      assert forall k | i <= k < i + n :: attempts[k] == front[k];
      assert QuickRunAt(c, attempts, i, n);
    }
    if s >= n {
      assert QuickRunAt(c, attempts, |attempts| - n, n);
    }
    if HasQuickRun(c, attempts, n) && s < n {
      var i :| 0 <= i && QuickRunAt(c, attempts, i, n);
      assert i + n < |attempts|;
      assert QuickRunAt(c, front, i, n);
    }
  }

  /** The loop goes on exactly while every attempt fails retryably and no run of quick failures exceeds the limit. */
  lemma {:induction false} LoopGoesOnIff(c: ReconnectConfig, attempts: seq<Attempt>)
    ensures LoopAfter(c, attempts).Running? <==>
              && (forall a | a in attempts :: Retryable(a))
              && (Limited(c) ==> !HasQuickRun(c, attempts, c.maxRetries.value + 1))
  {
    if attempts == [] {
    } else {
      var front, last := attempts[..|attempts| - 1], attempts[|attempts| - 1];
      assert attempts == front + [last];
      LoopGoesOnIff(c, front);
      if Limited(c) { QuickRunGrows(c, attempts, c.maxRetries.value + 1); }
      if LoopAfter(c, front).Running? { RetryCountsStreak(c, front); }
    }
  }

  /** Failed attempts that lasted until the reset. */
  function LongFailures(c: ReconnectConfig, attempts: seq<Attempt>): nat {
    if attempts == [] then 0
    else
      var last := attempts[|attempts| - 1];
      LongFailures(c, attempts[..|attempts| - 1]) + if Retryable(last) && Lasted(c, last) then 1 else 0
  }

  lemma OneMore(l: nat, n: nat)
    ensures (l + 1) * n == l * n + n
  {
  }

  lemma {:induction false} RunningBound(c: ReconnectConfig, attempts: seq<Attempt>)
    requires Limited(c) && LoopAfter(c, attempts).Running?
    ensures |attempts| <= LongFailures(c, attempts) * (c.maxRetries.value + 1) + LoopAfter(c, attempts).retry
  {
    if attempts != [] {
      var front := attempts[..|attempts| - 1];
      RunningBound(c, front);
      RetryCountsStreak(c, front);
      OneMore(LongFailures(c, front), c.maxRetries.value + 1);
    }
  }

  /** With `N` retries and `L` long failures there are at most `(L+1)(N+1)` attempts, whatever their outcomes. */
  lemma AttemptsAreBounded(c: ReconnectConfig, attempts: seq<Attempt>)
    requires Limited(c) && attempts != []
    requires LoopAfter(c, attempts[..|attempts| - 1]).Running?
    ensures |attempts| <= (LongFailures(c, attempts) + 1) * (c.maxRetries.value + 1)
  {
    var front := attempts[..|attempts| - 1];
    RunningBound(c, front);
    RetryCountsStreak(c, front);
    var l, n := LongFailures(c, front), c.maxRetries.value + 1;
    OneMore(l, n);
    OneMore(l + 1, n);
  }

  // ---------------------------------------------------------------- how long it waits

  /** `x` times `b` to the power `k`. */
  function Times(x: nat, b: nat, k: nat): nat {
    if k == 0 then x else b * Times(x, b, k - 1)
  }

  /**
   One backoff at least doubles and at most triples the delay, up to the maximum, and never shortens it. The jitter is
   drawn from the low 64 bits of the milliseconds, so 2^64 of them get none.
   */
  lemma BackoffStep(current: Duration, max: Duration, draw: u64)
    requires current <= max
    ensures Min(2 * current, max) <= NextDelay(current, max, draw) <= Min(3 * current, max)
    ensures current <= NextDelay(current, max, draw)
    ensures current / 1_000_000 == 0x1_0000_0000_0000_0000 ==> NextDelay(current, max, draw) == Min(2 * current, max)
  {
    var ms := Millis(current);
    assert ms <= current / ONE_MILLI;
    assert 0 <= draw % (ms + 1) <= ms;
    assert draw % (ms + 1) * ONE_MILLI <= ms * ONE_MILLI <= current;
  }

  /** Both ends are reached: without jitter a delay doubles, and with all of it one of whole milliseconds triples. */
  lemma JitterReachesBothEnds(current: Duration, max: Duration)
    requires current <= max
    ensures NextDelay(current, max, 0) == Min(2 * current, max)
    ensures current % 1_000_000 == 0 && current / 1_000_000 <= MAX_U64 ==>
              NextDelay(current, max, Millis(current)) == Min(3 * current, max)
  {
    var ms := Millis(current);
    assert 0 % (ms + 1) == 0 && ms % (ms + 1) == ms;
    if current % ONE_MILLI == 0 && current / ONE_MILLI <= MAX_U64 {
      assert ms == current / ONE_MILLI;
      assert ms * ONE_MILLI == current;
    }
  }

  ghost predicate Within(c: ReconnectConfig, k: nat, delay: Duration) {
    && Min(c.maxDelay, Times(c.initialDelay, 2, k)) <= delay <= Min(c.maxDelay, Times(c.initialDelay, 3, k))
    && c.initialDelay <= delay
  }

  lemma WithinNext(c: ReconnectConfig, k: nat, delay: Duration, draw: u64)
    requires 0 < c.initialDelay <= c.maxDelay && Within(c, k, delay)
    ensures Within(c, k + 1, NextDelay(delay, c.maxDelay, draw))
  {
    BackoffStep(delay, c.maxDelay, draw);
    assert Times(c.initialDelay, 2, k + 1) == 2 * Times(c.initialDelay, 2, k);
    assert Times(c.initialDelay, 3, k + 1) == 3 * Times(c.initialDelay, 3, k);
  }

  /** After `k` quick failures since the start or a reset, for every jitter. */
  lemma {:induction false} BackoffEnvelope(c: ReconnectConfig, attempts: seq<Attempt>)
    requires 0 < c.initialDelay <= c.maxDelay && LoopAfter(c, attempts).Running?
    ensures Within(c, Streak(c, attempts), LoopAfter(c, attempts).delay)
  {
    if attempts != [] {
      var front, last := attempts[..|attempts| - 1], attempts[|attempts| - 1];
      BackoffEnvelope(c, front);
      if Quick(c, last) { WithinNext(c, Streak(c, front), LoopAfter(c, front).delay, last.draw); }
    }
  }

  lemma NoJitterNext(c: ReconnectConfig, k: nat, delay: Duration)
    requires 0 < c.initialDelay <= c.maxDelay && delay == Min(c.maxDelay, Times(c.initialDelay, 2, k))
    ensures NextDelay(delay, c.maxDelay, 0) == Min(c.maxDelay, Times(c.initialDelay, 2, k + 1))
  {
    assert Times(c.initialDelay, 2, k + 1) == 2 * Times(c.initialDelay, 2, k);
    JitterReachesBothEnds(delay, c.maxDelay);
  }

  /** Without jitter the delay is the lower end of the envelope. */
  lemma {:induction false} NoJitterDoubles(c: ReconnectConfig, attempts: seq<Attempt>)
    requires 0 < c.initialDelay <= c.maxDelay && LoopAfter(c, attempts).Running?
    requires forall i | 0 <= i < |attempts| :: attempts[i].draw == 0
    ensures LoopAfter(c, attempts).delay == Min(c.maxDelay, Times(c.initialDelay, 2, Streak(c, attempts)))
  {
    if attempts != [] {
      var front, last := attempts[..|attempts| - 1], attempts[|attempts| - 1];
      NoJitterDoubles(c, front);
      if Quick(c, last) { NoJitterNext(c, Streak(c, front), LoopAfter(c, front).delay); }
    }
  }

  /** Between two resets the delay never shrinks. */
  lemma {:induction false} DelayNeverShrinks(c: ReconnectConfig, attempts: seq<Attempt>, i: nat)
    requires 0 < c.initialDelay <= c.maxDelay && LoopAfter(c, attempts).Running?
    requires i <= |attempts| && forall k | i <= k < |attempts| :: !Lasted(c, attempts[k])
    ensures LoopAfter(c, attempts[..i]).Running? && LoopAfter(c, attempts[..i]).delay <= LoopAfter(c, attempts).delay
  {
    if i == |attempts| {
      assert attempts[..i] == attempts;
    } else {
      var front, last := attempts[..|attempts| - 1], attempts[|attempts| - 1];
      DelayNeverShrinks(c, front, i);
      assert front[..i] == attempts[..i];
      BackoffEnvelope(c, front);
      BackoffStep(LoopAfter(c, front).delay, c.maxDelay, last.draw);
    }
  }
}
