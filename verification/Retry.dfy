/**
 * The provider retry loop (choreo-ai-protocols/src/retry.rs).
 *
 * A run is determined by a `World`: the reply to each attempt, the jitter drawn,
 * the moment a cancel is queued, and who wins a race between the cancel and the
 * backoff timer. All times are in milliseconds except Retry-After, which is in
 * seconds as on the wire.
 */
module Retry {
  import opened Options
  import opened Arithmetic

  const MAX_BACKOFF_MS: nat := 3_600_000
  const U64_MAX: nat := U64 - 1

  datatype Config = Config(maxAttempts: nat, initialMs: nat, maxMs: nat)

  predicate IsU64Config(c: Config) { c.initialMs <= U64_MAX && c.maxMs <= U64_MAX }

  // ---- Backoff ---------------------------------------------------------------------

  function SaturatingPow2(k: nat): nat { Min(Pow2(k), U64_MAX) }

  function SaturatingMul(a: nat, b: nat): nat { Min(a * b, U64_MAX) }

  function SaturatingPred(n: nat): nat { if n == 0 then 0 else n - 1 }

  /** The backoff before jitter. */
  function BackoffBase(retryNumber: nat, c: Config): nat {
    Min(SaturatingMul(c.initialMs, SaturatingPow2(SaturatingPred(retryNumber))), c.maxMs)
  }

  predicate IsJitter(j: real) { 0.75 <= j <= 1.25 }

  /** `(capped as f64 * jitter) as u64`: truncation that saturates at the top. */
  function Backoff(retryNumber: nat, c: Config, jitter: real): (d: nat)
    requires IsJitter(jitter)
  {
    Min(Jittered(BackoffBase(retryNumber, c), jitter), U64_MAX)
  }

  /** The integer part of a jittered wait is between 3/4 (rounded down) and 5/4 of it. */
  function Jittered(n: nat, j: real): (f: nat)
    requires IsJitter(j)
    ensures 4 * f <= 5 * n && 3 * n < 4 * f + 4
  {
    JitterBounds(n, j);
    (n as real * j).Floor
  }

  lemma JitterBounds(n: nat, j: real)
    requires IsJitter(j)
    ensures var f := (n as real * j).Floor; 0 <= 4 * f <= 5 * n && 3 * n < 4 * f + 4
  {
    var x, y := n as real, n as real * j;
    ScaleReal(x, 0.75, j);
    ScaleReal(x, j, 1.25);
    assert x * 0.75 + x * 0.75 + x * 0.75 + x * 0.75 == x + x + x;
    assert x * 1.25 + x * 1.25 + x * 1.25 + x * 1.25 == x + x + x + x + x;
    FloorBounds(n, y, y.Floor);
  }

  lemma FloorBounds(n: nat, y: real, f: int)
    requires f as real <= y < f as real + 1.0
    requires n as real + n as real + n as real <= y + y + y + y
    requires y + y + y + y <= n as real + n as real + n as real + n as real + n as real
    ensures 0 <= 4 * f <= 5 * n && 3 * n < 4 * f + 4
  {
    var g := f as real;
    assert g + g + g + g == (4 * f) as real;
    assert n as real + n as real + n as real == (3 * n) as real;
    assert n as real + n as real + n as real + n as real + n as real == (5 * n) as real;
  }

  lemma ScaleReal(x: real, a: real, b: real)
    requires x >= 0.0 && a <= b
    ensures x * a <= x * b
  {}

  lemma ScaleUp(a: nat, p: nat)
    requires a >= 1
    ensures a * p >= p
  {
    Scale(p, 1, a);
  }

  /**
   * Saturation never shows: for every u64 pair and every retry number the base is
   * the exact integer min(initial * 2^(n-1), max).
   */
  lemma BaseIsExact(n: nat, c: Config)
    requires n >= 1 && IsU64Config(c)
    ensures BackoffBase(n, c) == Min(c.initialMs * Pow2(n - 1), c.maxMs)
  {
    if c.initialMs >= 1 && Pow2(n - 1) > U64_MAX {
      ScaleUp(c.initialMs, Pow2(n - 1));
      ScaleUp(c.initialMs, U64_MAX);
    }
  }

  lemma BaseIsMonotone(m: nat, n: nat, c: Config)
    requires 1 <= m <= n && IsU64Config(c)
    ensures BackoffBase(m, c) <= BackoffBase(n, c)
  {
    BaseIsExact(m, c);
    BaseIsExact(n, c);
    Pow2Grows(m - 1, n - 1);
    Product(c.initialMs, c.initialMs, Pow2(m - 1), Pow2(n - 1));
  }

  /** After the hard cap a jittered wait is at most min(5/4 max, one hour). */
  lemma WaitIsBounded(n: nat, c: Config, j: real)
    requires IsJitter(j)
    ensures 4 * Min(Backoff(n, c, j), MAX_BACKOFF_MS) <= 5 * c.maxMs
    ensures Min(Backoff(n, c, j), MAX_BACKOFF_MS) <= MAX_BACKOFF_MS
  {
    var f := Jittered(BackoffBase(n, c), j);
  }

  /** Jitter never shortens a wait below three quarters of the exact base. */
  lemma WaitIsLongEnough(n: nat, c: Config, j: real)
    requires IsJitter(j) && n >= 1 && IsU64Config(c)
    ensures Backoff(n, c, j) == U64_MAX || 4 * Backoff(n, c, j) + 4 > 3 * Min(c.initialMs * Pow2(n - 1), c.maxMs)
  {
    BaseIsExact(n, c);
    var f := Jittered(BackoffBase(n, c), j);
  }

  // ---- Building a configuration ----------------------------------------------------

  function Clamped(maxAttempts: nat, initialMs: nat, maxMs: nat): (c: Config)
  {
    var initial := Min(initialMs, MAX_BACKOFF_MS);
    Config(maxAttempts, initial, Max(Min(maxMs, MAX_BACKOFF_MS), initial))
  }

  predicate Sane(initialMs: nat, maxMs: nat) { initialMs <= maxMs <= MAX_BACKOFF_MS }

  /**
   * The constructor yields a sane pair, leaves every sane pair alone and moves
   * every other, so the first retry always waits for the full initial backoff.
   */
  lemma ClampIsProjection(maxAttempts: nat, initialMs: nat, maxMs: nat)
    ensures var c := Clamped(maxAttempts, initialMs, maxMs);
            && Sane(c.initialMs, c.maxMs)
            && (c == Config(maxAttempts, initialMs, maxMs) <==> Sane(initialMs, maxMs))
            && Clamped(maxAttempts, c.initialMs, c.maxMs) == c
            && BackoffBase(1, c) == c.initialMs
  {
    BaseIsExact(1, Clamped(maxAttempts, initialMs, maxMs));
    assert Pow2(0) == 1;
  }

  /** The process-wide set that keeps a clamped pair from being reported twice. */
  class ClampWarnings {
    var warned: set<(nat, nat)>

    constructor () ensures warned == {} { warned := {}; }

    method NewConfig(maxAttempts: nat, initialMs: nat, maxMs: nat) returns (c: Config, warn: bool)
      modifies this
      ensures c == Clamped(maxAttempts, initialMs, maxMs)
      ensures warn <==> !Sane(initialMs, maxMs) && (initialMs, maxMs) !in old(warned)
      ensures warned == old(warned) + (if Sane(initialMs, maxMs) then {} else {(initialMs, maxMs)})
    {
      var initial := Min(initialMs, MAX_BACKOFF_MS);
      var max := Max(Min(maxMs, MAX_BACKOFF_MS), initial);
      warn := false;
      if initial != initialMs || max != maxMs {
        warn := (initialMs, maxMs) !in warned;
        warned := warned + {(initialMs, maxMs)};
      }
      c := Config(maxAttempts, initial, max);
    }
  }

  // ---- One reply -------------------------------------------------------------------

  datatype Reply = TransportError | Response(status: nat, retryAfterSecs: Option<nat>)

  datatype Error =
    | Io
    | Unauthorized(status: nat)
    | RateLimited(status: nat, retryAfterSecs: Option<nat>)
    | ServerError(status: nat)
    | ClientError(status: nat)

  datatype Outcome = Success(status: nat) | Failed(error: Error) | Cancelled

  datatype Verdict = Stop(outcome: Outcome) | RetryAfter(delay: nat)

  predicate IsRetryableStatus(status: nat) { status in {429, 500, 502, 503, 504} }

  predicate HeaderApplies(status: nat) { status == 429 || status == 503 }

  function RetryDecision(status: nat, retryAfterSecs: Option<nat>, attempt: nat, c: Config, jitter: real): Option<nat>
    requires IsJitter(jitter)
  {
    if !HeaderApplies(status) then Some(Backoff(attempt, c, jitter))
    else match retryAfterSecs
      case None => Some(Backoff(attempt, c, jitter))
      case Some(secs) => if secs * 1000 <= Min(c.maxMs, MAX_BACKOFF_MS) then Some(secs * 1000) else None
  }

  function StatusToError(status: nat, retryAfterSecs: Option<nat>): Error {
    if status == 401 || status == 403 then Unauthorized(status)
    else if status == 429 then RateLimited(status, retryAfterSecs)
    else if 500 <= status < 600 then ServerError(status)
    else if 400 <= status < 500 then ClientError(status)
    else Io
  }

  function Judge(reply: Reply, attempt: nat, c: Config, jitter: real): Verdict
    requires IsJitter(jitter)
  {
    match reply
    case TransportError =>
      if attempt < c.maxAttempts then RetryAfter(Backoff(attempt, c, jitter)) else Stop(Failed(Io))
    case Response(status, header) =>
      if 200 <= status < 300 then Stop(Success(status))
      else if IsRetryableStatus(status) && attempt < c.maxAttempts then
        match RetryDecision(status, header, attempt, c, jitter)
        case Some(delay) => RetryAfter(delay)
        case None => Stop(Failed(StatusToError(status, header)))
      else Stop(Failed(StatusToError(status, header)))
  }

  /** The replies worth another attempt, stated from the HTTP contract. */
  predicate Transient(reply: Reply, c: Config) {
    match reply
    case TransportError => true
    case Response(status, header) =>
      && status in {429, 500, 502, 503, 504}
      && (status in {429, 503} && header.Some? ==>
            header.value * 1000 <= c.maxMs && header.value * 1000 <= MAX_BACKOFF_MS)
  }

  /** Another attempt follows exactly a transient reply with attempts to spare. */
  lemma RetriesExactlyTransient(reply: Reply, attempt: nat, c: Config, jitter: real)
    requires IsJitter(jitter)
    ensures Judge(reply, attempt, c, jitter).RetryAfter? <==> Transient(reply, c) && attempt < c.maxAttempts
    ensures reply.Response? && HeaderApplies(reply.status) && reply.retryAfterSecs.Some?
              && Judge(reply, attempt, c, jitter).RetryAfter?
            ==> Judge(reply, attempt, c, jitter).delay == reply.retryAfterSecs.value * 1000
    ensures Judge(reply, attempt, c, jitter) != Stop(Cancelled)
    ensures Judge(reply, attempt, c, jitter).Stop? ==>
              (Judge(reply, attempt, c, jitter).outcome.Success? <==> reply.Response? && 200 <= reply.status < 300)
  {}

  /** The error of each status, by the statuses themselves. */
  lemma ErrorsByStatus(status: nat, header: Option<nat>)
    ensures var e := StatusToError(status, header);
            && (e.Unauthorized? <==> status in {401, 403})
            && (e.RateLimited? <==> status == 429)
            && (e.ServerError? <==> 500 <= status <= 599)
            && (e.ClientError? <==> 400 <= status <= 499 && status !in {401, 403, 429})
            && (e.Io? <==> status < 400 || status > 599)
            && (!e.Io? ==> e.status == status)
            && (e.RateLimited? ==> e.retryAfterSecs == header)
  {}

  // ---- A whole run -----------------------------------------------------------------

  /**
   * What the loop does not decide. Each attempt has four moments: the cancel
   * check, the send, the start of the wait and its end; `cancelAt` is the first
   * moment at which a cancel is already queued.
   */
  datatype World = World(
    reply: nat -> Reply,
    jitter: nat -> real,
    cancelAt: Option<nat>,
    cancelWins: nat -> bool,
    slept: nat -> nat)

  ghost predicate ValidWorld(w: World) { forall n :: IsJitter(w.jitter(n)) }

  function CheckMoment(attempt: nat): nat { 4 * attempt }
  function SendMoment(attempt: nat): nat { 4 * attempt + 1 }
  function WaitMoment(attempt: nat): nat { 4 * attempt + 2 }
  function WakeMoment(attempt: nat): nat { 4 * attempt + 3 }

  predicate CancelQueued(w: World, moment: nat) { w.cancelAt.Some? && w.cancelAt.value <= moment }

  datatype Event =
    | Armed(attempt: nat)
    | Sent(attempt: nat, reply: Reply)
    | Waited(attempt: nat, delay: nat, slept: nat)

  datatype Run = Run(trace: seq<Event>, outcome: Outcome)

  /** How long `sleep_or_cancel` sleeps, and whether a cancel ended it. */
  function Sleep(w: World, attempt: nat, delay: nat): (nat, bool) {
    if CancelQueued(w, WaitMoment(attempt)) then (0, true)
    else if CancelQueued(w, WakeMoment(attempt)) && w.cancelWins(attempt) then (Min(w.slept(attempt), delay), true)
    else (delay, false)
  }

  /** The events of one attempt, and how the run ends if this attempt ends it. */
  function Attempt(w: World, c: Config, n: nat): (seq<Event>, Option<Outcome>)
    requires IsJitter(w.jitter(n))
  {
    if CancelQueued(w, CheckMoment(n)) then ([Armed(n)], Some(Cancelled))
    else
      var sent := [Armed(n), Sent(n, w.reply(n))];
      match Judge(w.reply(n), n, c, w.jitter(n))
      case Stop(outcome) => (sent, Some(outcome))
      case RetryAfter(d) =>
        var delay := Min(d, MAX_BACKOFF_MS);
        var (slept, cancelled) := Sleep(w, n, delay);
        (sent + [Waited(n, delay, slept)], if cancelled then Some(Cancelled) else None)
  }

  /** The run from attempt `n` on. */
  ghost function RunFrom(w: World, c: Config, n: nat): (r: Run)
    requires ValidWorld(w)
    decreases c.maxAttempts - n
  {
    var (events, end) := Attempt(w, c, n);
    match end
    case Some(outcome) => Run(events, outcome)
    case None =>
      RetriesExactlyTransient(w.reply(n), n, c, w.jitter(n));
      var rest := RunFrom(w, c, n + 1);
      Run(events + rest.trace, rest.outcome)
  }

  class AttemptDeadline {
    const totalTimeoutSecs: nat
    var current: Option<nat>

    constructor (secs: nat)
      ensures totalTimeoutSecs == secs && current == None
    {
      totalTimeoutSecs := secs;
      current := None;
    }

    function At(now: nat): Option<nat> {
      if totalTimeoutSecs > 0 then Some(now + totalTimeoutSecs * 1000) else None
    }

    method Reset(now: nat)
      modifies this
      ensures current == At(now)
      ensures current == None <==> totalTimeoutSecs == 0
      ensures current.Some? ==> current.value == now + 1000 * totalTimeoutSecs
    {
      current := if totalTimeoutSecs > 0 then Some(now + totalTimeoutSecs * 1000) else None;
    }
  }

  /** `sleep_or_cancel`, behind the hard cap of `wait_before_retry`. */
  method WaitBeforeRetry(w: World, attempt: nat, d: nat) returns (event: Event, cancelled: bool)
    ensures event == Waited(attempt, Min(d, MAX_BACKOFF_MS), Sleep(w, attempt, Min(d, MAX_BACKOFF_MS)).0)
    ensures cancelled == Sleep(w, attempt, Min(d, MAX_BACKOFF_MS)).1
  {
    var delay := if d <= MAX_BACKOFF_MS then d else MAX_BACKOFF_MS;
    if CancelQueued(w, WaitMoment(attempt)) {
      return Waited(attempt, delay, 0), true;
    }
    if CancelQueued(w, WakeMoment(attempt)) && w.cancelWins(attempt) {
      return Waited(attempt, delay, Min(w.slept(attempt), delay)), true;
    }
    return Waited(attempt, delay, delay), false;
  }

  /** The body of the loop: re-arm, check for a cancel, send, judge, wait. */
  method TryOnce(w: World, c: Config, attempt: nat, deadline: AttemptDeadline, now: nat)
    returns (events: seq<Event>, end: Option<Outcome>)
    requires IsJitter(w.jitter(attempt))
    modifies deadline
    ensures (events, end) == Attempt(w, c, attempt)
    ensures deadline.current == deadline.At(now)
  {
    deadline.Reset(now);
    if CancelQueued(w, CheckMoment(attempt)) {
      return [Armed(attempt)], Some(Cancelled);
    }
    var reply := w.reply(attempt);
    events := [Armed(attempt), Sent(attempt, reply)];
    match Judge(reply, attempt, c, w.jitter(attempt)) {
      case Stop(outcome) =>
        end := Some(outcome);
      case RetryAfter(d) =>
        var event, cancelled := WaitBeforeRetry(w, attempt, d);
        events := events + [event];
        end := if cancelled then Some(Cancelled) else None;
    }
  }

  /**
   * The loop. The deadline is re-armed at the top of every attempt, so at the end
   * it is the one armed for the last attempt made.
   */
  method RetryLoop(w: World, c: Config, deadline: AttemptDeadline, clock: nat -> nat) returns (r: Run)
    requires ValidWorld(w)
    modifies deadline
    ensures r == RunFrom(w, c, 1)
    ensures |r.trace| > 0 && deadline.current == deadline.At(clock(r.trace[|r.trace| - 1].attempt))
  {
    var attempt: nat := 0;
    var trace: seq<Event> := [];
    while true
      invariant attempt < Max(1, c.maxAttempts)
      invariant RunFrom(w, c, 1) == After(trace, RunFrom(w, c, attempt + 1))
      decreases Max(1, c.maxAttempts) - attempt
    {
      attempt := attempt + 1;
      var events, end := TryOnce(w, c, attempt, deadline, clock(attempt));
      Unfold(w, c, attempt, trace);
      trace := trace + events;
      if end.Some? {
        return Run(trace, end.value);
      }
    }
  }

  function After(trace: seq<Event>, r: Run): Run { Run(trace + r.trace, r.outcome) }

  /** One turn of the loop moves one attempt from the rest of the run to the trace. */
  lemma Unfold(w: World, c: Config, n: nat, trace: seq<Event>)
    requires ValidWorld(w)
    ensures var (events, end) := Attempt(w, c, n);
            && |events| > 0 && events[|events| - 1].attempt == n
            && After(trace, RunFrom(w, c, n)) ==
               (if end.Some? then Run(trace + events, end.value) else After(trace + events, RunFrom(w, c, n + 1)))
            && (end.None? ==> n < c.maxAttempts)
  {
    RetriesExactlyTransient(w.reply(n), n, c, w.jitter(n));
    var (events, end) := Attempt(w, c, n);
    if end.None? {
      assert (trace + events) + RunFrom(w, c, n + 1).trace == trace + (events + RunFrom(w, c, n + 1).trace);
    }
  }

  // ---- What every run keeps --------------------------------------------------------

  function Sends(t: seq<Event>): nat {
    if t == [] then 0 else Sends(t[..|t| - 1]) + if t[|t| - 1].Sent? then 1 else 0
  }

  function TotalSlept(t: seq<Event>): nat {
    if t == [] then 0 else TotalSlept(t[..|t| - 1]) + if t[|t| - 1].Waited? then t[|t| - 1].slept else 0
  }

  lemma {:induction false} SumsSplit(a: seq<Event>, b: seq<Event>)
    ensures Sends(a + b) == Sends(a) + Sends(b)
    ensures TotalSlept(a + b) == TotalSlept(a) + TotalSlept(b)
  {
    if b == [] {
      assert a + b == a;
    } else {
      SumsSplit(a, b[..|b| - 1]);
      assert (a + b)[..|a + b| - 1] == a + b[..|b| - 1];
    }
  }

  /** One attempt sends at most once and waits at most an hour, after the send. */
  lemma AttemptSums(w: World, c: Config, n: nat)
    requires ValidWorld(w)
    ensures var (events, end) := Attempt(w, c, n);
            && Sends(events) <= 1
            && (end != Some(Cancelled) ==> Sends(events) == 1)
            && (end.Some? && end != Some(Cancelled) ==> TotalSlept(events) == 0)
            && TotalSlept(events) <= Sends(events) * MAX_BACKOFF_MS
  {
    var (events, end) := Attempt(w, c, n);
    assert Sends([Armed(n)]) == 0 && TotalSlept([Armed(n)]) == 0 by {
      assert [Armed(n)][..0] == [];
    }
    var reply := w.reply(n);
    if |events| >= 2 {
      var sent := [Armed(n), Sent(n, reply)];
      assert sent[..1] == [Armed(n)];
      assert Sends(sent) == 1 && TotalSlept(sent) == 0;
      if |events| == 3 { assert events[..2] == sent; }
      RetriesExactlyTransient(reply, n, c, w.jitter(n));
    }
  }

  /**
   * Every run sends at most max(1, maxAttempts) times. Unless it was cancelled it
   * slept at most one hour per send but the last; a cancelled one at most one hour
   * per send.
   */
  lemma {:induction false} RunIsBounded(w: World, c: Config, n: nat)
    requires ValidWorld(w)
    ensures var r := RunFrom(w, c, n);
            && (Sends(r.trace) <= 1 || Sends(r.trace) + n <= c.maxAttempts + 1)
            && TotalSlept(r.trace) <= Sends(r.trace) * MAX_BACKOFF_MS
            && (!r.outcome.Cancelled? ==>
                  Sends(r.trace) >= 1 && TotalSlept(r.trace) <= (Sends(r.trace) - 1) * MAX_BACKOFF_MS)
    decreases c.maxAttempts - n
  {
    AttemptSums(w, c, n);
    RunSums(w, c, n);
    if Attempt(w, c, n).1.None? { RunIsBounded(w, c, n + 1); }
  }

  lemma RunSums(w: World, c: Config, n: nat)
    requires ValidWorld(w)
    ensures var (events, end) := Attempt(w, c, n);
            var r, rest := RunFrom(w, c, n), RunFrom(w, c, n + 1);
            && (end.Some? ==> r == Run(events, end.value))
            && (end.None? ==>
                  && n < c.maxAttempts
                  && r.outcome == rest.outcome
                  && Sends(r.trace) == Sends(events) + Sends(rest.trace)
                  && TotalSlept(r.trace) == TotalSlept(events) + TotalSlept(rest.trace))
  {
    RetriesExactlyTransient(w.reply(n), n, c, w.jitter(n));
    SumsSplit(Attempt(w, c, n).0, RunFrom(w, c, n + 1).trace);
  }

  /** The error a final reply calls for, by the statuses themselves. */
  predicate ErrorMatches(reply: Reply, error: Error) {
    match reply
    case TransportError => error == Io
    case Response(status, header) =>
      if status == 401 || status == 403 then error == Unauthorized(status)
      else if status == 429 then error == RateLimited(429, header)
      else if 400 <= status <= 499 then error == ClientError(status)
      else if 500 <= status <= 599 then error == ServerError(status)
      else error == Io
  }

  /** What the trace of a run says about its event at `i`. */
  ghost predicate EventIsRight(w: World, c: Config, n: nat, r: Run, i: nat)
    requires i < |r.trace|
  {
    var e := r.trace[i];
    && e.attempt >= n
    && (e.Sent? ==>
          && i > 0 && r.trace[i - 1] == Armed(e.attempt)
          && e.reply == w.reply(e.attempt)
          && !CancelQueued(w, CheckMoment(e.attempt)))
    && (e.Waited? ==>
          && i > 0 && r.trace[i - 1] == Sent(e.attempt, w.reply(e.attempt))
          && e.slept <= e.delay <= MAX_BACKOFF_MS
          && (i + 1 < |r.trace| ==> e.slept == e.delay)
          && (CancelQueued(w, WaitMoment(e.attempt)) ==> e.slept == 0)
          && WaitMatchesReply(r.trace[i - 1].reply, e.delay, e.attempt, c, w))
  }

  /** A wait is the server's exact Retry-After, or the capped backoff. */
  ghost predicate WaitMatchesReply(reply: Reply, delay: nat, attempt: nat, c: Config, w: World) {
    if reply.Response? && reply.status in {429, 503} && reply.retryAfterSecs.Some?
    then delay == reply.retryAfterSecs.value * 1000 && delay <= c.maxMs
    else IsJitter(w.jitter(attempt)) && delay == Min(Backoff(attempt, c, w.jitter(attempt)), MAX_BACKOFF_MS)
  }

  lemma AttemptIsRight(w: World, c: Config, n: nat, i: nat)
    requires ValidWorld(w)
    requires i < |Attempt(w, c, n).0|
    ensures EventIsRight(w, c, n, Run(Attempt(w, c, n).0, Cancelled), i)
    ensures Attempt(w, c, n).0[i].attempt == n
  {
    RetriesExactlyTransient(w.reply(n), n, c, w.jitter(n));
  }

  /**
   * In every run each send comes straight after its deadline is re-armed, each
   * wait straight after its send, and each wait is the one its reply calls for.
   */
  lemma {:induction false} TraceIsRight(w: World, c: Config, n: nat, i: nat)
    requires ValidWorld(w)
    requires i < |RunFrom(w, c, n).trace|
    ensures EventIsRight(w, c, n, RunFrom(w, c, n), i)
    decreases c.maxAttempts - n
  {
    var (events, end) := Attempt(w, c, n);
    if i < |events| {
      AttemptIsRight(w, c, n, i);
    } else {
      RetriesExactlyTransient(w.reply(n), n, c, w.jitter(n));
      TraceIsRight(w, c, n + 1, i - |events|);
    }
  }

  /**
   * No send follows a reply that is not transient: not a non-retryable status,
   * not a 429 or 503 whose Retry-After exceeds the budget. Sends are numbered in
   * order, each attempt at most once.
   */
  lemma {:induction false} OnlyTransientIsRetried(w: World, c: Config, n: nat, i: nat, j: nat)
    requires ValidWorld(w)
    requires i < j < |RunFrom(w, c, n).trace|
    requires RunFrom(w, c, n).trace[i].Sent? && RunFrom(w, c, n).trace[j].Sent?
    ensures Transient(RunFrom(w, c, n).trace[i].reply, c)
    ensures RunFrom(w, c, n).trace[i].attempt < RunFrom(w, c, n).trace[j].attempt
    decreases c.maxAttempts - n
  {
    var (events, end) := Attempt(w, c, n);
    OneSendPerAttempt(w, c, n);
    if i < |events| {
      AttemptIsRight(w, c, n, i);
      TraceIsRight(w, c, n + 1, j - |events|);
    } else {
      OnlyTransientIsRetried(w, c, n + 1, i - |events|, j - |events|);
    }
  }

  /** An attempt sends once, second thing, and goes on only after a transient reply. */
  lemma OneSendPerAttempt(w: World, c: Config, n: nat)
    requires ValidWorld(w)
    ensures var (events, end) := Attempt(w, c, n);
            && (forall k :: 0 <= k < |events| && events[k].Sent? ==> k == 1)
            && (end.None? ==> Transient(w.reply(n), c))
  {
    RetriesExactlyTransient(w.reply(n), n, c, w.jitter(n));
  }

  /**
   * Once a cancel is queued at most one further send starts: only the send whose
   * check had just passed. Two sends at or after the cancel are impossible.
   */
  lemma AtMostOneSendAfterCancel(w: World, c: Config, i: nat, j: nat)
    requires ValidWorld(w)
    requires i < j < |RunFrom(w, c, 1).trace|
    requires RunFrom(w, c, 1).trace[i].Sent? && RunFrom(w, c, 1).trace[j].Sent?
    requires w.cancelAt.Some?
    ensures SendMoment(RunFrom(w, c, 1).trace[i].attempt) < w.cancelAt.value
  {
    OnlyTransientIsRetried(w, c, 1, i, j);
    TraceIsRight(w, c, 1, i);
    TraceIsRight(w, c, 1, j);
  }

  /** How a run that made its last send at attempt `last` may end. */
  ghost predicate EndIsRight(w: World, c: Config, r: Run, last: nat) {
    match r.outcome
    case Success(status) =>
      w.reply(last).Response? && w.reply(last).status == status && 200 <= status < 300
    case Failed(error) =>
      && (w.reply(last).Response? ==> !(200 <= w.reply(last).status < 300))
      && (Transient(w.reply(last), c) ==> last >= c.maxAttempts)
      && ErrorMatches(w.reply(last), error)
    case Cancelled => w.cancelAt.Some?
  }

  /**
   * The loop never gives up early: it ends in success exactly on a 2xx reply, and
   * a failure after a transient reply means every attempt was used. Without a
   * cancel the last event is the send that decided.
   */
  lemma {:induction false} EndsForAReason(w: World, c: Config, n: nat)
    requires ValidWorld(w)
    ensures var r := RunFrom(w, c, n);
            var last := r.trace[|r.trace| - 1];
            && |r.trace| > 0
            && EndIsRight(w, c, r, last.attempt)
            && (!r.outcome.Cancelled? ==> last == Sent(last.attempt, w.reply(last.attempt)))
    decreases c.maxAttempts - n
  {
    RetriesExactlyTransient(w.reply(n), n, c, w.jitter(n));
    if Attempt(w, c, n).1.None? { EndsForAReason(w, c, n + 1); }
  }
}
