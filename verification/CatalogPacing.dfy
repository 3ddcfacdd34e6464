/**
 When the catalog thread fetches: across any sequence of runs, crashes and restarts.

 Time is in nanoseconds.  The wall clock never goes back; the monotonic clock restarts anywhere with
 each process and never runs faster than the wall clock.  The attempt time written to the database is
 the wall clock truncated to milliseconds, as `wall_now_ms` truncates it.  Database writes succeed.
 */
module CatalogPacing {
  import opened Options

  const MS: nat := 1_000_000
  const INTERVAL_MS: nat := 25 * 60 * 60 * 1000
  const INTERVAL: nat := INTERVAL_MS * MS

  /** How a timer was armed: by a fetch that ended in this process, or by a startup that did not fetch. */
  datatype Armed = AfterFetch | AtStartup

  datatype Trigger = Startup | Timer(armed: Armed) | Manual

  /** `unpaced` marks a startup that found no valid cache, or no attempt time it could read. */
  datatype Attempt = Attempt(wall: nat, trigger: Trigger, unpaced: bool)

  datatype Process = Fetching | Waiting(retryAt: Option<nat>, armed: Armed)

  /** `attempts` is the history of fetches. */
  datatype State = State(wall: nat, mono: nat, db: Option<nat>, process: Option<Process>, attempts: seq<Attempt>)

  datatype Step =
    | Tick(wallBy: nat, monoBy: nat)
    | Start(monoAt: nat, cacheValid: bool, dbReadable: bool)
    | FetchEnds
    | TimerFires
    | RefreshNow
    | Crash

  const INIT := State(0, 0, None, None, [])

  function Truncated(wall: nat): nat { wall / MS }

  /** `should_fetch_at_startup`. */
  predicate ShouldFetchAtStartup(cacheValid: bool, last: Option<nat>, nowMs: nat) {
    !cacheValid || last.None? || SaturatingSub(nowMs, last.value) >= INTERVAL_MS
  }

  function SaturatingSub(a: nat, b: nat): nat { if a >= b then a - b else 0 }

  /** `next_retry_deadline`. */
  function NextRetryDeadline(last: Option<nat>, mono: nat, nowMs: nat): Option<nat> {
    if last.None? then None
    else Some(mono + SaturatingSub(INTERVAL, SaturatingSub(nowMs, last.value) * MS))
  }

  /** `record_attempt`, then the fetch begins. */
  function Attempted(s: State, trigger: Trigger, unpaced: bool): State {
    s.(db := Some(Truncated(s.wall)),
       process := Some(Fetching),
       attempts := s.attempts + [Attempt(s.wall, trigger, unpaced)])
  }

  function Started(s: State, cacheValid: bool, dbReadable: bool): State {
    var last := if dbReadable then s.db else None;
    if ShouldFetchAtStartup(cacheValid, last, Truncated(s.wall))
    then Attempted(s, Startup, !cacheValid || last.None?)
    else s.(process := Some(Waiting(NextRetryDeadline(last, s.mono, Truncated(s.wall)), AtStartup)))
  }

  predicate Enabled(s: State, step: Step) {
    match step
    case Tick(wallBy, monoBy) => monoBy <= wallBy
    case Start(_, _, _) => s.process.None?
    case FetchEnds => s.process == Some(Fetching)
    case TimerFires =>
      s.process.Some? && s.process.value.Waiting? && s.process.value.retryAt.Some?
      && s.mono >= s.process.value.retryAt.value
    case RefreshNow => s.process.Some? && s.process.value.Waiting?
    case Crash => s.process.Some?
  }

  function Next(s: State, step: Step): State {
    if !Enabled(s, step) then s
    else
      match step
      case Tick(wallBy, monoBy) => s.(wall := s.wall + wallBy, mono := s.mono + monoBy)
      case Start(monoAt, cacheValid, dbReadable) => Started(s.(mono := monoAt), cacheValid, dbReadable)
      case FetchEnds => s.(process := Some(Waiting(Some(s.mono + INTERVAL), AfterFetch)))
      case TimerFires => Attempted(s, Timer(s.process.value.armed), false)
      case RefreshNow => Attempted(s, Manual, false)
      case Crash => s.(process := None)
  }

  function Exec(steps: seq<Step>): State {
    if steps == [] then INIT else Next(Exec(steps[..|steps| - 1]), steps[|steps| - 1])
  }

  // ----- The pacing law -----

  /** A background attempt keeps its distance, in recorded milliseconds, from the one before it. */
  predicate Paced(earlier: Attempt, later: Attempt) {
    later.trigger == Manual || later.unpaced
    || (&& Truncated(later.wall) >= Truncated(earlier.wall) + INTERVAL_MS
        && (later.trigger == Timer(AfterFetch) ==> later.wall >= earlier.wall + INTERVAL))
  }

  ghost predicate AllPaced(attempts: seq<Attempt>) {
    forall i :: 0 < i < |attempts| ==> Paced(attempts[i - 1], attempts[i])
  }

  ghost predicate InOrder(attempts: seq<Attempt>) {
    forall i :: 0 < i < |attempts| ==> attempts[i - 1].wall <= attempts[i].wall
  }

  ghost predicate Inv(s: State) {
    && AllPaced(s.attempts)
    && InOrder(s.attempts)
    && (if s.attempts == [] then s.db == None
        else
          var last := s.attempts[|s.attempts| - 1].wall;
          && last <= s.wall
          && s.db == Some(Truncated(last))
          // by the time the timer is due, the wall clock is an interval past the recorded attempt
          && (s.process.Some? && s.process.value.Waiting? && s.process.value.retryAt.Some? ==>
                && s.wall + s.process.value.retryAt.value - s.mono >= (Truncated(last) + INTERVAL_MS) * MS
                && (s.process.value.armed.AfterFetch? ==>
                      s.wall + s.process.value.retryAt.value - s.mono >= last + INTERVAL)))
    && (s.process.Some? && s.process.value.Waiting? ==>
          s.process.value.retryAt.Some? && s.process.value.retryAt.value <= s.mono + INTERVAL && s.attempts != [])
    && (s.process == Some(Fetching) ==> s.attempts != [])
  }

  lemma TruncationLaws(wall: nat)
    ensures Truncated(wall) * MS <= wall < (Truncated(wall) + 1) * MS
  {
  }

  lemma TruncatedAtLeast(wall: nat, ms: nat)
    requires wall >= ms * MS
    ensures Truncated(wall) >= ms
  {
    TruncationLaws(wall);
    assert ms < Truncated(wall) + 1;
  }

  lemma TruncatedMonotone(a: nat, b: nat)
    requires a <= b
    ensures Truncated(a) <= Truncated(b)
  {
    TruncationLaws(a);
    TruncatedAtLeast(b, Truncated(a));
  }

  lemma AttemptKeepsInv(s: State, trigger: Trigger, unpaced: bool)
    requires AllPaced(s.attempts) && InOrder(s.attempts)
    requires s.attempts != [] ==>
               var earlier := s.attempts[|s.attempts| - 1];
               earlier.wall <= s.wall && Paced(earlier, Attempt(s.wall, trigger, unpaced))
    ensures Inv(Attempted(s, trigger, unpaced))
  {
  }

  lemma StartKeepsInv(s: State, cacheValid: bool, dbReadable: bool)
    requires Inv(s) && s.process.None?
    ensures Inv(Started(s, cacheValid, dbReadable))
  {
    var last := if dbReadable then s.db else None;
    if ShouldFetchAtStartup(cacheValid, last, Truncated(s.wall)) {
      AttemptKeepsInv(s, Startup, !cacheValid || last.None?);
    } else {
      var elapsed := Truncated(s.wall) - last.value;
      TruncatedMonotone(s.attempts[|s.attempts| - 1].wall, s.wall);
      TruncationLaws(s.wall);
      assert elapsed * MS <= INTERVAL;
      assert INTERVAL - elapsed * MS + Truncated(s.wall) * MS == (last.value + INTERVAL_MS) * MS;
    }
  }

  lemma StepKeepsInv(s: State, step: Step)
    requires Inv(s)
    ensures Inv(Next(s, step))
  {
    if Enabled(s, step) {
      match step
      case Tick(_, _) =>
      case Start(monoAt, cacheValid, dbReadable) => StartKeepsInv(s.(mono := monoAt), cacheValid, dbReadable);
      case FetchEnds => TruncationLaws(s.attempts[|s.attempts| - 1].wall);
      case TimerFires =>
        TruncatedAtLeast(s.wall, Truncated(s.attempts[|s.attempts| - 1].wall) + INTERVAL_MS);
        AttemptKeepsInv(s, Timer(s.process.value.armed), false);
      case RefreshNow => AttemptKeepsInv(s, Manual, false);
      case Crash =>
    }
  }

  lemma {:induction false} RunKeepsInv(steps: seq<Step>)
    ensures Inv(Exec(steps))
  {
    if steps != [] {
      RunKeepsInv(steps[..|steps| - 1]);
      StepKeepsInv(Exec(steps[..|steps| - 1]), steps[|steps| - 1]);
    }
  }

  /** A background attempt that had a valid cache and a recorded attempt to go by. */
  ghost predicate PacedAttempt(steps: seq<Step>, i: nat, trigger: Trigger) {
    && 0 < i < |Exec(steps).attempts|
    && Exec(steps).attempts[i].trigger == trigger
    && trigger != Manual && !Exec(steps).attempts[i].unpaced
  }

  ghost function Gap(steps: seq<Step>, i: nat): int
    requires 0 < i < |Exec(steps).attempts|
  {
    Exec(steps).attempts[i].wall - Exec(steps).attempts[i - 1].wall
  }

  /**
   Through any crashes and restarts, every background attempt is recorded at least 25 hours after the
   attempt before it, of whatever kind, unless its startup found no cache or no attempt time; in real
   time the gap is therefore more than 25 hours less one millisecond, and a full 25 hours when the
   timer was armed by a fetch that ended in the same process.
   */
  lemma BackgroundAttemptsArePaced(steps: seq<Step>, i: nat, trigger: Trigger)
    requires PacedAttempt(steps, i, trigger)
    ensures Truncated(Exec(steps).attempts[i].wall) - Truncated(Exec(steps).attempts[i - 1].wall) >= INTERVAL_MS
    ensures Gap(steps, i) > INTERVAL - MS
    ensures trigger == Timer(AfterFetch) ==> Gap(steps, i) >= INTERVAL
  {
    RunKeepsInv(steps);
    var earlier, later := Exec(steps).attempts[i - 1], Exec(steps).attempts[i];
    assert Paced(earlier, later);
    TruncationLaws(earlier.wall);
    TruncationLaws(later.wall);
  }

  lemma ExecSnoc(steps: seq<Step>, step: Step)
    ensures Exec(steps + [step]) == Next(Exec(steps), step)
  {
    assert (steps + [step])[..|steps|] == steps;
  }

  /** The first attempt a nanosecond before a full millisecond, then a crash. */
  lemma FirstAttempt() returns (steps: seq<Step>)
    ensures Exec(steps) == State(MS - 1, 0, Some(0), None, [Attempt(MS - 1, Startup, true)])
  {
    var a := [] + [Tick(MS - 1, 0)];
    var b := a + [Start(0, false, true)];
    steps := b + [Crash];
    ExecSnoc([], Tick(MS - 1, 0));
    ExecSnoc(a, Start(0, false, true));
    ExecSnoc(b, Crash);
  }

  /** Truncation costs something: a startup can fetch less than 25 hours after the last attempt. */
  lemma StartupCanFallShort() returns (steps: seq<Step>)
    ensures PacedAttempt(steps, 1, Startup) && Gap(steps, 1) == INTERVAL - MS + 1
  {
    var a := FirstAttempt();
    var b := a + [Tick(INTERVAL - MS + 1, 0)];
    steps := b + [Start(0, true, true)];
    ExecSnoc(a, Tick(INTERVAL - MS + 1, 0));
    ExecSnoc(b, Start(0, true, true));
    assert Truncated(INTERVAL) == INTERVAL_MS;
  }

  /** So can a timer that a startup armed. */
  lemma StartupTimerCanFallShort() returns (steps: seq<Step>)
    ensures PacedAttempt(steps, 1, Timer(AtStartup)) && Gap(steps, 1) == INTERVAL - MS + 1
  {
    var a := FirstAttempt();
    var b := a + [Tick(1, 0)];
    var c := b + [Start(0, true, true)];
    var d := c + [Tick(INTERVAL - MS, INTERVAL - MS)];
    steps := d + [TimerFires];
    ExecSnoc(a, Tick(1, 0));
    ExecSnoc(b, Start(0, true, true));
    assert Truncated(MS) == 1;
    assert Exec(c).process == Some(Waiting(Some(INTERVAL - MS), AtStartup));
    ExecSnoc(c, Tick(INTERVAL - MS, INTERVAL - MS));
    ExecSnoc(d, TimerFires);
  }

  ghost predicate FullGap(steps: seq<Step>, i: nat) {
    0 < i < |Exec(steps).attempts| ==> Gap(steps, i) >= INTERVAL
  }

  /**
   Which background attempts always keep a full 25 hours of real time: exactly those of a timer that a
   fetch armed.  A startup, or a timer armed at startup from the recorded milliseconds, need not.
   */
  lemma FullGapExactly(trigger: Trigger)
    requires trigger != Manual
    ensures (forall steps, i :: PacedAttempt(steps, i, trigger) ==> FullGap(steps, i))
            <==> trigger == Timer(AfterFetch)
  {
    match trigger
    case Startup =>
      var steps := StartupCanFallShort();
      assert !FullGap(steps, 1);
    case Timer(AtStartup) =>
      var steps := StartupTimerCanFallShort();
      assert !FullGap(steps, 1);
    case Timer(AfterFetch) =>
      forall steps, i | PacedAttempt(steps, i, trigger) ensures FullGap(steps, i) {
        BackgroundAttemptsArePaced(steps, i, trigger);
      }
  }

  // ----- When an attempt must come -----

  /** How old the last attempt is, in recorded milliseconds. */
  function RecordedAge(s: State): int
    requires s.attempts != []
  {
    Truncated(s.wall) - Truncated(s.attempts[|s.attempts| - 1].wall)
  }

  /**
   In every run a startup fetches at once if and only if its cache is not valid, the attempt time cannot be
   read or was never recorded, or the last attempt is 25 recorded hours old; otherwise it arms its timer for
   the moment it will be.
   */
  lemma StartFetchesExactly(steps: seq<Step>, monoAt: nat, cacheValid: bool, dbReadable: bool)
    requires Exec(steps).process.None?
    ensures var s, t := Exec(steps), Exec(steps + [Start(monoAt, cacheValid, dbReadable)]);
            var blind := !cacheValid || !dbReadable || s.attempts == [];
            if blind || RecordedAge(s) >= 25 * 60 * 60 * 1000
            then t.attempts == s.attempts + [Attempt(s.wall, Startup, blind)] && t.process == Some(Fetching)
            else
              && t.attempts == s.attempts
              && t.process == Some(Waiting(Some(monoAt + INTERVAL - RecordedAge(s) * MS), AtStartup))
  {
    var s := Exec(steps);
    RunKeepsInv(steps);
    ExecSnoc(steps, Start(monoAt, cacheValid, dbReadable));
    if s.attempts != [] { TruncatedMonotone(s.attempts[|s.attempts| - 1].wall, s.wall); }
  }

  /** A running process attempts exactly when its armed time has come, or when it is asked to. */
  lemma AttemptsAreExact(steps: seq<Step>, step: Step)
    requires !step.Start?
    ensures var s, t := Exec(steps), Exec(steps + [step]);
            var waiting := s.process.Some? && s.process.value.Waiting?;
            var due := waiting && s.process.value.retryAt.Some? && s.process.value.retryAt.value <= s.mono;
            t.attempts == s.attempts +
              if step.TimerFires? && due then [Attempt(s.wall, Timer(s.process.value.armed), false)]
              else if step.RefreshNow? && waiting then [Attempt(s.wall, Manual, false)]
              else []
  {
    ExecSnoc(steps, step);
  }

  /** Every attempt is in the database before its fetch, and the end of the fetch arms the next 25 hours on. */
  lemma AttemptsAreRecorded(steps: seq<Step>)
    ensures var s := Exec(steps);
            && (s.attempts != [] ==> s.db == Some(Truncated(s.attempts[|s.attempts| - 1].wall)))
            && (s.process == Some(Fetching) ==>
                  Exec(steps + [FetchEnds]).process == Some(Waiting(Some(s.mono + INTERVAL), AfterFetch)))
  {
    RunKeepsInv(steps);
    ExecSnoc(steps, FetchEnds);
  }

  /** Once a process has started it is fetching or has its next attempt armed, at most an interval away. */
  lemma {:induction false} NextAttemptIsAlwaysArmed(steps: seq<Step>)
    requires Exec(steps).process.Some?
    ensures var p := Exec(steps).process.value;
            p.Fetching? || (p.retryAt.Some? && p.retryAt.value <= Exec(steps).mono + INTERVAL)
  {
    RunKeepsInv(steps);
  }
}
