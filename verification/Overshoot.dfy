/**
 How far a client's counter can pass its cap.

 The module documentation bounds the overshoot by one message.  Nothing in `enqueue` enforces that: a
 producer that goes on after its own `ClientOverLag` overshoots without limit.  If every producer
 stops until the counter is back under the cap, the overshoot is at most one message per producer,
 and that bound is reached.
 */
module Overshoot {
  import opened Arithmetic
  import opened Broadcast

  // ----- Producers that stop when told -----

  /** `p` was told `ClientOverLag` for `c`, and the counter has been above the cap ever since. */
  ghost predicate Stalled(steps: seq<Step>, p: nat, c: nat, limits: LagLimits) {
    steps != [] && OverCap(steps, c, limits) &&
    var before, step := steps[..|steps| - 1], steps[|steps| - 1];
    Stalled(before, p, c, limits) || (step == Send(p) && ReportsOverLag(Exec(before), step, c, limits))
  }

  /** The step starts a message for `c`. */
  predicate Starts(s: State, step: Step, c: nat) { step.AddGlobal? && step.c == c && ProducerEnabled(s, step) }

  /** Every message for `c` goes through `enqueue`, and no stalled producer starts one. */
  ghost predicate Disciplined(steps: seq<Step>, c: nat, limits: LagLimits) {
    steps == [] ||
    (var before, step := steps[..|steps| - 1], steps[|steps| - 1];
     Disciplined(before, c, limits)
     && (Starts(Exec(before), step, c) ==> step.checked && !Stalled(before, step.p, c, limits)))
  }

  /** The largest message `p` started for `c`. */
  ghost function Offer(steps: seq<Step>, p: nat, c: nat): nat {
    if steps == [] then 0
    else
      var before, step := steps[..|steps| - 1], steps[|steps| - 1];
      if Starts(Exec(before), step, c) && step.p == p then Max(Offer(before, p, c), step.m.size)
      else Offer(before, p, c)
  }

  ghost function OfferSum(steps: seq<Step>, c: nat, n: nat): nat {
    if n == 0 then 0 else OfferSum(steps, c, n - 1) + Offer(steps, n - 1, c)
  }

  // ----- What each producer added since the counter last was under the cap -----

  predicate WorksFor(s: State, p: nat, c: nat) {
    p < |s.producers| && !s.producers[p].Idle? && s.producers[p].client == c
  }

  /** What a step moves client `c`'s counter by, on account of producer `p`. */
  function Moved(s: State, step: Step, p: nat, c: nat): int {
    if step == AddClient(p) && Enabled(s, step) && WorksFor(s, p, c) then s.producers[p].msg.size
    else if step == UndoClient(p) && Enabled(s, step) && WorksFor(s, p, c) then 0 - s.producers[p].msg.size
    else 0
  }

  ghost function Added(steps: seq<Step>, p: nat, c: nat, limits: LagLimits): int {
    if steps == [] || !OverCap(steps, c, limits) then 0
    else Added(steps[..|steps| - 1], p, c, limits) + Moved(Exec(steps[..|steps| - 1]), steps[|steps| - 1], p, c)
  }

  ghost function AddedSum(steps: seq<Step>, c: nat, limits: LagLimits, n: nat): int {
    if n == 0 then 0 else AddedSum(steps, c, limits, n - 1) + Added(steps, n - 1, c, limits)
  }

  function MovedSum(s: State, step: Step, c: nat, n: nat): int {
    if n == 0 then 0 else MovedSum(s, step, c, n - 1) + Moved(s, step, n - 1, c)
  }

  lemma {:induction false} MovedSumIs(s: State, step: Step, c: nat, n: nat)
    ensures MovedSum(s, step, c, n) ==
            if (step.AddClient? || step.UndoClient?) && step.p < n then Moved(s, step, step.p, c) else 0
  {
    if n > 0 { MovedSumIs(s, step, c, n - 1); }
  }

  lemma {:induction false} AddedSumNext(steps: seq<Step>, c: nat, limits: LagLimits, n: nat)
    requires steps != [] && OverCap(steps, c, limits)
    ensures AddedSum(steps, c, limits, n) ==
            AddedSum(steps[..|steps| - 1], c, limits, n)
            + MovedSum(Exec(steps[..|steps| - 1]), steps[|steps| - 1], c, n)
  {
    if n > 0 { AddedSumNext(steps, c, limits, n - 1); }
  }

  lemma {:induction false} AddedSumZero(steps: seq<Step>, c: nat, limits: LagLimits, n: nat)
    requires !OverCap(steps, c, limits)
    ensures AddedSum(steps, c, limits, n) == 0
  {
    if n > 0 { AddedSumZero(steps, c, limits, n - 1); }
  }

  /** One step moves a counter by what its producer moved, or down. */
  lemma CounterMoves(s: State, step: Step, c: nat)
    requires c < |Next(s, step).clients|
    ensures var now := Next(s, step).clients[c].counter;
            var moved := if step.AddClient? || step.UndoClient? then Moved(s, step, step.p, c) else 0;
            && (c < |s.clients| ==> now <= s.clients[c].counter + moved)
            && (c >= |s.clients| ==> now == 0)
            && (moved != 0 ==> step.p < |s.producers|)
  {}

  lemma ProducersGrow(s: State, step: Step)
    ensures |s.producers| <= |Next(s, step).producers|
  {}

  /** Above the cap, the excess is at most what the producers added since the counter crossed it. */
  lemma {:induction false} ExcessIsAdded(steps: seq<Step>, c: nat, limits: LagLimits, n: nat)
    requires OverCap(steps, c, limits) && |Exec(steps).producers| <= n
    ensures Exec(steps).clients[c].counter <= limits.perClientCap + AddedSum(steps, c, limits, n)
  {
    var before, step := steps[..|steps| - 1], steps[|steps| - 1];
    ProducersGrow(Exec(before), step);
    CounterMoves(Exec(before), step, c);
    AddedSumNext(steps, c, limits, n);
    MovedSumIs(Exec(before), step, c, n);
    if OverCap(before, c, limits) {
      ExcessIsAdded(before, c, limits, n);
    } else {
      AddedSumZero(before, c, limits, n);
    }
  }

  // ----- A disciplined producer adds at most one message -----

  /** What producer `p` has added, by where it stands. */
  ghost predicate Modest(steps: seq<Step>, p: nat, c: nat, limits: LagLimits) {
    var s, a, o := Exec(steps), Added(steps, p, c, limits), Offer(steps, p, c);
    && a <= o
    && (p >= |s.producers| ==> a == 0)
    && (WorksFor(s, p, c) ==> s.producers[p].msg.size <= o && Standing(s.producers[p], a, limits))
    && (WorksFor(s, p, c) && s.producers[p].CountedGlobal? ==> !Stalled(steps, p, c, limits))
    && (p < |s.producers| && !WorksFor(s, p, c) ==> a <= 0 || Stalled(steps, p, c, limits))
  }

  predicate Standing(pr: Producer, a: int, limits: LagLimits) {
    match pr
    case Idle => true
    case CountedGlobal(_, _, checked, _) => a <= 0 && checked
    case CountedBoth(_, m, checked, _, mine) => a <= m.size && checked && (a <= 0 || mine > limits.perClientCap)
    case Refused(_, m) => a <= m.size
    case UndoneClient(_, _) => a <= 0
  }

  lemma OwnStepIsModest(steps: seq<Step>, p: nat, c: nat, limits: LagLimits)
    requires steps != [] && Modest(steps[..|steps| - 1], p, c, limits) && Disciplined(steps, c, limits)
    requires IsProducerStep(steps[|steps| - 1]) && steps[|steps| - 1].p == p
    requires Enabled(Exec(steps[..|steps| - 1]), steps[|steps| - 1])
    ensures Modest(steps, p, c, limits)
  {
    var before, step := steps[..|steps| - 1], steps[|steps| - 1];
    var s := Exec(before);
    match step {
      case AddGlobal(_, _, _, _) =>
      case AddClient(_) =>
      case Send(_) =>
      case UndoClient(_) =>
      case UndoGlobal(_) =>
    }
  }

  lemma OtherStepIsModest(steps: seq<Step>, p: nat, c: nat, limits: LagLimits)
    requires steps != [] && Modest(steps[..|steps| - 1], p, c, limits)
    requires var s, step := Exec(steps[..|steps| - 1]), steps[|steps| - 1];
             !Enabled(s, step) || !IsProducerStep(step) || step.p != p
    ensures Modest(steps, p, c, limits)
  {}

  lemma {:induction false} DisciplinedIsModest(steps: seq<Step>, p: nat, c: nat, limits: LagLimits)
    requires Disciplined(steps, c, limits)
    ensures Modest(steps, p, c, limits)
  {
    if steps != [] {
      var before, step := steps[..|steps| - 1], steps[|steps| - 1];
      DisciplinedIsModest(before, p, c, limits);
      if Enabled(Exec(before), step) && IsProducerStep(step) && step.p == p {
        OwnStepIsModest(steps, p, c, limits);
      } else {
        OtherStepIsModest(steps, p, c, limits);
      }
    }
  }

  lemma {:induction false} AddedIsOffered(steps: seq<Step>, c: nat, limits: LagLimits, n: nat)
    requires Disciplined(steps, c, limits)
    ensures AddedSum(steps, c, limits, n) <= OfferSum(steps, c, n)
  {
    if n > 0 {
      AddedIsOffered(steps, c, limits, n - 1);
      DisciplinedIsModest(steps, n - 1, c, limits);
    }
  }

  /**
   In every interleaving, if no producer starts a message for a client after its own `ClientOverLag`
   until the counter is back under the cap, the counter passes the cap by at most one message per
   producer, whatever the writers do.
   */
  lemma OvershootIsOneMessagePerProducer(steps: seq<Step>, c: nat, limits: LagLimits)
    requires Disciplined(steps, c, limits) && c < |Exec(steps).clients|
    ensures Exec(steps).clients[c].counter <= limits.perClientCap + OfferSum(steps, c, |Exec(steps).producers|)
  {
    var n := |Exec(steps).producers|;
    if OverCap(steps, c, limits) {
      ExcessIsAdded(steps, c, limits, n);
      AddedIsOffered(steps, c, limits, n);
    }
  }

  // ----- The bound is reached -----

  /** Every message started for `c` is at most `size` long. */
  ghost predicate Sized(steps: seq<Step>, c: nat, size: nat) {
    forall i :: 0 <= i < |steps| && steps[i].AddGlobal? && steps[i].c == c ==> steps[i].m.size <= size
  }

  /** A disciplined run of at most `n` producers with messages of at most `size` for `c`. */
  ghost predicate Within(steps: seq<Step>, c: nat, n: nat, size: nat, limits: LagLimits) {
    && c < |Exec(steps).clients|
    && |Exec(steps).producers| <= n
    && Sized(steps, c, size)
    && Disciplined(steps, c, limits)
  }

  lemma {:induction false} OfferIsSized(steps: seq<Step>, p: nat, c: nat, size: nat)
    requires Sized(steps, c, size)
    ensures Offer(steps, p, c) <= size
  {
    if steps != [] { OfferIsSized(steps[..|steps| - 1], p, c, size); }
  }

  lemma {:induction false} OfferSumIsSized(steps: seq<Step>, c: nat, n: nat, size: nat)
    requires Sized(steps, c, size)
    ensures OfferSum(steps, c, n) <= n * size
  {
    if n > 0 {
      OfferSumIsSized(steps, c, n - 1, size);
      OfferIsSized(steps, n - 1, c, size);
      assert n * size == (n - 1) * size + size;
    }
  }

  /** One client, its writer waiting, all `n` producers idle. */
  predicate AtRest(s: State, n: nat) {
    && |s.clients| == 1 && s.clients[0].writer == Waiting
    && |s.producers| == n && forall p :: 0 <= p < n ==> s.producers[p] == Idle
  }

  predicate Ready(s: State, n: nat, counter: int) { AtRest(s, n) && s.clients[0].counter == counter }

  function Round(steps: seq<Step>, p: nat, m: Message): seq<Step> {
    steps + [AddGlobal(p, 0, m, true)] + [AddClient(p)] + [Send(p)]
  }

  lemma RoundStates(steps: seq<Step>, p: nat, m: Message, n: nat, counter: int)
    requires Ready(Exec(steps), n, counter) && p < n
    ensures var a := steps + [AddGlobal(p, 0, m, true)];
            var b := a + [AddClient(p)];
            && Exec(a).clients == Exec(steps).clients && ProducerEnabled(Exec(steps), AddGlobal(p, 0, m, true))
            && |Exec(b).clients| == 1 && Exec(b).clients[0].counter == counter + m.size
            && Ready(Exec(Round(steps, p, m)), n, counter + m.size)
  {
    var a := steps + [AddGlobal(p, 0, m, true)];
    var b := a + [AddClient(p)];
    ExecSnoc(steps, AddGlobal(p, 0, m, true));
    ExecSnoc(a, AddClient(p));
    ExecSnoc(b, Send(p));
    ThreeSteps(Exec(steps), p, m, n, counter);
  }

  lemma ThreeSteps(s: State, p: nat, m: Message, n: nat, counter: int)
    requires Ready(s, n, counter) && p < n
    ensures var a := Next(s, AddGlobal(p, 0, m, true));
            var b := Next(a, AddClient(p));
            && a.clients == s.clients && ProducerEnabled(s, AddGlobal(p, 0, m, true))
            && |b.clients| == 1 && b.clients[0].counter == counter + m.size
            && Ready(Next(b, Send(p)), n, counter + m.size)
  {
    var a := Next(s, AddGlobal(p, 0, m, true));
    assert a.producers == s.producers[p := CountedGlobal(0, m, true, s.global + m.size)];
    assert Next(a, AddClient(p)).producers[p].CountedBoth?;
  }

  lemma ExecSnoc(steps: seq<Step>, step: Step)
    ensures Exec(steps + [step]) == Next(Exec(steps), step)
  {
    assert (steps + [step])[..|steps|] == steps;
  }

  lemma StalledSnoc(steps: seq<Step>, step: Step, q: nat, limits: LagLimits)
    ensures Stalled(steps + [step], q, 0, limits) ==> OverCap(steps + [step], 0, limits)
    ensures Stalled(steps + [step], q, 0, limits) && step != Send(q) ==> Stalled(steps, q, 0, limits)
    ensures Disciplined(steps + [step], 0, limits) <==>
            && Disciplined(steps, 0, limits)
            && (Starts(Exec(steps), step, 0) ==> step.checked && !Stalled(steps, step.p, 0, limits))
  {
    assert (steps + [step])[..|steps|] == steps;
  }

  /** A round by a producer that is not stalled keeps the discipline and stalls nobody else. */
  lemma RoundIsDisciplined(steps: seq<Step>, p: nat, m: Message, n: nat, counter: int, limits: LagLimits, q: nat)
    requires Ready(Exec(steps), n, counter) && p < n
    requires Disciplined(steps, 0, limits) && !Stalled(steps, p, 0, limits)
    ensures Disciplined(Round(steps, p, m), 0, limits)
    ensures counter + m.size <= limits.perClientCap ==> !Stalled(Round(steps, p, m), q, 0, limits)
    ensures q != p && !Stalled(steps, q, 0, limits) ==> !Stalled(Round(steps, p, m), q, 0, limits)
  {
    var a := steps + [AddGlobal(p, 0, m, true)];
    var b := a + [AddClient(p)];
    RoundStates(steps, p, m, n, counter);
    StalledSnoc(steps, AddGlobal(p, 0, m, true), q, limits);
    StalledSnoc(a, AddClient(p), q, limits);
    StalledSnoc(b, Send(p), q, limits);
  }

  /** A disciplined run in which no producer from `first` on is stalled. */
  ghost predicate Calm(steps: seq<Step>, first: nat, limits: LagLimits) {
    Disciplined(steps, 0, limits) && forall q :: q >= first ==> !Stalled(steps, q, 0, limits)
  }

  lemma RoundKeepsCalm(steps: seq<Step>, p: nat, m: Message, n: nat, counter: int, limits: LagLimits)
    requires Ready(Exec(steps), n, counter) && p < n && Calm(steps, p, limits)
    ensures Calm(Round(steps, p, m), p + 1, limits)
    ensures counter + m.size <= limits.perClientCap ==> Calm(Round(steps, p, m), 0, limits)
  {
    RoundIsDisciplined(steps, p, m, n, counter, limits, p);
    forall q | q >= p + 1 ensures !Stalled(Round(steps, p, m), q, 0, limits) {
      RoundIsDisciplined(steps, p, m, n, counter, limits, q);
    }
    if counter + m.size <= limits.perClientCap {
      forall q | q >= 0 ensures !Stalled(Round(steps, p, m), q, 0, limits) {
        RoundIsDisciplined(steps, p, m, n, counter, limits, q);
      }
    }
  }

  lemma SizedSnoc(steps: seq<Step>, p: nat, m: Message, size: nat)
    requires Sized(steps, 0, size) && m.size <= size
    ensures Sized(Round(steps, p, m), 0, size)
  {
    var r := Round(steps, p, m);
    forall i | 0 <= i < |r| && r[i].AddGlobal? && r[i].c == 0
      ensures r[i].m.size <= size
    {
      if i < |steps| { assert r[i] == steps[i]; }
    }
  }

  function Crew(n: nat): seq<Step> { if n == 0 then [Connect] else Crew(n - 1) + [Spawn] }

  lemma SpawnKeepsReady(s: State, n: nat)
    requires Ready(s, n, 0)
    ensures Ready(Next(s, Spawn), n + 1, 0)
  {
    assert Next(s, Spawn).producers == s.producers + [Idle];
  }

  lemma {:induction false} CrewIsReady(n: nat)
    ensures Ready(Exec(Crew(n)), n, 0)
  {
    if n == 0 {
      assert [] + [Connect] == [Connect];
      ExecSnoc([], Connect);
      assert Next(INIT, Connect) == State(0, [NEW_CLIENT], []);
    } else {
      CrewIsReady(n - 1);
      ExecSnoc(Crew(n - 1), Spawn);
      SpawnKeepsReady(Exec(Crew(n - 1)), n - 1);
    }
  }

  lemma {:induction false} CrewIsCalm(n: nat, limits: LagLimits)
    ensures Calm(Crew(n), 0, limits)
  {
    CrewIsReady(n);
    assert !OverCap(Crew(n), 0, limits);
    if n == 0 {
      assert [] + [Connect] == [Connect];
      StalledSnoc([], Connect, 0, limits);
    } else {
      CrewIsCalm(n - 1, limits);
      StalledSnoc(Crew(n - 1), Spawn, 0, limits);
    }
  }

  const UNIT := Message(0, 1, false)

  /** `n` producers, of which the first has queued `k` messages of one byte. */
  function Filled(n: nat, k: nat): seq<Step> { if k == 0 then Crew(n) else Round(Filled(n, k - 1), 0, UNIT) }

  lemma {:induction false} FillIsReady(n: nat, k: nat)
    requires n > 0
    ensures Ready(Exec(Filled(n, k)), n, k) && Sized(Filled(n, k), 0, 1)
  {
    if k == 0 {
      CrewIsReady(n);
      CrewStartsNothing(n);
    } else {
      FillIsReady(n, k - 1);
      RoundStates(Filled(n, k - 1), 0, UNIT, n, k - 1);
      SizedSnoc(Filled(n, k - 1), 0, UNIT, 1);
    }
  }

  lemma {:induction false} FillIsCalm(n: nat, k: nat, limits: LagLimits)
    requires n > 0 && k <= limits.perClientCap
    ensures Calm(Filled(n, k), 0, limits)
  {
    if k == 0 {
      CrewIsCalm(n, limits);
    } else {
      FillIsCalm(n, k - 1, limits);
      FillIsReady(n, k - 1);
      RoundKeepsCalm(Filled(n, k - 1), 0, UNIT, n, k - 1, limits);
    }
  }

  /** From a counter exactly at the cap, each of the first `j` producers sends one message. */
  function Surge(n: nat, j: nat, m: Message, cap: nat): seq<Step> {
    if j == 0 then Filled(n, cap) else Round(Surge(n, j - 1, m, cap), j - 1, m)
  }

  lemma OneMore(j: nat, x: nat)
    requires j > 0
    ensures (j - 1) * x + x == j * x
  {}

  lemma {:induction false} SurgeIsReady(n: nat, j: nat, m: Message, cap: nat)
    requires 0 < n && j <= n && m.size >= 1
    ensures Ready(Exec(Surge(n, j, m, cap)), n, cap + j * m.size) && Sized(Surge(n, j, m, cap), 0, m.size)
  {
    if j == 0 {
      FillIsReady(n, cap);
    } else {
      var before := Surge(n, j - 1, m, cap);
      SurgeIsReady(n, j - 1, m, cap);
      OneMore(j, m.size);
      RoundStates(before, j - 1, m, n, cap + (j - 1) * m.size);
      SizedSnoc(before, j - 1, m, m.size);
    }
  }

  lemma SurgeStep(steps: seq<Step>, p: nat, m: Message, n: nat, limits: LagLimits)
    requires AtRest(Exec(steps), n) && p < n && Calm(steps, p, limits)
    ensures Calm(Round(steps, p, m), p + 1, limits)
  {
    RoundKeepsCalm(steps, p, m, n, Exec(steps).clients[0].counter, limits);
  }

  lemma {:induction false} SurgeIsCalm(n: nat, j: nat, m: Message, limits: LagLimits)
    requires 0 < n && j <= n && m.size >= 1
    ensures Calm(Surge(n, j, m, limits.perClientCap), j, limits)
  {
    var cap := limits.perClientCap;
    if j == 0 {
      FillIsCalm(n, cap, limits);
    } else {
      var before := Surge(n, j - 1, m, cap);
      SurgeIsCalm(n, j - 1, m, limits);
      assert AtRest(Exec(before), n) by { SurgeIsReady(n, j - 1, m, cap); }
      SurgeStep(before, j - 1, m, n, limits);
    }
  }

  lemma WithinIsBounded(steps: seq<Step>, c: nat, n: nat, size: nat, limits: LagLimits)
    requires Within(steps, c, n, size, limits)
    ensures Exec(steps).clients[c].counter <= limits.perClientCap + n * size
  {
    var k := |Exec(steps).producers|;
    OvershootIsOneMessagePerProducer(steps, c, limits);
    OfferSumIsSized(steps, c, k, size);
    Scale(size, k, n);
  }

  ghost predicate StaysBelow(steps: seq<Step>, c: nat, bound: int) {
    c < |Exec(steps).clients| ==> Exec(steps).clients[c].counter <= bound
  }

  /**
   The documented bound, exactly: disciplined runs keep a counter within `k` messages of its cap if
   and only if at most `k` producers serve the client.  One message is the bound for one producer.
   */
  lemma OvershootBoundIsProducerCount(n: nat, k: nat, size: nat, limits: LagLimits)
    requires size >= 1
    ensures (forall steps, c :: Within(steps, c, n, size, limits) ==>
               StaysBelow(steps, c, limits.perClientCap + k * size)) <==> n <= k
  {
    if n <= k {
      Scale(size, n, k);
      forall steps, c | Within(steps, c, n, size, limits)
        ensures StaysBelow(steps, c, limits.perClientCap + k * size)
      {
        WithinIsBounded(steps, c, n, size, limits);
      }
    } else {
      var m := Message(0, size, false);
      var steps := Surge(n, n, m, limits.perClientCap);
      SurgeIsReady(n, n, m, limits.perClientCap);
      SurgeIsCalm(n, n, m, limits);
      assert Within(steps, 0, n, size, limits);
      Scale(size, k + 1, n);
      assert (k + 1) * size == k * size + size;
      assert !StaysBelow(steps, 0, limits.perClientCap + k * size);
    }
  }

  lemma {:induction false} FillIsChecked(n: nat, k: nat)
    ensures AllChecked(Filled(n, k), 0)
  {
    if k > 0 {
      FillIsChecked(n, k - 1);
      var before, r := Filled(n, k - 1), Filled(n, k);
      forall i | 0 <= i < |r| && r[i].AddGlobal? && r[i].c == 0 ensures r[i].checked {
        if i < |before| { assert r[i] == before[i]; }
      }
    } else {
      CrewStartsNothing(n);
    }
  }

  lemma {:induction false} CrewStartsNothing(n: nat)
    ensures forall i :: 0 <= i < |Crew(n)| ==> !Crew(n)[i].AddGlobal?
  {
    if n > 0 { CrewStartsNothing(n - 1); }
  }

  /**
   Without the discipline there is no bound at all: for every cap and every excess, one producer that
   uses `enqueue` alone, with messages of one byte, passes the cap by more while its client lives.
   */
  lemma OvershootIsUnbounded(limits: LagLimits, excess: nat) returns (steps: seq<Step>)
    ensures AllChecked(steps, 0) && Sized(steps, 0, 1) && |Exec(steps).producers| == 1
    ensures |Exec(steps).clients| == 1 && !Exec(steps).clients[0].writer.Gone?
    ensures Exec(steps).clients[0].counter > limits.perClientCap + excess
  {
    steps := Filled(1, limits.perClientCap + excess + 1);
    FillIsReady(1, limits.perClientCap + excess + 1);
    FillIsChecked(1, limits.perClientCap + excess + 1);
  }
}
