/**
 When a client's writer thread stops, what it never writes, and what its exit leaves behind; and what a
 producer reads from the counters and returns.
 */
module Writers {
  import opened Broadcast

  // ----- One step, one client -----

  /** The step is this client's writer's, and can be taken. */
  predicate OwnStep(s: State, step: Step, c: nat) { IsWriterStep(step) && step.c == c && WriterEnabled(s, step) }

  /** The message a `send` puts on client `c`'s queue, if the step is one. */
  function Arriving(s: State, step: Step, c: nat): seq<Message> {
    if step.Send? && ProducerEnabled(s, step) && s.producers[step.p].client == c && !s.clients[c].writer.Gone?
    then [s.producers[step.p].msg] else []
  }

  lemma ClientNext(s: State, step: Step, c: nat)
    requires c < |s.clients|
    ensures c < |Next(s, step).clients|
    ensures OwnStep(s, step, c) ==> Next(s, step).clients[c] == WriterEffect(s.clients[c], step)
    ensures !OwnStep(s, step, c) ==>
              && Next(s, step).clients[c].writer == s.clients[c].writer
              && Next(s, step).clients[c].written == s.clients[c].written
              && Next(s, step).clients[c].strays == s.clients[c].strays
              && Next(s, step).clients[c].queue == s.clients[c].queue + Arriving(s, step, c)
  {}

  lemma NewcomerIsNew(s: State, step: Step, c: nat)
    requires |s.clients| <= c < |Next(s, step).clients|
    ensures Next(s, step).clients[c] == NEW_CLIENT
  {}

  // ----- A stopping message is the last one written -----

  /** Nothing follows a stopping message on the socket, and it ends the writing. */
  ghost predicate StopIsLast(cl: Client) {
    forall i :: 0 <= i < |cl.written| && cl.written[i].stops ==> i == |cl.written| - 1 && !Running(cl.writer)
  }

  lemma WriterKeepsStop(s: State, step: Step, c: nat)
    requires c < |s.clients| && StopIsLast(s.clients[c]) && OwnStep(s, step, c)
    ensures StopIsLast(WriterEffect(s.clients[c], step))
    ensures !Running(s.clients[c].writer) ==>
              && !Running(WriterEffect(s.clients[c], step).writer)
              && WriterEffect(s.clients[c], step).written == s.clients[c].written
  {
    match step
    case WriteSocket(_, _) =>
    case SubGlobal(_) =>
    case _ =>
  }

  /** In every run, `Evicted` or `ShuttingDown` is the last thing a client's writer puts on its socket. */
  lemma {:induction false} NothingFollowsAStop(steps: seq<Step>, c: nat)
    requires c < |Exec(steps).clients|
    ensures StopIsLast(Exec(steps).clients[c])
  {
    if steps != [] {
      var before, step := steps[..|steps| - 1], steps[|steps| - 1];
      var s := Exec(before);
      if c < |s.clients| {
        NothingFollowsAStop(before, c);
        ClientNext(s, step, c);
        if OwnStep(s, step, c) { WriterKeepsStop(s, step, c); }
      } else {
        NewcomerIsNew(s, step, c);
      }
    }
  }

  /** A writer that has stopped writes nothing more: what is queued behind is drained or stray. */
  lemma {:induction false} StoppedWriterNeverWrites(steps: seq<Step>, k: nat, c: nat)
    requires k <= |steps| && c < |Exec(steps[..k]).clients| && !Running(Exec(steps[..k]).clients[c].writer)
    ensures c < |Exec(steps).clients|
    ensures Exec(steps).clients[c].written == Exec(steps[..k]).clients[c].written
    ensures !Running(Exec(steps).clients[c].writer)
    decreases |steps|
  {
    if k == |steps| {
      assert steps[..k] == steps;
    } else {
      var before, step := steps[..|steps| - 1], steps[|steps| - 1];
      assert before[..k] == steps[..k];
      StoppedWriterNeverWrites(before, k, c);
      NothingFollowsAStop(before, c);
      ClientNext(Exec(before), step, c);
      if OwnStep(Exec(before), step, c) { WriterKeepsStop(Exec(before), step, c); }
    }
  }

  // ----- A writer stops only for a reason -----

  /** The step ends the writing without a stopping message: a failed write, or all senders gone. */
  predicate Breaks(s: State, step: Step, c: nat) {
    OwnStep(s, step, c) && (step.Hangup? || (step.WriteSocket? && !step.ok))
  }

  ghost predicate BrokeAt(steps: seq<Step>, k: nat, c: nat) {
    k < |steps| && Breaks(Exec(steps[..k]), steps[k], c)
  }

  predicate WroteAStop(cl: Client) { cl.written != [] && cl.written[|cl.written| - 1].stops }

  lemma StepStopsForAReason(s: State, step: Step, c: nat)
    requires c < |s.clients| && OwnStep(s, step, c) && Running(s.clients[c].writer)
    requires !Running(WriterEffect(s.clients[c], step).writer)
    ensures Breaks(s, step, c) || WroteAStop(WriterEffect(s.clients[c], step))
  {
    match step
    case WriteSocket(_, _) =>
    case SubGlobal(_) =>
    case _ =>
  }

  /**
   In every run a client's writer is still going unless it wrote a stopping message, a write failed, or
   its senders all hung up: an ordinary message never stops it.
   */
  lemma {:induction false} WriterStopsForAReason(steps: seq<Step>, c: nat)
    requires c < |Exec(steps).clients| && !Running(Exec(steps).clients[c].writer)
    ensures WroteAStop(Exec(steps).clients[c]) || exists k: nat :: BrokeAt(steps, k, c)
  {
    var before, step := steps[..|steps| - 1], steps[|steps| - 1];
    var s := Exec(before);
    if c < |s.clients| {
      ClientNext(s, step, c);
      NothingFollowsAStop(before, c);
      if !Running(s.clients[c].writer) {
        WriterStopsForAReason(before, c);
        if OwnStep(s, step, c) { WriterKeepsStop(s, step, c); }
        if k: nat :| BrokeAt(before, k, c) {
          assert before[..k] == steps[..k];
          assert BrokeAt(steps, k, c);
        }
      } else {
        StepStopsForAReason(s, step, c);
        if Breaks(s, step, c) { assert BrokeAt(steps, |steps| - 1, c); }
      }
    } else {
      NewcomerIsNew(s, step, c);
    }
  }

  // ----- Stragglers come from the exit window alone -----

  /** The messages sent to client `c` while its writer was past its last drain pass. */
  ghost function SentInWindow(steps: seq<Step>, c: nat): seq<Message> {
    if steps == [] then []
    else
      var before, step := steps[..|steps| - 1], steps[|steps| - 1];
      var s := Exec(before);
      SentInWindow(before, c) + if c < |s.clients| && s.clients[c].writer.Leaving? then Arriving(s, step, c) else []
  }

  /** What a client in or past its exit window still holds. */
  function Remnant(cl: Client): seq<Message> { if cl.writer.Gone? then cl.strays else cl.queue }

  ghost predicate WindowOk(steps: seq<Step>, c: nat)
    requires c < |Exec(steps).clients|
  {
    var cl := Exec(steps).clients[c];
    if cl.writer.Leaving? || cl.writer.Gone? then Remnant(cl) == SentInWindow(steps, c)
    else SentInWindow(steps, c) == []
  }

  /**
   In every run the messages an exit leaves behind are exactly those sent between the writer's last drain
   pass and the drop of its receiver: the drain itself leaves nothing.
   */
  lemma {:induction false} StragglersAreFromTheWindow(steps: seq<Step>, c: nat)
    requires c < |Exec(steps).clients|
    ensures WindowOk(steps, c)
  {
    if steps != [] {
      var before, step := steps[..|steps| - 1], steps[|steps| - 1];
      var s := Exec(before);
      if c < |s.clients| {
        StragglersAreFromTheWindow(before, c);
        ClientNext(s, step, c);
        if OwnStep(s, step, c) { WindowStep(before, step, c); }
      } else {
        NewcomerIsNew(s, step, c);
        NothingSentBefore(steps, c);
      }
    }
  }

  lemma WindowStep(before: seq<Step>, step: Step, c: nat)
    requires c < |Exec(before).clients| && WindowOk(before, c) && OwnStep(Exec(before), step, c)
    ensures var cl := WriterEffect(Exec(before).clients[c], step);
            if cl.writer.Leaving? || cl.writer.Gone? then Remnant(cl) == SentInWindow(before, c)
            else SentInWindow(before, c) == []
  {
    match step
    case TryRecv(_) =>
    case DropReceiver(_) =>
    case _ =>
  }

  lemma {:induction false} NothingSentBefore(steps: seq<Step>, c: nat)
    requires steps != [] && |Exec(steps[..|steps| - 1]).clients| <= c
    ensures SentInWindow(steps, c) == []
  {
    var before := steps[..|steps| - 1];
    if before != [] {
      ClientsGrow(Exec(before[..|before| - 1]), before[|before| - 1]);
      NothingSentBefore(before, c);
    }
  }

  lemma ClientsGrow(s: State, step: Step)
    ensures |s.clients| <= |Next(s, step).clients|
  {}

  // ----- What a producer reads and returns -----

  /** Step `k` is the last add of this kind by `p`; what it left the counter at is what `p` goes by. */
  ghost predicate ReadAt(steps: seq<Step>, k: nat, p: nat) {
    && k < |steps|
    && Begins(Exec(steps[..k]), steps[k], p)
    && forall j :: k < j < |steps| ==> !Begins(Exec(steps[..j]), steps[j], p)
  }

  /** The step is a first add by `p`. */
  predicate Begins(s: State, step: Step, p: nat) { step.AddGlobal? && step.p == p && ProducerEnabled(s, step) }

  predicate Counting(pr: Producer) { pr.CountedGlobal? || pr.CountedBoth? }

  /** The total a producer compares with the budget is the daemon-wide counter as its own add left it. */
  lemma {:induction false} TotalIsAsAdded(steps: seq<Step>, p: nat) returns (k: nat)
    requires p < |Exec(steps).producers| && Counting(Exec(steps).producers[p])
    ensures ReadAt(steps, k, p)
    ensures Exec(steps).producers[p].total == Exec(steps[..k + 1]).global
    ensures Exec(steps).producers[p].msg == steps[k].m && Exec(steps).producers[p].client == steps[k].c
  {
    var n := |steps| - 1;
    var before := steps[..n];
    CountingNext(Exec(before), steps[n], p);
    if Begins(Exec(before), steps[n], p) {
      k := n;
      assert steps[..n + 1] == steps;
    } else {
      k := TotalIsAsAdded(before, p);
      assert before[..k] == steps[..k] && before[..k + 1] == steps[..k + 1];
      ReadAtExtends(steps, k, p);
    }
  }

  lemma ReadAtExtends(steps: seq<Step>, k: nat, p: nat)
    requires steps != [] && ReadAt(steps[..|steps| - 1], k, p)
    requires !Begins(Exec(steps[..|steps| - 1]), steps[|steps| - 1], p)
    ensures ReadAt(steps, k, p)
  {
    var before := steps[..|steps| - 1];
    assert before[..k] == steps[..k];
    forall j | k < j < |steps| ensures !Begins(Exec(steps[..j]), steps[j], p) {
      if j < |before| { assert before[..j] == steps[..j] && before[j] == steps[j]; }
    }
  }

  /** A producer in the middle of a send has just begun it, or goes by what it had. */
  lemma CountingNext(s: State, step: Step, p: nat)
    requires p < |Next(s, step).producers| && Counting(Next(s, step).producers[p])
    ensures var pr := Next(s, step).producers[p];
            if Begins(s, step, p)
            then pr.total == Next(s, step).global && pr.msg == step.m && pr.client == step.c
            else
              && p < |s.producers| && Counting(s.producers[p])
              && pr.total == s.producers[p].total
              && pr.msg == s.producers[p].msg && pr.client == s.producers[p].client
  {}

  /** The four results of an `enqueue`, each exactly under its own condition. */
  lemma EnqueueReturnsExactly(s: State, p: nat, limits: LagLimits)
    requires ProducerEnabled(s, Send(p))
    ensures var pr, outcome := s.producers[p], EnqueueOutcome(s, p, limits);
            var gone := s.clients[pr.client].writer.Gone?;
            && (outcome == Disconnected <==> gone)
            && (outcome == ClientOverLag <==> !gone && pr.mine > limits.perClientCap)
            && (outcome == GlobalOverBudget <==>
                  !gone && pr.mine <= limits.perClientCap && pr.total > limits.globalBudget)
            && (outcome == Delivered <==>
                  !gone && pr.mine <= limits.perClientCap && pr.total <= limits.globalBudget)
  {}
}
