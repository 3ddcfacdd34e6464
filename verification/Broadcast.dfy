/**
 The daemon's lossless broadcast with byte accounting, as a concurrent protocol.

 Every atomic operation is one step: a producer's `fetch_add` on the daemon-wide counter, its
 `fetch_add` on the client's counter, its `send`, and the two `fetch_sub`s that undo a refused
 send; a writer thread's `recv`, its socket write, its two `fetch_sub`s, its closing drain and
 the drop of its receiver.  A run is any interleaving of any number of producers and clients.
 */
module Broadcast {
  import opened Sums

  /** `stops` marks `Evicted` and `ShuttingDown`, after which the writer closes the socket. */
  datatype Message = Message(body: nat, size: nat, stops: bool)

  datatype Producer =
    | Idle
    | CountedGlobal(client: nat, msg: Message, checked: bool, total: int)
    | CountedBoth(client: nat, msg: Message, checked: bool, total: int, mine: int)
    | Refused(client: nat, msg: Message)
    | UndoneClient(client: nat, msg: Message)

  datatype Writer =
    | Waiting
    | Holding(msg: Message)
    | Handled(msg: Message, last: bool)
    | Settled(msg: Message, last: bool)
    | Draining
    | DrainHolding(msg: Message)
    | DrainSettled(msg: Message)
    | Leaving
    | Gone

  /**
   `accepted`, `consumed` and `written` are histories: the messages whose `send` succeeded, the
   messages taken off the queue, and the messages put on the socket.  `strays` are the messages
   still queued when the receiver is dropped.
   */
  datatype Client = Client(
    counter: int,
    queue: seq<Message>,
    writer: Writer,
    accepted: seq<Message>,
    consumed: seq<Message>,
    written: seq<Message>,
    strays: seq<Message>)

  datatype State = State(global: int, clients: seq<Client>, producers: seq<Producer>)

  datatype Step =
    | Connect
    | Spawn
    | AddGlobal(p: nat, c: nat, m: Message, checked: bool)
    | AddClient(p: nat)
    | Send(p: nat)
    | UndoClient(p: nat)
    | UndoGlobal(p: nat)
    | Recv(c: nat)
    | WriteSocket(c: nat, ok: bool)
    | SubClient(c: nat)
    | SubGlobal(c: nat)
    | Hangup(c: nat)
    | TryRecv(c: nat)
    | DropReceiver(c: nat)

  datatype LagLimits = LagLimits(perClientCap: nat, globalBudget: nat)

  datatype Outcome = Delivered | Disconnected | ClientOverLag | GlobalOverBudget

  const NEW_CLIENT := Client(0, [], Waiting, [], [], [], [])

  const INIT := State(0, [], [])

  // ----- What one step does -----

  predicate IsProducerStep(step: Step) {
    step.AddGlobal? || step.AddClient? || step.Send? || step.UndoClient? || step.UndoGlobal?
  }

  predicate IsWriterStep(step: Step) {
    step.Recv? || step.WriteSocket? || step.SubClient? || step.SubGlobal? ||
    step.Hangup? || step.TryRecv? || step.DropReceiver?
  }

  predicate ProducerEnabled(s: State, step: Step)
    requires IsProducerStep(step)
  {
    && step.p < |s.producers|
    && (s.producers[step.p].Idle? || s.producers[step.p].client < |s.clients|)
    && match step
       case AddGlobal(p, c, m, checked) => s.producers[p].Idle? && c < |s.clients|
       case AddClient(p) => s.producers[p].CountedGlobal?
       case Send(p) => s.producers[p].CountedBoth?
       case UndoClient(p) => s.producers[p].Refused?
       case UndoGlobal(p) => s.producers[p].UndoneClient?
  }

  predicate WriterEnabled(s: State, step: Step)
    requires IsWriterStep(step)
  {
    && step.c < |s.clients|
    && var cl := s.clients[step.c];
       match step
       case Recv(_) => cl.writer.Waiting? && cl.queue != []
       case WriteSocket(_, _) => cl.writer.Holding?
       case SubClient(_) => cl.writer.Handled? || cl.writer.DrainHolding?
       case SubGlobal(_) => cl.writer.Settled? || cl.writer.DrainSettled?
       case Hangup(_) => cl.writer.Waiting? && cl.queue == []
       case TryRecv(_) => cl.writer.Draining?
       case DropReceiver(_) => cl.writer.Leaving?
  }

  predicate Enabled(s: State, step: Step) {
    if IsProducerStep(step) then ProducerEnabled(s, step)
    else if IsWriterStep(step) then WriterEnabled(s, step)
    else true
  }

  /** The client after a writer step on it. */
  function WriterEffect(cl: Client, step: Step): Client
    requires IsWriterStep(step)
    requires step.Recv? ==> cl.queue != []
    requires step.WriteSocket? ==> cl.writer.Holding?
    requires step.SubClient? ==> cl.writer.Handled? || cl.writer.DrainHolding?
    requires step.SubGlobal? ==> cl.writer.Settled? || cl.writer.DrainSettled?
  {
    match step
    case Recv(_) =>
      cl.(queue := cl.queue[1..], consumed := cl.consumed + [cl.queue[0]], writer := Holding(cl.queue[0]))
    case WriteSocket(_, ok) =>
      var m := cl.writer.msg;
      cl.(written := if ok then cl.written + [m] else cl.written, writer := Handled(m, !ok || m.stops))
    case SubClient(_) =>
      var m := cl.writer.msg;
      cl.(counter := cl.counter - m.size,
          writer := if cl.writer.Handled? then Settled(m, cl.writer.last) else DrainSettled(m))
    case SubGlobal(_) =>
      cl.(writer := if cl.writer.Settled? && !cl.writer.last then Waiting else Draining)
    case Hangup(_) => cl.(writer := Draining)
    case TryRecv(_) =>
      if cl.queue == [] then cl.(writer := Leaving)
      else cl.(queue := cl.queue[1..], consumed := cl.consumed + [cl.queue[0]], writer := DrainHolding(cl.queue[0]))
    case DropReceiver(_) =>
      cl.(queue := [], strays := cl.queue, writer := Gone)
  }

  /** The producer after its step, given whether the receiver is still there. */
  function ProducerEffect(s: State, step: Step): Producer
    requires IsProducerStep(step) && ProducerEnabled(s, step)
  {
    var pr := s.producers[step.p];
    match step
    case AddGlobal(_, c, m, checked) => CountedGlobal(c, m, checked, s.global + m.size)
    case AddClient(_) =>
      CountedBoth(pr.client, pr.msg, pr.checked, pr.total, s.clients[pr.client].counter + pr.msg.size)
    case Send(_) => if s.clients[pr.client].writer.Gone? then Refused(pr.client, pr.msg) else Idle
    case UndoClient(_) => UndoneClient(pr.client, pr.msg)
    case UndoGlobal(_) => Idle
  }

  /** The client a producer step touches, after it. */
  function ProducerClientEffect(s: State, step: Step): Client
    requires IsProducerStep(step) && ProducerEnabled(s, step) && !step.AddGlobal?
  {
    var pr := s.producers[step.p];
    var cl := s.clients[pr.client];
    match step
    case AddClient(_) => cl.(counter := cl.counter + pr.msg.size)
    case Send(_) =>
      if cl.writer.Gone? then cl
      else cl.(queue := cl.queue + [pr.msg], accepted := cl.accepted + [pr.msg])
    case UndoClient(_) => cl.(counter := cl.counter - pr.msg.size)
    case UndoGlobal(_) => cl
  }

  function GlobalEffect(s: State, step: Step): int
    requires Enabled(s, step)
  {
    match step
    case AddGlobal(_, _, m, _) => s.global + m.size
    case UndoGlobal(p) => s.global - s.producers[p].msg.size
    case SubGlobal(c) => s.global - s.clients[c].writer.msg.size
    case _ => s.global
  }

  /** One atomic step; a step that is not enabled leaves the state alone. */
  function Next(s: State, step: Step): State {
    if !Enabled(s, step) then s
    else if IsProducerStep(step) then
      State(GlobalEffect(s, step),
            if step.AddGlobal? then s.clients
            else s.clients[s.producers[step.p].client := ProducerClientEffect(s, step)],
            s.producers[step.p := ProducerEffect(s, step)])
    else if IsWriterStep(step) then
      State(GlobalEffect(s, step), s.clients[step.c := WriterEffect(s.clients[step.c], step)], s.producers)
    else if step.Connect? then s.(clients := s.clients + [NEW_CLIENT])
    else s.(producers := s.producers + [Idle])
  }

  function Exec(steps: seq<Step>): State {
    if steps == [] then INIT
    else Next(Exec(steps[..|steps| - 1]), steps[|steps| - 1])
  }

  /** What `enqueue` returns when the producer's `send` step completes it. */
  function EnqueueOutcome(s: State, p: nat, limits: LagLimits): Outcome
    requires ProducerEnabled(s, Send(p))
  {
    var pr := s.producers[p];
    if s.clients[pr.client].writer.Gone? then Disconnected
    else if pr.mine > limits.perClientCap then ClientOverLag
    else if pr.total > limits.globalBudget then GlobalOverBudget
    else Delivered
  }

  // ----- Conservation of bytes -----

  function Size(m: Message): int { m.size }

  function Bytes(q: seq<Message>): int { Sum(q, Size) }

  /** Bytes a producer has added to the daemon-wide counter and not yet handed over or undone. */
  function HeldGlobal(pr: Producer): int { if pr.Idle? then 0 else pr.msg.size }

  /** Bytes a producer has added to client `c`'s counter and not yet handed over or undone. */
  function HeldFor(c: nat): Producer -> int {
    (pr: Producer) => if (pr.CountedBoth? || pr.Refused?) && pr.client == c then pr.msg.size else 0
  }

  /** Bytes of the message in the writer's hands still counted in the daemon-wide total. */
  function InHandGlobal(w: Writer): int {
    match w
    case Holding(m) => m.size
    case Handled(m, _) => m.size
    case Settled(m, _) => m.size
    case DrainHolding(m) => m.size
    case DrainSettled(m) => m.size
    case _ => 0
  }

  /** Bytes of the message in the writer's hands still counted in the client's counter. */
  function InHandClient(w: Writer): int {
    match w
    case Holding(m) => m.size
    case Handled(m, _) => m.size
    case DrainHolding(m) => m.size
    case _ => 0
  }

  function GlobalLoad(cl: Client): int { Bytes(cl.queue) + Bytes(cl.strays) + InHandGlobal(cl.writer) }

  function ClientLoad(cl: Client): int { Bytes(cl.queue) + Bytes(cl.strays) + InHandClient(cl.writer) }

  ghost predicate GlobalBalanced(s: State) {
    s.global == Sum(s.clients, GlobalLoad) + Sum(s.producers, HeldGlobal)
  }

  ghost predicate ClientBalanced(s: State, c: nat)
    requires c < |s.clients|
  {
    s.clients[c].counter == ClientLoad(s.clients[c]) + Sum(s.producers, HeldFor(c))
  }

  ghost predicate RefsValid(s: State) {
    forall p :: 0 <= p < |s.producers| && !s.producers[p].Idle? ==> s.producers[p].client < |s.clients|
  }

  ghost predicate Balanced(s: State) {
    && RefsValid(s)
    && GlobalBalanced(s)
    && forall c :: 0 <= c < |s.clients| ==> ClientBalanced(s, c)
  }

  lemma BytesHead(q: seq<Message>)
    requires q != []
    ensures Bytes(q) == q[0].size + Bytes(q[1..])
  {
  }

  lemma BytesSnoc(q: seq<Message>, m: Message)
    ensures Bytes(q + [m]) == Bytes(q) + m.size
  {
    SumConcat(q, [m], Size);
    assert [m][1..] == [];
    assert Sum([m], Size) == m.size;
  }

  lemma BytesNonNegative(q: seq<Message>)
    ensures Bytes(q) >= 0
  {
    SumBounds(q, Size);
  }

  /** A writer step moves the client's two loads exactly as it moves the two counters. */
  lemma WriterStepLoads(s: State, step: Step)
    requires IsWriterStep(step) && WriterEnabled(s, step)
    requires s.clients[step.c].strays == [] || s.clients[step.c].writer.Gone?
    ensures var cl := s.clients[step.c];
            var cl' := WriterEffect(cl, step);
            && GlobalLoad(cl') - GlobalLoad(cl) == GlobalEffect(s, step) - s.global
            && ClientLoad(cl') - ClientLoad(cl) == cl'.counter - cl.counter
  {
    var cl := s.clients[step.c];
    if cl.queue != [] {
      BytesHead(cl.queue);
    }
  }

  ghost predicate StraysOnlyWhenGone(s: State) {
    forall c :: 0 <= c < |s.clients| ==> s.clients[c].strays == [] || s.clients[c].writer.Gone?
  }

  lemma WriterStepBalanced(s: State, step: Step)
    requires Balanced(s) && StraysOnlyWhenGone(s)
    requires IsWriterStep(step) && WriterEnabled(s, step)
    ensures Balanced(Next(s, step))
  {
    var s' := Next(s, step);
    WriterGlobalBalanced(s, step);
    forall c | 0 <= c < |s'.clients|
      ensures ClientBalanced(s', c)
    {
      WriterClientBalanced(s, step, c);
    }
  }

  lemma WriterGlobalBalanced(s: State, step: Step)
    requires GlobalBalanced(s) && StraysOnlyWhenGone(s)
    requires IsWriterStep(step) && WriterEnabled(s, step)
    ensures GlobalBalanced(Next(s, step))
  {
    WriterStepLoads(s, step);
    SumUpdate(s.clients, step.c, WriterEffect(s.clients[step.c], step), GlobalLoad);
  }

  lemma WriterClientBalanced(s: State, step: Step, c: nat)
    requires c < |s.clients| && ClientBalanced(s, c) && StraysOnlyWhenGone(s)
    requires IsWriterStep(step) && WriterEnabled(s, step)
    ensures c < |Next(s, step).clients| && ClientBalanced(Next(s, step), c)
  {
    WriterStepLoads(s, step);
  }

  /** A producer step moves the loads and the held bytes together with the counters. */
  lemma ProducerStepBalanced(s: State, step: Step)
    requires Balanced(s)
    requires IsProducerStep(step) && ProducerEnabled(s, step)
    ensures Balanced(Next(s, step))
  {
    var s' := Next(s, step);
    ProducerGlobalBalanced(s, step);
    forall c | 0 <= c < |s'.clients|
      ensures ClientBalanced(s', c)
    {
      ProducerClientBalanced(s, step, c);
    }
  }

  lemma ProducerGlobalBalanced(s: State, step: Step)
    requires RefsValid(s) && GlobalBalanced(s)
    requires IsProducerStep(step) && ProducerEnabled(s, step)
    ensures GlobalBalanced(Next(s, step))
  {
    var pr := s.producers[step.p];
    SumUpdate(s.producers, step.p, ProducerEffect(s, step), HeldGlobal);
    if !step.AddGlobal? {
      BytesSnoc(s.clients[pr.client].queue, pr.msg);
      SumUpdate(s.clients, pr.client, ProducerClientEffect(s, step), GlobalLoad);
    }
  }

  lemma ProducerClientBalanced(s: State, step: Step, c: nat)
    requires RefsValid(s) && c < |s.clients| && ClientBalanced(s, c)
    requires IsProducerStep(step) && ProducerEnabled(s, step)
    ensures c < |Next(s, step).clients| && ClientBalanced(Next(s, step), c)
  {
    var pr := s.producers[step.p];
    if !step.AddGlobal? { BytesSnoc(s.clients[pr.client].queue, pr.msg); }
    SumUpdate(s.producers, step.p, ProducerEffect(s, step), HeldFor(c));
  }

  lemma JoinBalanced(s: State, step: Step)
    requires Balanced(s)
    requires step.Connect? || step.Spawn?
    ensures Balanced(Next(s, step))
  {
    var s' := Next(s, step);
    SumConcat(s.clients, [NEW_CLIENT], GlobalLoad);
    SumConcat(s.producers, [Idle], HeldGlobal);
    assert [NEW_CLIENT][1..] == [] && [Idle][1..] == [];
    forall c | 0 <= c < |s'.clients|
      ensures ClientBalanced(s', c)
    {
      SumConcat(s.producers, [Idle], HeldFor(c));
      if c < |s.clients| {
        assert ClientBalanced(s, c);
      } else {
        SumZero(s.producers, HeldFor(c));
      }
    }
  }

  // ----- First in, first out, exactly once -----

  /** The message the writer has dequeued and not yet put on the socket. */
  function Unwritten(w: Writer): seq<Message> { if w.Holding? then [w.msg] else [] }

  predicate Running(w: Writer) {
    w.Waiting? || w.Holding? || ((w.Handled? || w.Settled?) && !w.last)
  }

  ghost predicate Fifo(cl: Client) {
    && cl.accepted == cl.consumed + cl.queue + cl.strays
    && (cl.strays == [] || cl.writer.Gone?)
    && (cl.writer.Gone? ==> cl.queue == [])
    && cl.written + Unwritten(cl.writer) <= cl.consumed
    && (Running(cl.writer) ==> cl.written + Unwritten(cl.writer) == cl.consumed)
  }

  ghost predicate AllFifo(s: State) { forall c :: 0 <= c < |s.clients| ==> Fifo(s.clients[c]) }

  lemma WriterStepFifo(cl: Client, step: Step)
    requires Fifo(cl)
    requires IsWriterStep(step) && WriterEnabled(State(0, seq(step.c + 1, _ => cl), []), step)
    ensures Fifo(WriterEffect(cl, step))
  {
    match step {
      case Recv(_) => ConsumeHead(cl);
      case TryRecv(_) => if cl.queue != [] { ConsumeHead(cl); }
      case _ =>
    }
  }

  lemma ConsumeHead(cl: Client)
    requires cl.queue != []
    ensures cl.consumed + cl.queue == (cl.consumed + [cl.queue[0]]) + cl.queue[1..]
    ensures cl.consumed <= cl.consumed + [cl.queue[0]]
  {
    assert cl.queue == [cl.queue[0]] + cl.queue[1..];
  }

  lemma SendFifo(cl: Client, m: Message)
    requires Fifo(cl) && !cl.writer.Gone?
    ensures Fifo(cl.(queue := cl.queue + [m], accepted := cl.accepted + [m]))
  {
    assert cl.accepted + [m] == cl.consumed + (cl.queue + [m]) + [];
  }

  ghost predicate Inv(s: State) { Balanced(s) && AllFifo(s) }

  lemma StepKeepsFifo(s: State, step: Step)
    requires AllFifo(s)
    ensures AllFifo(Next(s, step))
  {
    var s' := Next(s, step);
    forall c | 0 <= c < |s'.clients|
      ensures Fifo(s'.clients[c])
    {
      if Enabled(s, step) && IsWriterStep(step) && step.c == c {
        WriterStepFifo(s.clients[c], step);
      } else if Enabled(s, step) && step.Send? && s.producers[step.p].client == c {
        if !s.clients[c].writer.Gone? {
          SendFifo(s.clients[c], s.producers[step.p].msg);
        }
      }
    }
  }

  lemma StepKeepsInv(s: State, step: Step)
    requires Inv(s)
    ensures Inv(Next(s, step))
  {
    StepKeepsFifo(s, step);
    if Enabled(s, step) {
      if IsProducerStep(step) {
        ProducerStepBalanced(s, step);
      } else if IsWriterStep(step) {
        WriterStepBalanced(s, step);
      } else {
        JoinBalanced(s, step);
      }
    }
  }

  /** Every reachable state, in every interleaving, keeps both invariants. */
  lemma {:induction false} RunKeepsInv(steps: seq<Step>)
    ensures Inv(Exec(steps))
  {
    if steps != [] {
      RunKeepsInv(steps[..|steps| - 1]);
      StepKeepsInv(Exec(steps[..|steps| - 1]), steps[|steps| - 1]);
    }
  }

  // ----- What holds of every run -----

  function QueueBytes(cl: Client): int { Bytes(cl.queue) }

  function StrayBytes(cl: Client): int { Bytes(cl.strays) }

  function WriterBytes(cl: Client): int { InHandGlobal(cl.writer) }

  lemma {:induction false} LoadSplits(cs: seq<Client>)
    ensures Sum(cs, GlobalLoad) == Sum(cs, QueueBytes) + Sum(cs, StrayBytes) + Sum(cs, WriterBytes)
  {
    if cs != [] {
      LoadSplits(cs[1..]);
    }
  }

  /**
   In every interleaving the daemon-wide counter is exactly what is queued, plus what writers and
   producers hold mid-step, plus the exit-window stragglers; a client's counter satisfies the same
   equation over its own queue, its writer and the producers working for it.
   */
  lemma CountersAreConserved(steps: seq<Step>)
    ensures var s := Exec(steps);
            && s.global == Sum(s.clients, QueueBytes) + Sum(s.clients, WriterBytes)
                           + Sum(s.clients, StrayBytes) + Sum(s.producers, HeldGlobal)
            && forall c :: 0 <= c < |s.clients| ==>
                 s.clients[c].counter == Bytes(s.clients[c].queue) + InHandClient(s.clients[c].writer)
                                         + Bytes(s.clients[c].strays) + Sum(s.producers, HeldFor(c))
  {
    var s := Exec(steps);
    RunKeepsInv(steps);
    LoadSplits(s.clients);
    forall c | 0 <= c < |s.clients|
      ensures s.clients[c].counter == Bytes(s.clients[c].queue) + InHandClient(s.clients[c].writer)
                                      + Bytes(s.clients[c].strays) + Sum(s.producers, HeldFor(c))
    {
      assert ClientBalanced(s, c);
    }
  }

  /** The size a step subtracts from the daemon-wide counter, if it subtracts. */
  function SubtractsGlobal(s: State, step: Step): int
    requires Enabled(s, step)
  {
    match step
    case UndoGlobal(p) => s.producers[p].msg.size
    case SubGlobal(c) => s.clients[c].writer.msg.size
    case _ => 0
  }

  /** The size a step subtracts from client `c`'s counter, if it does. */
  function SubtractsClient(s: State, step: Step, c: nat): int
    requires Enabled(s, step)
  {
    match step
    case UndoClient(p) => if s.producers[p].client == c then s.producers[p].msg.size else 0
    case SubClient(c') => if c' == c then s.clients[c].writer.msg.size else 0
    case _ => 0
  }

  lemma LoadsNonNegative(s: State)
    ensures forall i :: 0 <= i < |s.clients| ==> GlobalLoad(s.clients[i]) >= InHandGlobal(s.clients[i].writer) >= 0
    ensures forall i :: 0 <= i < |s.clients| ==> ClientLoad(s.clients[i]) >= InHandClient(s.clients[i].writer) >= 0
  {
    forall i | 0 <= i < |s.clients|
      ensures Bytes(s.clients[i].queue) >= 0 && Bytes(s.clients[i].strays) >= 0
    {
      BytesNonNegative(s.clients[i].queue);
      BytesNonNegative(s.clients[i].strays);
    }
  }

  /** No `fetch_sub` on either counter ever takes it below zero, in any interleaving. */
  lemma NoSubtractionUnderflows(steps: seq<Step>, step: Step)
    requires Enabled(Exec(steps), step)
    ensures Exec(steps).global >= SubtractsGlobal(Exec(steps), step)
    ensures forall c :: 0 <= c < |Exec(steps).clients| ==>
              Exec(steps).clients[c].counter >= SubtractsClient(Exec(steps), step, c)
  {
    var s := Exec(steps);
    RunKeepsInv(steps);
    GlobalCovers(s, step);
    forall c | 0 <= c < |s.clients|
      ensures s.clients[c].counter >= SubtractsClient(s, step, c)
    {
      ClientCovers(s, step, c);
    }
  }

  lemma GlobalCovers(s: State, step: Step)
    requires Balanced(s) && Enabled(s, step)
    ensures s.global >= SubtractsGlobal(s, step)
  {
    LoadsNonNegative(s);
    SumBounds(s.clients, GlobalLoad);
    SumBounds(s.producers, HeldGlobal);
  }

  lemma ClientCovers(s: State, step: Step, c: nat)
    requires Balanced(s) && Enabled(s, step) && c < |s.clients|
    ensures s.clients[c].counter >= SubtractsClient(s, step, c)
  {
    assert ClientBalanced(s, c);
    LoadsNonNegative(s);
    SumBounds(s.producers, HeldFor(c));
    if step.UndoClient? {
      assert HeldFor(c)(s.producers[step.p]) <= Sum(s.producers, HeldFor(c));
    }
  }

  predicate Quiescent(s: State) {
    && (forall p :: 0 <= p < |s.producers| ==> s.producers[p].Idle?)
    && (forall c :: 0 <= c < |s.clients| ==>
          s.clients[c].writer.Gone? || (s.clients[c].writer.Waiting? && s.clients[c].queue == []))
  }

  /** When nothing is in progress the daemon-wide counter holds straggler bytes and nothing else. */
  lemma QuiescentHoldsOnlyStragglers(steps: seq<Step>)
    requires Quiescent(Exec(steps))
    ensures var s := Exec(steps);
            && s.global == Sum(s.clients, StrayBytes)
            && forall c :: 0 <= c < |s.clients| ==> s.clients[c].counter == StrayBytes(s.clients[c])
  {
    var s := Exec(steps);
    RunKeepsInv(steps);
    CountersAreConserved(steps);
    SumZero(s.producers, HeldGlobal);
    forall c | 0 <= c < |s.clients|
      ensures s.clients[c].queue == []
    {
      assert Fifo(s.clients[c]);
    }
    SumZero(s.clients, QueueBytes);
    SumZero(s.clients, WriterBytes);
    forall c | 0 <= c < |s.clients|
      ensures Sum(s.producers, HeldFor(c)) == 0
    {
      SumZero(s.producers, HeldFor(c));
    }
  }

  /** The messages whose `send` to client `c` succeeded in this run, in the order of the sends. */
  ghost function SendsAccepted(steps: seq<Step>, c: nat): seq<Message> {
    if steps == [] then []
    else
      var before := steps[..|steps| - 1];
      var s := Exec(before);
      var step := steps[|steps| - 1];
      if step.Send? && ProducerEnabled(s, step) && s.producers[step.p].client == c && !s.clients[c].writer.Gone?
      then SendsAccepted(before, c) + [s.producers[step.p].msg]
      else SendsAccepted(before, c)
  }

  lemma {:induction false} AcceptedIsWhatWasSent(steps: seq<Step>, c: nat)
    ensures var s := Exec(steps);
            if c < |s.clients| then s.clients[c].accepted == SendsAccepted(steps, c)
            else SendsAccepted(steps, c) == []
  {
    if steps != [] {
      AcceptedIsWhatWasSent(steps[..|steps| - 1], c);
    }
  }

  /**
   Delivery is in order and exactly once: until a client's writer stops, what it put on the socket,
   then the message in its hands, then its queue, are together the accepted sends in send order; once
   it has stopped, what it put on the socket is still a prefix of them.
   */
  lemma DeliveryIsFifoExactlyOnce(steps: seq<Step>, c: nat)
    requires c < |Exec(steps).clients|
    ensures var cl := Exec(steps).clients[c];
            && cl.written <= SendsAccepted(steps, c)
            && (Running(cl.writer) ==>
                  cl.written + Unwritten(cl.writer) + cl.queue == SendsAccepted(steps, c))
  {
    RunKeepsInv(steps);
    AcceptedIsWhatWasSent(steps, c);
    var cl := Exec(steps).clients[c];
    assert Fifo(cl);
    assert cl.written <= cl.written + Unwritten(cl.writer) <= cl.consumed <= cl.accepted;
  }

  // ----- Crossing a limit is never silent -----

  /** The step completes an `enqueue` on client `c` with `ClientOverLag`. */
  predicate ReportsOverLag(s: State, step: Step, c: nat, limits: LagLimits) {
    && step.Send?
    && ProducerEnabled(s, step)
    && s.producers[step.p].client == c
    && s.producers[step.p].checked
    && EnqueueOutcome(s, step.p, limits) == ClientOverLag
  }

  ghost predicate OverCap(steps: seq<Step>, c: nat, limits: LagLimits) {
    c < |Exec(steps).clients| && Exec(steps).clients[c].counter > limits.perClientCap
  }

  /** Some `enqueue` reported the lag at step `k`, and the counter has been above the cap ever since. */
  ghost predicate ReportedAt(steps: seq<Step>, k: nat, c: nat, limits: LagLimits) {
    && k < |steps|
    && ReportsOverLag(Exec(steps[..k]), steps[k], c, limits)
    && forall j :: k <= j <= |steps| ==> OverCap(steps[..j], c, limits)
  }

  /** An `enqueue` that has read a value above the cap and has its `send` still to do. */
  predicate AboutToReport(s: State, p: nat, c: nat, limits: LagLimits) {
    && p < |s.producers|
    && s.producers[p].CountedBoth?
    && s.producers[p].client == c
    && s.producers[p].checked
    && s.producers[p].mine > limits.perClientCap
  }

  ghost predicate AllChecked(steps: seq<Step>, c: nat) {
    forall i :: 0 <= i < |steps| && steps[i].AddGlobal? && steps[i].c == c ==> steps[i].checked
  }

  lemma {:induction false} CheckedProducers(steps: seq<Step>, c: nat)
    requires AllChecked(steps, c)
    ensures forall p :: 0 <= p < |Exec(steps).producers| ==>
              var pr := Exec(steps).producers[p];
              (pr.CountedGlobal? || pr.CountedBoth?) && pr.client == c ==> pr.checked
  {
    if steps != [] {
      CheckedProducers(steps[..|steps| - 1], c);
    }
  }

  lemma ReportExtends(steps: seq<Step>, k: nat, c: nat, limits: LagLimits)
    requires steps != [] && ReportedAt(steps[..|steps| - 1], k, c, limits)
    requires OverCap(steps, c, limits)
    ensures ReportedAt(steps, k, c, limits)
  {
    var before := steps[..|steps| - 1];
    assert before[..k] == steps[..k];
    forall j | k <= j <= |steps|
      ensures OverCap(steps[..j], c, limits)
    {
      if j < |steps| {
        assert before[..j] == steps[..j];
      } else {
        assert steps[..j] == steps;
      }
    }
  }

  lemma ReportNow(steps: seq<Step>, c: nat, limits: LagLimits)
    requires steps != []
    requires ReportsOverLag(Exec(steps[..|steps| - 1]), steps[|steps| - 1], c, limits)
    requires OverCap(steps[..|steps| - 1], c, limits) && OverCap(steps, c, limits)
    ensures ReportedAt(steps, |steps| - 1, c, limits)
  {
    assert steps[..|steps|] == steps;
  }

  /**
   If every producer for client `c` uses `enqueue`, then whenever its counter is above the cap and
   its receiver is alive, an `enqueue` has returned `ClientOverLag` since the counter was last at or
   below the cap, or one is between its `fetch_add` and its `send` and will.
   */
  lemma {:induction false} OverLagIsNeverSilent(steps: seq<Step>, c: nat, limits: LagLimits)
    requires AllChecked(steps, c)
    requires OverCap(steps, c, limits)
    requires !Exec(steps).clients[c].writer.Gone?
    ensures (exists k :: ReportedAt(steps, k, c, limits))
            || (exists p :: AboutToReport(Exec(steps), p, c, limits))
  {
    var before := steps[..|steps| - 1];
    var step := steps[|steps| - 1];
    var s := Exec(before);
    CheckedProducers(before, c);
    if OverCap(before, c, limits) {
      OverLagIsNeverSilent(before, c, limits);
      if k :| ReportedAt(before, k, c, limits) {
        ReportExtends(steps, k, c, limits);
      } else {
        var p :| AboutToReport(s, p, c, limits);
        if step == Send(p) && Enabled(s, step) {
          ReportNow(steps, c, limits);
        } else {
          assert AboutToReport(Exec(steps), p, c, limits);
        }
      }
    } else {
      assert step.AddClient? && AboutToReport(Exec(steps), step.p, c, limits);
    }
  }
}
