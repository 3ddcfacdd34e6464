/**
 The SSE reader thread and its consumer, over a bounded channel and an abort channel.

 The reader checks the abort channel, calls `next`, and sends what it got; the consumer receives,
 posts an abort when it is cancelled or its deadline passes, and posts one more when it is dropped.
 */
module Sse {

  const CAPACITY := 64

  datatype Item = Event(payload: nat) | End | Err(error: nat)

  datatype Pc = AtBoundary | BeforeNext | InNext | Sending(item: Item) | Exited

  /**
   `produced`, `sent`, `received`, `posted` and `callsSincePost` are histories: what `next` returned,
   what entered the channel, what the consumer took, whether an abort was ever posted, and how many
   calls of `next` began since then.
   */
  datatype State = State(
    pc: Pc,
    channel: seq<Item>,
    receiverAlive: bool,
    dropping: bool,
    aborts: nat,
    produced: seq<Item>,
    sent: seq<Item>,
    received: seq<Item>,
    posted: bool,
    callsSincePost: nat)

  datatype Step =
    | CheckAbort
    | CallNext
    | NextReturns(item: Item)
    | SendItem
    | Take
    | PostAbort
    | BeginDrop
    | FinishDrop

  const INIT := State(AtBoundary, [], true, false, 0, [], [], [], false, 0)

  predicate ReaderStep(step: Step) { step.CheckAbort? || step.CallNext? || step.NextReturns? || step.SendItem? }

  predicate Enabled(s: State, step: Step) {
    match step
    case CheckAbort => s.pc.AtBoundary?
    case CallNext => s.pc.BeforeNext?
    case NextReturns(_) => s.pc.InNext?
    case SendItem => s.pc.Sending? && (!s.receiverAlive || |s.channel| < CAPACITY)
    case Take => s.receiverAlive && !s.dropping && s.channel != []
    case PostAbort => s.receiverAlive && !s.dropping
    case BeginDrop => s.receiverAlive && !s.dropping
    case FinishDrop => s.dropping && s.receiverAlive
  }

  function Post(s: State): State { s.(aborts := s.aborts + 1, posted := true) }

  function Next(s: State, step: Step): State {
    if !Enabled(s, step) then s
    else
      match step
      case CheckAbort => if s.aborts > 0 then s.(aborts := s.aborts - 1, pc := Exited) else s.(pc := BeforeNext)
      case CallNext => s.(pc := InNext, callsSincePost := s.callsSincePost + if s.posted then 1 else 0)
      case NextReturns(item) => s.(pc := Sending(item), produced := s.produced + [item])
      case SendItem =>
        if !s.receiverAlive then s.(pc := Exited)
        else s.(channel := s.channel + [s.pc.item], sent := s.sent + [s.pc.item],
                pc := if s.pc.item.Event? then AtBoundary else Exited)
      case Take => s.(channel := s.channel[1..], received := s.received + [s.channel[0]])
      case PostAbort => Post(s)
      case BeginDrop => Post(s).(dropping := true)
      case FinishDrop => s.(receiverAlive := false, channel := [])
  }

  function Exec(steps: seq<Step>): State {
    if steps == [] then INIT else Next(Exec(steps[..|steps| - 1]), steps[|steps| - 1])
  }

  // ----- What every interleaving keeps -----

  function InFlight(s: State): seq<Item> { if s.pc.Sending? then [s.pc.item] else [] }

  predicate OnlyEvents(items: seq<Item>) { forall i :: 0 <= i < |items| ==> items[i].Event? }

  /** At most one `End` or `Err`, and nothing after it. */
  predicate WellTerminated(items: seq<Item>) {
    forall i :: 0 <= i < |items| - 1 ==> items[i].Event?
  }

  /** The two ends of the channel agree. */
  ghost predicate ChannelOk(s: State) {
    && |s.channel| <= CAPACITY
    && s.received + s.channel <= s.sent
    && (s.receiverAlive ==> s.received + s.channel == s.sent)
  }

  /** What was sent is what was produced, up to the item in the reader's hands. */
  ghost predicate ReaderOk(s: State) {
    && (!s.pc.Exited? ==> s.sent + InFlight(s) == s.produced && OnlyEvents(s.sent))
    && (s.pc.Exited? ==> s.sent <= s.produced && WellTerminated(s.produced))
    && (s.pc.Exited? && !s.posted ==> s.sent == s.produced != [] && !s.sent[|s.sent| - 1].Event?)
    && (s.sent != [] && !s.sent[|s.sent| - 1].Event? ==> s.sent == s.produced)
  }

  ghost predicate AbortOk(s: State) {
    && (!s.receiverAlive ==> s.dropping)
    && (s.dropping ==> s.posted)
    && (!s.posted ==> s.aborts == 0 && s.callsSincePost == 0)
    && (s.posted && !s.pc.Exited? ==> s.aborts > 0)
    && s.callsSincePost <= 1
    && (s.pc.BeforeNext? ==> s.callsSincePost == 0)
  }

  ghost predicate Inv(s: State) { ChannelOk(s) && ReaderOk(s) && AbortOk(s) }

  lemma StepKeepsChannel(s: State, step: Step)
    requires ChannelOk(s)
    ensures ChannelOk(Next(s, step))
  {
    if Enabled(s, step) && step.Take? {
      assert s.channel == [s.channel[0]] + s.channel[1..];
    }
    if Enabled(s, step) && step.SendItem? && s.receiverAlive {
      assert s.received + (s.channel + [s.pc.item]) == (s.received + s.channel) + [s.pc.item];
    }
  }

  lemma StepKeepsInv(s: State, step: Step)
    requires Inv(s)
    ensures Inv(Next(s, step))
  {
    StepKeepsChannel(s, step);
    StepKeepsReader(s, step);
    StepKeepsAbort(s, step);
  }

  lemma StepKeepsReader(s: State, step: Step)
    requires Inv(s)
    ensures ReaderOk(Next(s, step))
  {
    match step
    case SendItem =>
    case NextReturns(_) =>
    case _ =>
  }

  lemma StepKeepsAbort(s: State, step: Step)
    requires AbortOk(s)
    ensures AbortOk(Next(s, step))
  {}

  lemma {:induction false} RunKeepsInv(steps: seq<Step>)
    ensures Inv(Exec(steps))
  {
    if steps != [] {
      RunKeepsInv(steps[..|steps| - 1]);
      StepKeepsInv(Exec(steps[..|steps| - 1]), steps[|steps| - 1]);
    }
  }

  /**
   In every interleaving the consumer has received a prefix of what the reader produced, the channel
   holds at most 64, and what was sent ends at its first `End` or `Err`.
   */
  lemma ReceivesPrefixOfProduced(steps: seq<Step>)
    ensures var s := Exec(steps);
            && s.received <= s.produced
            && |s.channel| <= CAPACITY
            && WellTerminated(s.sent)
            && (s.receiverAlive ==> s.received + s.channel == s.sent)
  {
    RunKeepsInv(steps);
    var s := Exec(steps);
    assert s.received <= s.received + s.channel <= s.sent <= s.produced;
  }

  /** Once the consumer has taken `End` or `Err`, it has taken everything the reader produced. */
  lemma TerminalMeansComplete(steps: seq<Step>)
    requires var s := Exec(steps); s.received != [] && !s.received[|s.received| - 1].Event?
    ensures Exec(steps).received == Exec(steps).produced
  {
    RunKeepsInv(steps);
    ReceivesPrefixOfProduced(steps);
    var s := Exec(steps);
    var n := |s.received| - 1;
    assert s.sent[n] == (s.received + s.channel)[n] == s.received[n];
    assert n == |s.sent| - 1;
  }

  /** A reader that is gone without an abort having been posted has sent its `End` or `Err`. */
  lemma SilentExitOnlyAfterAbort(steps: seq<Step>)
    requires Exec(steps).pc.Exited? && !Exec(steps).posted
    ensures var s := Exec(steps); s.sent == s.produced && s.sent != [] && !s.sent[|s.sent| - 1].Event?
  {
    RunKeepsInv(steps);
  }

  /** Once an abort is posted the reader begins at most one more call of `next`. */
  lemma AtMostOneNextAfterAbort(steps: seq<Step>)
    ensures Exec(steps).callsSincePost <= 1
  {
    RunKeepsInv(steps);
  }

  // ----- After the stream is dropped -----

  /** How many reader steps are left once the receiver is gone. */
  function Rank(pc: Pc): nat {
    match pc
    case Exited => 0
    case AtBoundary => 1
    case Sending(_) => 1
    case InNext => 2
    case BeforeNext => 3
  }

  /**
   Once the receiver is gone, the reader always has a step to take unless it has exited or is waiting
   inside `next`, and every step it takes brings it closer to its exit.
   */
  lemma DroppedReaderIsNeverStuck(steps: seq<Step>, step: Step)
    requires !Exec(steps).receiverAlive
    ensures var s := Exec(steps);
            && (s.pc.Exited? || s.pc.InNext? || Enabled(s, CheckAbort) || Enabled(s, CallNext) || Enabled(s, SendItem))
            && (ReaderStep(step) && Enabled(s, step) ==> Rank(Next(s, step).pc) < Rank(s.pc))
            && (!ReaderStep(step) ==> Next(s, step).pc == s.pc)
            && !Next(s, step).receiverAlive
  {
    RunKeepsInv(steps);
  }

  function ReaderSteps(s: State, steps: seq<Step>): nat
    decreases |steps|
  {
    if steps == [] then 0
    else (if ReaderStep(steps[0]) && Enabled(s, steps[0]) then 1 else 0) + ReaderSteps(Next(s, steps[0]), steps[1..])
  }

  /** After the drop the reader takes at most three more steps, whatever else happens. */
  lemma {:induction false} DroppedReaderExitsSoon(before: seq<Step>, after: seq<Step>)
    requires !Exec(before).receiverAlive
    ensures ReaderSteps(Exec(before), after) <= Rank(Exec(before).pc) <= 3
    decreases |after|
  {
    if after != [] {
      DroppedReaderIsNeverStuck(before, after[0]);
      assert (before + [after[0]])[..|before|] == before;
      DroppedReaderExitsSoon(before + [after[0]], after[1..]);
    }
  }

  // ----- One call of the consumer -----

  datatype ProviderError = Cancelled | DeadlineExceeded | Io(error: nat) | ReaderDied

  datatype Received = Item_(payload: nat) | Finished | Failed(why: ProviderError)

  function HandleMessage(item: Item): Received {
    match item
    case Event(payload) => Item_(payload)
    case End => Finished
    case Err(e) => Failed(Io(e))
  }

  /** What is ready when the wait ends. */
  datatype Ready = Ready(cancel: bool, message: bool, timer: bool)

  /** `recv_sse_event`: the deadline is checked on entry, then cancel, message and timer in that order. */
  function Receive(s: State, expired: bool, ready: Ready): (Received, State)
    requires s.receiverAlive && !s.dropping
    requires expired || ready.cancel || ready.message || ready.timer
    requires ready.message ==> s.channel != [] || s.pc.Exited?
  {
    if expired then (Failed(DeadlineExceeded), Next(s, PostAbort))
    else if ready.cancel then (Failed(Cancelled), Next(s, PostAbort))
    else if ready.message then
      if s.channel == [] then (Failed(ReaderDied), s) else (HandleMessage(s.channel[0]), Next(s, Take))
    else (Failed(DeadlineExceeded), Next(s, PostAbort))
  }

  /**
   What a call returns, from what it finds: a passed deadline first, then a queued cancel, then a
   message, then the timer; a message is the head of the channel, or the reader's death if there is none.
   */
  lemma ReceiveReturnsExactly(s: State, expired: bool, ready: Ready)
    requires s.receiverAlive && !s.dropping
    requires expired || ready.cancel || ready.message || ready.timer
    requires ready.message ==> s.channel != [] || s.pc.Exited?
    ensures var (r, s') := Receive(s, expired, ready);
            && (r == Failed(DeadlineExceeded) <==> expired || (!ready.cancel && !ready.message))
            && (r == Failed(Cancelled) <==> !expired && ready.cancel)
            && (r == Failed(ReaderDied) <==> !expired && !ready.cancel && ready.message && s.channel == [])
            && (!expired && !ready.cancel && ready.message && s.channel != [] ==>
                  && s'.channel == s.channel[1..]
                  && (forall e :: s.channel[0] == Event(e) <==> r == Item_(e))
                  && (s.channel[0] == End <==> r == Finished)
                  && (forall e :: s.channel[0] == Err(e) <==> r == Failed(Io(e))))
  {}

  /**
   A call that gives up leaves an abort for the reader, and no call loses an item: what it returns is
   the next item the reader sent, or the channel is as it was.
   */
  lemma ReceiveLosesNothing(s: State, expired: bool, ready: Ready)
    requires Inv(s) && s.receiverAlive && !s.dropping
    requires expired || ready.cancel || ready.message || ready.timer
    requires ready.message ==> s.channel != [] || s.pc.Exited?
    ensures var (r, s') := Receive(s, expired, ready);
            && Inv(s')
            && (r.Failed? && (r.why.Cancelled? || r.why.DeadlineExceeded?) ==> s'.posted && s'.channel == s.channel)
            && (r.Item_? ==> s'.received == s.received + [Event(r.payload)] && s'.received <= s.sent)
            && (r.Finished? ==> s'.received == s.received + [End] && s'.received == s.produced)
            && (r == Failed(ReaderDied) ==> s' == s && s.received == s.sent && s.pc.Exited?)
  {
    var (r, s') := Receive(s, expired, ready);
    StepKeepsInv(s, PostAbort);
    StepKeepsInv(s, Take);
    if s.channel != [] {
      assert s.channel == [s.channel[0]] + s.channel[1..];
      assert s.received + s.channel == (s.received + [s.channel[0]]) + s.channel[1..];
    }
    if r.Finished? {
      assert s.sent[|s.received|] == End;
      assert |s.received| == |s.sent| - 1;
    }
  }
}
