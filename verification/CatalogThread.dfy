/**
 The catalog thread's own state and what it tells the daemon's command loop: the thread never swaps
 the catalog itself, so what it last sent must be what it holds.
 */
module CatalogThread {
  import opened Options
  import opened Counts

  type Catalog = seq<nat>
  type Etag = string

  /** One `/refresh-models` request: who asked, and whether it asked for a forced fetch. */
  datatype Requester = Requester(id: nat, force: bool)

  datatype Command =
    | BaseChanged(base: Catalog, etag: Option<Etag>, overlay: Option<string>, persist: bool, reply: seq<Requester>)
    | NotModified(reply: seq<Requester>)

  datatype Fetched = Unchanged | Body(base: Catalog, etag: Option<Etag>) | Failure

  /** Reading the overlay file: unreadable, or its contents if it is there. */
  datatype OverlayRead = Unreadable | Contents(text: Option<string>)

  /**
   `queue` holds the requests not yet taken up, `sent` the commands sent, `refused` the requesters
   answered with an error directly, `fetches` the force flag of every fetch made.
   */
  datatype State = State(
    base: Catalog,
    etag: Option<Etag>,
    overlay: Option<string>,
    queue: seq<Requester>,
    sent: seq<Command>,
    refused: seq<Requester>,
    fetches: seq<bool>)

  datatype Event =
    | Arrive(who: Requester)
    | TakeRequests(read: OverlayRead, fetched: Fetched)
    | OverlayChanged(read: OverlayRead)
    | TimerFires(fetched: Fetched)

  function Send(s: State, c: Command): State { s.(sent := s.sent + [c]) }

  /** `maintenance_loop` up to its first fetch. */
  function Started(base: Catalog, etag: Option<Etag>, overlay: Option<string>): State {
    Send(State(base, etag, overlay, [], [], [], []), BaseChanged(base, etag, overlay, false, []))
  }

  /** `run_refresh_impl`. */
  function Refresh(s0: State, force: bool, reply: seq<Requester>, fetched: Fetched): State {
    var s := s0.(fetches := s0.fetches + [force]);
    match fetched
    case Unchanged => if reply == [] then s else Send(s, NotModified(reply))
    case Body(base, etag) =>
      if base == [] then s.(refused := s.refused + reply)
      else Send(s.(base := base, etag := etag), BaseChanged(base, etag, s.overlay, true, reply))
    case Failure => s.(refused := s.refused + reply)
  }

  /** `reload_user_overlay`: only a real change is sent. */
  function Reload(s: State, read: OverlayRead): State {
    if read.Unreadable? || read.text == s.overlay then s
    else Send(s.(overlay := read.text), BaseChanged(s.base, s.etag, read.text, false, []))
  }

  predicate AnyForced(rs: seq<Requester>) { exists i :: 0 <= i < |rs| && rs[i].force }

  /** One turn of the event loop; a burst of requests becomes one fetch. */
  function Step(s: State, event: Event): State {
    match event
    case Arrive(who) => s.(queue := s.queue + [who])
    case TakeRequests(read, fetched) =>
      if s.queue == [] then s
      else
        var r := Reload(s, read);
        Refresh(r.(queue := []), AnyForced(s.queue), s.queue, fetched)
    case OverlayChanged(read) => Reload(s, read)
    case TimerFires(fetched) => Refresh(s, false, [], fetched)
  }

  function Exec(s: State, events: seq<Event>): State {
    if events == [] then s
    else Step(Exec(s, events[..|events| - 1]), events[|events| - 1])
  }

  // ----- What was last sent is what is held -----

  /** The catalog, etag and overlay of the last change sent. */
  function LastChange(sent: seq<Command>): Option<(Catalog, Option<Etag>, Option<string>)> {
    if sent == [] then None
    else
      match sent[|sent| - 1]
      case BaseChanged(base, etag, overlay, _, _) => Some((base, etag, overlay))
      case NotModified(_) => LastChange(sent[..|sent| - 1])
  }

  ghost predicate InStep(s: State) { LastChange(s.sent) == Some((s.base, s.etag, s.overlay)) }

  lemma LastChangeSnoc(sent: seq<Command>, c: Command)
    ensures LastChange(sent + [c])
            == if c.BaseChanged? then Some((c.base, c.etag, c.overlay)) else LastChange(sent)
  {
    assert (sent + [c])[..|sent|] == sent;
  }

  lemma RefreshInStep(s: State, force: bool, reply: seq<Requester>, fetched: Fetched)
    requires InStep(s)
    ensures InStep(Refresh(s, force, reply, fetched))
  {
    LastChangeSnoc(s.sent, NotModified(reply));
    if fetched.Body? {
      LastChangeSnoc(s.sent, BaseChanged(fetched.base, fetched.etag, s.overlay, true, reply));
    }
  }

  lemma ReloadInStep(s: State, read: OverlayRead)
    requires InStep(s)
    ensures InStep(Reload(s, read))
  {
    if read.Contents? {
      LastChangeSnoc(s.sent, BaseChanged(s.base, s.etag, read.text, false, []));
    }
  }

  lemma StepInStep(s: State, event: Event)
    requires InStep(s)
    ensures InStep(Step(s, event))
  {
    match event
    case Arrive(_) =>
    case TakeRequests(read, fetched) =>
      if s.queue != [] {
        ReloadInStep(s, read);
        RefreshInStep(Reload(s, read).(queue := []), AnyForced(s.queue), s.queue, fetched);
      }
    case OverlayChanged(read) => ReloadInStep(s, read);
    case TimerFires(fetched) => RefreshInStep(s, false, [], fetched);
  }

  /** After every step the last change sent carries exactly the thread's catalog, etag and overlay. */
  lemma {:induction false} DaemonIsNeverBehind(base: Catalog, etag: Option<Etag>, overlay: Option<string>,
                                               events: seq<Event>)
    ensures InStep(Exec(Started(base, etag, overlay), events))
  {
    var s0 := Started(base, etag, overlay);
    if events == [] {
      LastChangeSnoc([], BaseChanged(base, etag, overlay, false, []));
    } else {
      var before := events[..|events| - 1];
      DaemonIsNeverBehind(base, etag, overlay, before);
      StepInStep(Exec(s0, before), events[|events| - 1]);
    }
  }

  // ----- Every requester gets one outcome, with its own flag -----

  /** How often `r` was handed to the command loop with an outcome. */
  function Handed(sent: seq<Command>, r: Requester): nat {
    if sent == [] then 0 else Handed(sent[..|sent| - 1], r) + Occurrences(sent[|sent| - 1].reply, r)
  }

  lemma HandedSnoc(sent: seq<Command>, c: Command, r: Requester)
    ensures Handed(sent + [c], r) == Handed(sent, r) + Occurrences(c.reply, r)
  {
    assert (sent + [c])[..|sent|] == sent;
  }

  /** `r` queued, handed on, or refused, in all. */
  function Known(s: State, r: Requester): nat {
    Occurrences(s.queue, r) + Handed(s.sent, r) + Occurrences(s.refused, r)
  }

  lemma RefreshKnows(s: State, force: bool, reply: seq<Requester>, fetched: Fetched, r: Requester)
    ensures Known(Refresh(s, force, reply, fetched), r) == Known(s, r) + Occurrences(reply, r)
  {
    OccurrencesConcat(s.refused, reply, r);
    HandedSnoc(s.sent, NotModified(reply), r);
    if fetched.Body? {
      HandedSnoc(s.sent, BaseChanged(fetched.base, fetched.etag, s.overlay, true, reply), r);
    }
  }

  lemma ReloadKnows(s: State, read: OverlayRead, r: Requester)
    ensures Known(Reload(s, read), r) == Known(s, r)
  {
    if read.Contents? {
      HandedSnoc(s.sent, BaseChanged(s.base, s.etag, read.text, false, []), r);
    }
  }

  /** How often `r` has asked. */
  function Asked(events: seq<Event>, r: Requester): nat {
    if events == [] then 0
    else Asked(events[..|events| - 1], r) + if events[|events| - 1] == Arrive(r) then 1 else 0
  }

  /**
   Conservation of requesters, its own force flag included: each is still queued, or was handed to one
   outcome, exactly as often as it asked.
   */
  lemma {:induction false} EveryRequesterGetsOneOutcome(base: Catalog, etag: Option<Etag>, overlay: Option<string>,
                                                        events: seq<Event>, r: Requester)
    ensures Known(Exec(Started(base, etag, overlay), events), r) == Asked(events, r)
  {
    var s0 := Started(base, etag, overlay);
    if events == [] {
      HandedSnoc([], BaseChanged(base, etag, overlay, false, []), r);
    } else {
      var before := events[..|events| - 1];
      EveryRequesterGetsOneOutcome(base, etag, overlay, before, r);
      var s := Exec(s0, before);
      StepKnows(s, events[|events| - 1], r);
    }
  }

  lemma StepKnows(s: State, event: Event, r: Requester)
    ensures Known(Step(s, event), r) == Known(s, r) + if event == Arrive(r) then 1 else 0
  {
    match event
    case Arrive(who) => OccurrencesSnoc(s.queue, who, r);
    case TakeRequests(read, fetched) =>
      if s.queue != [] {
        ReloadKnows(s, read, r);
        RefreshKnows(Reload(s, read).(queue := []), AnyForced(s.queue), s.queue, fetched, r);
      }
    case OverlayChanged(read) => ReloadKnows(s, read, r);
    case TimerFires(fetched) => RefreshKnows(s, false, [], fetched, r);
  }

  // ----- Which events fetch, told from the events -----

  /** Event `k` is a request that no take has picked up before event `i`. */
  predicate Pending(events: seq<Event>, k: nat, i: nat) {
    && k < i <= |events|
    && events[k].Arrive?
    && forall m :: k < m < i ==> !events[m].TakeRequests?
  }

  /** Event `i` fetches: the timer fired, or a take found someone waiting. */
  predicate Fetches(events: seq<Event>, i: nat)
    requires i < |events|
  {
    events[i].TimerFires? || (events[i].TakeRequests? && exists k :: 0 <= k < i && Pending(events, k, i))
  }

  /** Someone who had been waiting asked for a forced fetch. */
  predicate AskedForce(events: seq<Event>, i: nat)
    requires i < |events|
  {
    events[i].TakeRequests? && exists k :: 0 <= k < i && Pending(events, k, i) && events[k].who.force
  }

  /** The events that fetch, in order. */
  function FetchTimes(events: seq<Event>): (times: seq<nat>)
    ensures forall n :: 0 <= n < |times| ==> times[n] < |events|
  {
    if events == [] then []
    else FetchTimes(events[..|events| - 1]) + if Fetches(events, |events| - 1) then [|events| - 1] else []
  }

  lemma PendingInPrefix(events: seq<Event>, k: nat, i: nat, n: nat)
    requires i <= n <= |events|
    ensures Pending(events[..n], k, i) <==> Pending(events, k, i)
  {
    if Pending(events[..n], k, i) {
      forall m | k < m < i ensures !events[m].TakeRequests? { assert events[..n][m] == events[m]; }
    }
  }

  lemma FetchesInPrefix(events: seq<Event>, i: nat, n: nat)
    requires i < n <= |events|
    ensures Fetches(events[..n], i) <==> Fetches(events, i)
    ensures AskedForce(events[..n], i) <==> AskedForce(events, i)
  {
    forall k | 0 <= k < i ensures Pending(events[..n], k, i) <==> Pending(events, k, i) {
      PendingInPrefix(events, k, i, n);
    }
  }

  /** The listed times are exactly the events that fetch. */
  lemma {:induction false} FetchTimesAreExact(events: seq<Event>, i: nat)
    requires i < |events|
    ensures i in FetchTimes(events) <==> Fetches(events, i)
  {
    var n := |events| - 1;
    if i < n {
      FetchTimesAreExact(events[..n], i);
      FetchesInPrefix(events, i, n);
    } else {
      assert i !in FetchTimes(events[..n]);
    }
  }

  /** They are listed once each, in order. */
  lemma {:induction false} FetchTimesRise(events: seq<Event>, m: nat, n: nat)
    requires m < n < |FetchTimes(events)|
    ensures FetchTimes(events)[m] < FetchTimes(events)[n]
  {
    var before := events[..|events| - 1];
    if n < |FetchTimes(before)| { FetchTimesRise(before, m, n); }
  }

  /** The queue holds exactly the requests no take has picked up. */
  lemma {:induction false} QueueIsPending(s0: State, events: seq<Event>, r: Requester)
    requires s0.queue == []
    ensures r in Exec(s0, events).queue <==>
            exists k :: 0 <= k < |events| && Pending(events, k, |events|) && events[k].who == r
  {
    if events != [] {
      var n := |events| - 1;
      QueueIsPending(s0, events[..n], r);
      PendingNext(events, r);
      QueueNext(Exec(s0, events[..n]), events[n]);
    }
  }

  lemma QueueNext(s: State, event: Event)
    ensures Step(s, event).queue ==
            match event { case Arrive(who) => s.queue + [who] case TakeRequests(_, _) => [] case _ => s.queue }
  {}

  lemma PendingNext(events: seq<Event>, r: Requester)
    requires events != []
    ensures var n := |events| - 1;
            (exists k :: 0 <= k < |events| && Pending(events, k, |events|) && events[k].who == r) <==>
            || events[n] == Arrive(r)
            || (&& !events[n].TakeRequests?
                && exists k :: 0 <= k < n && Pending(events[..n], k, n) && events[..n][k].who == r)
  {
    var n := |events| - 1;
    if k :| 0 <= k < |events| && Pending(events, k, |events|) && events[k].who == r {
      if k < n {
        assert Pending(events, k, n);
        PendingInPrefix(events, k, n, n);
        assert events[..n][k].who == r;
      }
    }
    if events[n] == Arrive(r) {
      assert Pending(events, n, |events|);
    }
    if !events[n].TakeRequests? {
      if k :| 0 <= k < n && Pending(events[..n], k, n) && events[..n][k].who == r {
        PendingInPrefix(events, k, n, n);
        assert Pending(events, k, |events|) && events[k].who == r;
      }
    }
  }

  /** At a take, the queue is empty or forced exactly as the events say. */
  lemma TakeIsRight(s0: State, events: seq<Event>)
    requires s0.queue == [] && events != [] && events[|events| - 1].TakeRequests?
    ensures var n := |events| - 1;
            var q := Exec(s0, events[..n]).queue;
            (q != [] <==> Fetches(events, n)) && (AnyForced(q) <==> AskedForce(events, n))
  {
    var n := |events| - 1;
    var q := Exec(s0, events[..n]).queue;
    forall r ensures r in q <==> exists k :: 0 <= k < n && Pending(events, k, n) && events[k].who == r {
      QueueIsPending(s0, events[..n], r);
      forall k | 0 <= k < n ensures Pending(events[..n], k, n) <==> Pending(events, k, n) {
        PendingInPrefix(events, k, n, n);
      }
    }
    if q != [] { assert q[0] in q; }
    if AnyForced(q) {
      var i :| 0 <= i < |q| && q[i].force;
      assert q[i] in q;
    }
    if AskedForce(events, n) {
      var k :| 0 <= k < n && Pending(events, k, n) && events[k].who.force;
      assert events[k].who in q;
      var i :| 0 <= i < |q| && q[i] == events[k].who;
      assert q[i].force;
    }
    if Fetches(events, n) {
      var k :| 0 <= k < n && Pending(events, k, n);
      assert events[k].who in q;
    }
  }

  lemma FetchesNext(s: State, event: Event)
    ensures Step(s, event).fetches == s.fetches +
            match event {
              case TakeRequests(_, _) => if s.queue == [] then [] else [AnyForced(s.queue)]
              case TimerFires(_) => [false]
              case _ => []
            }
  {}

  /**
   In every run the fetches made are, one for one and in order, the timer firings and the takes that
   found a request waiting; a fetch is forced exactly when some request that arrived since the
   previous take asked for it.
   */
  lemma {:induction false} FetchesAreExact(s0: State, events: seq<Event>)
    requires s0.queue == [] && s0.fetches == []
    ensures var fetches, times := Exec(s0, events).fetches, FetchTimes(events);
            && |fetches| == |times|
            && forall n :: 0 <= n < |times| ==> (fetches[n] <==> AskedForce(events, times[n]))
  {
    if events != [] {
      var n := |events| - 1;
      var before := events[..n];
      FetchesAreExact(s0, before);
      FetchesNext(Exec(s0, before), events[n]);
      if events[n].TakeRequests? { TakeIsRight(s0, events); }
      var times := FetchTimes(events);
      forall i | 0 <= i < |FetchTimes(before)|
        ensures AskedForce(before, FetchTimes(before)[i]) <==> AskedForce(events, times[i])
      {
        FetchesInPrefix(events, times[i], n);
      }
    }
  }

  // ----- What is held and what is sent, told from the events -----

  /** Event `i` fetched a catalog worth keeping. */
  predicate Brought(events: seq<Event>, i: nat)
    requires i < |events|
  {
    Fetches(events, i) && events[i].fetched.Body? && events[i].fetched.base != []
  }

  /** The catalog and etag of the last fetch that brought one, or the pair at the start. */
  function LastCatalog(base: Catalog, etag: Option<Etag>, events: seq<Event>): (Catalog, Option<Etag>) {
    if events == [] then (base, etag)
    else
      var n := |events| - 1;
      if Brought(events, n) then (events[n].fetched.base, events[n].fetched.etag)
      else LastCatalog(base, etag, events[..n])
  }

  /** The contents an event read of the overlay file, if it read any: a change notice, or a take with requests. */
  function ReadAt(events: seq<Event>, i: nat): OverlayRead
    requires i < |events|
  {
    match events[i]
    case OverlayChanged(read) => read
    case TakeRequests(read, _) => if Fetches(events, i) then read else Unreadable
    case _ => Unreadable
  }

  /** The last contents that could be read, or those at the start. */
  function LastOverlay(overlay: Option<string>, events: seq<Event>): Option<string> {
    if events == [] then overlay
    else
      var n := |events| - 1;
      match ReadAt(events, n)
      case Contents(text) => text
      case Unreadable => LastOverlay(overlay, events[..n])
  }

  /** The requests that arrived since the last take, in order. */
  function Waiting(events: seq<Event>): seq<Requester> {
    if events == [] then []
    else
      match events[|events| - 1]
      case Arrive(who) => Waiting(events[..|events| - 1]) + [who]
      case TakeRequests(_, _) => []
      case _ => Waiting(events[..|events| - 1])
  }

  /** The requesters a fetching event answers: those waiting at a take, nobody at a timer. */
  function Answered(events: seq<Event>): seq<Requester>
    requires events != []
  {
    if events[|events| - 1].TakeRequests? then Waiting(events[..|events| - 1]) else []
  }

  datatype Start = Start(base: Catalog, etag: Option<Etag>, overlay: Option<string>)

  /** The command the overlay read at the last event calls for: only a real change is sent, nothing persisted. */
  function OverlayCommand(start: Start, events: seq<Event>): seq<Command>
    requires events != []
  {
    var before := events[..|events| - 1];
    var (base, etag) := LastCatalog(start.base, start.etag, before);
    var overlay := LastOverlay(start.overlay, events);
    if overlay == LastOverlay(start.overlay, before) then [] else [BaseChanged(base, etag, overlay, false, [])]
  }

  /** The command its fetch calls for: a new catalog to persist, or word that nothing changed. */
  function FetchCommand(start: Start, events: seq<Event>): seq<Command>
    requires events != []
  {
    var n := |events| - 1;
    if !Fetches(events, n) then []
    else
      match events[n].fetched
      case Body(base, etag) =>
        if base == [] then []
        else [BaseChanged(base, etag, LastOverlay(start.overlay, events), true, Answered(events))]
      case Unchanged => if Answered(events) == [] then [] else [NotModified(Answered(events))]
      case Failure => []
  }

  /** Every command of a run, from its events. */
  function Commands(start: Start, events: seq<Event>): seq<Command> {
    if events == [] then [BaseChanged(start.base, start.etag, start.overlay, false, [])]
    else Commands(start, events[..|events| - 1]) + OverlayCommand(start, events) + FetchCommand(start, events)
  }

  /** Every requester that was told of a failure: its fetch failed, or brought an empty catalog. */
  function Failed(events: seq<Event>): seq<Requester> {
    if events == [] then []
    else
      var n := |events| - 1;
      Failed(events[..n]) +
      if Fetches(events, n) && (events[n].fetched.Failure? || (events[n].fetched.Body? && events[n].fetched.base == []))
      then Answered(events) else []
  }

  ghost predicate Told(start: Start, events: seq<Event>) {
    var s := Exec(Started(start.base, start.etag, start.overlay), events);
    && (s.base, s.etag) == LastCatalog(start.base, start.etag, events)
    && s.overlay == LastOverlay(start.overlay, events)
    && s.queue == Waiting(events)
    && s.sent == Commands(start, events)
    && s.refused == Failed(events)
  }

  /**
   In every run, told from the events alone: the thread holds the catalog and etag of the last fetch that
   brought a non-empty one and the last overlay it could read; it has sent exactly the commands those
   events call for, each to the requesters waiting at its take, and refused exactly those whose fetch failed.
   */
  lemma {:induction false} ThreadIsExact(start: Start, events: seq<Event>)
    ensures Told(start, events)
  {
    var s0 := Started(start.base, start.etag, start.overlay);
    if events == [] {
      assert s0.sent == Commands(start, events);
    } else {
      var n := |events| - 1;
      ThreadIsExact(start, events[..n]);
      WaitingIsPending(events);
      match events[n]
      case TakeRequests(_, _) => TakeIsTold(start, events);
      case TimerFires(_) => TimerIsTold(start, events);
      case _ => assert Commands(start, events) ==
                       Commands(start, events[..n]) + OverlayCommand(start, events) + FetchCommand(start, events);
    }
  }

  /** A take finds someone exactly when a request has arrived since the last one. */
  lemma WaitingIsPending(events: seq<Event>)
    requires events != []
    ensures var n := |events| - 1; events[n].TakeRequests? ==> (Fetches(events, n) <==> Waiting(events[..n]) != [])
  {
    var n := |events| - 1;
    var s0 := Started([], None, None);
    if events[n].TakeRequests? {
      TakeIsRight(s0, events);
      QueueIsWaiting(s0, events[..n]);
    }
  }

  lemma {:induction false} QueueIsWaiting(s0: State, events: seq<Event>)
    requires s0.queue == []
    ensures Exec(s0, events).queue == Waiting(events)
  {
    if events != [] {
      QueueIsWaiting(s0, events[..|events| - 1]);
      QueueNext(Exec(s0, events[..|events| - 1]), events[|events| - 1]);
    }
  }

  lemma TakeIsTold(start: Start, events: seq<Event>)
    requires events != [] && Told(start, events[..|events| - 1]) && events[|events| - 1].TakeRequests?
    requires Fetches(events, |events| - 1) <==> Waiting(events[..|events| - 1]) != []
    ensures Told(start, events)
  {}

  lemma TimerIsTold(start: Start, events: seq<Event>)
    requires events != [] && Told(start, events[..|events| - 1]) && events[|events| - 1].TimerFires?
    ensures Told(start, events)
  {}

  // ----- The thread, on its own fields -----

  class MaintenanceThread {
    var base: Catalog
    var etag: Option<Etag>
    var overlay: Option<string>
    var queue: seq<Requester>
    var sent: seq<Command>
    var refused: seq<Requester>
    var fetches: seq<bool>

    function View(): State
      reads this
    {
      State(base, etag, overlay, queue, sent, refused, fetches)
    }

    constructor (base: Catalog, etag: Option<Etag>, overlay: Option<string>)
      ensures View() == Started(base, etag, overlay)
    {
      this.base, this.etag, this.overlay := base, etag, overlay;
      queue, refused, fetches := [], [], [];
      sent := [] + [BaseChanged(base, etag, overlay, false, [])];
    }

    /** Takes the first request and drains whatever queued behind it. */
    method FoldRefreshNows() returns (anyForce: bool, replies: seq<Requester>)
      requires queue != []
      modifies this
      ensures View() == old(View()).(queue := [])
      ensures replies == old(queue)
      ensures anyForce == AnyForced(old(queue))
    {
      anyForce := queue[0].force;
      replies := [queue[0]];
      queue := queue[1..];
      while queue != []
        invariant View() == old(View()).(queue := queue)
        invariant replies + queue == old(queue)
        invariant anyForce == AnyForced(replies)
      {
        var more := replies + [queue[0]];
        assert AnyForced(more) == (anyForce || queue[0].force) by {
          if queue[0].force {
            assert more[|replies|].force;
          }
          if anyForce {
            var i :| 0 <= i < |replies| && replies[i].force;
            assert more[i].force;
          }
        }
        anyForce := anyForce || queue[0].force;
        replies := more;
        queue := queue[1..];
      }
    }

    method ReloadUserOverlay(read: OverlayRead)
      modifies this
      ensures View() == Reload(old(View()), read)
    {
      if read.Contents? && read.text != overlay {
        overlay := read.text;
        sent := sent + [BaseChanged(base, etag, overlay, false, [])];
      }
    }

    /** `fetch` is handed the current etag, as the injected closure is. */
    method RunRefresh(force: bool, reply: seq<Requester>, fetch: (Option<Etag>, bool) -> Fetched)
      modifies this
      ensures View() == Refresh(old(View()), force, reply, fetch(old(etag), force))
    {
      var fetched := fetch(etag, force);
      fetches := fetches + [force];
      match fetched
      case Unchanged =>
        if reply != [] {
          sent := sent + [NotModified(reply)];
        }
      case Body(newBase, newEtag) =>
        if newBase == [] {
          refused := refused + reply;
        } else {
          base, etag := newBase, newEtag;
          sent := sent + [BaseChanged(base, etag, overlay, true, reply)];
        }
      case Failure => refused := refused + reply;
    }

    method OnRefreshNow(read: OverlayRead, fetch: (Option<Etag>, bool) -> Fetched)
      requires queue != []
      modifies this
      ensures View() == Step(old(View()), TakeRequests(read, fetch(old(etag), AnyForced(old(queue)))))
    {
      ReloadUserOverlay(read);
      var anyForce, replies := FoldRefreshNows();
      RunRefresh(anyForce, replies, fetch);
    }

    method OnTimer(fetch: (Option<Etag>, bool) -> Fetched)
      modifies this
      ensures View() == Step(old(View()), TimerFires(fetch(old(etag), false)))
    {
      RunRefresh(false, [], fetch);
    }
  }
}
