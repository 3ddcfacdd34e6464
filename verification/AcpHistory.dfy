/**
 What a run of the bridge did, told from its events: which request displaced which, and which prompt a
 streaming message belongs to.
 */
module AcpHistory {
  import opened Options
  import opened Acp
  import opened AcpLaws

  lemma ExecSnoc(events: seq<(Event, bool)>, event: Event, up: bool)
    ensures Exec(events + [(event, up)]) == Step(Exec(events), event, up)
  {
    assert (events + [(event, up)])[..|events|] == events;
  }

  // ----- Displacement -----

  /** The kind under which an event parks a request: the slot that a second one overwrites. */
  function Parks(s: State, event: Event, up: bool): Option<Kind> {
    if s.status != Running || !up then None
    else
      match event
      case Request(_, SessionList) => if s.initialized then Some(ListSessions) else None
      case Request(_, SessionDelete(session)) =>
        if s.initialized && session in s.sessions.byId
        then Some(DeleteSession(s.sessions.byId[session].daemonId)) else None
      case Request(_, SessionSetConfig(Some((session, option)))) =>
        if s.initialized && session in s.sessions.byId then ConfigKind(option) else None
      case FromDaemon(Models(_), _) => if s.pending.models.Some? then Some(CreateSession) else None
      case _ => None
  }

  function ConfigKind(option: ConfigOption): Option<Kind> {
    match option
    case ModelOption(Some(_)) => Some(SetModel)
    case EffortOption(Level(_)) => Some(SetReasoningEffort)
    case _ => None
  }

  /** The request an event parks: the editor's, or the one waiting for the model list. */
  function Parked(s: State, event: Event): nat
    requires event.Request? || (event.FromDaemon? && s.pending.models.Some?)
  {
    if event.Request? then event.id else s.pending.models.value
  }

  predicate Waits(s: State, kind: Kind, j: nat) { kind in s.pending.sync && s.pending.sync[kind] == j }

  function Overwritten(s: State, kind: Option<Kind>): seq<nat> {
    if kind.Some? && kind.value in s.pending.sync then [s.pending.sync[kind.value]] else []
  }

  lemma RequestParks(s: State, id: nat, call: Call, up: bool)
    requires s.status == Running && s.initialized
    ensures var kind := Parks(s, Request(id, call), up);
            var s' := HandleRequest(s, id, call, up);
            && s'.displaced == s.displaced + Overwritten(s, kind)
            && (kind.Some? ==> Waits(s', kind.value, id))
  {
    match call
    case SessionSetConfig(config) =>
      if config.Some? { match config.value.1 { case ModelOption(_) => case EffortOption(_) => case _ => } }
    case _ =>
  }

  lemma DaemonParks(s: State, msg: DaemonMessage, pick: AcpId, up: bool)
    requires s.status == Running
    ensures var kind := Parks(s, FromDaemon(msg, pick), up);
            var s' := HandleDaemon(s, msg, pick, up);
            && s'.displaced == s.displaced + Overwritten(s, kind)
            && (kind.Some? ==> Waits(s', kind.value, s.pending.models.value))
  {}

  /** A turn of the loop displaces exactly the request whose slot it parks another in. */
  lemma StepDisplaces(s: State, event: Event, up: bool)
    ensures var kind := Parks(s, event, up);
            && Step(s, event, up).displaced == s.displaced + Overwritten(s, kind)
            && (kind.Some? ==> Waits(Step(s, event, up), kind.value, Parked(s, event)))
  {
    if s.status == Running && Admissible(s, event) {
      match event
      case Request(id, call) =>
        if s.initialized { RequestParks(s.(received := s.received + [id]), id, call, up); }
      case FromDaemon(msg, pick) => DaemonParks(s, msg, pick, up);
      case DaemonDisconnected(promptOrder, syncOrder) => DisconnectHistoriesKept(s, promptOrder, syncOrder);
      case _ =>
    }
  }

  /** Event `i` parks another request in the slot where `j` waits. */
  ghost predicate Displaces(events: seq<(Event, bool)>, i: nat, kind: Kind, j: nat) {
    && i < |events|
    && Parks(Exec(events[..i]), events[i].0, events[i].1) == Some(kind)
    && Waits(Exec(events[..i]), kind, j)
  }

  lemma DisplacesInPrefix(events: seq<(Event, bool)>, n: nat, i: nat, kind: Kind, j: nat)
    requires i < n <= |events|
    ensures Displaces(events, i, kind, j) <==> Displaces(events[..n], i, kind, j)
  {
    assert events[..n][..i] == events[..i];
  }

  ghost predicate Displaced(events: seq<(Event, bool)>, j: nat) {
    exists i: nat, kind: Kind :: Displaces(events, i, kind, j)
  }

  lemma DisplacedNext(events: seq<(Event, bool)>, j: nat)
    requires events != []
    ensures var n := |events| - 1;
            Displaced(events, j) <==>
            Displaced(events[..n], j) || exists kind: Kind :: Displaces(events, n, kind, j)
  {
    var n := |events| - 1;
    if Displaced(events, j) {
      var i: nat, kind: Kind :| Displaces(events, i, kind, j);
      if i < n { DisplacesInPrefix(events, n, i, kind, j); }
    }
    if Displaced(events[..n], j) {
      var i: nat, kind: Kind :| Displaces(events[..n], i, kind, j);
      DisplacesInPrefix(events, n, i, kind, j);
    }
  }

  /** A request is displaced exactly when, while it waits under a kind, an event parks another under it. */
  lemma {:induction false} DisplacedExactly(events: seq<(Event, bool)>, j: nat)
    ensures j in Exec(events).displaced <==> Displaced(events, j)
  {
    if events != [] {
      var n := |events| - 1;
      var s := Exec(events[..n]);
      DisplacedExactly(events[..n], j);
      DisplacedNext(events, j);
      StepDisplaces(s, events[n].0, events[n].1);
      var kind := Parks(s, events[n].0, events[n].1);
      OverwrittenIs(s, kind, j);
      if kind.Some? && Waits(s, kind.value, j) { assert Displaces(events, n, kind.value, j); }
    }
  }

  lemma OverwrittenIs(s: State, kind: Option<Kind>, j: nat)
    ensures j in Overwritten(s, kind) <==> kind.Some? && Waits(s, kind.value, j)
  {}

  /**
   Losing the daemon answers every received id once, except exactly those that waited under a kind
   when an event parked another request under it: those are never answered.
   */
  lemma DisconnectAnswersExactly(events: seq<(Event, bool)>, promptOrder: seq<AcpId>, syncOrder: seq<Kind>,
                                 up: bool, j: nat)
    requires Exec(events).status == Running && Admissible(Exec(events), DaemonDisconnected(promptOrder, syncOrder))
    requires DistinctIds(Exec(events)) && j in Exec(events).received
    ensures var answered := Answers(Step(Exec(events), DaemonDisconnected(promptOrder, syncOrder), up).out, j);
            answered == if Displaced(events, j) then 0 else 1
  {
    DisconnectAnswersEveryone(events, promptOrder, syncOrder, up, j);
    DisplacedExactly(events, j);
  }

  /** For one: two lists in a row, then the daemon goes; the first is never answered. */
  lemma SecondListDisplacesTheFirst() returns (events: seq<(Event, bool)>)
    ensures var s := Exec(events);
            && s.received == [1, 2, 3] && s.status == Stopped
            && Answers(s.out, 2) == 0 && Answers(s.out, 3) == 1
  {
    var a := [] + [(Request(1, Initialize), true)];
    var b := a + [(Request(2, SessionList), true)];
    var c := b + [(Request(3, SessionList), true)];
    events := c + [(DaemonDisconnected([], [ListSessions]), true)];
    ExecSnoc([], Request(1, Initialize), true);
    ExecSnoc(a, Request(2, SessionList), true);
    ExecSnoc(b, Request(3, SessionList), true);
    ExecSnoc(c, DaemonDisconnected([], [ListSessions]), true);
    assert Exec(a).out == [Reply(1, Result)] && Exec(a).pending == INIT.pending;
    LastListIsDrained(Exec(c), 3);
    CountTwo(Reply(1, Result), Reply(3, Error(-32001)));
  }

  lemma LastListIsDrained(s: State, id: nat)
    requires s.status == Running && s.pending.sync == map[ListSessions := id]
    requires s.pending.prompts == map[] && s.pending.models == None
    ensures var s' := Step(s, DaemonDisconnected([], [ListSessions]), true);
            s'.out == s.out + [Reply(id, Error(-32001))] && s'.status == Stopped && s'.received == s.received
  {
    assert Admissible(s, DaemonDisconnected([], [ListSessions]));
    assert [ListSessions][1..] == [];
  }

  lemma CountTwo(x: Output, y: Output)
    requires x.Reply? && y.Reply? && x.id == 1 && y.id == 3
    ensures Answers([x] + [y], 2) == 0 && Answers([x] + [y], 3) == 1
  {
    AnswersSnoc([x], y, 2);
    AnswersSnoc([x], y, 3);
    assert [] + [x] == [x];
    AnswersSnoc([], x, 2);
    AnswersSnoc([], x, 3);
  }

  // ----- Which prompt a streaming message belongs to -----

  /** The event spends a request id: a prompt for a known session, busy or not. */
  predicate Spends(s: State, event: Event) {
    && s.status == Running && s.initialized
    && event.Request? && event.call.SessionPrompt?
    && event.call.prompt.Some? && event.call.prompt.value in s.sessions.byId
  }

  lemma {:induction false} DrainKeepsIssued(s: State, order: seq<AcpId>)
    requires forall k :: k in order ==> k in s.pending.prompts
    requires forall a, b :: 0 <= a < b < |order| ==> order[a] != order[b]
    ensures DrainPrompts(s, order).issued == s.issued
    decreases |order|
  {
    if order != [] {
      DrainKeepsIssued(CleanupPrompt(Respond(s, s.pending.prompts[order[0]].id, Error(-32001)), order[0]), order[1..]);
    }
  }

  lemma {:induction false} DrainSyncKeepsIssued(s: State, order: seq<Kind>)
    requires forall k :: k in order ==> k in s.pending.sync
    requires forall a, b :: 0 <= a < b < |order| ==> order[a] != order[b]
    ensures DrainSync(s, order).issued == s.issued
    decreases |order|
  {
    if order != [] { DrainSyncKeepsIssued(Resolve(s, order[0], Error(-32001)), order[1..]); }
  }

  lemma DaemonKeepsIssued(s: State, msg: DaemonMessage, pick: AcpId, up: bool)
    ensures HandleDaemon(s, msg, pick, up).issued == s.issued
    ensures forall k :: k in HandleDaemon(s, msg, pick, up).pending.prompts ==>
              k in s.pending.prompts && s.pending.prompts[k] == HandleDaemon(s, msg, pick, up).pending.prompts[k]
  {
    if !msg.Stream? { DaemonOnlyAnswers(s, msg, pick, up); }
  }

  lemma RequestIssues(s: State, id: nat, call: Call, up: bool)
    requires s.status == Running && s.initialized
    ensures var s' := HandleRequest(s, id, call, up);
            && s'.issued == s.issued + (if Spends(s, Request(id, call)) then 1 else 0)
            && forall k :: k in s'.pending.prompts ==>
                 || (k in s.pending.prompts && s.pending.prompts[k] == s'.pending.prompts[k])
                 || StartedBy(s, Request(id, call), s'.pending.prompts[k], k)
  {}

  /** `p`, tracked under `key`, is the prompt this event starts in this state. */
  predicate StartedBy(s: State, event: Event, p: Prompt, key: AcpId) {
    && Spends(s, event)
    && event.call.prompt.value == key
    && p == Prompt(event.id, s.sessions.nextRequest, key, s.issued)
  }

  lemma DisconnectKeepsIssued(s: State, promptOrder: seq<AcpId>, syncOrder: seq<Kind>)
    requires IsOrder(promptOrder, s.pending.prompts.Keys) && IsOrder(syncOrder, s.pending.sync.Keys)
    ensures Disconnect(s, promptOrder, syncOrder).issued == s.issued
  {
    DrainKeepsIssued(s, promptOrder);
    DrainPromptsFrame(s, promptOrder);
    DrainSyncKeepsIssued(DrainPrompts(s, promptOrder), syncOrder);
  }

  lemma StepIssues(s: State, event: Event, up: bool)
    ensures var s' := Step(s, event, up);
            && s'.issued == s.issued + (if Spends(s, event) then 1 else 0)
            && forall k :: k in s'.pending.prompts ==>
                 || (k in s.pending.prompts && s.pending.prompts[k] == s'.pending.prompts[k])
                 || StartedBy(s, event, s'.pending.prompts[k], k)
  {
    if s.status == Running && Admissible(s, event) {
      match event
      case Request(id, call) =>
        if s.initialized { RequestIssues(s.(received := s.received + [id]), id, call, up); }
      case FromDaemon(msg, pick) => DaemonKeepsIssued(s, msg, pick, up);
      case DaemonDisconnected(promptOrder, syncOrder) =>
        DisconnectKeepsIssued(s, promptOrder, syncOrder);
        DrainedPromptsGone(s, promptOrder, syncOrder);
      case _ =>
    }
  }

  /** Event `i` of the run started `p`, tracked under `key`. */
  ghost predicate StartedAt(events: seq<(Event, bool)>, i: nat, p: Prompt, key: AcpId) {
    i < |events| && StartedBy(Exec(events[..i]), events[i].0, p, key)
  }

  /** Every tracked prompt was started by an event of the run, under the id it carries. */
  lemma {:induction false} TrackedPromptWasStarted(events: seq<(Event, bool)>, key: AcpId) returns (i: nat)
    requires key in Exec(events).pending.prompts
    ensures StartedAt(events, i, Exec(events).pending.prompts[key], key)
  {
    var n := |events| - 1;
    var before := events[..n];
    StepIssues(Exec(before), events[n].0, events[n].1);
    if StartedBy(Exec(before), events[n].0, Exec(events).pending.prompts[key], key) {
      i := n;
    } else {
      i := TrackedPromptWasStarted(before, key);
      assert before[..i] == events[..i];
    }
  }

  lemma {:induction false} IssuedGrows(events: seq<(Event, bool)>, i: nat, j: nat)
    requires i <= j <= |events|
    ensures Exec(events[..i]).issued <= Exec(events[..j]).issued
    ensures i < j && Spends(Exec(events[..i]), events[i].0) ==> Exec(events[..i]).issued < Exec(events[..j]).issued
    decreases j
  {
    if i < j {
      IssuedGrows(events, i, j - 1);
      assert events[..j][..j - 1] == events[..j - 1];
      StepIssues(Exec(events[..j - 1]), events[j - 1].0, events[j - 1].1);
    }
  }

  /** Event `i` is the last before `n` to be issued the request id `request`. */
  ghost predicate LastIssued(events: seq<(Event, bool)>, i: nat, n: nat, request: nat) {
    && i < n <= |events|
    && Issues(events, i, request)
    && forall k :: i < k < n ==> !Issues(events, k, request)
  }

  ghost predicate Issues(events: seq<(Event, bool)>, i: nat, request: nat)
    requires i < |events|
  {
    Spends(Exec(events[..i]), events[i].0) && Exec(events[..i]).sessions.nextRequest == request
  }

  lemma NextIdIsWrapped(events: seq<(Event, bool)>)
    ensures Exec(events).status != Aborted ==>
              Exec(events).sessions.nextRequest == (1 + Exec(events).issued) % ID_SPACE
  {
    RunCoherent(events);
  }

  lemma DifferentIds(x: nat, y: nat)
    requires y < x < y + ID_SPACE
    ensures (1 + x) % ID_SPACE != (1 + y) % ID_SPACE
  {
    WrapCollision(x, y);
    NearSerialsDiffer(x, y);
  }

  /** No later event is issued a recent prompt's id: the counter cannot have come round. */
  lemma IssueIsLast(events: seq<(Event, bool)>, i: nat, n: nat, p: Prompt, key: AcpId)
    requires i < n <= |events| && StartedAt(events, i, p, key)
    requires Exec(events[..n]).issued - p.serial <= ID_SPACE
    ensures LastIssued(events, i, n, p.request)
  {
    assert Issues(events, i, p.request);
    forall k | i < k < n ensures !Issues(events, k, p.request) {
      if Spends(Exec(events[..k]), events[k].0) {
        IssueNumbers(events, i, k, n);
        DifferentIds(Exec(events[..k]).issued, p.serial);
      }
    }
  }

  lemma IssueNumbers(events: seq<(Event, bool)>, i: nat, k: nat, n: nat)
    requires i < k < n <= |events|
    requires Spends(Exec(events[..i]), events[i].0) && Spends(Exec(events[..k]), events[k].0)
    ensures Exec(events[..i]).issued < Exec(events[..k]).issued < Exec(events[..n]).issued
    ensures Exec(events[..i]).sessions.nextRequest == (1 + Exec(events[..i]).issued) % ID_SPACE
    ensures Exec(events[..k]).sessions.nextRequest == (1 + Exec(events[..k]).issued) % ID_SPACE
  {
    NextIdIsWrapped(events[..i]);
    NextIdIsWrapped(events[..k]);
    IssuedGrows(events, i, k);
    IssuedGrows(events, k, n);
  }

  /** What a message from the daemon adds to the output belongs to the prompt it names. */
  predicate BelongsTo(o: Output, event: Event) {
    event.Request? && event.call.SessionPrompt? &&
    match o
    case Reply(id, _) => id == event.id
    case Update(session, prompt, _) => prompt == event.id && event.call.prompt == Some(session)
  }

  lemma StreamOutput(s: State, request: nat, ev: StreamEvent, pick: AcpId, o: nat)
    requires |s.out| <= o < |HandleStream(s, request, ev, pick).out|
    ensures Carries(s, pick, request)
    ensures var p, x := s.pending.prompts[pick], HandleStream(s, request, ev, pick).out[o];
            match x {
              case Reply(id, _) => id == p.id
              case Update(session, prompt, _) => prompt == p.id && session == p.session
            }
  {
    var p := s.pending.prompts[pick];
    var us := Updates(ev, p.session, p.id);
    if o < |s.out| + |us| {
      assert HandleStream(s, request, ev, pick).out[o] == us[o - |s.out|];
      assert us[o - |s.out|] in us;
    }
  }

  /**
   In every run, whatever the map order: each update and each answer that a streaming message produces
   goes to the editor request and session of the prompt that was last issued the message's request
   id, as long as no live prompt is 2^32 ids old.
   */
  lemma StreamGoesToItsIssuer(events: seq<(Event, bool)>, n: nat, request: nat, ev: StreamEvent, pick: AcpId, o: nat)
    returns (i: nat)
    requires n < |events| && events[n].0 == FromDaemon(Stream(request, ev), pick)
    requires Recent(Exec(events[..n]))
    requires |Exec(events[..n]).out| <= o < |Exec(events[..n + 1]).out|
    ensures LastIssued(events, i, n, request)
    ensures BelongsTo(Exec(events[..n + 1]).out[o], events[i].0)
  {
    var s := Exec(events[..n]);
    assert events[..n + 1][..n] == events[..n];
    assert Exec(events[..n + 1]) == HandleStream(s, request, ev, pick);
    StreamOutput(s, request, ev, pick, o);
    TrackedPromptsAreOk(events[..n]);
    assert PromptOk(s, pick);
    i := TrackedPromptWasStarted(events[..n], pick);
    assert events[..n][..i] == events[..i];
    IssueIsLast(events, i, n, s.pending.prompts[pick], pick);
  }
}
