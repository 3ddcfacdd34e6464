/**
 The bridge's tables, entry by entry, told from the events of a run: which prompt is tracked, which request
 waits under which kind, who waits for the model list, and what a session's settings are.
 */
module AcpTables {
  import opened Options
  import opened Acp
  import opened AcpLaws
  import opened AcpHistory
  import opened AcpStory

  // ----- Prompts -----

  /** The event starts a prompt on this session: it is known and idle, and the daemon can be reached. */
  predicate Begins(s: State, event: Event, up: bool, key: AcpId) {
    && up && Spends(s, event) && event.call.prompt.value == key
    && s.sessions.byId[key].active.None?
  }

  /** The event ends the prompt tracked under this key: its last streaming message, or the loss of the daemon. */
  ghost predicate Finishes(s: State, event: Event, key: AcpId) {
    && s.status == Running && key in s.pending.prompts && Admissible(s, event)
    && match event
       case FromDaemon(Stream(request, ev), pick) =>
         pick == key && s.pending.prompts[key].request == request && (ev.Done? || ev.Failed? || ev.Cancelled?)
       case DaemonDisconnected(_, _) => true
       case _ => false
  }

  function PromptAt(s: State, key: AcpId): Option<Prompt> {
    if key in s.pending.prompts then Some(s.pending.prompts[key]) else None
  }

  /** What a turn leaves tracked under a key. */
  ghost function PromptAfter(s: State, event: Event, up: bool, key: AcpId): Option<Prompt> {
    if Begins(s, event, up, key) then Some(Prompt(event.id, s.sessions.nextRequest, key, s.issued))
    else if Finishes(s, event, key) then None
    else PromptAt(s, key)
  }

  lemma StreamPrompts(s: State, request: nat, ev: StreamEvent, pick: AcpId, key: AcpId)
    requires PromptsOk(s)
    ensures PromptAt(HandleStream(s, request, ev, pick), key) ==
            if Carries(s, pick, request) && pick == key && (ev.Done? || ev.Failed? || ev.Cancelled?) then None
            else PromptAt(s, key)
  {
    if Carries(s, pick, request) { assert PromptOk(s, pick); }
  }

  lemma RequestPrompts(s: State, id: nat, call: Call, up: bool, key: AcpId)
    requires s.status == Running && s.initialized && HandleRequest(s, id, call, up).status != Aborted
    ensures PromptAt(HandleRequest(s, id, call, up), key) ==
            if Begins(s, Request(id, call), up, key) then Some(Prompt(id, s.sessions.nextRequest, key, s.issued))
            else PromptAt(s, key)
  {
    match call
    case SessionPrompt(_) =>
    case SessionClose(_) =>
    case _ => RequestKeepsCore(s, id, call, up);
  }

  /** A turn tracks exactly the prompt it starts and drops exactly the one it finishes. */
  lemma StepPrompts(s: State, event: Event, up: bool, key: AcpId)
    requires s.status == Running && PromptsOk(s) && Step(s, event, up).status != Aborted
    ensures PromptAt(Step(s, event, up), key) == PromptAfter(s, event, up, key)
  {
    if Admissible(s, event) {
      match event
      case Request(id, call) =>
        if s.initialized { RequestPrompts(s.(received := s.received + [id]), id, call, up, key); }
      case FromDaemon(msg, pick) =>
        if msg.Stream? {
          StreamPrompts(s, msg.request, msg.event, pick, key);
        } else {
          DaemonOnlyAnswers(s, msg, pick, up);
        }
      case DaemonDisconnected(promptOrder, syncOrder) => DrainedPromptsGone(s, promptOrder, syncOrder);
      case _ =>
    }
  }

  /** A prompt on an idle known session, with the daemon reachable, is accepted: tracked under its own id. */
  lemma PromptIsAccepted(events: seq<(Event, bool)>, id: nat, key: AcpId)
    requires Exec(events).status == Running && Exec(events).initialized
    requires key in Exec(events).sessions.byId && Exec(events).sessions.byId[key].active.None?
    ensures var s, t := Exec(events), Step(Exec(events), Request(id, SessionPrompt(Some(key))), true);
            && t.status == Running && t.out == s.out
            && PromptAt(t, key) == Some(Prompt(id, s.sessions.nextRequest, key, s.issued))
            && key in t.sessions.byId && t.sessions.byId[key].active == Some(s.sessions.nextRequest)
            && t.issued == s.issued + 1
  {}

  ghost predicate BeginsAt(events: seq<(Event, bool)>, k: nat, key: AcpId, p: Prompt) {
    && k < |events|
    && Begins(Exec(events[..k]), events[k].0, events[k].1, key)
    && p == Prompt(events[k].0.id, Exec(events[..k]).sessions.nextRequest, key, Exec(events[..k]).issued)
  }

  ghost predicate TouchedAt(events: seq<(Event, bool)>, m: nat, key: AcpId) {
    && m < |events|
    && (Begins(Exec(events[..m]), events[m].0, events[m].1, key) || Finishes(Exec(events[..m]), events[m].0, key))
  }

  /** Event `k` started the prompt, and nothing has finished it or started another on its session since. */
  ghost predicate InProgress(events: seq<(Event, bool)>, k: nat, key: AcpId, p: Prompt) {
    BeginsAt(events, k, key, p) && forall m :: k < m < |events| ==> !TouchedAt(events, m, key)
  }

  lemma InProgressNext(events: seq<(Event, bool)>, k: nat, key: AcpId, p: Prompt)
    requires events != [] && k < |events| - 1
    ensures var n := |events| - 1;
            InProgress(events, k, key, p) <==> InProgress(events[..n], k, key, p) && !TouchedAt(events, n, key)
  {
    var n := |events| - 1;
    assert events[..n][..k] == events[..k];
    forall m | k < m < n ensures TouchedAt(events[..n], m, key) <==> TouchedAt(events, m, key) {
      assert events[..n][..m] == events[..m];
    }
    if InProgress(events[..n], k, key, p) && !TouchedAt(events, n, key) {
      forall m | k < m < |events| ensures !TouchedAt(events, m, key) {
        if m < n { assert !TouchedAt(events[..n], m, key); }
      }
    }
  }

  /** Some event started the prompt, and it has not finished since. */
  ghost predicate Ongoing(events: seq<(Event, bool)>, key: AcpId, p: Prompt) {
    exists k: nat :: InProgress(events, k, key, p)
  }

  lemma OngoingNext(events: seq<(Event, bool)>, key: AcpId, p: Prompt)
    requires events != []
    ensures var n := |events| - 1;
            Ongoing(events, key, p) <==>
            BeginsAt(events, n, key, p) || (Ongoing(events[..n], key, p) && !TouchedAt(events, n, key))
  {
    var n := |events| - 1;
    if Ongoing(events, key, p) {
      var k: nat :| InProgress(events, k, key, p);
      if k < n { InProgressNext(events, k, key, p); }
    }
    if Ongoing(events[..n], key, p) && !TouchedAt(events, n, key) {
      var k: nat :| InProgress(events[..n], k, key, p);
      InProgressNext(events, k, key, p);
    }
    if BeginsAt(events, n, key, p) { assert InProgress(events, n, key, p); }
  }

  /**
   In every run that is still going, a prompt is tracked under a session if and only if an event started it
   there and it has not finished since.
   */
  lemma {:induction false} PromptTrackedExactly(events: seq<(Event, bool)>, key: AcpId, p: Prompt)
    requires Exec(events).status == Running
    ensures PromptAt(Exec(events), key) == Some(p) <==> Ongoing(events, key, p)
    decreases |events|
  {
    if events != [] {
      var n := |events| - 1;
      StillRunning(events);
      PromptTrackedExactly(events[..n], key, p);
      TrackedPromptsAreOk(events[..n]);
      StepPrompts(Exec(events[..n]), events[n].0, events[n].1, key);
      OngoingNext(events, key, p);
    }
  }

  lemma StillRunning(events: seq<(Event, bool)>)
    requires events != [] && Exec(events).status == Running
    ensures Exec(events[..|events| - 1]).status == Running
  {}

  // ----- Requests that wait for the daemon -----

  function SyncAt(s: State, kind: Kind): Option<nat> {
    if kind in s.pending.sync then Some(s.pending.sync[kind]) else None
  }

  /** The event is a daemon message that settles this kind. */
  predicate SettlesKind(s: State, event: Event, kind: Kind) {
    && s.status == Running && event.FromDaemon?
    && Settles(s, event.msg).Some? && Settles(s, event.msg).value.0 == kind
  }

  /** What a turn leaves waiting under a kind. */
  function SyncAfter(s: State, event: Event, up: bool, kind: Kind): Option<nat> {
    if Parks(s, event, up) == Some(kind) then Some(Parked(s, event))
    else if SettlesKind(s, event, kind) then None
    else SyncAt(s, kind)
  }

  lemma RequestSync(s: State, id: nat, call: Call, up: bool, kind: Kind)
    requires s.status == Running && s.initialized && HandleRequest(s, id, call, up).status != Aborted
    ensures SyncAt(HandleRequest(s, id, call, up), kind) ==
            if Parks(s, Request(id, call), up) == Some(kind) then Some(id) else SyncAt(s, kind)
  {
    match call
    case SessionSetConfig(config) => ConfigSync(s, id, config, up, kind);
    case SessionDelete(k) => DeleteSync(s, id, k, up, kind);
    case _ =>
  }

  lemma ConfigSync(s: State, id: nat, config: Option<(AcpId, ConfigOption)>, up: bool, kind: Kind)
    requires s.status == Running && s.initialized && SetConfig(s, id, config, up).status != Aborted
    ensures SyncAt(SetConfig(s, id, config, up), kind) ==
            if Parks(s, Request(id, SessionSetConfig(config)), up) == Some(kind) then Some(id) else SyncAt(s, kind)
  {
    if config.Some? {
      match config.value.1 { case ModelOption(_) => case EffortOption(_) => case _ => }
    }
  }

  lemma DeleteSync(s: State, id: nat, k: AcpId, up: bool, kind: Kind)
    requires s.status == Running && s.initialized && DeleteOneSession(s, id, k, up).status != Aborted
    ensures SyncAt(DeleteOneSession(s, id, k, up), kind) ==
            if Parks(s, Request(id, SessionDelete(k)), up) == Some(kind) then Some(id) else SyncAt(s, kind)
  {}

  lemma ResolveSync(s: State, settled: Kind, answer: Answer, kind: Kind)
    ensures SyncAt(Resolve(s, settled, answer), kind) == if kind == settled then None else SyncAt(s, kind)
  {}

  lemma ModelsSync(s: State, selected: Option<string>, pick: AcpId, up: bool, kind: Kind)
    requires s.status == Running && HandleModels(s, selected, up).status != Aborted
    ensures SyncAt(HandleModels(s, selected, up), kind) == SyncAfter(s, FromDaemon(Models(selected), pick), up, kind)
  {
    if s.pending.models.None? {
      ResolveSync(TakeConfigSession(WithModel(s, selected), SetModel), SetModel, Result, kind);
    }
  }

  lemma CreatedSync(s: State, d: nat, pick: AcpId, up: bool, kind: Kind)
    requires s.status == Running && HandleCreated(s, d, up).status != Aborted
    ensures SyncAt(HandleCreated(s, d, up), kind) == SyncAfter(s, FromDaemon(SessionCreated(d), pick), up, kind)
  {
    ResolveSync(CreateMapping(s, d), CreateSession, Result, kind);
  }

  lemma DeletedSync(s: State, d: nat, pick: AcpId, up: bool, kind: Kind)
    requires s.status == Running
    ensures SyncAt(HandleDeleted(s, d), kind) == SyncAfter(s, FromDaemon(SessionDeleted(d), pick), up, kind)
  {
    var removed := if d in s.sessions.byDaemon then RemoveSession(s, s.sessions.byDaemon[d]) else s;
    ResolveSync(removed, DeleteSession(d), Result, kind);
  }

  lemma EffortSync(s: State, effort: string, kind: Kind)
    ensures SyncAt(HandleEffortSet(s, effort), kind) == if kind == SetReasoningEffort then None else SyncAt(s, kind)
  {
    var t := TakeConfigSession(WithEffort(s, effort), SetReasoningEffort);
    ResolveSync(t, SetReasoningEffort, Result, kind);
  }

  lemma FailedSync(s: State, failed: Kind, kind: Kind)
    ensures SyncAt(HandleConfigFailed(s, failed), kind) == if kind == failed then None else SyncAt(s, kind)
  {
    ResolveSync(TakeConfigSession(s, failed), failed, Error(-32000), kind);
  }

  lemma DaemonSync(s: State, msg: DaemonMessage, pick: AcpId, up: bool, kind: Kind)
    requires s.status == Running && HandleDaemon(s, msg, pick, up).status != Aborted
    ensures SyncAt(HandleDaemon(s, msg, pick, up), kind) == SyncAfter(s, FromDaemon(msg, pick), up, kind)
  {
    match msg
    case Models(selected) => ModelsSync(s, selected, pick, up, kind);
    case SessionCreated(d) => CreatedSync(s, d, pick, up, kind);
    case SessionDeleted(d) => DeletedSync(s, d, pick, up, kind);
    case _ => PlainSync(s, msg, pick, up, kind);
  }

  lemma PlainSync(s: State, msg: DaemonMessage, pick: AcpId, up: bool, kind: Kind)
    requires s.status == Running && !msg.Models? && !msg.SessionCreated? && !msg.SessionDeleted?
    ensures SyncAt(HandleDaemon(s, msg, pick, up), kind) == SyncAfter(s, FromDaemon(msg, pick), up, kind)
  {
    match msg
    case SessionList_(_) => ResolveSync(s, ListSessions, Result, kind);
    case SessionDeleteFailed(d) => ResolveSync(s, DeleteSession(d), Error(-32000), kind);
    case ModelSelectionFailed => FailedSync(s, SetModel, kind);
    case ReasoningEffortSet(effort) => EffortSync(s, effort, kind);
    case ReasoningEffortSetFailed => FailedSync(s, SetReasoningEffort, kind);
    case Stream(_, _) =>
    case Unrelated =>
  }

  /** A turn leaves waiting exactly what it parks and what it does not settle. */
  lemma StepSync(s: State, event: Event, up: bool, kind: Kind)
    requires s.status == Running && Step(s, event, up).status == Running
    ensures SyncAt(Step(s, event, up), kind) == SyncAfter(s, event, up, kind)
  {
    if Admissible(s, event) {
      match event
      case Request(id, call) =>
        if s.initialized { RequestSync(s.(received := s.received + [id]), id, call, up, kind); }
      case FromDaemon(msg, pick) => DaemonSync(s, msg, pick, up, kind);
      case DaemonDisconnected(promptOrder, syncOrder) => DisconnectHistoriesKept(s, promptOrder, syncOrder);
      case _ =>
    }
  }

  ghost predicate ParkedAt(events: seq<(Event, bool)>, k: nat, kind: Kind, j: nat) {
    && k < |events|
    && Parks(Exec(events[..k]), events[k].0, events[k].1) == Some(kind)
    && Parked(Exec(events[..k]), events[k].0) == j
  }

  ghost predicate MovedAt(events: seq<(Event, bool)>, m: nat, kind: Kind) {
    && m < |events|
    && (|| Parks(Exec(events[..m]), events[m].0, events[m].1) == Some(kind)
        || SettlesKind(Exec(events[..m]), events[m].0, kind))
  }

  /** Event `k` parked the request, and nothing has settled the kind or parked another under it since. */
  ghost predicate StillParked(events: seq<(Event, bool)>, k: nat, kind: Kind, j: nat) {
    ParkedAt(events, k, kind, j) && forall m :: k < m < |events| ==> !MovedAt(events, m, kind)
  }

  lemma StillParkedNext(events: seq<(Event, bool)>, k: nat, kind: Kind, j: nat)
    requires events != [] && k < |events| - 1
    ensures var n := |events| - 1;
            StillParked(events, k, kind, j) <==> StillParked(events[..n], k, kind, j) && !MovedAt(events, n, kind)
  {
    var n := |events| - 1;
    assert events[..n][..k] == events[..k];
    forall m | k < m < n ensures MovedAt(events[..n], m, kind) <==> MovedAt(events, m, kind) {
      assert events[..n][..m] == events[..m];
    }
    if StillParked(events[..n], k, kind, j) && !MovedAt(events, n, kind) {
      forall m | k < m < |events| ensures !MovedAt(events, m, kind) {
        if m < n { assert !MovedAt(events[..n], m, kind); }
      }
    }
  }

  /** Some event parked the request, and it has been left there since. */
  ghost predicate LeftWaiting(events: seq<(Event, bool)>, kind: Kind, j: nat) {
    exists k: nat :: StillParked(events, k, kind, j)
  }

  lemma LeftWaitingNext(events: seq<(Event, bool)>, kind: Kind, j: nat)
    requires events != []
    ensures var n := |events| - 1;
            LeftWaiting(events, kind, j) <==>
            ParkedAt(events, n, kind, j) || (LeftWaiting(events[..n], kind, j) && !MovedAt(events, n, kind))
  {
    var n := |events| - 1;
    if LeftWaiting(events, kind, j) {
      var k: nat :| StillParked(events, k, kind, j);
      if k < n { StillParkedNext(events, k, kind, j); }
    }
    if LeftWaiting(events[..n], kind, j) && !MovedAt(events, n, kind) {
      var k: nat :| StillParked(events[..n], k, kind, j);
      StillParkedNext(events, k, kind, j);
    }
    if ParkedAt(events, n, kind, j) { assert StillParked(events, n, kind, j); }
  }

  /**
   In every run that is still going, a request waits under a kind if and only if an event parked it there and
   no event has settled that kind or parked another under it since.
   */
  lemma {:induction false} WaitsExactly(events: seq<(Event, bool)>, kind: Kind, j: nat)
    requires Exec(events).status == Running
    ensures Waits(Exec(events), kind, j) <==> LeftWaiting(events, kind, j)
    decreases |events|
  {
    if events != [] {
      var n := |events| - 1;
      StillRunning(events);
      WaitsExactly(events[..n], kind, j);
      StepSync(Exec(events[..n]), events[n].0, events[n].1, kind);
      LeftWaitingNext(events, kind, j);
    }
  }

  // ----- The model list, initialization and the end of the loop -----

  /** The event is a session/new that may go ahead: nobody else waits for the model list. */
  predicate AsksModels(s: State, event: Event, up: bool) {
    s.initialized && up && event.Request? && event.call.SessionNew? && s.pending.models.None?
  }

  /** The event has a message to send to the daemon. */
  predicate NeedsDaemon(s: State, event: Event) {
    match event
    case Request(_, SessionNew(_)) => s.initialized && s.pending.models.None?
    case Request(_, SessionPrompt(Some(k))) =>
      s.initialized && k in s.sessions.byId && s.sessions.byId[k].active.None?
    case Request(_, _) => Parks(s, event, true).Some?
    case FromDaemon(Models(_), _) => s.pending.models.Some?
    case FromDaemon(SessionCreated(_), _) => CreateSession in s.pending.sync
    case Cancel(k) => s.initialized && k in s.pending.prompts
    case _ => false
  }

  /** The slot for the model list, initialization, and how the loop ends, turn by turn. */
  lemma StepControl(s: State, event: Event, up: bool)
    requires s.status == Running && Admissible(s, event)
    ensures var t := Step(s, event, up);
            && (t.initialized <==> s.initialized || (event.Request? && event.call.Initialize?))
            && (t.status == Stopped <==> event.EditorEof? || event.DaemonDisconnected?)
            && (t.status == Aborted <==> !up && NeedsDaemon(s, event))
            && (t.status == Running ==>
                  t.pending.models ==
                  if AsksModels(s, event, up) then Some(event.id)
                  else if event.FromDaemon? && event.msg.Models? then None
                  else s.pending.models)
  {
    match event
    case Request(id, call) => if s.initialized { RequestControl(s.(received := s.received + [id]), id, call, up); }
    case FromDaemon(msg, pick) => DaemonControl(s, msg, pick, up);
    case DaemonDisconnected(promptOrder, syncOrder) => DisconnectControl(s, promptOrder, syncOrder);
    case _ =>
  }

  lemma RequestControl(s: State, id: nat, call: Call, up: bool)
    requires s.status == Running && s.initialized
    ensures var t := HandleRequest(s, id, call, up);
            && t.initialized && t.status != Stopped
            && (t.status == Aborted <==> !up && NeedsDaemon(s, Request(id, call)))
            && t.pending.models == if AsksModels(s, Request(id, call), up) then Some(id) else s.pending.models
  {
    match call
    case SessionSetConfig(config) =>
      if config.Some? { match config.value.1 { case ModelOption(_) => case EffortOption(_) => case _ => } }
    case _ =>
  }

  lemma DaemonControl(s: State, msg: DaemonMessage, pick: AcpId, up: bool)
    requires s.status == Running
    ensures var t := HandleDaemon(s, msg, pick, up);
            && t.initialized == s.initialized && t.status != Stopped
            && (t.status == Aborted <==> !up && NeedsDaemon(s, FromDaemon(msg, pick)))
            && t.pending.models == if msg.Models? then None else s.pending.models
  {
    match msg
    case Models(_) =>
    case SessionCreated(_) =>
    case SessionDeleted(_) =>
    case _ =>
  }

  lemma {:induction false} DrainKeepsInitialized(s: State, order: seq<AcpId>)
    requires forall k :: k in order ==> k in s.pending.prompts
    requires forall x, y :: 0 <= x < y < |order| ==> order[x] != order[y]
    ensures DrainPrompts(s, order).initialized == s.initialized
    decreases |order|
  {
    if order != [] {
      var answered := Respond(s, s.pending.prompts[order[0]].id, Error(-32001));
      DrainKeepsInitialized(CleanupPrompt(answered, order[0]), order[1..]);
    }
  }

  lemma {:induction false} DrainSyncKeepsInitialized(s: State, order: seq<Kind>)
    requires forall k :: k in order ==> k in s.pending.sync
    requires forall x, y :: 0 <= x < y < |order| ==> order[x] != order[y]
    ensures DrainSync(s, order).initialized == s.initialized
    decreases |order|
  {
    if order != [] { DrainSyncKeepsInitialized(Resolve(s, order[0], Error(-32001)), order[1..]); }
  }

  lemma DisconnectControl(s: State, promptOrder: seq<AcpId>, syncOrder: seq<Kind>)
    requires IsOrder(promptOrder, s.pending.prompts.Keys) && IsOrder(syncOrder, s.pending.sync.Keys)
    ensures Disconnect(s, promptOrder, syncOrder).initialized == s.initialized
    ensures Disconnect(s, promptOrder, syncOrder).status == Stopped
  {
    DrainKeepsInitialized(s, promptOrder);
    DrainPromptsFrame(s, promptOrder);
    DrainSyncKeepsInitialized(DrainPrompts(s, promptOrder), syncOrder);
  }

  // ----- Settings -----

  function ConfigAt(s: State, kind: Kind): Option<AcpId> {
    if kind in s.pending.configSessions then Some(s.pending.configSessions[kind]) else None
  }

  /** A turn remembers the session of a setting it parks, and forgets it when the setting is settled. */
  lemma StepConfig(s: State, event: Event, up: bool, kind: Kind)
    requires s.status == Running && Step(s, event, up).status == Running
    requires kind == SetModel || kind == SetReasoningEffort
    ensures ConfigAt(Step(s, event, up), kind) ==
            if event.Request? && Parks(s, event, up) == Some(kind) then Some(event.call.config.value.0)
            else if SettlesKind(s, event, kind) && kind in s.pending.sync then None
            else ConfigAt(s, kind)
  {
    if Admissible(s, event) {
      match event
      case Request(id, call) =>
        if s.initialized { RequestConfig(s.(received := s.received + [id]), id, call, up, kind); }
      case FromDaemon(msg, pick) => DaemonConfig(s, msg, pick, up, kind);
      case DaemonDisconnected(promptOrder, syncOrder) => DisconnectControl(s, promptOrder, syncOrder);
      case _ =>
    }
  }

  lemma RequestConfig(s: State, id: nat, call: Call, up: bool, kind: Kind)
    requires s.status == Running && s.initialized && HandleRequest(s, id, call, up).status != Aborted
    requires kind == SetModel || kind == SetReasoningEffort
    ensures ConfigAt(HandleRequest(s, id, call, up), kind) ==
            if Parks(s, Request(id, call), up) == Some(kind) then Some(call.config.value.0) else ConfigAt(s, kind)
  {
    match call
    case SessionSetConfig(config) =>
      if config.Some? { match config.value.1 { case ModelOption(_) => case EffortOption(_) => case _ => } }
    case _ =>
  }

  lemma ResolveConfig(s: State, settled: Kind, answer: Answer, kind: Kind)
    ensures ConfigAt(Resolve(s, settled, answer), kind) == ConfigAt(s, kind)
  {}

  lemma DaemonConfig(s: State, msg: DaemonMessage, pick: AcpId, up: bool, kind: Kind)
    requires s.status == Running && (kind == SetModel || kind == SetReasoningEffort)
    ensures ConfigAt(HandleDaemon(s, msg, pick, up), kind) ==
            if SettlesKind(s, FromDaemon(msg, pick), kind) && kind in s.pending.sync then None else ConfigAt(s, kind)
  {
    match msg
    case Models(selected) => ModelsConfig(s, selected, up, kind);
    case ReasoningEffortSet(effort) => EffortConfig(s, effort, kind);
    case ModelSelectionFailed => FailedConfig(s, SetModel, kind);
    case ReasoningEffortSetFailed => FailedConfig(s, SetReasoningEffort, kind);
    case _ => OthersKeepConfig(s, msg, pick, up);
  }

  lemma OthersKeepConfig(s: State, msg: DaemonMessage, pick: AcpId, up: bool)
    requires !msg.Models? && !msg.ReasoningEffortSet? && !msg.ModelSelectionFailed? && !msg.ReasoningEffortSetFailed?
    ensures HandleDaemon(s, msg, pick, up).pending.configSessions == s.pending.configSessions
  {}

  lemma EffortConfig(s: State, effort: string, kind: Kind)
    ensures ConfigAt(HandleEffortSet(s, effort), kind) ==
            if kind == SetReasoningEffort && kind in s.pending.sync then None else ConfigAt(s, kind)
  {
    ResolveConfig(TakeConfigSession(WithEffort(s, effort), SetReasoningEffort), SetReasoningEffort, Result, kind);
  }

  lemma FailedConfig(s: State, failed: Kind, kind: Kind)
    ensures ConfigAt(HandleConfigFailed(s, failed), kind) ==
            if kind == failed && kind in s.pending.sync then None else ConfigAt(s, kind)
  {
    ResolveConfig(TakeConfigSession(s, failed), failed, Error(-32000), kind);
  }

  lemma ModelsConfig(s: State, selected: Option<string>, up: bool, kind: Kind)
    requires kind == SetModel || kind == SetReasoningEffort
    ensures ConfigAt(HandleModels(s, selected, up), kind) ==
            if s.pending.models.None? && kind == SetModel && kind in s.pending.sync then None else ConfigAt(s, kind)
  {
    ResolveConfig(TakeConfigSession(WithModel(s, selected), SetModel), SetModel, Result, kind);
  }

  /** The event confirms a change of this kind, asked for on this session. */
  predicate Confirms(s: State, event: Event, kind: Kind, id: AcpId) {
    && s.status == Running && event.FromDaemon? && kind in s.pending.sync && ConfigAt(s, kind) == Some(id)
    && (kind == SetModel ==> event.msg.Models? && s.pending.models.None?)
    && (kind == SetReasoningEffort ==> event.msg.ReasoningEffortSet?)
  }

  /** A session's model and effort are those last confirmed for it, turn by turn; a new session has neither. */
  lemma StepSettings(s: State, event: Event, up: bool, id: AcpId)
    requires id in Step(s, event, up).sessions.byId
    requires s.sessions.byId.Keys !! {Sess(s.sessions.nextSerial)}
    ensures var v := Step(s, event, up).sessions.byId[id];
            if id in s.sessions.byId
            then
              && v.model == (if Confirms(s, event, SetModel, id) then event.msg.selected
                             else s.sessions.byId[id].model)
              && v.effort == (if Confirms(s, event, SetReasoningEffort, id) then Some(event.msg.effort)
                              else s.sessions.byId[id].effort)
            else v.model == None && v.effort == None
  {
    if s.status == Running && Admissible(s, event) {
      match event
      case Request(rid, call) =>
        if s.initialized { RequestSettings(s.(received := s.received + [rid]), rid, call, up, id); }
      case FromDaemon(msg, pick) => DaemonSettings(s, msg, pick, up, id);
      case DaemonDisconnected(promptOrder, syncOrder) => DisconnectSettings(s, promptOrder, syncOrder, id);
      case _ =>
    }
  }

  predicate SameSettings(s: State, t: State, id: AcpId) {
    && (id in t.sessions.byId ==> id in s.sessions.byId)
    && (id in t.sessions.byId && id in s.sessions.byId ==>
          && t.sessions.byId[id].model == s.sessions.byId[id].model
          && t.sessions.byId[id].effort == s.sessions.byId[id].effort)
  }

  lemma RequestSettings(s: State, rid: nat, call: Call, up: bool, id: AcpId)
    ensures SameSettings(s, HandleRequest(s, rid, call, up), id)
  {
    match call
    case SessionPrompt(_) =>
    case SessionClose(_) =>
    case _ => RequestKeepsCore(s, rid, call, up);
  }

  lemma DaemonSettings(s: State, msg: DaemonMessage, pick: AcpId, up: bool, id: AcpId)
    requires s.status == Running && id in HandleDaemon(s, msg, pick, up).sessions.byId
    requires s.sessions.byId.Keys !! {Sess(s.sessions.nextSerial)}
    ensures var event, v := FromDaemon(msg, pick), HandleDaemon(s, msg, pick, up).sessions.byId[id];
            if id in s.sessions.byId
            then
              && v.model == (if Confirms(s, event, SetModel, id) then msg.selected else s.sessions.byId[id].model)
              && v.effort == (if Confirms(s, event, SetReasoningEffort, id) then Some(msg.effort)
                              else s.sessions.byId[id].effort)
            else v.model == None && v.effort == None
  {
    match msg
    case Models(selected) => ModelsSettings(s, selected, pick, up, id);
    case ReasoningEffortSet(effort) => EffortSettings(s, effort, pick, id);
    case SessionCreated(_) =>
    case _ => OtherSettings(s, msg, pick, up, id);
  }

  lemma ModelsSettings(s: State, selected: Option<string>, pick: AcpId, up: bool, id: AcpId)
    requires s.status == Running && id in HandleModels(s, selected, up).sessions.byId
    ensures id in s.sessions.byId
    ensures var v := HandleModels(s, selected, up).sessions.byId[id];
            && v.model == (if Confirms(s, FromDaemon(Models(selected), pick), SetModel, id) then selected
                           else s.sessions.byId[id].model)
            && v.effort == s.sessions.byId[id].effort
  {
    WithModelSettings(s, selected, id);
  }

  lemma WithModelSettings(s: State, selected: Option<string>, id: AcpId)
    ensures id in WithModel(s, selected).sessions.byId <==> id in s.sessions.byId
    ensures id in s.sessions.byId ==>
              WithModel(s, selected).sessions.byId[id] ==
              if ConfigAt(s, SetModel) == Some(id) then s.sessions.byId[id].(model := selected)
              else s.sessions.byId[id]
  {}

  lemma EffortSettings(s: State, effort: string, pick: AcpId, id: AcpId)
    requires s.status == Running && id in HandleEffortSet(s, effort).sessions.byId
    ensures id in s.sessions.byId
    ensures var v := HandleEffortSet(s, effort).sessions.byId[id];
            && v.effort == (if Confirms(s, FromDaemon(ReasoningEffortSet(effort), pick), SetReasoningEffort, id)
                            then Some(effort) else s.sessions.byId[id].effort)
            && v.model == s.sessions.byId[id].model
  {}

  lemma OtherSettings(s: State, msg: DaemonMessage, pick: AcpId, up: bool, id: AcpId)
    requires !msg.Models? && !msg.ReasoningEffortSet? && !msg.SessionCreated?
    ensures SameSettings(s, HandleDaemon(s, msg, pick, up), id)
  {
    match msg
    case Stream(_, _) =>
    case SessionDeleted(_) =>
    case _ =>
  }

  lemma {:induction false} DrainSettings(s: State, order: seq<AcpId>, id: AcpId)
    requires forall k :: k in order ==> k in s.pending.prompts
    requires forall x, y :: 0 <= x < y < |order| ==> order[x] != order[y]
    ensures SameSettings(s, DrainPrompts(s, order), id)
    decreases |order|
  {
    if order != [] {
      var answered := Respond(s, s.pending.prompts[order[0]].id, Error(-32001));
      DrainSettings(CleanupPrompt(answered, order[0]), order[1..], id);
    }
  }

  lemma DisconnectSettings(s: State, promptOrder: seq<AcpId>, syncOrder: seq<Kind>, id: AcpId)
    requires IsOrder(promptOrder, s.pending.prompts.Keys) && IsOrder(syncOrder, s.pending.sync.Keys)
    ensures SameSettings(s, Disconnect(s, promptOrder, syncOrder), id)
  {
    DrainSettings(s, promptOrder, id);
    DrainPromptsFrame(s, promptOrder);
    DrainSyncKeepsSessions(DrainPrompts(s, promptOrder), syncOrder);
  }
}
