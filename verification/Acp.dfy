/**
 The ACP bridge's event loop: editor requests come in, daemon messages come back, and every editor
 request must be answered.  `Step` is one turn of the loop over values; `AcpLoop` runs it on the
 bridge's own mutable tables.
 */
module Acp {
  import opened Options

  const ID_SPACE := 0x1_0000_0000

  /** `sess_<n>` for the ids the bridge mints, anything else the editor may write. */
  datatype AcpId = Sess(serial: nat) | Other(text: string)

  datatype Kind = CreateSession | ListSessions | DeleteSession(daemonId: nat) | SetModel | SetReasoningEffort

  datatype EffortValue = Level(name: string) | UnknownLevel | NotAString

  datatype ConfigOption =
    | ModelOption(value: Option<string>)
    | EffortOption(effort: EffortValue)
    | ToolGroupsOption
    | UnknownOption

  /** A method with its parsed parameters; `None` and `Other("")` stand for parameters that do not parse. */
  datatype Call =
    | Initialize
    | SessionNew(account: Option<string>)
    | SessionLoad(session: AcpId)
    | SessionList
    | SessionDelete(session: AcpId)
    | SessionClose(session: AcpId)
    | SessionSetConfig(config: Option<(AcpId, ConfigOption)>)
    | SessionPrompt(prompt: Option<AcpId>)
    | UnknownMethod

  datatype StreamEvent =
    | OutputChunk | ToolCallStarted | ToolResultChunk | ToolCallFinished | ToolCallFailed
    | Done(hasUsage: bool) | Failed | Cancelled

  datatype DaemonMessage =
    | Models(selected: Option<string>)
    | SessionCreated(session: nat)
    | SessionList_(sessions: seq<nat>)
    | SessionDeleted(session: nat)
    | SessionDeleteFailed(session: nat)
    | ModelSelectionFailed
    | ReasoningEffortSet(effort: string)
    | ReasoningEffortSetFailed
    | Stream(request: nat, event: StreamEvent)
    | Unrelated

  /**
   `pick` is the prompt `find_by_request_id` comes across first, and the two orders are the ones in
   which the hash maps drain.
   */
  datatype Event =
    | Request(id: nat, call: Call)
    | Cancel(session: AcpId)
    | InitializedNote
    | OtherNote
    | FromDaemon(msg: DaemonMessage, pick: AcpId)
    | DaemonDisconnected(promptOrder: seq<AcpId>, syncOrder: seq<Kind>)
    | EditorEof

  datatype Answer = Result | Error(code: int)

  datatype UpdateKind = Text | ToolCall | ToolUpdate | Usage | Status

  /** `prompt` records which request an update was written for; it is not on the wire. */
  datatype Output =
    | Reply(id: nat, answer: Answer)
    | Update(session: AcpId, prompt: nat, kind: UpdateKind)

  datatype Session = Session(daemonId: nat, active: Option<nat>, model: Option<string>, effort: Option<string>)

  /** `serial` records how many request ids had been issued before this one. */
  datatype Prompt = Prompt(id: nat, request: nat, session: AcpId, serial: nat)

  datatype Pending = Pending(
    sync: map<Kind, nat>,
    prompts: map<AcpId, Prompt>,
    models: Option<nat>,
    configSessions: map<Kind, AcpId>)

  datatype Sessions = Sessions(byId: map<AcpId, Session>, byDaemon: map<nat, AcpId>, nextRequest: nat, nextSerial: nat)

  datatype RunStatus = Running | Stopped | Aborted

  /** `received`, `strays`, `issued` and `displaced` are histories. */
  datatype State = State(
    initialized: bool,
    sessions: Sessions,
    pending: Pending,
    out: seq<Output>,
    status: RunStatus,
    received: seq<nat>,
    strays: nat,
    issued: nat,
    displaced: seq<nat>)

  const INIT := State(false, Sessions(map[], map[], 1, 1),
    Pending(map[], map[], None, map[]), [], Running, [], 0, 0, [])

  // ----- The tables -----

  function InsertSync(s: State, kind: Kind, id: nat): State {
    s.(pending := s.pending.(sync := s.pending.sync[kind := id]),
       displaced := if kind in s.pending.sync then s.displaced + [s.pending.sync[kind]] else s.displaced)
  }

  function TakeSync(s: State, kind: Kind): State { s.(pending := s.pending.(sync := s.pending.sync - {kind})) }

  function StoreConfigSession(s: State, kind: Kind, session: AcpId): State {
    s.(pending := s.pending.(configSessions := s.pending.configSessions[kind := session]))
  }

  function TakeConfigSession(s: State, kind: Kind): State {
    s.(pending := s.pending.(configSessions := s.pending.configSessions - {kind}))
  }

  function SetSession(s: State, id: AcpId, v: Session): State {
    s.(sessions := s.sessions.(byId := s.sessions.byId[id := v]))
  }

  function CreateMapping(s: State, daemonId: nat): State {
    var id := Sess(s.sessions.nextSerial);
    s.(sessions := s.sessions.(byId := s.sessions.byId[id := Session(daemonId, None, None, None)],
                               byDaemon := s.sessions.byDaemon[daemonId := id],
                               nextSerial := s.sessions.nextSerial + 1))
  }

  function RemoveSession(s: State, id: AcpId): State {
    if id !in s.sessions.byId then s
    else s.(sessions := s.sessions.(byId := s.sessions.byId - {id},
                                    byDaemon := s.sessions.byDaemon - {s.sessions.byId[id].daemonId}))
  }

  function EndPrompt(s: State, id: AcpId): State {
    if id in s.sessions.byId then SetSession(s, id, s.sessions.byId[id].(active := None)) else s
  }

  function Respond(s: State, id: nat, answer: Answer): State { s.(out := s.out + [Reply(id, answer)]) }

  function Abort(s: State): State { s.(status := Aborted) }

  // ----- Editor requests -----

  function NewSession(s: State, id: nat, up: bool): State {
    if s.pending.models.Some? then Respond(s, id, Error(-32000))
    else if !up then Abort(s)
    else s.(pending := s.pending.(models := Some(id)))
  }

  function LoadSession(s: State, id: nat, session: AcpId): State {
    if session == Other("") || session !in s.sessions.byId then Respond(s, id, Error(-32602))
    else Respond(s, id, Result)
  }

  function ListAllSessions(s: State, id: nat, up: bool): State {
    if up then InsertSync(s, ListSessions, id) else Abort(s)
  }

  function DeleteOneSession(s: State, id: nat, session: AcpId, up: bool): State {
    if session !in s.sessions.byId then Respond(s, id, Error(-32602))
    else if !up then Abort(s)
    else InsertSync(s, DeleteSession(s.sessions.byId[session].daemonId), id)
  }

  function CloseSession(s: State, id: nat, session: AcpId): State {
    if session !in s.sessions.byId then Respond(s, id, Error(-32602))
    else Respond(RemoveSession(s, session), id, Result)
  }

  function SetConfig(s: State, id: nat, config: Option<(AcpId, ConfigOption)>, up: bool): State {
    if config.None? || config.value.0 !in s.sessions.byId then Respond(s, id, Error(-32602))
    else
      match config.value.1
      case ModelOption(value) =>
        if value.None? then Respond(s, id, Error(-32602))
        else if !up then Abort(s)
        else StoreConfigSession(InsertSync(s, SetModel, id), SetModel, config.value.0)
      case EffortOption(effort) =>
        if !effort.Level? then Respond(s, id, Error(-32602))
        else if !up then Abort(s)
        else StoreConfigSession(InsertSync(s, SetReasoningEffort, id), SetReasoningEffort, config.value.0)
      case ToolGroupsOption => Respond(s, id, Result)
      case UnknownOption => Respond(s, id, Error(-32602))
  }

  /** `next_request_id` is spent even when the session turns out to be busy. */
  function StartPrompt(s: State, id: nat, target: Option<AcpId>, up: bool): State {
    if target.None? || target.value !in s.sessions.byId then Respond(s, id, Error(-32602))
    else
      var session := target.value;
      var request := s.sessions.nextRequest;
      var spent := s.(sessions := s.sessions.(nextRequest := (request + 1) % ID_SPACE), issued := s.issued + 1);
      if s.sessions.byId[session].active.Some? then Respond(spent, id, Error(-32000))
      else
        var begun := SetSession(spent, session, spent.sessions.byId[session].(active := Some(request)));
        if !up then Abort(begun)
        else begun.(pending := begun.pending.(
                      prompts := begun.pending.prompts[session := Prompt(id, request, session, s.issued)]))
  }

  function HandleRequest(s: State, id: nat, call: Call, up: bool): State {
    match call
    case SessionNew(_) => NewSession(s, id, up)
    case SessionLoad(session) => LoadSession(s, id, session)
    case SessionList => ListAllSessions(s, id, up)
    case SessionDelete(session) => DeleteOneSession(s, id, session, up)
    case SessionClose(session) => CloseSession(s, id, session)
    case SessionSetConfig(config) => SetConfig(s, id, config, up)
    case SessionPrompt(target) => StartPrompt(s, id, target, up)
    case Initialize => Respond(s, id, Error(-32601))
    case UnknownMethod => Respond(s, id, Error(-32601))
  }

  // ----- Daemon messages -----

  /** `translate_message`: the updates one streaming event turns into. */
  function Updates(event: StreamEvent, session: AcpId, prompt: nat): (us: seq<Output>)
    ensures 1 <= |us| <= 2
    ensures forall u :: u in us ==> u.Update? && u.session == session && u.prompt == prompt
  {
    match event
    case OutputChunk => [Update(session, prompt, Text)]
    case ToolCallStarted => [Update(session, prompt, ToolCall)]
    case ToolResultChunk => [Update(session, prompt, ToolUpdate)]
    case ToolCallFinished => [Update(session, prompt, ToolUpdate)]
    case ToolCallFailed => [Update(session, prompt, ToolUpdate)]
    case Done(hasUsage) =>
      (if hasUsage then [Update(session, prompt, Usage)] else []) + [Update(session, prompt, Status)]
    case Failed => [Update(session, prompt, Status)]
    case Cancelled => [Update(session, prompt, Status)]
  }

  predicate Terminal(event: StreamEvent) { event.Done? || event.Failed? || event.Cancelled? }

  function TakePrompt(s: State, session: AcpId): State {
    s.(pending := s.pending.(prompts := s.pending.prompts - {session}))
  }

  function CleanupPrompt(s: State, session: AcpId): State { EndPrompt(TakePrompt(s, session), session) }

  predicate Carries(s: State, key: AcpId, request: nat) {
    key in s.pending.prompts && s.pending.prompts[key].request == request
  }

  function HandleStream(s: State, request: nat, event: StreamEvent, pick: AcpId): State {
    if !Carries(s, pick, request) then s
    else
      var p := s.pending.prompts[pick];
      var streamed := s.(out := s.out + Updates(event, p.session, p.id));
      if Terminal(event) then CleanupPrompt(Respond(streamed, p.id, Result), p.session) else streamed
  }

  /** Answer the request of this kind, if one is waiting. */
  function Resolve(s: State, kind: Kind, answer: Answer): State {
    if kind in s.pending.sync then Respond(TakeSync(s, kind), s.pending.sync[kind], answer) else s
  }

  /** The session waiting for a change of this kind, if it is still there. */
  function ConfigTarget(s: State, kind: Kind): Option<AcpId> {
    if kind in s.pending.configSessions && s.pending.configSessions[kind] in s.sessions.byId
    then Some(s.pending.configSessions[kind]) else None
  }

  function WithModel(s: State, selected: Option<string>): State {
    match ConfigTarget(s, SetModel)
    case Some(k) => SetSession(s, k, s.sessions.byId[k].(model := selected))
    case None => s
  }

  function WithEffort(s: State, effort: string): State {
    match ConfigTarget(s, SetReasoningEffort)
    case Some(k) => SetSession(s, k, s.sessions.byId[k].(effort := Some(effort)))
    case None => s
  }

  function HandleModels(s: State, selected: Option<string>, up: bool): State {
    if s.pending.models.Some? then
      var taken := s.(pending := s.pending.(models := None));
      if up then InsertSync(taken, CreateSession, s.pending.models.value) else Abort(taken)
    else if SetModel !in s.pending.sync then s
    else Resolve(TakeConfigSession(WithModel(s, selected), SetModel), SetModel, Result)
  }

  function HandleCreated(s: State, daemonId: nat, up: bool): State {
    if CreateSession !in s.pending.sync then s
    else
      var created := CreateMapping(s, daemonId);
      if up then Resolve(created, CreateSession, Result) else Abort(TakeSync(created, CreateSession))
  }

  function HandleDeleted(s: State, daemonId: nat): State {
    if DeleteSession(daemonId) !in s.pending.sync then s
    else
      var removed :=
        if daemonId in s.sessions.byDaemon then RemoveSession(s, s.sessions.byDaemon[daemonId]) else s;
      Resolve(removed, DeleteSession(daemonId), Result)
  }

  function HandleEffortSet(s: State, effort: string): State {
    if SetReasoningEffort !in s.pending.sync then s
    else Resolve(TakeConfigSession(WithEffort(s, effort), SetReasoningEffort), SetReasoningEffort, Result)
  }

  /** A refused config change forgets its session along with its request. */
  function HandleConfigFailed(s: State, kind: Kind): State {
    if kind in s.pending.sync then Resolve(TakeConfigSession(s, kind), kind, Error(-32000)) else s
  }

  function HandleDaemon(s: State, msg: DaemonMessage, pick: AcpId, up: bool): State {
    match msg
    case Models(selected) => HandleModels(s, selected, up)
    case SessionCreated(d) => HandleCreated(s, d, up)
    case SessionList_(_) => Resolve(s, ListSessions, Result)
    case SessionDeleted(d) => HandleDeleted(s, d)
    case SessionDeleteFailed(d) => Resolve(s, DeleteSession(d), Error(-32000))
    case ModelSelectionFailed => HandleConfigFailed(s, SetModel)
    case ReasoningEffortSet(effort) => HandleEffortSet(s, effort)
    case ReasoningEffortSetFailed => HandleConfigFailed(s, SetReasoningEffort)
    case Stream(request, event) => HandleStream(s, request, event, pick)
    case Unrelated => s
  }

  // ----- Disconnect -----

  ghost predicate IsOrder<K(!new)>(order: seq<K>, keys: set<K>) {
    && (forall k :: k in order <==> k in keys)
    && (forall i, j :: 0 <= i < j < |order| ==> order[i] != order[j])
  }

  function DrainPrompts(s: State, order: seq<AcpId>): State
    requires forall k :: k in order ==> k in s.pending.prompts
    requires forall i, j :: 0 <= i < j < |order| ==> order[i] != order[j]
    decreases |order|
  {
    if order == [] then s
    else
      var id := s.pending.prompts[order[0]].id;
      DrainPrompts(CleanupPrompt(Respond(s, id, Error(-32001)), order[0]), order[1..])
  }

  function DrainSync(s: State, order: seq<Kind>): State
    requires forall k :: k in order ==> k in s.pending.sync
    requires forall i, j :: 0 <= i < j < |order| ==> order[i] != order[j]
    decreases |order|
  {
    if order == [] then s
    else DrainSync(Resolve(s, order[0], Error(-32001)), order[1..])
  }

  lemma {:induction false} DrainPromptsFrame(s: State, order: seq<AcpId>)
    requires forall k :: k in order ==> k in s.pending.prompts
    requires forall i, j :: 0 <= i < j < |order| ==> order[i] != order[j]
    ensures DrainPrompts(s, order).pending.sync == s.pending.sync
    ensures DrainPrompts(s, order).pending.models == s.pending.models
    decreases |order|
  {
    if order != [] {
      DrainPromptsFrame(CleanupPrompt(Respond(s, s.pending.prompts[order[0]].id, Error(-32001)), order[0]), order[1..]);
    }
  }

  function DrainModels(s: State): State {
    if s.pending.models.Some?
    then Respond(s.(pending := s.pending.(models := None)), s.pending.models.value, Error(-32001))
    else s
  }

  function Disconnect(s: State, promptOrder: seq<AcpId>, syncOrder: seq<Kind>): State
    requires IsOrder(promptOrder, s.pending.prompts.Keys) && IsOrder(syncOrder, s.pending.sync.Keys)
  {
    var drained := DrainPrompts(s, promptOrder);
    DrainPromptsFrame(s, promptOrder);
    DrainModels(DrainSync(drained, syncOrder)).(status := Stopped)
  }

  // ----- One turn of the loop -----

  /** The event carries a choice the hash maps could have made. */
  ghost predicate Admissible(s: State, event: Event) {
    match event
    case FromDaemon(Stream(request, _), pick) =>
      (exists k :: Carries(s, k, request)) ==> Carries(s, pick, request)
    case DaemonDisconnected(promptOrder, syncOrder) =>
      IsOrder(promptOrder, s.pending.prompts.Keys) && IsOrder(syncOrder, s.pending.sync.Keys)
    case _ => true
  }

  /** Before `initialize`, anything but `initialize` and `notifications/initialized` is refused. */
  function Uninitialized(s: State, event: Event): State
    requires event.Request? || event.Cancel? || event.InitializedNote? || event.OtherNote?
  {
    match event
    case Request(id, Initialize) => Respond(s, id, Result).(initialized := true)
    case Request(id, _) => Respond(s, id, Error(-32000))
    case InitializedNote => s
    case _ => Respond(s, 0, Error(-32000)).(strays := s.strays + 1)
  }

  /** `up` says whether the channel to the daemon's writer still takes messages. */
  ghost function Step(s: State, event: Event, up: bool): State {
    if s.status != Running || !Admissible(s, event) then s
    else
      match event
      case Request(id, call) =>
        var r := s.(received := s.received + [id]);
        if s.initialized then HandleRequest(r, id, call, up) else Uninitialized(r, event)
      case FromDaemon(msg, pick) => HandleDaemon(s, msg, pick, up)
      case DaemonDisconnected(promptOrder, syncOrder) => Disconnect(s, promptOrder, syncOrder)
      case EditorEof => s.(status := Stopped)
      case Cancel(session) =>
        if !s.initialized then Uninitialized(s, event)
        else if session in s.pending.prompts && !up then Abort(s) else s
      case InitializedNote => s
      case OtherNote => if s.initialized then s else Uninitialized(s, event)
  }

  ghost function Exec(events: seq<(Event, bool)>): State {
    if events == [] then INIT
    else
      var (event, up) := events[|events| - 1];
      Step(Exec(events[..|events| - 1]), event, up)
  }
}
