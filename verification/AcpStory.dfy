/**
 What becomes of requests, sessions and prompts, told from the events of a run: who is answered what and
 why, which sessions exist, and what waits where.
 */
module AcpStory {
  import opened Options
  import opened Acp
  import opened AcpLaws
  import opened AcpHistory

  // ----- What each event answers -----

  /** The answer a request gets at once, if it does not wait for the daemon. */
  function AtOnce(s: State, call: Call): Option<Answer> {
    if !s.initialized then Some(if call.Initialize? then Result else Error(-32000))
    else
      match call
      case Initialize => Some(Error(-32601))
      case UnknownMethod => Some(Error(-32601))
      case SessionNew(_) => if s.pending.models.Some? then Some(Error(-32000)) else None
      case SessionLoad(k) => Some(if k in s.sessions.byId && k != Other("") then Result else Error(-32602))
      case SessionList => None
      case SessionDelete(k) => if k in s.sessions.byId then None else Some(Error(-32602))
      case SessionClose(k) => Some(if k in s.sessions.byId then Result else Error(-32602))
      case SessionSetConfig(config) =>
        if config.None? || config.value.0 !in s.sessions.byId then Some(Error(-32602))
        else if config.value.1.ToolGroupsOption? then Some(Result)
        else if ConfigKind(config.value.1).Some? then None else Some(Error(-32602))
      case SessionPrompt(target) =>
        if target.None? || target.value !in s.sessions.byId then Some(Error(-32602))
        else if s.sessions.byId[target.value].active.Some? then Some(Error(-32000)) else None
  }

  /** The kind of request a daemon message settles, and the answer that request gets. */
  function Settles(s: State, msg: DaemonMessage): Option<(Kind, Answer)> {
    match msg
    case SessionCreated(_) => Some((CreateSession, Result))
    case SessionList_(_) => Some((ListSessions, Result))
    case SessionDeleted(d) => Some((DeleteSession(d), Result))
    case SessionDeleteFailed(d) => Some((DeleteSession(d), Error(-32000)))
    case Models(_) => if s.pending.models.None? then Some((SetModel, Result)) else None
    case ModelSelectionFailed => Some((SetModel, Error(-32000)))
    case ReasoningEffortSet(_) => Some((SetReasoningEffort, Result))
    case ReasoningEffortSetFailed => Some((SetReasoningEffort, Error(-32000)))
    case Stream(_, _) => None
    case Unrelated => None
  }

  /** The request is waiting in one of the three tables. */
  ghost predicate InTables(s: State, j: nat) {
    || s.pending.models == Some(j)
    || (exists kind :: Waits(s, kind, j))
    || (exists k :: k in s.pending.prompts && s.pending.prompts[k].id == j)
  }

  /** This event answers `j` with `a`. */
  ghost predicate Gives(s: State, event: Event, up: bool, j: nat, a: Answer) {
    s.status == Running && Admissible(s, event) &&
    match event
    case Request(id, call) => j == id && AtOnce(s, call) == Some(a)
    case Cancel(_) => !s.initialized && j == 0 && a == Error(-32000)
    case OtherNote => !s.initialized && j == 0 && a == Error(-32000)
    case FromDaemon(Stream(request, ev), pick) =>
      && Carries(s, pick, request) && (ev.Done? || ev.Failed? || ev.Cancelled?)
      && j == s.pending.prompts[pick].id && a == Result
    case FromDaemon(msg, _) =>
      && Settles(s, msg).Some? && Settles(s, msg).value.1 == a && Waits(s, Settles(s, msg).value.0, j)
      && (msg.SessionCreated? ==> up)
    case DaemonDisconnected(_, _) => InTables(s, j) && a == Error(-32001)
    case _ => false
  }

  lemma RequestGives(s: State, id: nat, call: Call, up: bool, j: nat, a: Answer)
    requires s.status == Running && s.initialized
    ensures Reply(j, a) in HandleRequest(s, id, call, up).out
            <==> Reply(j, a) in s.out || (j == id && AtOnce(s, call) == Some(a))
  {
    match call
    case SessionSetConfig(config) =>
      if config.Some? { match config.value.1 { case ModelOption(_) => case EffortOption(_) => case _ => } }
    case _ =>
  }

  lemma ResolveGives(s: State, kind: Kind, answer: Answer, j: nat, a: Answer)
    ensures Reply(j, a) in Resolve(s, kind, answer).out
            <==> Reply(j, a) in s.out || (Waits(s, kind, j) && a == answer)
  {}

  lemma StreamGives(s: State, request: nat, ev: StreamEvent, pick: AcpId, j: nat, a: Answer)
    ensures Reply(j, a) in HandleStream(s, request, ev, pick).out
            <==> Reply(j, a) in s.out
                 || (Carries(s, pick, request) && (ev.Done? || ev.Failed? || ev.Cancelled?)
                     && j == s.pending.prompts[pick].id && a == Result)
  {
    if Carries(s, pick, request) {
      var us := Updates(ev, s.pending.prompts[pick].session, s.pending.prompts[pick].id);
      assert Reply(j, a) !in us;
    }
  }

  lemma DaemonGives(s: State, msg: DaemonMessage, pick: AcpId, up: bool, j: nat, a: Answer)
    requires s.status == Running && !msg.Stream?
    ensures Reply(j, a) in HandleDaemon(s, msg, pick, up).out
            <==> Reply(j, a) in s.out
                 || (&& Settles(s, msg).Some? && Settles(s, msg).value.1 == a && Waits(s, Settles(s, msg).value.0, j)
                     && (msg.SessionCreated? ==> up))
  {
    match msg
    case Models(selected) =>
      if s.pending.models.None? {
        ResolveGives(TakeConfigSession(WithModel(s, selected), SetModel), SetModel, Result, j, a);
      }
    case SessionCreated(d) => ResolveGives(CreateMapping(s, d), CreateSession, Result, j, a);
    case SessionList_(_) => ResolveGives(s, ListSessions, Result, j, a);
    case SessionDeleted(d) =>
      var removed := if d in s.sessions.byDaemon then RemoveSession(s, s.sessions.byDaemon[d]) else s;
      ResolveGives(removed, DeleteSession(d), Result, j, a);
    case SessionDeleteFailed(d) => ResolveGives(s, DeleteSession(d), Error(-32000), j, a);
    case ModelSelectionFailed => ResolveGives(TakeConfigSession(s, SetModel), SetModel, Error(-32000), j, a);
    case ReasoningEffortSet(effort) =>
      ResolveGives(TakeConfigSession(WithEffort(s, effort), SetReasoningEffort), SetReasoningEffort, Result, j, a);
    case ReasoningEffortSetFailed =>
      ResolveGives(TakeConfigSession(s, SetReasoningEffort), SetReasoningEffort, Error(-32000), j, a);
    case Unrelated =>
  }

  lemma {:induction false} DrainPromptsGives(s: State, order: seq<AcpId>, j: nat, a: Answer)
    requires forall k :: k in order ==> k in s.pending.prompts
    requires forall x, y :: 0 <= x < y < |order| ==> order[x] != order[y]
    ensures Reply(j, a) in DrainPrompts(s, order).out
            <==> Reply(j, a) in s.out
                 || (a == Error(-32001) && exists k :: k in order && s.pending.prompts[k].id == j)
    decreases |order|
  {
    if order != [] {
      var answered := Respond(s, s.pending.prompts[order[0]].id, Error(-32001));
      var next := CleanupPrompt(answered, order[0]);
      DrainPromptsGives(next, order[1..], j, a);
      assert order == [order[0]] + order[1..];
      assert forall k :: k in order[1..] ==> next.pending.prompts[k] == s.pending.prompts[k];
    }
  }

  lemma {:induction false} DrainSyncGives(s: State, order: seq<Kind>, j: nat, a: Answer)
    requires forall k :: k in order ==> k in s.pending.sync
    requires forall x, y :: 0 <= x < y < |order| ==> order[x] != order[y]
    ensures Reply(j, a) in DrainSync(s, order).out
            <==> Reply(j, a) in s.out
                 || (a == Error(-32001) && exists k :: k in order && s.pending.sync[k] == j)
    decreases |order|
  {
    if order != [] {
      var next := Resolve(s, order[0], Error(-32001));
      DrainSyncGives(next, order[1..], j, a);
      assert order == [order[0]] + order[1..];
      assert forall k :: k in order[1..] ==> k in next.pending.sync && next.pending.sync[k] == s.pending.sync[k];
    }
  }

  lemma DisconnectGives(s: State, promptOrder: seq<AcpId>, syncOrder: seq<Kind>, j: nat, a: Answer)
    requires IsOrder(promptOrder, s.pending.prompts.Keys) && IsOrder(syncOrder, s.pending.sync.Keys)
    ensures Reply(j, a) in Disconnect(s, promptOrder, syncOrder).out
            <==> Reply(j, a) in s.out || (InTables(s, j) && a == Error(-32001))
  {
    var drained := DrainPrompts(s, promptOrder);
    DrainPromptsGives(s, promptOrder, j, a);
    DrainPromptsFrame(s, promptOrder);
    DrainSyncGives(drained, syncOrder, j, a);
    DrainSyncFrame(drained, syncOrder);
    WaitsInOrder(s, syncOrder, j);
  }

  lemma WaitsInOrder(s: State, order: seq<Kind>, j: nat)
    requires IsOrder(order, s.pending.sync.Keys)
    ensures (exists kind :: Waits(s, kind, j)) <==> exists k :: k in order && s.pending.sync[k] == j
  {
    if kind :| Waits(s, kind, j) { assert kind in order; }
    if k :| k in order && s.pending.sync[k] == j { assert Waits(s, k, j); }
  }

  /** One turn of the loop adds exactly the answers its event gives. */
  lemma StepGives(s: State, event: Event, up: bool, j: nat, a: Answer)
    ensures Reply(j, a) in Step(s, event, up).out <==> Reply(j, a) in s.out || Gives(s, event, up, j, a)
  {
    if s.status == Running && Admissible(s, event) {
      match event
      case Request(id, call) =>
        if s.initialized { RequestGives(s.(received := s.received + [id]), id, call, up, j, a); }
      case FromDaemon(msg, pick) =>
        if msg.Stream? {
          StreamGives(s, msg.request, msg.event, pick, j, a);
        } else {
          DaemonGives(s, msg, pick, up, j, a);
        }
      case DaemonDisconnected(promptOrder, syncOrder) => DisconnectGives(s, promptOrder, syncOrder, j, a);
      case _ =>
    }
  }

  ghost predicate GivesAt(events: seq<(Event, bool)>, i: nat, j: nat, a: Answer) {
    i < |events| && Gives(Exec(events[..i]), events[i].0, events[i].1, j, a)
  }

  ghost predicate Given(events: seq<(Event, bool)>, j: nat, a: Answer) { exists i: nat :: GivesAt(events, i, j, a) }

  lemma GivenNext(events: seq<(Event, bool)>, j: nat, a: Answer)
    requires events != []
    ensures var n := |events| - 1; Given(events, j, a) <==> Given(events[..n], j, a) || GivesAt(events, n, j, a)
  {
    var n := |events| - 1;
    if Given(events, j, a) {
      var i: nat :| GivesAt(events, i, j, a);
      if i < n { GivesInPrefix(events, n, i, j, a); }
    }
    if Given(events[..n], j, a) {
      var i: nat :| GivesAt(events[..n], i, j, a);
      GivesInPrefix(events, n, i, j, a);
    }
  }

  lemma GivesInPrefix(events: seq<(Event, bool)>, n: nat, i: nat, j: nat, a: Answer)
    requires i < n <= |events|
    ensures GivesAt(events[..n], i, j, a) <==> GivesAt(events, i, j, a)
  {
    assert events[..n][..i] == events[..i];
  }

  /** In every run an answer is in the output if and only if some event of the run gave it, for its reason. */
  lemma {:induction false} AnswersHaveReasons(events: seq<(Event, bool)>, j: nat, a: Answer)
    ensures Reply(j, a) in Exec(events).out <==> Given(events, j, a)
  {
    if events != [] {
      var n := |events| - 1;
      AnswersHaveReasons(events[..n], j, a);
      StepGives(Exec(events[..n]), events[n].0, events[n].1, j, a);
      GivenNext(events, j, a);
    }
  }

  // ----- What is streamed -----

  /** The updates a streaming event shows the editor, in order. */
  function Shows(ev: StreamEvent): seq<UpdateKind> {
    match ev
    case OutputChunk => [UpdateKind.Text]
    case ToolCallStarted => [ToolCall]
    case ToolResultChunk => [ToolUpdate]
    case ToolCallFinished => [ToolUpdate]
    case ToolCallFailed => [ToolUpdate]
    case Done(true) => [Usage, Status]
    case Done(false) => [Status]
    case Failed => [Status]
    case Cancelled => [Status]
  }

  /**
   A streaming message writes its event's updates to the prompt's session, then, if it is the last, the
   answer; one that no prompt carries writes nothing.
   */
  lemma StreamWrites(s: State, request: nat, ev: StreamEvent, pick: AcpId)
    ensures var t := HandleStream(s, request, ev, pick);
            if !Carries(s, pick, request) then t == s
            else
              var p, kinds := s.pending.prompts[pick], Shows(ev);
              var last := ev.Done? || ev.Failed? || ev.Cancelled?;
              && |t.out| == |s.out| + |kinds| + (if last then 1 else 0)
              && s.out <= t.out
              && (forall i :: 0 <= i < |kinds| ==> t.out[|s.out| + i] == Update(p.session, p.id, kinds[i]))
              && (last ==> t.out[|t.out| - 1] == Reply(p.id, Result))
  {
    if Carries(s, pick, request) { UpdatesShow(ev, s.pending.prompts[pick]); }
  }

  lemma UpdatesShow(ev: StreamEvent, p: Prompt)
    ensures var us := Updates(ev, p.session, p.id);
            && |us| == |Shows(ev)|
            && forall i :: 0 <= i < |us| ==> us[i] == Update(p.session, p.id, Shows(ev)[i])
  {}

  /** This event streams `u` to the editor. */
  predicate Streams(s: State, event: Event, u: Output) {
    && s.status == Running && event.FromDaemon? && event.msg.Stream?
    && Carries(s, event.pick, event.msg.request)
    && var p := s.pending.prompts[event.pick];
       u.Update? && u.session == p.session && u.prompt == p.id && u.kind in Shows(event.msg.event)
  }

  lemma StreamShows(s: State, request: nat, ev: StreamEvent, pick: AcpId, u: Output)
    requires u.Update? && s.status == Running
    ensures u in HandleStream(s, request, ev, pick).out
            <==> u in s.out || Streams(s, FromDaemon(Stream(request, ev), pick), u)
  {}

  /** One turn streams exactly what its event shows. */
  lemma StepStreams(s: State, event: Event, up: bool, u: Output)
    requires u.Update?
    ensures u in Step(s, event, up).out
            <==> u in s.out || (Admissible(s, event) && Streams(s, event, u))
  {
    var s' := Step(s, event, up);
    if s.status == Running && Admissible(s, event) {
      match event
      case Request(id, call) =>
        if s.initialized { RequestOnlyAnswers(s.(received := s.received + [id]), id, call, up); }
      case FromDaemon(msg, pick) =>
        if msg.Stream? {
          StreamShows(s, msg.request, msg.event, pick, u);
        } else {
          DaemonOnlyAnswers(s, msg, pick, up);
        }
      case DaemonDisconnected(promptOrder, syncOrder) => DisconnectOnlyAnswers(s, promptOrder, syncOrder);
      case _ =>
    }
  }

  ghost predicate StreamedAt(events: seq<(Event, bool)>, i: nat, u: Output) {
    && i < |events|
    && Admissible(Exec(events[..i]), events[i].0) && Streams(Exec(events[..i]), events[i].0, u)
  }

  ghost predicate Streamed(events: seq<(Event, bool)>, u: Output) { exists i: nat :: StreamedAt(events, i, u) }

  lemma StreamedNext(events: seq<(Event, bool)>, u: Output)
    requires events != []
    ensures var n := |events| - 1; Streamed(events, u) <==> Streamed(events[..n], u) || StreamedAt(events, n, u)
  {
    var n := |events| - 1;
    if Streamed(events, u) {
      var i: nat :| StreamedAt(events, i, u);
      if i < n { StreamedInPrefix(events, n, i, u); }
    }
    if Streamed(events[..n], u) {
      var i: nat :| StreamedAt(events[..n], i, u);
      StreamedInPrefix(events, n, i, u);
    }
  }

  lemma StreamedInPrefix(events: seq<(Event, bool)>, n: nat, i: nat, u: Output)
    requires i < n <= |events|
    ensures StreamedAt(events[..n], i, u) <==> StreamedAt(events, i, u)
  {
    assert events[..n][..i] == events[..i];
  }

  /** In every run an update is in the output if and only if a streaming message of a tracked prompt showed it. */
  lemma {:induction false} UpdatesHaveReasons(events: seq<(Event, bool)>, u: Output)
    requires u.Update?
    ensures u in Exec(events).out <==> Streamed(events, u)
  {
    if events != [] {
      var n := |events| - 1;
      UpdatesHaveReasons(events[..n], u);
      StepStreams(Exec(events[..n]), events[n].0, events[n].1, u);
      StreamedNext(events, u);
    }
  }

  // ----- Sessions -----

  /** The daemon session a `SessionCreated` brings, if a session/new waits for it. */
  function Creates(s: State, event: Event): Option<nat> {
    if s.status == Running && event.FromDaemon? && event.msg.SessionCreated? && CreateSession in s.pending.sync
    then Some(event.msg.session) else None
  }

  /** The event closes this session, or confirms its deletion. */
  predicate Removes(s: State, event: Event, id: AcpId) {
    && s.status == Running && id in s.sessions.byId
    && match event
       case Request(_, SessionClose(k)) => s.initialized && k == id
       case FromDaemon(SessionDeleted(d), _) =>
         DeleteSession(d) in s.pending.sync && d in s.sessions.byDaemon && s.sessions.byDaemon[d] == id
       case _ => false
  }

  /** What one turn does to the two-way map, session by session and daemon id by daemon id. */
  ghost predicate MapsMove(s: State, s': State, event: Event) {
    var newcomer := Sess(s.sessions.nextSerial);
    && s'.sessions.nextSerial == s.sessions.nextSerial + (if Creates(s, event).Some? then 1 else 0)
    && (forall id :: id in s'.sessions.byId <==>
          (id in s.sessions.byId && !Removes(s, event, id)) || (Creates(s, event).Some? && id == newcomer))
    && (forall id :: id in s'.sessions.byId ==>
          s'.sessions.byId[id].daemonId ==
          if Creates(s, event).Some? && id == newcomer then Creates(s, event).value else s.sessions.byId[id].daemonId)
  }

  lemma {:induction false} DrainMoves(s: State, order: seq<AcpId>)
    requires forall k :: k in order ==> k in s.pending.prompts
    requires forall x, y :: 0 <= x < y < |order| ==> order[x] != order[y]
    ensures var t := DrainPrompts(s, order).sessions;
            && t.nextSerial == s.sessions.nextSerial && t.byDaemon == s.sessions.byDaemon
            && (forall id :: id in t.byId <==> id in s.sessions.byId)
            && (forall id :: id in t.byId ==> t.byId[id].daemonId == s.sessions.byId[id].daemonId)
    decreases |order|
  {
    if order != [] {
      DrainMoves(CleanupPrompt(Respond(s, s.pending.prompts[order[0]].id, Error(-32001)), order[0]), order[1..]);
    }
  }

  lemma {:induction false} DrainSyncKeepsSessions(s: State, order: seq<Kind>)
    requires forall k :: k in order ==> k in s.pending.sync
    requires forall x, y :: 0 <= x < y < |order| ==> order[x] != order[y]
    ensures DrainSync(s, order).sessions == s.sessions
    decreases |order|
  {
    if order != [] { DrainSyncKeepsSessions(Resolve(s, order[0], Error(-32001)), order[1..]); }
  }

  lemma DisconnectMoves(s: State, promptOrder: seq<AcpId>, syncOrder: seq<Kind>)
    requires IsOrder(promptOrder, s.pending.prompts.Keys) && IsOrder(syncOrder, s.pending.sync.Keys)
    ensures var t := Disconnect(s, promptOrder, syncOrder).sessions;
            && t.nextSerial == s.sessions.nextSerial && t.byDaemon == s.sessions.byDaemon
            && (forall id :: id in t.byId <==> id in s.sessions.byId)
            && (forall id :: id in t.byId ==> t.byId[id].daemonId == s.sessions.byId[id].daemonId)
  {
    DrainMoves(s, promptOrder);
    DrainPromptsFrame(s, promptOrder);
    DrainSyncKeepsSessions(DrainPrompts(s, promptOrder), syncOrder);
  }

  lemma RequestMoves(s: State, id: nat, call: Call, up: bool)
    requires s.status == Running && s.initialized
    ensures MapsMove(s, HandleRequest(s, id, call, up), Request(id, call))
  {
    match call
    case SessionClose(_) =>
    case SessionPrompt(_) =>
    case _ => RequestKeepsCore(s, id, call, up);
  }

  lemma DaemonMoves(s: State, msg: DaemonMessage, pick: AcpId, up: bool)
    requires s.status == Running
    requires s.sessions.byId.Keys !! {Sess(s.sessions.nextSerial)} && MappingOk(s)
    ensures MapsMove(s, HandleDaemon(s, msg, pick, up), FromDaemon(msg, pick))
  {
    match msg
    case SessionCreated(d) => CreatedMoves(s, d, pick, up);
    case SessionDeleted(d) => DeletedMoves(s, d, pick);
    case _ => OtherMessagesKeepMaps(s, msg, pick, up);
  }

  lemma OtherMessagesKeepMaps(s: State, msg: DaemonMessage, pick: AcpId, up: bool)
    requires !msg.SessionCreated? && !msg.SessionDeleted?
    ensures var t := HandleDaemon(s, msg, pick, up).sessions;
            && t.nextSerial == s.sessions.nextSerial && t.byDaemon == s.sessions.byDaemon
            && (forall id :: id in t.byId <==> id in s.sessions.byId)
            && (forall id :: id in t.byId ==> t.byId[id].daemonId == s.sessions.byId[id].daemonId)
  {
    match msg
    case Models(selected) => assert WithModel(s, selected).sessions.byDaemon == s.sessions.byDaemon;
    case ReasoningEffortSet(effort) => assert WithEffort(s, effort).sessions.byDaemon == s.sessions.byDaemon;
    case Stream(_, _) =>
    case _ =>
  }

  lemma CreatedMoves(s: State, d: nat, pick: AcpId, up: bool)
    requires s.status == Running && s.sessions.byId.Keys !! {Sess(s.sessions.nextSerial)}
    ensures MapsMove(s, HandleCreated(s, d, up), FromDaemon(SessionCreated(d), pick))
  {}

  lemma DeletedMoves(s: State, d: nat, pick: AcpId)
    requires s.status == Running && MappingOk(s)
    ensures MapsMove(s, HandleDeleted(s, d), FromDaemon(SessionDeleted(d), pick))
  {}

  lemma StepMoves(s: State, event: Event, up: bool)
    requires s.sessions.byId.Keys !! {Sess(s.sessions.nextSerial)} && MappingOk(s)
    ensures MapsMove(s, Step(s, event, up), event)
  {
    if s.status == Running && Admissible(s, event) {
      match event
      case Request(id, call) =>
        if s.initialized { RequestMoves(s.(received := s.received + [id]), id, call, up); }
      case FromDaemon(msg, pick) => DaemonMoves(s, msg, pick, up);
      case DaemonDisconnected(promptOrder, syncOrder) => DisconnectMoves(s, promptOrder, syncOrder);
      case _ =>
    }
  }

  lemma RunMoves(events: seq<(Event, bool)>, n: nat)
    requires n < |events|
    ensures MapsMove(Exec(events[..n]), Exec(events[..n + 1]), events[n].0)
  {
    var s := Exec(events[..n]);
    assert events[..n + 1][..n] == events[..n];
    RunCoherent(events[..n]);
    if s.status != Aborted {
      assert Sess(s.sessions.nextSerial) in s.sessions.byId ==> Minted(s, Sess(s.sessions.nextSerial));
      StepMoves(s, events[n].0, events[n].1);
    }
  }

  /** How many sessions a run has created. */
  ghost function Creations(events: seq<(Event, bool)>): nat {
    if events == [] then 0
    else
      var n := |events| - 1;
      Creations(events[..n]) + if Creates(Exec(events[..n]), events[n].0).Some? then 1 else 0
  }

  lemma {:induction false} SerialsCountCreations(events: seq<(Event, bool)>)
    ensures Exec(events).sessions.nextSerial == 1 + Creations(events)
  {
    if events != [] {
      var n := |events| - 1;
      SerialsCountCreations(events[..n]);
      RunMoves(events, n);
      assert events[..n + 1] == events;
    }
  }

  /** Event `k` created the session `id` for the daemon's session `d`. */
  ghost predicate CreatedAt(events: seq<(Event, bool)>, k: nat, id: AcpId, d: nat) {
    && k < |events|
    && Creates(Exec(events[..k]), events[k].0) == Some(d)
    && id == Sess(1 + Creations(events[..k]))
  }

  /** Nothing has closed or deleted it since. */
  ghost predicate Lives(events: seq<(Event, bool)>, k: nat, id: AcpId, d: nat) {
    && CreatedAt(events, k, id, d)
    && forall m :: k < m < |events| ==> !RemovedAt(events, m, id)
  }

  ghost predicate RemovedAt(events: seq<(Event, bool)>, m: nat, id: AcpId) {
    m < |events| && Removes(Exec(events[..m]), events[m].0, id)
  }

  lemma RemovedInPrefix(events: seq<(Event, bool)>, n: nat, m: nat, id: AcpId)
    requires m < n <= |events|
    ensures RemovedAt(events[..n], m, id) <==> RemovedAt(events, m, id)
  {
    assert events[..n][..m] == events[..m];
  }

  lemma CreatedInPrefix(events: seq<(Event, bool)>, n: nat, k: nat, id: AcpId, d: nat)
    requires k < n <= |events|
    ensures CreatedAt(events[..n], k, id, d) <==> CreatedAt(events, k, id, d)
  {
    assert events[..n][..k] == events[..k];
  }

  lemma LivesInPrefix(events: seq<(Event, bool)>, k: nat, id: AcpId, d: nat)
    requires events != [] && k < |events| - 1
    ensures var n := |events| - 1;
            Lives(events, k, id, d) <==> Lives(events[..n], k, id, d) && !RemovedAt(events, n, id)
  {
    var n := |events| - 1;
    CreatedInPrefix(events, n, k, id, d);
    forall m | k < m < n ensures RemovedAt(events[..n], m, id) <==> RemovedAt(events, m, id) {
      RemovedInPrefix(events, n, m, id);
    }
    if Lives(events[..n], k, id, d) && !RemovedAt(events, n, id) {
      forall m | k < m < |events| ensures !RemovedAt(events, m, id) {
        if m < n { assert !RemovedAt(events[..n], m, id); }
      }
    }
  }

  /** A session that was created and lives is in the manager, under the daemon id it came with. */
  lemma {:induction false} LivingSessionIsThere(events: seq<(Event, bool)>, k: nat, id: AcpId, d: nat)
    requires Lives(events, k, id, d)
    ensures id in Exec(events).sessions.byId && Exec(events).sessions.byId[id].daemonId == d
    decreases |events|
  {
    var n := |events| - 1;
    assert events[..n + 1] == events;
    RunMoves(events, n);
    SerialsCountCreations(events[..n]);
    if k < n {
      LivesInPrefix(events, k, id, d);
      LivingSessionIsThere(events[..n], k, id, d);
      NewcomerIsNew(events[..n]);
    }
  }

  lemma NewcomerIsNew(events: seq<(Event, bool)>)
    ensures Exec(events).status != Aborted ==>
              Sess(Exec(events).sessions.nextSerial) !in Exec(events).sessions.byId
  {
    var s := Exec(events);
    RunCoherent(events);
    if s.status != Aborted {
      assert Sess(s.sessions.nextSerial) in s.sessions.byId ==> Minted(s, Sess(s.sessions.nextSerial));
    }
  }

  /** Every session in the manager was created by an event of the run and lives since. */
  lemma {:induction false} SessionWasCreated(events: seq<(Event, bool)>, id: AcpId) returns (k: nat, d: nat)
    requires id in Exec(events).sessions.byId
    ensures Lives(events, k, id, d)
    decreases |events|
  {
    var n := |events| - 1;
    assert events[..n + 1] == events;
    RunMoves(events, n);
    SerialsCountCreations(events[..n]);
    var s := Exec(events[..n]);
    if Creates(s, events[n].0).Some? && id == Sess(s.sessions.nextSerial) {
      k, d := n, Creates(s, events[n].0).value;
    } else {
      k, d := SessionWasCreated(events[..n], id);
      LivesInPrefix(events, k, id, d);
    }
  }

  /**
   In every run a session is in the manager if and only if a `SessionCreated` arrived for it while a
   session/new waited and neither a close nor a confirmed delete of it came since; its number is that
   creation's, and its daemon id the one that message carried.
   */
  lemma SessionLivesExactly(events: seq<(Event, bool)>, id: AcpId)
    ensures id in Exec(events).sessions.byId <==> exists k: nat, d: nat :: Lives(events, k, id, d)
    ensures forall k: nat, d: nat :: Lives(events, k, id, d) ==>
              id in Exec(events).sessions.byId && Exec(events).sessions.byId[id].daemonId == d
  {
    forall k: nat, d: nat | Lives(events, k, id, d)
      ensures id in Exec(events).sessions.byId && Exec(events).sessions.byId[id].daemonId == d
    {
      LivingSessionIsThere(events, k, id, d);
    }
    if id in Exec(events).sessions.byId {
      var k, d := SessionWasCreated(events, id);
    }
  }

  // ----- The daemon's side of the map -----

  /** The event removes a session that carries the daemon id `d`. */
  predicate Unmaps(s: State, event: Event, d: nat) {
    exists id :: id in s.sessions.byId && Removes(s, event, id) && s.sessions.byId[id].daemonId == d
  }

  ghost predicate ReverseMoves(s: State, s': State, event: Event, d: nat) {
    if Creates(s, event) == Some(d)
    then d in s'.sessions.byDaemon && s'.sessions.byDaemon[d] == Sess(s.sessions.nextSerial)
    else if Unmaps(s, event, d) then d !in s'.sessions.byDaemon
    else
      && (d in s'.sessions.byDaemon <==> d in s.sessions.byDaemon)
      && (d in s.sessions.byDaemon ==> s'.sessions.byDaemon[d] == s.sessions.byDaemon[d])
  }

  lemma RemoveUnmaps(s: State, s': State, event: Event, id: AcpId, d: nat)
    requires id in s.sessions.byId && Creates(s, event).None?
    requires forall k :: Removes(s, event, k) <==> k == id
    requires s'.sessions.byDaemon == s.sessions.byDaemon - {s.sessions.byId[id].daemonId}
    ensures ReverseMoves(s, s', event, d)
  {
    if s.sessions.byId[id].daemonId == d { assert Removes(s, event, id); assert Unmaps(s, event, d); }
  }

  lemma KeepsReverse(s: State, s': State, event: Event, d: nat)
    requires Creates(s, event).None? && forall k :: !Removes(s, event, k)
    requires s'.sessions.byDaemon == s.sessions.byDaemon
    ensures ReverseMoves(s, s', event, d)
  {}

  lemma RequestReverse(s: State, id: nat, call: Call, up: bool, d: nat)
    requires s.status == Running && s.initialized
    ensures ReverseMoves(s, HandleRequest(s, id, call, up), Request(id, call), d)
  {
    var s' := HandleRequest(s, id, call, up);
    match call
    case SessionClose(k) =>
      if k in s.sessions.byId {
        RemoveUnmaps(s, s', Request(id, call), k, d);
      } else {
        KeepsReverse(s, s', Request(id, call), d);
      }
    case SessionPrompt(_) => KeepsReverse(s, s', Request(id, call), d);
    case _ =>
      RequestKeepsCore(s, id, call, up);
      KeepsReverse(s, s', Request(id, call), d);
  }

  lemma DaemonReverse(s: State, msg: DaemonMessage, pick: AcpId, up: bool, d: nat)
    requires s.status == Running && MappingOk(s)
    ensures ReverseMoves(s, HandleDaemon(s, msg, pick, up), FromDaemon(msg, pick), d)
  {
    var s', event := HandleDaemon(s, msg, pick, up), FromDaemon(msg, pick);
    match msg
    case SessionCreated(x) => CreatedReverse(s, x, pick, up, d);
    case SessionDeleted(x) => DeletedReverse(s, x, pick, d);
    case _ =>
      OtherMessagesKeepMaps(s, msg, pick, up);
      KeepsReverse(s, s', event, d);
  }

  lemma CreatedReverse(s: State, x: nat, pick: AcpId, up: bool, d: nat)
    requires s.status == Running
    ensures ReverseMoves(s, HandleCreated(s, x, up), FromDaemon(SessionCreated(x), pick), d)
  {
    var event := FromDaemon(SessionCreated(x), pick);
    assert forall k :: !Removes(s, event, k);
    if CreateSession !in s.pending.sync { KeepsReverse(s, s, event, d); }
  }

  lemma DeletedReverse(s: State, x: nat, pick: AcpId, d: nat)
    requires s.status == Running && MappingOk(s)
    ensures ReverseMoves(s, HandleDeleted(s, x), FromDaemon(SessionDeleted(x), pick), d)
  {
    var s', event := HandleDeleted(s, x), FromDaemon(SessionDeleted(x), pick);
    if DeleteSession(x) in s.pending.sync && x in s.sessions.byDaemon {
      RemoveUnmaps(s, s', event, s.sessions.byDaemon[x], d);
    } else {
      KeepsReverse(s, s', event, d);
    }
  }

  lemma StepReverse(s: State, event: Event, up: bool, d: nat)
    requires MappingOk(s)
    ensures ReverseMoves(s, Step(s, event, up), event, d)
  {
    var s' := Step(s, event, up);
    if s.status == Running && Admissible(s, event) {
      match event
      case Request(id, call) =>
        if s.initialized {
          RequestReverse(s.(received := s.received + [id]), id, call, up, d);
          SameReverse(s, s.(received := s.received + [id]), s', event, d);
        } else {
          KeepsReverse(s, s', event, d);
        }
      case FromDaemon(msg, pick) => DaemonReverse(s, msg, pick, up, d);
      case DaemonDisconnected(promptOrder, syncOrder) =>
        DisconnectMoves(s, promptOrder, syncOrder);
        KeepsReverse(s, s', event, d);
      case _ => KeepsReverse(s, s', event, d);
    } else {
      KeepsReverse(s, s', event, d);
    }
  }

  lemma SameReverse(s: State, r: State, s': State, event: Event, d: nat)
    requires r == s.(received := r.received) && ReverseMoves(r, s', event, d)
    ensures ReverseMoves(s, s', event, d)
  {
    assert Creates(r, event) == Creates(s, event);
    assert forall id :: Removes(r, event, id) <==> Removes(s, event, id);
  }

  /** The event gives the daemon id `d` to a session, or takes it from one. */
  predicate Retargets(s: State, event: Event, d: nat) { Creates(s, event) == Some(d) || Unmaps(s, event, d) }

  /**
   The two maps name each other exactly as long as the daemon id is used once: a living session is the one
   found under its daemon id if and only if, since it was created, no other was created under that id
   and none that carried it was removed.
   */
  lemma {:induction false} ReverseMapExactly(events: seq<(Event, bool)>, k: nat, id: AcpId, d: nat)
    requires Lives(events, k, id, d) && Exec(events).status != Aborted
    ensures (d in Exec(events).sessions.byDaemon && Exec(events).sessions.byDaemon[d] == id)
            <==> forall m :: k < m < |events| ==> !RetargetedAt(events, m, d)
    decreases |events|
  {
    var n := |events| - 1;
    var s := Exec(events[..n]);
    assert events[..n + 1] == events;
    RunCoherent(events[..n]);
    StepReverse(s, events[n].0, events[n].1, d);
    SerialsCountCreations(events[..n]);
    if k < n {
      LivesInPrefix(events, k, id, d);
      LivingSessionIsThere(events[..n], k, id, d);
      NewcomerIsNew(events[..n]);
      ReverseMapExactly(events[..n], k, id, d);
      RetargetsInPrefix(events, k, d);
    }
  }

  ghost predicate RetargetedAt(events: seq<(Event, bool)>, m: nat, d: nat) {
    m < |events| && Retargets(Exec(events[..m]), events[m].0, d)
  }

  lemma RetargetsInPrefix(events: seq<(Event, bool)>, k: nat, d: nat)
    requires events != [] && k < |events| - 1
    ensures var n := |events| - 1;
            (forall m :: k < m < |events| ==> !RetargetedAt(events, m, d)) <==>
            (forall m :: k < m < n ==> !RetargetedAt(events[..n], m, d)) && !RetargetedAt(events, n, d)
  {
    var n := |events| - 1;
    forall m | k < m < n ensures RetargetedAt(events[..n], m, d) <==> RetargetedAt(events, m, d) {
      assert events[..n][..m] == events[..m];
    }
    if (forall m :: k < m < n ==> !RetargetedAt(events[..n], m, d)) && !RetargetedAt(events, n, d) {
      forall m | k < m < |events| ensures !RetargetedAt(events, m, d) {
        if m < n { assert !RetargetedAt(events[..n], m, d); }
      }
    }
  }
}
