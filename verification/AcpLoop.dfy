/** The bridge on its own mutable tables; every method is proved to do what `Acp` says. */
module AcpLoop {
  import opened Options
  import opened Acp
  import opened AcpLaws
  import opened AcpHistory

  class PendingRequests {
    var sync: map<Kind, nat>
    var prompts: map<AcpId, Prompt>
    var models: Option<nat>
    var configSessions: map<Kind, AcpId>

    function View(): Pending
      reads this
    {
      Pending(sync, prompts, models, configSessions)
    }

    constructor ()
      ensures View() == INIT.pending
    {
      sync, prompts, models, configSessions := map[], map[], None, map[];
    }

    method InsertSync(kind: Kind, id: nat)
      modifies this
      ensures View() == old(View()).(sync := old(sync)[kind := id])
    {
      sync := sync[kind := id];
    }

    method TakeSync(kind: Kind) returns (id: Option<nat>)
      modifies this
      ensures View() == old(View()).(sync := old(sync) - {kind})
      ensures id == if kind in old(sync) then Some(old(sync)[kind]) else None
    {
      id := if kind in sync then Some(sync[kind]) else None;
      sync := sync - {kind};
    }

    method InsertPrompt(session: AcpId, prompt: Prompt)
      modifies this
      ensures View() == old(View()).(prompts := old(prompts)[session := prompt])
    {
      prompts := prompts[session := prompt];
    }

    method TakePrompt(session: AcpId)
      modifies this
      ensures View() == old(View()).(prompts := old(prompts) - {session})
    {
      prompts := prompts - {session};
    }

    method SetModelsPending(id: nat)
      modifies this
      ensures View() == old(View()).(models := Some(id))
    {
      models := Some(id);
    }

    method TakeModelsPending() returns (id: Option<nat>)
      modifies this
      ensures View() == old(View()).(models := None) && id == old(models)
    {
      id := models;
      models := None;
    }

    method StorePendingSession(kind: Kind, session: AcpId)
      modifies this
      ensures View() == old(View()).(configSessions := old(configSessions)[kind := session])
    {
      configSessions := configSessions[kind := session];
    }

    method TakePendingSession(kind: Kind) returns (session: Option<AcpId>)
      modifies this
      ensures View() == old(View()).(configSessions := old(configSessions) - {kind})
      ensures session == if kind in old(configSessions) then Some(old(configSessions)[kind]) else None
    {
      session := if kind in configSessions then Some(configSessions[kind]) else None;
      configSessions := configSessions - {kind};
    }
  }

  class SessionManager {
    var byId: map<AcpId, Session>
    var byDaemon: map<nat, AcpId>
    var nextRequest: nat
    var nextSerial: nat

    function View(): Sessions
      reads this
    {
      Sessions(byId, byDaemon, nextRequest, nextSerial)
    }

    constructor ()
      ensures View() == INIT.sessions
    {
      byId, byDaemon, nextRequest, nextSerial := map[], map[], 1, 1;
    }

    method Create(daemonId: nat)
      modifies this
      ensures var id := Sess(old(nextSerial));
              View() == Sessions(old(byId)[id := Session(daemonId, None, None, None)], old(byDaemon)[daemonId := id],
                                 old(nextRequest), old(nextSerial) + 1)
    {
      var id := Sess(nextSerial);
      nextSerial := nextSerial + 1;
      byId := byId[id := Session(daemonId, None, None, None)];
      byDaemon := byDaemon[daemonId := id];
    }

    method Remove(id: AcpId) returns (removed: bool)
      modifies this
      ensures removed == (id in old(byId))
      ensures View() == if removed then old(View()).(byId := old(byId) - {id},
                                                     byDaemon := old(byDaemon) - {old(byId)[id].daemonId})
                        else old(View())
    {
      removed := id in byId;
      if removed {
        var session := byId[id];
        byId := byId - {id};
        byDaemon := byDaemon - {session.daemonId};
      }
    }

    method Put(id: AcpId, session: Session)
      requires id in byId
      modifies this
      ensures View() == old(View()).(byId := old(byId)[id := session])
    {
      byId := byId[id := session];
    }

    method NextRequestId() returns (id: nat)
      modifies this
      ensures id == old(nextRequest)
      ensures View() == old(View()).(nextRequest := (old(nextRequest) + 1) % ID_SPACE)
    {
      id := nextRequest;
      nextRequest := (nextRequest + 1) % ID_SPACE;
    }

    method TryBeginPrompt(id: AcpId, request: nat) returns (ok: bool)
      modifies this
      ensures ok == (id in old(byId) && old(byId)[id].active.None?)
      ensures View() == if ok then old(View()).(byId := old(byId)[id := old(byId)[id].(active := Some(request))])
                        else old(View())
    {
      ok := id in byId && byId[id].active.None?;
      if ok {
        byId := byId[id := byId[id].(active := Some(request))];
      }
    }

    method EndPrompt(id: AcpId)
      modifies this
      ensures View() == if id in old(byId) then old(View()).(byId := old(byId)[id := old(byId)[id].(active := None)])
                        else old(View())
    {
      if id in byId {
        byId := byId[id := byId[id].(active := None)];
      }
    }
  }

  /** What is still to be drained is waiting, and listed once. */
  ghost predicate PromptsWait(s: State, rest: seq<AcpId>) {
    && (forall k :: k in rest ==> k in s.pending.prompts)
    && (forall a, b :: 0 <= a < b < |rest| ==> rest[a] != rest[b])
  }

  ghost predicate SyncWaits(s: State, rest: seq<Kind>) {
    && (forall k :: k in rest ==> k in s.pending.sync)
    && (forall a, b :: 0 <= a < b < |rest| ==> rest[a] != rest[b])
  }

  /** Draining from position `i` is failing that prompt, then draining the rest. */
  lemma DrainOne(s: State, order: seq<AcpId>, i: nat)
    requires i < |order| && PromptsWait(s, order[i..])
    ensures order[i] in s.pending.prompts
    ensures var s' := CleanupPrompt(Respond(s, s.pending.prompts[order[i]].id, Error(-32001)), order[i]);
            PromptsWait(s', order[i + 1..]) && DrainPrompts(s', order[i + 1..]) == DrainPrompts(s, order[i..])
  {
    var rest := order[i..];
    assert rest[0] == order[i] && rest[1..] == order[i + 1..];
    assert rest[0] in s.pending.prompts;
    var s' := CleanupPrompt(Respond(s, s.pending.prompts[rest[0]].id, Error(-32001)), rest[0]);
    assert s'.pending.prompts == s.pending.prompts - {rest[0]};
    TailWaits(s, s', rest);
  }

  lemma TailWaits(s: State, s': State, rest: seq<AcpId>)
    requires rest != [] && PromptsWait(s, rest)
    requires s'.pending.prompts == s.pending.prompts - {rest[0]}
    ensures PromptsWait(s', rest[1..])
  {
    forall k | k in rest[1..] ensures k in s'.pending.prompts {
      var a :| 0 <= a < |rest[1..]| && rest[1..][a] == k;
      assert rest[a + 1] == k && rest[0] != rest[a + 1] && k in rest;
    }
  }

  lemma SettleOne(s: State, order: seq<Kind>, i: nat)
    requires i < |order| && SyncWaits(s, order[i..])
    ensures var s' := Resolve(s, order[i], Error(-32001));
            SyncWaits(s', order[i + 1..]) && DrainSync(s', order[i + 1..]) == DrainSync(s, order[i..])
  {
    assert order[i..][0] == order[i] && order[i..][1..] == order[i + 1..];
  }

  class Bridge {
    const pending: PendingRequests
    const sessions: SessionManager
    var initialized: bool
    var out: seq<Output>
    var status: RunStatus
    /** Counts the request ids given out; each tracked prompt keeps its number. */
    var issued: nat
    ghost var received: seq<nat>
    ghost var strays: nat
    ghost var displaced: seq<nat>

    ghost function View(): State
      reads this, pending, sessions
    {
      State(initialized, sessions.View(), pending.View(), out, status, received, strays, issued, displaced)
    }

    constructor ()
      ensures View() == INIT
      ensures fresh(pending) && fresh(sessions)
    {
      pending := new PendingRequests();
      sessions := new SessionManager();
      initialized, out, status := false, [], Running;
      received, strays, issued, displaced := [], 0, 0, [];
    }

    method Say(id: nat, answer: Answer)
      modifies this
      ensures View() == Respond(old(View()), id, answer)
    {
      out := out + [Reply(id, answer)];
    }

    method Park(kind: Kind, id: nat)
      modifies this, pending
      ensures View() == InsertSync(old(View()), kind, id)
    {
      if kind in pending.sync {
        displaced := displaced + [pending.sync[kind]];
      }
      pending.InsertSync(kind, id);
    }

    method Settle(kind: Kind, answer: Answer)
      modifies this, pending
      ensures View() == Resolve(old(View()), kind, answer)
    {
      if kind in pending.sync {
        var id := pending.TakeSync(kind);
        Say(id.value, answer);
      }
    }

    method OnPrompt(id: nat, target: Option<AcpId>, up: bool)
      modifies this, pending, sessions
      ensures View() == StartPrompt(old(View()), id, target, up)
    {
      if target.None? || target.value !in sessions.byId {
        Say(id, Error(-32602));
        return;
      }
      var request := sessions.NextRequestId();
      issued := issued + 1;
      var ok := sessions.TryBeginPrompt(target.value, request);
      if !ok {
        Say(id, Error(-32000));
      } else if !up {
        status := Aborted;
      } else {
        pending.InsertPrompt(target.value, Prompt(id, request, target.value, issued - 1));
      }
    }

    method SetConfigOption(id: nat, config: Option<(AcpId, ConfigOption)>, up: bool)
      modifies this, pending
      ensures View() == SetConfig(old(View()), id, config, up)
    {
      if config.None? || config.value.0 !in sessions.byId {
        Say(id, Error(-32602));
        return;
      }
      var option := config.value.1;
      var kind := if option.ModelOption? then SetModel else SetReasoningEffort;
      if option.ToolGroupsOption? {
        Say(id, Result);
      } else if (option.ModelOption? && option.value.Some?) || (option.EffortOption? && option.effort.Level?) {
        if !up {
          status := Aborted;
        } else {
          Park(kind, id);
          pending.StorePendingSession(kind, config.value.0);
        }
      } else {
        Say(id, Error(-32602));
      }
    }

    method OnRequest(id: nat, call: Call, up: bool)
      modifies this, pending, sessions
      ensures View() == HandleRequest(old(View()), id, call, up)
    {
      match call
      case SessionNew(_) =>
        if pending.models.Some? {
          Say(id, Error(-32000));
        } else if !up {
          status := Aborted;
        } else {
          pending.SetModelsPending(id);
        }
      case SessionLoad(session) =>
        Say(id, if session == Other("") || session !in sessions.byId then Error(-32602) else Result);
      case SessionList =>
        if up {
          Park(ListSessions, id);
        } else {
          status := Aborted;
        }
      case SessionDelete(session) =>
        if session !in sessions.byId {
          Say(id, Error(-32602));
        } else if !up {
          status := Aborted;
        } else {
          Park(DeleteSession(sessions.byId[session].daemonId), id);
        }
      case SessionClose(session) =>
        var removed := sessions.Remove(session);
        Say(id, if removed then Result else Error(-32602));
      case SessionSetConfig(config) => SetConfigOption(id, config, up);
      case SessionPrompt(target) => OnPrompt(id, target, up);
      case Initialize => Say(id, Error(-32601));
      case UnknownMethod => Say(id, Error(-32601));
    }

    method EndTurn(session: AcpId)
      modifies this, pending, sessions
      ensures View() == CleanupPrompt(old(View()), session)
    {
      pending.TakePrompt(session);
      sessions.EndPrompt(session);
    }

    method OnStream(request: nat, event: StreamEvent, pick: AcpId)
      modifies this, pending, sessions
      ensures View() == HandleStream(old(View()), request, event, pick)
    {
      if pick !in pending.prompts || pending.prompts[pick].request != request {
        return;
      }
      var p := pending.prompts[pick];
      out := out + Updates(event, p.session, p.id);
      if Terminal(event) {
        Say(p.id, Result);
        EndTurn(p.session);
      }
    }

    method OnModels(selected: Option<string>, up: bool)
      modifies this, pending, sessions
      ensures View() == HandleModels(old(View()), selected, up)
    {
      var waiting := pending.TakeModelsPending();
      if waiting.Some? {
        if up {
          Park(CreateSession, waiting.value);
        } else {
          status := Aborted;
        }
      } else if SetModel in pending.sync {
        var target := pending.TakePendingSession(SetModel);
        if target.Some? && target.value in sessions.byId {
          sessions.Put(target.value, sessions.byId[target.value].(model := selected));
        }
        Settle(SetModel, Result);
      }
    }

    method OnEffortSet(effort: string)
      modifies this, pending, sessions
      ensures View() == HandleEffortSet(old(View()), effort)
    {
      if SetReasoningEffort in pending.sync {
        var target := pending.TakePendingSession(SetReasoningEffort);
        if target.Some? && target.value in sessions.byId {
          sessions.Put(target.value, sessions.byId[target.value].(effort := Some(effort)));
        }
        Settle(SetReasoningEffort, Result);
      }
    }

    method OnCreated(daemonId: nat, up: bool)
      modifies this, pending, sessions
      ensures View() == HandleCreated(old(View()), daemonId, up)
    {
      if CreateSession in pending.sync {
        sessions.Create(daemonId);
        if up {
          Settle(CreateSession, Result);
        } else {
          var _ := pending.TakeSync(CreateSession);
          status := Aborted;
        }
      }
    }

    method OnDeleted(daemonId: nat)
      modifies this, pending, sessions
      ensures View() == HandleDeleted(old(View()), daemonId)
    {
      if DeleteSession(daemonId) in pending.sync {
        if daemonId in sessions.byDaemon {
          var _ := sessions.Remove(sessions.byDaemon[daemonId]);
        }
        Settle(DeleteSession(daemonId), Result);
      }
    }

    method OnConfigFailed(kind: Kind)
      modifies this, pending
      ensures View() == HandleConfigFailed(old(View()), kind)
    {
      if kind in pending.sync {
        var _ := pending.TakePendingSession(kind);
        Settle(kind, Error(-32000));
      }
    }

    method OnDaemonMessage(msg: DaemonMessage, pick: AcpId, up: bool)
      modifies this, pending, sessions
      ensures View() == HandleDaemon(old(View()), msg, pick, up)
    {
      match msg
      case Models(selected) => OnModels(selected, up);
      case SessionCreated(d) => OnCreated(d, up);
      case SessionList_(_) => Settle(ListSessions, Result);
      case SessionDeleted(d) => OnDeleted(d);
      case SessionDeleteFailed(d) => Settle(DeleteSession(d), Error(-32000));
      case ModelSelectionFailed => OnConfigFailed(SetModel);
      case ReasoningEffortSet(effort) => OnEffortSet(effort);
      case ReasoningEffortSetFailed => OnConfigFailed(SetReasoningEffort);
      case Stream(request, event) => OnStream(request, event, pick);
      case Unrelated =>
    }

    method FailPrompt(k: AcpId)
      requires k in pending.prompts
      modifies this, pending, sessions
      ensures View() == CleanupPrompt(Respond(old(View()), old(pending.prompts)[k].id, Error(-32001)), k)
      ensures pending.prompts == old(pending.prompts) - {k}
    {
      Say(pending.prompts[k].id, Error(-32001));
      EndTurn(k);
    }

    method FailPrompts(order: seq<AcpId>)
      requires IsOrder(order, pending.prompts.Keys)
      modifies this, pending, sessions
      ensures View() == DrainPrompts(old(View()), order)
    {
      ghost var goal := DrainPrompts(View(), order);
      assert order[0..] == order;
      for i := 0 to |order|
        invariant PromptsWait(View(), order[i..]) && DrainPrompts(View(), order[i..]) == goal
      {
        DrainOne(View(), order, i);
        FailPrompt(order[i]);
      }
    }

    method FailSync(order: seq<Kind>)
      requires IsOrder(order, pending.sync.Keys)
      modifies this, pending
      ensures View() == DrainSync(old(View()), order)
    {
      ghost var goal := DrainSync(View(), order);
      assert order[0..] == order;
      for i := 0 to |order|
        invariant SyncWaits(View(), order[i..]) && DrainSync(View(), order[i..]) == goal
      {
        SettleOne(View(), order, i);
        Settle(order[i], Error(-32001));
      }
    }

    method OnDisconnect(promptOrder: seq<AcpId>, syncOrder: seq<Kind>)
      requires IsOrder(promptOrder, pending.prompts.Keys) && IsOrder(syncOrder, pending.sync.Keys)
      modifies this, pending, sessions
      ensures View() == Disconnect(old(View()), promptOrder, syncOrder)
    {
      DrainPromptsFrame(View(), promptOrder);
      FailPrompts(promptOrder);
      FailSync(syncOrder);
      var waiting := pending.TakeModelsPending();
      if waiting.Some? {
        Say(waiting.value, Error(-32001));
      }
      status := Stopped;
    }

    method OnEditor(event: Event, up: bool)
      requires event.Request? || event.Cancel? || event.InitializedNote? || event.OtherNote?
      requires status == Running
      modifies this, pending, sessions
      ensures View() == Step(old(View()), event, up)
    {
      if event.Request? {
        received := received + [event.id];
      }
      if !initialized {
        if event.Request? && event.call.Initialize? {
          Say(event.id, Result);
          initialized := true;
        } else if event.Request? {
          Say(event.id, Error(-32000));
        } else if !event.InitializedNote? {
          Say(0, Error(-32000));
          strays := strays + 1;
        }
      } else if event.Request? {
        OnRequest(event.id, event.call, up);
      } else if event.Cancel? && event.session in pending.prompts && !up {
        status := Aborted;
      }
    }

    method OnEvent(event: Event, up: bool)
      requires status == Running && Admissible(View(), event)
      modifies this, pending, sessions
      ensures View() == Step(old(View()), event, up)
    {
      match event
      case FromDaemon(msg, pick) => OnDaemonMessage(msg, pick, up);
      case DaemonDisconnected(promptOrder, syncOrder) => OnDisconnect(promptOrder, syncOrder);
      case EditorEof => status := Stopped;
      case _ => OnEditor(event, up);
    }

    /**
     The event loop; events after the one that ends it change nothing.  With distinct non-zero editor ids
     its own output answers no id twice and none that was not received, shows for each id updates for
     one session and then nothing after the answer, and, if the run ends by losing the daemon, answers
     every received id but exactly the displaced ones.
     */
    method RunEventLoop(events: seq<(Event, bool)>)
      requires View() == INIT
      requires forall i :: 0 <= i < |events| ==> Admissible(Exec(events[..i]), events[i].0)
      modifies this, pending, sessions
      ensures View() == Exec(events)
      ensures forall j :: DistinctIds(View()) && j != 0 ==>
                Answers(out, j) <= 1 && (Answers(out, j) == 1 ==> j in received)
      ensures forall j :: DistinctIds(View()) && j != 0 ==> QuietAfterReply(out, j) && OneSession(out, j)
      ensures EndsByDisconnect(events) && DistinctIds(View()) ==>
                forall j :: j in received ==> Answers(out, j) == if Displaced(events, j) then 0 else 1
    {
      for i := 0 to |events|
        invariant View() == Exec(events[..i])
      {
        assert events[..i + 1][..i] == events[..i];
        if status == Running {
          OnEvent(events[i].0, events[i].1);
        }
      }
      assert events[..|events|] == events;
      OutputLaws(events);
    }
  }

  /** The last event loses the daemon while the loop is running. */
  ghost predicate EndsByDisconnect(events: seq<(Event, bool)>) {
    && events != []
    && events[|events| - 1].0.DaemonDisconnected?
    && Exec(events[..|events| - 1]).status == Running
    && Admissible(Exec(events[..|events| - 1]), events[|events| - 1].0)
  }

  /** The laws of every run, gathered for the loop's own output. */
  lemma OutputLaws(events: seq<(Event, bool)>)
    ensures var s := Exec(events);
            && (forall j :: DistinctIds(s) && j != 0 ==>
                  Answers(s.out, j) <= 1 && (Answers(s.out, j) == 1 ==> j in s.received))
            && (forall j :: DistinctIds(s) && j != 0 ==> QuietAfterReply(s.out, j) && OneSession(s.out, j))
            && (EndsByDisconnect(events) && DistinctIds(s) ==>
                  forall j :: j in s.received ==> Answers(s.out, j) == if Displaced(events, j) then 0 else 1)
  {
    var s := Exec(events);
    if DistinctIds(s) {
      forall j | j != 0
        ensures Answers(s.out, j) <= 1 && (Answers(s.out, j) == 1 ==> j in s.received)
        ensures QuietAfterReply(s.out, j) && OneSession(s.out, j)
      {
        AnsweredAtMostOnce(events, j);
        RunKeepsTurn(events, j);
      }
      if EndsByDisconnect(events) {
        forall j | j in s.received ensures Answers(s.out, j) == if Displaced(events, j) then 0 else 1 {
          DisconnectedAnswers(events, j);
        }
      }
    }
  }

  lemma DisconnectedAnswers(events: seq<(Event, bool)>, j: nat)
    requires EndsByDisconnect(events) && DistinctIds(Exec(events)) && j in Exec(events).received
    ensures Answers(Exec(events).out, j) == if Displaced(events, j) then 0 else 1
  {
    var n := |events| - 1;
    var last := events[n].0;
    var s := Exec(events[..n]);
    DisconnectHistoriesKept(s, last.promptOrder, last.syncOrder);
    DisconnectAnswersExactly(events[..n], last.promptOrder, last.syncOrder, events[n].1, j);
    DisplacedNext(events, j);
  }
}
