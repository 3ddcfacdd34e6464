/** What every run of the bridge keeps: no request is lost, answered twice, or answered out of turn. */
module AcpLaws {
  import opened Options
  import opened Counts
  import opened Acp

  // ----- Every request id is in exactly one place -----

  /** How often id `j` has been answered. */
  function Answers(out: seq<Output>, j: nat): nat {
    if out == [] then 0
    else
      var o := out[|out| - 1];
      Answers(out[..|out| - 1], j) + if o.Reply? then One(o.id, j) else 0
  }

  function PromptIds(prompts: map<AcpId, Prompt>): map<AcpId, nat> { map k | k in prompts :: prompts[k].id }

  function InModels(models: Option<nat>, j: nat): nat { if models.Some? then One(models.value, j) else 0 }

  /** How often id `j` waits in one of the three tables. */
  ghost function Waiting(p: Pending, j: nat): nat {
    CountIn(p.sync, j) + CountIn(PromptIds(p.prompts), j) + InModels(p.models, j)
  }

  /** In how many places the bridge still knows of id `j`: answered, waiting, or displaced. */
  ghost function Places(s: State, j: nat): nat {
    Answers(s.out, j) + Waiting(s.pending, j) + Occurrences(s.displaced, j)
  }

  /** How often id `j` came in; each notification answered before `initialize` counts as a 0. */
  function Owed(s: State, j: nat): nat { Occurrences(s.received, j) + if j == 0 then s.strays else 0 }

  lemma AnswersSnoc(out: seq<Output>, o: Output, j: nat)
    ensures Answers(out + [o], j) == Answers(out, j) + if o.Reply? then One(o.id, j) else 0
  {
    assert (out + [o])[..|out|] == out;
  }

  lemma {:induction false} UpdatesAreNotAnswers(out: seq<Output>, us: seq<Output>, j: nat)
    requires forall u :: u in us ==> u.Update?
    ensures Answers(out + us, j) == Answers(out, j)
  {
    if us == [] {
      assert out + us == out;
    } else {
      var n := |us| - 1;
      assert out + us == (out + us[..n]) + [us[n]] && us[n] in us;
      UpdatesAreNotAnswers(out, us[..n], j);
      AnswersSnoc(out + us[..n], us[n], j);
    }
  }

  lemma RespondPlaces(s: State, id: nat, answer: Answer, j: nat)
    ensures Places(Respond(s, id, answer), j) == Places(s, j) + One(id, j)
  {
    AnswersSnoc(s.out, Reply(id, answer), j);
  }

  lemma InsertSyncPlaces(s: State, kind: Kind, id: nat, j: nat)
    ensures Places(InsertSync(s, kind, id), j) == Places(s, j) + One(id, j)
  {
    CountInsert(s.pending.sync, kind, id, j);
    if kind in s.pending.sync {
      OccurrencesSnoc(s.displaced, s.pending.sync[kind], j);
    }
  }

  lemma TakeSyncPlaces(s: State, kind: Kind, j: nat)
    requires kind in s.pending.sync
    ensures Places(TakeSync(s, kind), j) + One(s.pending.sync[kind], j) == Places(s, j)
  {
    CountRemove(s.pending.sync, kind, j);
  }

  lemma ResolvePlaces(s: State, kind: Kind, answer: Answer, j: nat)
    ensures Places(Resolve(s, kind, answer), j) == Places(s, j)
  {
    if kind in s.pending.sync {
      TakeSyncPlaces(s, kind, j);
      RespondPlaces(TakeSync(s, kind), s.pending.sync[kind], answer, j);
    }
  }

  lemma TakePromptPlaces(s: State, session: AcpId, j: nat)
    requires session in s.pending.prompts
    ensures Places(TakePrompt(s, session), j) + One(s.pending.prompts[session].id, j) == Places(s, j)
  {
    var ids := PromptIds(s.pending.prompts);
    CountRemove(ids, session, j);
    assert PromptIds(s.pending.prompts - {session}) == ids - {session};
  }

  lemma AddPromptPlaces(s: State, session: AcpId, p: Prompt, j: nat)
    requires session !in s.pending.prompts
    ensures Places(s.(pending := s.pending.(prompts := s.pending.prompts[session := p])), j)
            == Places(s, j) + One(p.id, j)
  {
    var ids := PromptIds(s.pending.prompts);
    CountInsert(ids, session, p.id, j);
    assert PromptIds(s.pending.prompts[session := p]) == ids[session := p.id];
  }

  /** What a handler does to the number of places of id `j`: it adds `more`, or drops some when it aborts. */
  ghost predicate Gains(s: State, s': State, j: nat, more: nat) {
    if s'.status == Aborted then Places(s', j) <= Places(s, j) + more else Places(s', j) == Places(s, j) + more
  }

  /** A request is answered, parked in one table, or dropped by an abort. */
  lemma RequestPlaces(s: State, id: nat, call: Call, up: bool, j: nat)
    requires s.status == Running && GuardsOk(s)
    ensures Gains(s, HandleRequest(s, id, call, up), j, One(id, j))
  {
    match call
    case SessionNew(_) => RespondPlaces(s, id, Error(-32000), j);
    case SessionLoad(_) => RespondPlaces(s, id, Error(-32602), j); RespondPlaces(s, id, Result, j);
    case SessionList => InsertSyncPlaces(s, ListSessions, id, j);
    case SessionDelete(k) => DeletePlaces(s, id, k, up, j);
    case SessionClose(k) => ClosePlaces(s, id, k, j);
    case SessionSetConfig(config) => SetConfigPlaces(s, id, config, up, j);
    case SessionPrompt(target) => StartPromptPlaces(s, id, target, up, j);
    case Initialize => RespondPlaces(s, id, Error(-32601), j);
    case UnknownMethod => RespondPlaces(s, id, Error(-32601), j);
  }

  lemma DeletePlaces(s: State, id: nat, k: AcpId, up: bool, j: nat)
    requires s.status == Running
    ensures Gains(s, DeleteOneSession(s, id, k, up), j, One(id, j))
  {
    RespondPlaces(s, id, Error(-32602), j);
    if k in s.sessions.byId { InsertSyncPlaces(s, DeleteSession(s.sessions.byId[k].daemonId), id, j); }
  }

  lemma ClosePlaces(s: State, id: nat, k: AcpId, j: nat)
    requires s.status == Running
    ensures Gains(s, CloseSession(s, id, k), j, One(id, j))
  {
    RespondPlaces(s, id, Error(-32602), j);
    RespondPlaces(RemoveSession(s, k), id, Result, j);
  }

  lemma SetConfigPlaces(s: State, id: nat, config: Option<(AcpId, ConfigOption)>, up: bool, j: nat)
    requires s.status == Running
    ensures Gains(s, SetConfig(s, id, config, up), j, One(id, j))
  {
    RespondPlaces(s, id, Error(-32602), j);
    if config.Some? && config.value.0 in s.sessions.byId {
      match config.value.1
      case ModelOption(_) => ParkConfigPlaces(s, SetModel, id, config.value.0, j);
      case EffortOption(_) => ParkConfigPlaces(s, SetReasoningEffort, id, config.value.0, j);
      case ToolGroupsOption => RespondPlaces(s, id, Result, j);
      case UnknownOption =>
    }
  }

  lemma ParkConfigPlaces(s: State, kind: Kind, id: nat, k: AcpId, j: nat)
    ensures Places(StoreConfigSession(InsertSync(s, kind, id), kind, k), j) == Places(s, j) + One(id, j)
  {
    InsertSyncPlaces(s, kind, id, j);
  }

  lemma ModelsPlaces(s: State, selected: Option<string>, up: bool, j: nat)
    requires s.status == Running
    ensures Gains(s, HandleModels(s, selected, up), j, 0)
  {
    if s.pending.models.Some? {
      InsertSyncPlaces(s.(pending := s.pending.(models := None)), CreateSession, s.pending.models.value, j);
    } else if SetModel in s.pending.sync {
      ResolvePlaces(TakeConfigSession(WithModel(s, selected), SetModel), SetModel, Result, j);
    }
  }

  lemma CreatedPlaces(s: State, d: nat, up: bool, j: nat)
    requires s.status == Running
    ensures Gains(s, HandleCreated(s, d, up), j, 0)
  {
    if CreateSession in s.pending.sync {
      ResolvePlaces(CreateMapping(s, d), CreateSession, Result, j);
      TakeSyncPlaces(CreateMapping(s, d), CreateSession, j);
    }
  }

  lemma DeletedPlaces(s: State, d: nat, j: nat)
    requires s.status == Running
    ensures Gains(s, HandleDeleted(s, d), j, 0)
  {
    if d in s.sessions.byDaemon {
      ResolvePlaces(RemoveSession(s, s.sessions.byDaemon[d]), DeleteSession(d), Result, j);
    } else {
      ResolvePlaces(s, DeleteSession(d), Result, j);
    }
  }

  lemma StartPromptPlaces(s: State, id: nat, target: Option<AcpId>, up: bool, j: nat)
    requires s.status == Running && GuardsOk(s)
    ensures Gains(s, StartPrompt(s, id, target, up), j, One(id, j))
  {
    RespondPlaces(s, id, Error(-32602), j);
    if target.Some? && target.value in s.sessions.byId {
      var session, request := target.value, s.sessions.nextRequest;
      var spent := s.(sessions := s.sessions.(nextRequest := (request + 1) % ID_SPACE), issued := s.issued + 1);
      RespondPlaces(spent, id, Error(-32000), j);
      assert GuardOk(s, session);
      if s.sessions.byId[session].active.None? {
        var begun := SetSession(spent, session, spent.sessions.byId[session].(active := Some(request)));
        AddPromptPlaces(begun, session, Prompt(id, request, session, s.issued), j);
      }
    }
  }

  lemma StreamPlaces(s: State, request: nat, event: StreamEvent, pick: AcpId, j: nat)
    requires s.status == Running && PromptsOk(s)
    ensures Gains(s, HandleStream(s, request, event, pick), j, 0)
  {
    if Carries(s, pick, request) {
      assert PromptOk(s, pick);
      var p := s.pending.prompts[pick];
      var streamed := s.(out := s.out + Updates(event, p.session, p.id));
      UpdatesAreNotAnswers(s.out, Updates(event, p.session, p.id), j);
      RespondPlaces(streamed, p.id, Result, j);
      TakePromptPlaces(Respond(streamed, p.id, Result), pick, j);
    }
  }

  lemma ConfigFailedPlaces(s: State, kind: Kind, j: nat)
    requires s.status == Running
    ensures Gains(s, HandleConfigFailed(s, kind), j, 0)
  {
    ResolvePlaces(TakeConfigSession(s, kind), kind, Error(-32000), j);
  }

  lemma EffortSetPlaces(s: State, effort: string, j: nat)
    requires s.status == Running
    ensures Gains(s, HandleEffortSet(s, effort), j, 0)
  {
    ResolvePlaces(TakeConfigSession(WithEffort(s, effort), SetReasoningEffort), SetReasoningEffort, Result, j);
  }

  /** A daemon message moves requests between places without losing or duplicating any. */
  lemma DaemonPlaces(s: State, msg: DaemonMessage, pick: AcpId, up: bool, j: nat)
    requires s.status == Running && PromptsOk(s)
    ensures Gains(s, HandleDaemon(s, msg, pick, up), j, 0)
  {
    match msg
    case Models(selected) => ModelsPlaces(s, selected, up, j);
    case SessionCreated(d) => CreatedPlaces(s, d, up, j);
    case SessionList_(_) => ResolvePlaces(s, ListSessions, Result, j);
    case SessionDeleted(d) => DeletedPlaces(s, d, j);
    case SessionDeleteFailed(d) => ResolvePlaces(s, DeleteSession(d), Error(-32000), j);
    case ModelSelectionFailed => ConfigFailedPlaces(s, SetModel, j);
    case ReasoningEffortSet(effort) => EffortSetPlaces(s, effort, j);
    case ReasoningEffortSetFailed => ConfigFailedPlaces(s, SetReasoningEffort, j);
    case Stream(request, event) => StreamPlaces(s, request, event, pick, j);
    case Unrelated =>
  }

  lemma {:induction false} DrainPromptsPlaces(s: State, order: seq<AcpId>, j: nat)
    requires forall k :: k in order ==> k in s.pending.prompts
    requires forall a, b :: 0 <= a < b < |order| ==> order[a] != order[b]
    ensures Places(DrainPrompts(s, order), j) == Places(s, j)
    ensures DrainPrompts(s, order).status == s.status
    ensures forall k :: k in DrainPrompts(s, order).pending.prompts <==> k in s.pending.prompts && k !in order
    decreases |order|
  {
    if order != [] {
      var id := s.pending.prompts[order[0]].id;
      var answered := Respond(s, id, Error(-32001));
      RespondPlaces(s, id, Error(-32001), j);
      TakePromptPlaces(answered, order[0], j);
      DrainPromptsPlaces(CleanupPrompt(answered, order[0]), order[1..], j);
      assert order == [order[0]] + order[1..];
    }
  }

  lemma {:induction false} DrainSyncPlaces(s: State, order: seq<Kind>, j: nat)
    requires forall k :: k in order ==> k in s.pending.sync
    requires forall a, b :: 0 <= a < b < |order| ==> order[a] != order[b]
    ensures Places(DrainSync(s, order), j) == Places(s, j)
    ensures forall k :: k in DrainSync(s, order).pending.sync <==> k in s.pending.sync && k !in order
    decreases |order|
  {
    if order != [] {
      ResolvePlaces(s, order[0], Error(-32001), j);
      var s1 := Resolve(s, order[0], Error(-32001));
      assert s1.pending.sync == s.pending.sync - {order[0]};
      DrainSyncPlaces(s1, order[1..], j);
      assert order == [order[0]] + order[1..];
    }
  }

  lemma {:induction false} DrainSyncFrame(s: State, order: seq<Kind>)
    requires forall k :: k in order ==> k in s.pending.sync
    requires forall a, b :: 0 <= a < b < |order| ==> order[a] != order[b]
    ensures DrainSync(s, order).pending.prompts == s.pending.prompts
    ensures DrainSync(s, order).pending.models == s.pending.models
    decreases |order|
  {
    if order != [] {
      DrainSyncFrame(Resolve(s, order[0], Error(-32001)), order[1..]);
    }
  }

  /** Losing the daemon empties every table into the output. */
  lemma DisconnectPlaces(s: State, promptOrder: seq<AcpId>, syncOrder: seq<Kind>, j: nat)
    requires IsOrder(promptOrder, s.pending.prompts.Keys) && IsOrder(syncOrder, s.pending.sync.Keys)
    ensures var s' := Disconnect(s, promptOrder, syncOrder);
            && Places(s', j) == Places(s, j)
            && s'.pending.sync == map[] && s'.pending.prompts == map[] && s'.pending.models == None
  {
    var a := DrainPrompts(s, promptOrder);
    DrainPromptsPlaces(s, promptOrder, j);
    DrainPromptsFrame(s, promptOrder);
    var b := DrainSync(a, syncOrder);
    DrainSyncPlaces(a, syncOrder, j);
    DrainSyncFrame(a, syncOrder);
    DrainModelsPlaces(b, j);
    assert b.pending.prompts == map[] && b.pending.sync == map[];
  }

  lemma DrainModelsPlaces(b: State, j: nat)
    ensures Places(DrainModels(b), j) == Places(b, j)
    ensures DrainModels(b).pending == b.pending.(models := None)
  {
    if b.pending.models.Some? {
      RespondPlaces(b.(pending := b.pending.(models := None)), b.pending.models.value, Error(-32001), j);
    }
  }

  // ----- Sessions and prompts agree -----

  ghost predicate Minted(s: State, k: AcpId) { k.Sess? && k.serial < s.sessions.nextSerial }

  /** A tracked prompt sits under its own session and carries the wrapped form of its serial. */
  ghost predicate PromptOk(s: State, k: AcpId)
    requires k in s.pending.prompts
  {
    var p := s.pending.prompts[k];
    p.session == k && p.serial < s.issued && p.request == (1 + p.serial) % ID_SPACE
  }

  /** A session's guard names exactly the prompt tracked for it. */
  ghost predicate GuardOk(s: State, k: AcpId)
    requires k in s.sessions.byId
  {
    s.sessions.byId[k].active
    == if k in s.pending.prompts then Some(s.pending.prompts[k].request) else None
  }

  ghost predicate AllMinted(s: State) {
    forall k :: k in s.sessions.byId || k in s.pending.prompts ==> Minted(s, k)
  }

  ghost predicate PromptsOk(s: State) { forall k :: k in s.pending.prompts ==> PromptOk(s, k) }

  ghost predicate SerialsDistinct(s: State) {
    forall a, b :: a in s.pending.prompts && b in s.pending.prompts && a != b ==>
      s.pending.prompts[a].serial != s.pending.prompts[b].serial
  }

  ghost predicate GuardsOk(s: State) { forall k :: k in s.sessions.byId ==> GuardOk(s, k) }

  /** The reverse map names sessions that exist and point back. */
  ghost predicate MappingOk(s: State) {
    forall d :: d in s.sessions.byDaemon ==>
      && s.sessions.byDaemon[d] in s.sessions.byId
      && s.sessions.byId[s.sessions.byDaemon[d]].daemonId == d
  }

  ghost predicate Coherent(s: State) {
    && AllMinted(s) && PromptsOk(s) && SerialsDistinct(s) && GuardsOk(s) && MappingOk(s)
    && s.sessions.nextRequest == (1 + s.issued) % ID_SPACE
  }

  lemma CoherentFrame(s: State, s': State)
    requires Coherent(s)
    requires SameCore(s, s')
    ensures Coherent(s')
  {
    assert forall k :: k in s'.pending.prompts ==> PromptOk(s, k);
    assert forall k :: k in s'.sessions.byId ==> GuardOk(s, k);
    assert forall k :: k in s'.sessions.byId || k in s'.pending.prompts ==> Minted(s, k);
  }

  /** Ending a prompt clears the guard and the table entry together. */
  lemma CleanupKeepsCoherent(s: State, session: AcpId)
    requires Coherent(s)
    ensures Coherent(CleanupPrompt(s, session))
  {
    var s' := CleanupPrompt(s, session);
    assert forall k :: k in s'.pending.prompts ==> PromptOk(s, k) && PromptOk(s', k);
    CleanupKeepsGuards(s, session);
    assert forall k :: k in s'.sessions.byId || k in s'.pending.prompts ==> Minted(s, k) && Minted(s', k);
    assert MappingOk(s') && SerialsDistinct(s');
  }

  lemma CleanupKeepsGuards(s: State, session: AcpId)
    requires GuardsOk(s)
    ensures GuardsOk(CleanupPrompt(s, session))
  {
    var s' := CleanupPrompt(s, session);
    forall k | k in s'.sessions.byId ensures GuardOk(s', k) { assert GuardOk(s, k); }
  }

  lemma {:induction false} DrainKeepsCoherent(s: State, order: seq<AcpId>)
    requires Coherent(s)
    requires forall k :: k in order ==> k in s.pending.prompts
    requires forall i, j :: 0 <= i < j < |order| ==> order[i] != order[j]
    ensures Coherent(DrainPrompts(s, order))
    decreases |order|
  {
    if order != [] {
      var answered := Respond(s, s.pending.prompts[order[0]].id, Error(-32001));
      CoherentFrame(s, answered);
      CleanupKeepsCoherent(answered, order[0]);
      DrainKeepsCoherent(CleanupPrompt(answered, order[0]), order[1..]);
    }
  }

  lemma {:induction false} DrainSyncKeepsCoherent(s: State, order: seq<Kind>)
    requires Coherent(s)
    requires forall k :: k in order ==> k in s.pending.sync
    requires forall i, j :: 0 <= i < j < |order| ==> order[i] != order[j]
    ensures Coherent(DrainSync(s, order))
    decreases |order|
  {
    if order != [] {
      CoherentFrame(s, Resolve(s, order[0], Error(-32001)));
      DrainSyncKeepsCoherent(Resolve(s, order[0], Error(-32001)), order[1..]);
    }
  }

  /** A change to a session's settings touches neither its guard nor its mapping. */
  lemma SettingsKeepCoherent(s: State, k: AcpId, v: Session)
    requires Coherent(s) && k in s.sessions.byId
    requires v.active == s.sessions.byId[k].active && v.daemonId == s.sessions.byId[k].daemonId
    ensures Coherent(SetSession(s, k, v))
  {
    var s' := SetSession(s, k, v);
    assert forall j :: j in s'.pending.prompts ==> PromptOk(s, j);
    assert forall j :: j in s'.sessions.byId ==> GuardOk(s, j);
    assert forall j :: j in s'.sessions.byId || j in s'.pending.prompts ==> Minted(s, j);
  }

  /** A new session's id is fresh, so no leftover prompt can be taken for its own. */
  lemma CreateKeepsCoherent(s: State, daemonId: nat)
    requires Coherent(s)
    ensures Coherent(CreateMapping(s, daemonId))
  {
    var s' := CreateMapping(s, daemonId);
    var id := Sess(s.sessions.nextSerial);
    assert !Minted(s, id);
    assert forall j :: j in s'.pending.prompts ==> PromptOk(s, j);
    assert forall j :: j in s'.sessions.byId && j != id ==> GuardOk(s, j);
    assert forall j :: (j in s'.sessions.byId || j in s'.pending.prompts) && j != id ==> Minted(s, j);
  }

  lemma RemoveKeepsCoherent(s: State, k: AcpId)
    requires Coherent(s)
    ensures Coherent(RemoveSession(s, k))
  {
    var s' := RemoveSession(s, k);
    assert forall j :: j in s'.pending.prompts ==> PromptOk(s, j);
    assert forall j :: j in s'.sessions.byId ==> GuardOk(s, j);
    assert forall j :: j in s'.sessions.byId || j in s'.pending.prompts ==> Minted(s, j);
  }

  lemma WrapNext(n: nat)
    ensures ((1 + n) % ID_SPACE + 1) % ID_SPACE == (1 + (n + 1)) % ID_SPACE
  {
  }

  /** Spending a request id keeps the wrapped counter in step with the number issued. */
  lemma SpendKeepsCoherent(s: State)
    requires Coherent(s)
    ensures Coherent(s.(sessions := s.sessions.(nextRequest := (s.sessions.nextRequest + 1) % ID_SPACE),
                        issued := s.issued + 1))
  {
    WrapNext(s.issued);
    assert forall k :: k in s.pending.prompts ==> PromptOk(s, k);
    assert forall k :: k in s.sessions.byId ==> GuardOk(s, k);
    assert forall k :: k in s.sessions.byId || k in s.pending.prompts ==> Minted(s, k);
  }

  /** Beginning a prompt sets the guard and the table entry together, under a serial not seen before. */
  lemma BeginKeepsCoherent(s: State, k: AcpId, p: Prompt)
    requires Coherent(s) && k in s.sessions.byId && s.sessions.byId[k].active.None?
    requires PromptOk(s.(pending := s.pending.(prompts := map[k := p])), k)
    requires forall j :: j in s.pending.prompts ==> s.pending.prompts[j].serial != p.serial
    ensures Coherent(SetSession(s, k, s.sessions.byId[k].(active := Some(p.request)))
                     .(pending := s.pending.(prompts := s.pending.prompts[k := p])))
  {
    assert forall j :: j in s.pending.prompts ==> PromptOk(s, j);
    assert forall j :: j in s.sessions.byId ==> GuardOk(s, j);
    assert forall j :: j in s.sessions.byId || j in s.pending.prompts ==> Minted(s, j);
  }

  lemma StartPromptKeepsCoherent(s: State, id: nat, target: Option<AcpId>)
    requires Coherent(s)
    ensures Coherent(StartPrompt(s, id, target, true))
  {
    var s' := StartPrompt(s, id, target, true);
    if target.None? || target.value !in s.sessions.byId {
      CoherentFrame(s, s');
    } else {
      SpendKeepsCoherent(s);
      if s.sessions.byId[target.value].active.Some? {
        CoherentFrame(Spent(s), s');
      } else {
        IdlePromptKeepsCoherent(s, id, target.value);
      }
    }
  }

  /** One request id taken from the counter. */
  function Spent(s: State): State {
    s.(sessions := s.sessions.(nextRequest := (s.sessions.nextRequest + 1) % ID_SPACE), issued := s.issued + 1)
  }

  lemma IdlePromptKeepsCoherent(s: State, id: nat, k: AcpId)
    requires Coherent(s) && Coherent(Spent(s))
    requires k in s.sessions.byId && s.sessions.byId[k].active.None?
    ensures Coherent(StartPrompt(s, id, Some(k), true))
  {
    var p := Prompt(id, s.sessions.nextRequest, k, s.issued);
    assert forall j :: j in s.pending.prompts ==> PromptOk(s, j);
    BeginKeepsCoherent(Spent(s), k, p);
  }

  lemma RequestKeepsCoherent(s: State, id: nat, call: Call, up: bool)
    requires Coherent(s) && HandleRequest(s, id, call, up).status != Aborted
    ensures s.status == Running ==> Coherent(HandleRequest(s, id, call, up))
  {
    var s' := HandleRequest(s, id, call, up);
    match call
    case SessionClose(k) =>
      RemoveKeepsCoherent(s, k);
      CoherentFrame(RemoveSession(s, k), s');
    case SessionPrompt(target) =>
      StartPromptKeepsCoherent(s, id, target);
    case _ =>
      RequestKeepsCore(s, id, call, up);
      CoherentFrame(s, s');
  }

  /** Every other request leaves the sessions and the prompts alone. */
  lemma RequestKeepsCore(s: State, id: nat, call: Call, up: bool)
    requires !call.SessionClose? && !call.SessionPrompt?
    ensures SameCore(s, HandleRequest(s, id, call, up))
  {}

  predicate SameCore(s: State, s': State) {
    s'.sessions == s.sessions && s'.pending.prompts == s.pending.prompts && s'.issued == s.issued
  }

  lemma DaemonKeepsCoherent(s: State, msg: DaemonMessage, pick: AcpId, up: bool)
    requires Coherent(s) && HandleDaemon(s, msg, pick, up).status != Aborted
    ensures Coherent(HandleDaemon(s, msg, pick, up))
  {
    var s' := HandleDaemon(s, msg, pick, up);
    var mid := s;
    match msg {
      case Models(selected) =>
        if s.pending.models.None? && SetModel in s.pending.sync {
          mid := WithModel(s, selected);
        }
      case SessionCreated(d) =>
        if CreateSession in s.pending.sync {
          mid := CreateMapping(s, d);
          CreateKeepsCoherent(s, d);
        }
      case SessionDeleted(d) =>
        if DeleteSession(d) in s.pending.sync && d in s.sessions.byDaemon {
          mid := RemoveSession(s, s.sessions.byDaemon[d]);
          RemoveKeepsCoherent(s, s.sessions.byDaemon[d]);
        }
      case ReasoningEffortSet(effort) =>
        if SetReasoningEffort in s.pending.sync {
          mid := WithEffort(s, effort);
        }
      case Stream(request, event) =>
        if Carries(s, pick, request) && Terminal(event) {
          assert PromptOk(s, pick);
          var p := s.pending.prompts[pick];
          var answered := Respond(s.(out := s.out + Updates(event, p.session, p.id)), p.id, Result);
          CoherentFrame(s, answered);
          CleanupKeepsCoherent(answered, pick);
          mid := s';
        }
      case _ =>
    }
    ConfigKeepsCoherent(s, msg);
    CoherentFrame(mid, s');
  }

  lemma ConfigKeepsCoherent(s: State, msg: DaemonMessage)
    requires Coherent(s)
    ensures msg.Models? ==> Coherent(WithModel(s, msg.selected))
    ensures msg.ReasoningEffortSet? ==> Coherent(WithEffort(s, msg.effort))
  {
    if msg.Models? && ConfigTarget(s, SetModel).Some? {
      var k := ConfigTarget(s, SetModel).value;
      SettingsKeepCoherent(s, k, s.sessions.byId[k].(model := msg.selected));
    }
    if msg.ReasoningEffortSet? && ConfigTarget(s, SetReasoningEffort).Some? {
      var k := ConfigTarget(s, SetReasoningEffort).value;
      SettingsKeepCoherent(s, k, s.sessions.byId[k].(effort := Some(msg.effort)));
    }
  }

  // ----- Every run -----

  /** Only a bridge whose daemon channel broke can have dropped a request. */
  ghost predicate Accounted(s: State, j: nat) {
    if s.status == Aborted then Places(s, j) <= Owed(s, j) else Places(s, j) == Owed(s, j)
  }

  lemma UninitializedPlaces(s: State, event: Event, j: nat)
    requires event.Request? || event.Cancel? || event.InitializedNote? || event.OtherNote?
    ensures var s' := Uninitialized(s, event);
            Places(s', j) == Places(s, j) + (if event.Request? then One(event.id, j) else 0)
                             + (if j == 0 then s'.strays - s.strays else 0)
  {
    if event.Request? {
      RespondPlaces(s, event.id, Result, j);
      RespondPlaces(s, event.id, Error(-32000), j);
    } else {
      RespondPlaces(s, 0, Error(-32000), j);
    }
  }

  lemma RequestStepAccounted(s: State, event: Event, up: bool, j: nat)
    requires s.status == Running && event.Request? && GuardsOk(s) && Accounted(s, j)
    ensures Accounted(Step(s, event, up), j)
  {
    var r := s.(received := s.received + [event.id]);
    OccurrencesSnoc(s.received, event.id, j);
    HistoriesKept(r, event.id, event.call, up);
    if s.initialized {
      assert forall k :: k in s.sessions.byId ==> GuardOk(s, k);
      RequestPlaces(r, event.id, event.call, up, j);
    } else {
      UninitializedPlaces(r, event, j);
    }
  }

  /** Handling a request changes neither what was received nor the count of stray answers. */
  lemma HistoriesKept(s: State, id: nat, call: Call, up: bool)
    ensures var s' := HandleRequest(s, id, call, up);
            s'.received == s.received && s'.strays == s.strays
  {
  }

  lemma DaemonHistoriesKept(s: State, msg: DaemonMessage, pick: AcpId, up: bool)
    ensures var s' := HandleDaemon(s, msg, pick, up);
            s'.received == s.received && s'.strays == s.strays
  {
  }

  lemma {:induction false} DrainHistoriesKept(s: State, order: seq<AcpId>)
    requires forall k :: k in order ==> k in s.pending.prompts
    requires forall a, b :: 0 <= a < b < |order| ==> order[a] != order[b]
    ensures var s' := DrainPrompts(s, order);
            s'.received == s.received && s'.strays == s.strays && s'.displaced == s.displaced
    decreases |order|
  {
    if order != [] {
      var answered := Respond(s, s.pending.prompts[order[0]].id, Error(-32001));
      DrainHistoriesKept(CleanupPrompt(answered, order[0]), order[1..]);
    }
  }

  lemma {:induction false} DrainSyncHistoriesKept(s: State, order: seq<Kind>)
    requires forall k :: k in order ==> k in s.pending.sync
    requires forall a, b :: 0 <= a < b < |order| ==> order[a] != order[b]
    ensures var s' := DrainSync(s, order);
            s'.received == s.received && s'.strays == s.strays && s'.displaced == s.displaced
    decreases |order|
  {
    if order != [] {
      DrainSyncHistoriesKept(Resolve(s, order[0], Error(-32001)), order[1..]);
    }
  }

  lemma DisconnectHistoriesKept(s: State, promptOrder: seq<AcpId>, syncOrder: seq<Kind>)
    requires IsOrder(promptOrder, s.pending.prompts.Keys) && IsOrder(syncOrder, s.pending.sync.Keys)
    ensures var s' := Disconnect(s, promptOrder, syncOrder);
            && s'.received == s.received && s'.strays == s.strays && s'.displaced == s.displaced
            && s'.status == Stopped
  {
    DrainHistoriesKept(s, promptOrder);
    DrainPromptsFrame(s, promptOrder);
    DrainSyncHistoriesKept(DrainPrompts(s, promptOrder), syncOrder);
  }

  /** One turn of the loop accounts for every request id. */
  lemma StepAccounted(s: State, event: Event, up: bool, j: nat)
    requires s.status != Aborted ==> GuardsOk(s) && PromptsOk(s)
    requires Accounted(s, j)
    ensures Accounted(Step(s, event, up), j)
  {
    if s.status == Running && Admissible(s, event) {
      match event
      case Request(id, call) => RequestStepAccounted(s, event, up, j);
      case FromDaemon(msg, pick) =>
        DaemonPlaces(s, msg, pick, up, j);
        DaemonHistoriesKept(s, msg, pick, up);
      case DaemonDisconnected(promptOrder, syncOrder) =>
        DisconnectPlaces(s, promptOrder, syncOrder, j);
        DisconnectHistoriesKept(s, promptOrder, syncOrder);
      case EditorEof =>
      case Cancel(session) => UninitializedPlaces(s, event, j);
      case InitializedNote =>
      case OtherNote => UninitializedPlaces(s, event, j);
    }
  }

  lemma DisconnectKeepsCoherent(s: State, promptOrder: seq<AcpId>, syncOrder: seq<Kind>)
    requires Coherent(s)
    requires IsOrder(promptOrder, s.pending.prompts.Keys) && IsOrder(syncOrder, s.pending.sync.Keys)
    ensures Coherent(Disconnect(s, promptOrder, syncOrder))
  {
    DrainKeepsCoherent(s, promptOrder);
    DrainPromptsFrame(s, promptOrder);
    var a := DrainPrompts(s, promptOrder);
    DrainSyncKeepsCoherent(a, syncOrder);
    CoherentFrame(DrainSync(a, syncOrder), Disconnect(s, promptOrder, syncOrder));
  }

  lemma StepCoherent(s: State, event: Event, up: bool)
    requires s.status != Aborted ==> Coherent(s)
    ensures Step(s, event, up).status != Aborted ==> Coherent(Step(s, event, up))
  {
    var s' := Step(s, event, up);
    if s.status == Running && Admissible(s, event) && s'.status != Aborted {
      match event
      case Request(id, call) =>
        var r := s.(received := s.received + [id]);
        CoherentFrame(s, r);
        if s.initialized {
          RequestKeepsCoherent(r, id, call, up);
        } else {
          CoherentFrame(r, s');
        }
      case FromDaemon(msg, pick) => DaemonKeepsCoherent(s, msg, pick, up);
      case DaemonDisconnected(promptOrder, syncOrder) =>
        DisconnectKeepsCoherent(s, promptOrder, syncOrder);
      case EditorEof => CoherentFrame(s, s');
      case Cancel(_) => CoherentFrame(s, s');
      case InitializedNote =>
      case OtherNote => CoherentFrame(s, s');
    }
  }

  lemma InitHolds(j: nat)
    ensures Coherent(INIT) && Accounted(INIT, j)
  {
    assert PromptIds(map[]) == map[];
  }

  lemma {:induction false} RunCoherent(events: seq<(Event, bool)>)
    ensures Exec(events).status != Aborted ==> Coherent(Exec(events))
  {
    if events == [] {
      InitHolds(0);
    } else {
      var n := |events| - 1;
      RunCoherent(events[..n]);
      StepCoherent(Exec(events[..n]), events[n].0, events[n].1);
    }
  }

  /**
   Conservation of requests, for every run and every id: an id is answered, waiting in one of the
   tables, or displaced by a later request of its kind, in all exactly as often as it came in.
   */
  lemma {:induction false} RequestsAreConserved(events: seq<(Event, bool)>, j: nat)
    ensures Accounted(Exec(events), j)
  {
    if events == [] {
      InitHolds(j);
    } else {
      var n := |events| - 1;
      RequestsAreConserved(events[..n], j);
      RunCoherent(events[..n]);
      StepAccounted(Exec(events[..n]), events[n].0, events[n].1, j);
    }
  }

  /** The editor never reuses an id and never uses 0. */
  ghost predicate DistinctIds(s: State) {
    (forall j :: Occurrences(s.received, j) <= 1) && 0 !in s.received
  }

  /** With distinct non-zero editor ids no id is ever answered twice, even by a bridge that breaks off. */
  lemma AnsweredAtMostOnce(events: seq<(Event, bool)>, j: nat)
    requires DistinctIds(Exec(events)) && j != 0
    ensures Answers(Exec(events).out, j) <= 1
    ensures j !in Exec(events).received ==> Answers(Exec(events).out, j) == 0
  {
    RequestsAreConserved(events, j);
    OccurrencesMember(Exec(events).received, j);
  }

  /** With distinct non-zero ids each received id is in exactly one place at every moment. */
  lemma EachIdInOnePlace(events: seq<(Event, bool)>, j: nat)
    requires DistinctIds(Exec(events)) && Exec(events).status != Aborted
    requires j in Exec(events).received
    ensures var s := Exec(events);
            Answers(s.out, j) + CountIn(s.pending.sync, j) + CountIn(PromptIds(s.pending.prompts), j)
            + InModels(s.pending.models, j) + Occurrences(s.displaced, j) == 1
  {
    RequestsAreConserved(events, j);
    OccurrencesMember(Exec(events).received, j);
  }

  /**
   Losing the daemon leaves every received id answered exactly once, except for exactly those that a
   later request of their kind displaced, which are never answered.
   */
  lemma DisconnectAnswersEveryone(events: seq<(Event, bool)>, promptOrder: seq<AcpId>, syncOrder: seq<Kind>,
                                  up: bool, j: nat)
    requires Exec(events).status == Running && Admissible(Exec(events), DaemonDisconnected(promptOrder, syncOrder))
    requires DistinctIds(Exec(events))
    requires j in Exec(events).received
    ensures var answered := Answers(Step(Exec(events), DaemonDisconnected(promptOrder, syncOrder), up).out, j);
            answered == if j in Exec(events).displaced then 0 else 1
  {
    var s := Exec(events);
    var s' := Step(s, DaemonDisconnected(promptOrder, syncOrder), up);
    EachIdInOnePlace(events, j);
    DisconnectPlaces(s, promptOrder, syncOrder, j);
    DisconnectHistoriesKept(s, promptOrder, syncOrder);
    OccurrencesMember(s.displaced, j);
    assert PromptIds(map[]) == map[];
  }

  /** For every session in the manager, the guard is `Some(r)` exactly when its tracked prompt carries `r`. */
  lemma GuardMatchesPrompt(events: seq<(Event, bool)>, k: AcpId, r: nat)
    requires Exec(events).status != Aborted && k in Exec(events).sessions.byId
    ensures Exec(events).sessions.byId[k].active == Some(r) <==> Carries(Exec(events), k, r)
  {
    RunCoherent(events);
    assert GuardOk(Exec(events), k);
  }

  lemma WrapCollision(m: nat, n: nat)
    ensures (1 + m) % ID_SPACE == (1 + n) % ID_SPACE <==> (m - n) % ID_SPACE == 0
  {
    var a, b := (1 + m) / ID_SPACE, (1 + n) / ID_SPACE;
    var d := (1 + m) % ID_SPACE - (1 + n) % ID_SPACE;
    assert m - n == ID_SPACE * (a - b) + d;
    if (m - n) % ID_SPACE == 0 {
      var q := (m - n) / ID_SPACE;
      assert d == ID_SPACE * (q - (a - b));
    }
  }

  /** What a run establishes about its tracked prompts, one at a time. */
  lemma TrackedPromptsAreOk(events: seq<(Event, bool)>)
    requires Exec(events).status != Aborted
    ensures var s := Exec(events);
            && PromptsOk(s) && SerialsDistinct(s)
  {
    RunCoherent(events);
  }

  lemma CollisionIsWrap(s: State, a: AcpId, b: AcpId)
    requires a in s.pending.prompts && b in s.pending.prompts && PromptOk(s, a) && PromptOk(s, b)
    ensures var p, q := s.pending.prompts[a], s.pending.prompts[b];
            p.request == q.request <==> (p.serial - q.serial) % ID_SPACE == 0
  {
    WrapCollision(s.pending.prompts[a].serial, s.pending.prompts[b].serial);
  }

  /**
   Two tracked prompts carry the same wrapped request id exactly when they were issued a multiple of
   2^32 apart, so prompts issued fewer than 2^32 ids apart never collide.
   */
  lemma RequestIdsCollideExactlyOnWrap(events: seq<(Event, bool)>, a: AcpId, b: AcpId)
    requires Exec(events).status != Aborted
    requires a in Exec(events).pending.prompts && b in Exec(events).pending.prompts && a != b
    ensures var p, q := Exec(events).pending.prompts[a], Exec(events).pending.prompts[b];
            && p.serial != q.serial
            && (p.request == q.request <==> (p.serial - q.serial) % ID_SPACE == 0)
  {
    TrackedPromptsAreOk(events);
    CollisionIsWrap(Exec(events), a, b);
  }

  lemma NearSerialsDiffer(x: int, y: int)
    requires x != y && -ID_SPACE < x - y < ID_SPACE
    ensures (x - y) % ID_SPACE != 0
  {
  }

  /** No live prompt is 2^32 request ids old. */
  ghost predicate Recent(s: State) {
    forall j :: j in s.pending.prompts ==> s.issued - s.pending.prompts[j].serial <= ID_SPACE
  }

  /** A streaming event reaches the one prompt that was issued its id, while all live prompts are recent. */
  lemma StreamReachesItsPrompt(events: seq<(Event, bool)>, k: AcpId, request: nat, event: StreamEvent, pick: AcpId)
    requires Exec(events).status == Running && Recent(Exec(events)) && Carries(Exec(events), k, request)
    requires Admissible(Exec(events), FromDaemon(Stream(request, event), pick))
    ensures pick == k
  {
    var s := Exec(events);
    TrackedPromptsAreOk(events);
    assert Carries(s, pick, request);
    if pick != k {
      CollisionIsWrap(s, pick, k);
      NearSerialsDiffer(s.pending.prompts[pick].serial, s.pending.prompts[k].serial);
    }
  }

  // ----- The output of one prompt -----

  predicate IsReplyTo(o: Output, j: nat) { o.Reply? && o.id == j }

  predicate IsUpdateFor(o: Output, j: nat) { o.Update? && o.prompt == j }

  /** Nothing is streamed for `j` after it has been answered. */
  ghost predicate QuietAfterReply(out: seq<Output>, j: nat) {
    forall a, b :: 0 <= a < b < |out| && IsReplyTo(out[a], j) ==> !IsUpdateFor(out[b], j)
  }

  ghost predicate OneSession(out: seq<Output>, j: nat) {
    forall a, b :: 0 <= a < b < |out| && IsUpdateFor(out[a], j) && IsUpdateFor(out[b], j) ==>
      out[a].session == out[b].session
  }

  ghost predicate StreamsTo(out: seq<Output>, j: nat, k: AcpId) {
    forall a :: 0 <= a < |out| && IsUpdateFor(out[a], j) ==> out[a].session == k
  }

  ghost predicate Silent(out: seq<Output>, j: nat) { forall a :: 0 <= a < |out| ==> !IsUpdateFor(out[a], j) }

  ghost predicate TurnOk(s: State, j: nat) {
    && QuietAfterReply(s.out, j)
    && OneSession(s.out, j)
    && (j !in s.received ==> Silent(s.out, j))
    && (forall k :: k in s.pending.prompts && s.pending.prompts[k].id == j ==> StreamsTo(s.out, j, k))
  }

  /** `out'` extends `out` by answers only. */
  ghost predicate OnlyAnswersAdded(out: seq<Output>, out': seq<Output>) {
    out <= out' && forall a :: |out| <= a < |out'| ==> out'[a].Reply?
  }

  lemma AnswersKeepTurn(s: State, s': State, j: nat)
    requires TurnOk(s, j) && OnlyAnswersAdded(s.out, s'.out)
    requires forall x :: x in s.received ==> x in s'.received
    requires forall k :: k in s'.pending.prompts && s'.pending.prompts[k].id == j ==>
               (k in s.pending.prompts && s.pending.prompts[k].id == j) || j !in s.received
    ensures TurnOk(s', j)
  {
    assert forall a :: 0 <= a < |s'.out| && IsUpdateFor(s'.out[a], j) ==> a < |s.out| && s.out[a] == s'.out[a];
  }

  lemma {:induction false} DrainOnlyAnswers(s: State, order: seq<AcpId>)
    requires forall k :: k in order ==> k in s.pending.prompts
    requires forall a, b :: 0 <= a < b < |order| ==> order[a] != order[b]
    ensures OnlyAnswersAdded(s.out, DrainPrompts(s, order).out)
    decreases |order|
  {
    if order != [] {
      DrainOnlyAnswers(CleanupPrompt(Respond(s, s.pending.prompts[order[0]].id, Error(-32001)), order[0]), order[1..]);
    }
  }

  lemma {:induction false} DrainSyncOnlyAnswers(s: State, order: seq<Kind>)
    requires forall k :: k in order ==> k in s.pending.sync
    requires forall a, b :: 0 <= a < b < |order| ==> order[a] != order[b]
    ensures OnlyAnswersAdded(s.out, DrainSync(s, order).out)
    decreases |order|
  {
    if order != [] {
      DrainSyncOnlyAnswers(Resolve(s, order[0], Error(-32001)), order[1..]);
    }
  }

  lemma DisconnectOnlyAnswers(s: State, promptOrder: seq<AcpId>, syncOrder: seq<Kind>)
    requires IsOrder(promptOrder, s.pending.prompts.Keys) && IsOrder(syncOrder, s.pending.sync.Keys)
    ensures OnlyAnswersAdded(s.out, Disconnect(s, promptOrder, syncOrder).out)
  {
    DrainOnlyAnswers(s, promptOrder);
    DrainPromptsFrame(s, promptOrder);
    DrainSyncOnlyAnswers(DrainPrompts(s, promptOrder), syncOrder);
  }

  lemma RequestOnlyAnswers(s: State, id: nat, call: Call, up: bool)
    ensures OnlyAnswersAdded(s.out, HandleRequest(s, id, call, up).out)
    ensures forall k :: k in HandleRequest(s, id, call, up).pending.prompts ==>
              var p := HandleRequest(s, id, call, up).pending.prompts[k];
              (k in s.pending.prompts && s.pending.prompts[k] == p) || p.id == id
  {
    match call
    case SessionPrompt(_) =>
    case SessionSetConfig(_) =>
    case SessionClose(_) =>
    case _ =>
  }

  lemma ResolveOnlyAnswers(s: State, kind: Kind, answer: Answer)
    ensures OnlyAnswersAdded(s.out, Resolve(s, kind, answer).out)
    ensures Resolve(s, kind, answer).pending.prompts == s.pending.prompts
  {
  }

  lemma DaemonOnlyAnswers(s: State, msg: DaemonMessage, pick: AcpId, up: bool)
    requires !msg.Stream?
    ensures OnlyAnswersAdded(s.out, HandleDaemon(s, msg, pick, up).out)
    ensures HandleDaemon(s, msg, pick, up).pending.prompts == s.pending.prompts
  {
    match msg
    case Models(selected) => ResolveOnlyAnswers(TakeConfigSession(WithModel(s, selected), SetModel), SetModel, Result);
    case SessionCreated(d) => ResolveOnlyAnswers(CreateMapping(s, d), CreateSession, Result);
    case SessionList_(_) => ResolveOnlyAnswers(s, ListSessions, Result);
    case SessionDeleted(d) =>
      var removed := if d in s.sessions.byDaemon then RemoveSession(s, s.sessions.byDaemon[d]) else s;
      ResolveOnlyAnswers(removed, DeleteSession(d), Result);
    case SessionDeleteFailed(d) => ResolveOnlyAnswers(s, DeleteSession(d), Error(-32000));
    case ModelSelectionFailed => ResolveOnlyAnswers(TakeConfigSession(s, SetModel), SetModel, Error(-32000));
    case ReasoningEffortSet(effort) =>
      ResolveOnlyAnswers(TakeConfigSession(WithEffort(s, effort), SetReasoningEffort), SetReasoningEffort, Result);
    case ReasoningEffortSetFailed =>
      ResolveOnlyAnswers(TakeConfigSession(s, SetReasoningEffort), SetReasoningEffort, Error(-32000));
    case Unrelated =>
  }

  lemma {:induction false} NoAnswersNoReply(out: seq<Output>, j: nat)
    requires Answers(out, j) == 0
    ensures forall a :: 0 <= a < |out| ==> !IsReplyTo(out[a], j)
  {
    if out != [] {
      NoAnswersNoReply(out[..|out| - 1], j);
    }
  }

  lemma UpdatesKeepTurn(s: State, pick: AcpId, us: seq<Output>, j: nat)
    requires TurnOk(s, j) && pick in s.pending.prompts
    requires forall u :: u in us ==> u.Update? && u.session == pick && u.prompt == s.pending.prompts[pick].id
    requires s.pending.prompts[pick].id == j ==>
               && j in s.received
               && (forall a :: 0 <= a < |s.out| ==> !IsReplyTo(s.out[a], j))
               && (forall k :: k in s.pending.prompts && s.pending.prompts[k].id == j ==> k == pick)
    ensures TurnOk(s.(out := s.out + us), j)
  {
    var out := s.out + us;
    assert forall a :: |s.out| <= a < |out| ==> out[a] == us[a - |s.out|] && out[a] in us;
    if s.pending.prompts[pick].id == j {
      assert StreamsTo(s.out, j, pick);
      assert StreamsTo(out, j, pick);
    } else {
      assert forall a :: 0 <= a < |out| && IsUpdateFor(out[a], j) ==> a < |s.out| && out[a] == s.out[a];
    }
  }

  ghost predicate PromptsReceived(s: State) {
    forall k :: k in s.pending.prompts ==> s.pending.prompts[k].id in s.received
  }

  /** An id that is in one place only, and tracked under `pick`, is not answered and not tracked elsewhere. */
  lemma SoleTracker(s: State, pick: AcpId, j: nat)
    requires Places(s, j) <= 1 && pick in s.pending.prompts && s.pending.prompts[pick].id == j
    ensures forall a :: 0 <= a < |s.out| ==> !IsReplyTo(s.out[a], j)
    ensures forall k :: k in s.pending.prompts && s.pending.prompts[k].id == j ==> k == pick
  {
    var ids := PromptIds(s.pending.prompts);
    CountRemove(ids, pick, j);
    NoAnswersNoReply(s.out, j);
    forall k | k in s.pending.prompts && s.pending.prompts[k].id == j
      ensures k == pick
    {
      CountUnique(ids, k, pick, j);
    }
  }

  /** A tracked prompt has not been answered, so what is streamed for it comes before its answer. */
  lemma StreamKeepsTurn(s: State, request: nat, event: StreamEvent, pick: AcpId, j: nat)
    requires PromptsOk(s) && PromptsReceived(s) && TurnOk(s, j) && Places(s, j) <= 1
    ensures TurnOk(HandleStream(s, request, event, pick), j)
    ensures PromptsReceived(HandleStream(s, request, event, pick))
  {
    if Carries(s, pick, request) {
      var p := s.pending.prompts[pick];
      assert PromptOk(s, pick);
      if p.id == j {
        SoleTracker(s, pick, j);
      }
      var us := Updates(event, p.session, p.id);
      UpdatesKeepTurn(s, pick, us, j);
      if Terminal(event) {
        AnswersKeepTurn(s.(out := s.out + us), HandleStream(s, request, event, pick), j);
      }
    }
  }

  lemma DaemonKeepsTurn(s: State, msg: DaemonMessage, pick: AcpId, up: bool, j: nat)
    requires PromptsOk(s) && PromptsReceived(s) && TurnOk(s, j) && Places(s, j) <= 1
    ensures TurnOk(HandleDaemon(s, msg, pick, up), j)
    ensures PromptsReceived(HandleDaemon(s, msg, pick, up))
  {
    if msg.Stream? {
      StreamKeepsTurn(s, msg.request, msg.event, pick, j);
    } else {
      DaemonHistoriesKept(s, msg, pick, up);
      DaemonOnlyAnswers(s, msg, pick, up);
      AnswersKeepTurn(s, HandleDaemon(s, msg, pick, up), j);
    }
  }

  lemma RequestKeepsTurn(s: State, event: Event, up: bool, j: nat)
    requires s.status == Running && event.Request? && TurnOk(s, j) && PromptsReceived(s)
    requires DistinctIds(Step(s, event, up))
    ensures TurnOk(Step(s, event, up), j) && PromptsReceived(Step(s, event, up))
  {
    var s' := Step(s, event, up);
    var r := s.(received := s.received + [event.id]);
    HistoriesKept(r, event.id, event.call, up);
    OccurrencesSnoc(s.received, event.id, event.id);
    OccurrencesMember(s.received, event.id);
    if s.initialized {
      RequestOnlyAnswers(r, event.id, event.call, up);
    }
    AnswersKeepTurn(s, s', j);
  }

  lemma DrainedPromptsGone(s: State, promptOrder: seq<AcpId>, syncOrder: seq<Kind>)
    requires IsOrder(promptOrder, s.pending.prompts.Keys) && IsOrder(syncOrder, s.pending.sync.Keys)
    ensures Disconnect(s, promptOrder, syncOrder).pending.prompts == map[]
  {
    DisconnectPlaces(s, promptOrder, syncOrder, 0);
  }

  lemma StepKeepsTurn(s: State, event: Event, up: bool, j: nat)
    requires s.status != Aborted ==> PromptsOk(s)
    requires Places(s, j) <= 1 && TurnOk(s, j) && PromptsReceived(s)
    requires DistinctIds(Step(s, event, up))
    ensures TurnOk(Step(s, event, up), j) && PromptsReceived(Step(s, event, up))
  {
    var s' := Step(s, event, up);
    if s.status == Running && Admissible(s, event) {
      match event
      case Request(_, _) => RequestKeepsTurn(s, event, up, j);
      case FromDaemon(msg, pick) =>
        DaemonKeepsTurn(s, msg, pick, up, j);
      case DaemonDisconnected(promptOrder, syncOrder) =>
        DisconnectOnlyAnswers(s, promptOrder, syncOrder);
        DisconnectHistoriesKept(s, promptOrder, syncOrder);
        DrainedPromptsGone(s, promptOrder, syncOrder);
        AnswersKeepTurn(s, s', j);
      case EditorEof =>
      case Cancel(_) => AnswersKeepTurn(s, s', j);
      case InitializedNote =>
      case OtherNote => AnswersKeepTurn(s, s', j);
    }
  }

  lemma ReceivedGrows(s: State, event: Event, up: bool)
    ensures s.received <= Step(s, event, up).received
  {
    if s.status == Running && Admissible(s, event) {
      match event
      case Request(id, call) => HistoriesKept(s.(received := s.received + [id]), id, call, up);
      case FromDaemon(msg, pick) => DaemonHistoriesKept(s, msg, pick, up);
      case DaemonDisconnected(promptOrder, syncOrder) => DisconnectHistoriesKept(s, promptOrder, syncOrder);
      case _ =>
    }
  }

  lemma {:induction false} OccurrencesPrefix(a: seq<nat>, b: seq<nat>, j: nat)
    requires a <= b
    ensures Occurrences(a, j) <= Occurrences(b, j)
    decreases |b|
  {
    if |a| < |b| {
      OccurrencesPrefix(a, b[..|b| - 1], j);
    } else {
      assert a == b;
    }
  }

  lemma {:induction false} RunKeepsTurn(events: seq<(Event, bool)>, j: nat)
    requires DistinctIds(Exec(events)) && j != 0
    ensures TurnOk(Exec(events), j) && PromptsReceived(Exec(events))
  {
    if events != [] {
      var n := |events| - 1;
      var s := Exec(events[..n]);
      ReceivedGrows(s, events[n].0, events[n].1);
      forall x
        ensures Occurrences(s.received, x) <= 1
      {
        OccurrencesPrefix(s.received, Exec(events).received, x);
      }
      RunKeepsTurn(events[..n], j);
      RequestsAreConserved(events[..n], j);
      RunCoherent(events[..n]);
      StepKeepsTurn(s, events[n].0, events[n].1, j);
    }
  }

  /**
   With distinct non-zero editor ids, the output for each request is a run of updates, all for one
   session, then at most one answer, then nothing.
   */
  lemma OutputIsUpdatesThenOneAnswer(events: seq<(Event, bool)>, j: nat, a: nat, b: nat)
    requires DistinctIds(Exec(events)) && j != 0
    requires a < b < |Exec(events).out|
    ensures var out := Exec(events).out;
            && (IsReplyTo(out[a], j) ==> !IsUpdateFor(out[b], j) && !IsReplyTo(out[b], j))
            && (IsUpdateFor(out[a], j) && IsUpdateFor(out[b], j) ==> out[a].session == out[b].session)
  {
    RunKeepsTurn(events, j);
    AnsweredAtMostOnce(events, j);
    if IsReplyTo(Exec(events).out[a], j) && IsReplyTo(Exec(events).out[b], j) {
      TwoReplies(Exec(events).out, j, a, b);
    }
  }

  /** While a prompt is tracked, everything streamed under its id went to its own session. */
  lemma TrackedPromptStreamsToItsSession(events: seq<(Event, bool)>, k: AcpId, a: nat)
    requires DistinctIds(Exec(events)) && k in Exec(events).pending.prompts
    requires a < |Exec(events).out| && IsUpdateFor(Exec(events).out[a], Exec(events).pending.prompts[k].id)
    ensures Exec(events).out[a].session == k
  {
    var j := Exec(events).pending.prompts[k].id;
    RunKeepsTurn(events, 1);
    RunKeepsTurn(events, j);
    assert StreamsTo(Exec(events).out, j, k);
  }

  lemma {:induction false} TwoReplies(out: seq<Output>, j: nat, a: nat, b: nat)
    requires a < b < |out| && IsReplyTo(out[a], j) && IsReplyTo(out[b], j)
    ensures Answers(out, j) >= 2
  {
    var n := |out| - 1;
    if b < n {
      TwoReplies(out[..n], j, a, b);
    } else {
      OneReply(out[..n], j, a);
    }
  }

  lemma {:induction false} OneReply(out: seq<Output>, j: nat, a: nat)
    requires a < |out| && IsReplyTo(out[a], j)
    ensures Answers(out, j) >= 1
  {
    if a < |out| - 1 {
      OneReply(out[..|out| - 1], j, a);
    }
  }
}
