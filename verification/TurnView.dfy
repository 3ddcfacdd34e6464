/**
 * The client's live view of a session's turns (choreo-client-core/src/history.rs).
 *
 * `Step` is the effect of one event on the view; `SessionView` holds the same maps
 * as fields that its methods update. Events of one tool call may arrive in any
 * order, and the laws at the end say exactly when the order does not show.
 */
module TurnView {
  import opened Options
  import opened Utf8
  import opened CappedText

  datatype CallRecord = CallRecord(callId: Text, name: Text, arguments: Text)

  datatype ResultRecord = ResultRecord(
    callId: Text, name: Text, content: Text, isError: bool, description: Text, image: Option<Text>)

  datatype Turn = Turn(
    reasoning: Option<Text>, answer: Option<Text>, calls: seq<CallRecord>, results: seq<ResultRecord>)

  datatype View = View(turns: map<nat, Turn>, routes: map<nat, nat>, descriptions: map<Text, Text>)

  datatype Stream = Reasoning | Answer | OtherStream

  datatype Event =
    | Output(request: nat, stream: Stream, data: Text)
    | CallStarted(request: nat, callId: Text, name: Text, arguments: Text, description: Text)
    | ResultChunk(request: nat, callId: Text, data: Text)
    | TurnReplaced(id: nat, turn: Turn)
    | RouteSet(request: nat, id: nat)
    | RouteDropped(request: nat)

  // ---- Records of one call ---------------------------------------------------------

  function Or(a: Text, b: Text): Text { if a == [] then b else a }

  function FindResult(rs: seq<ResultRecord>, c: Text): (r: Option<ResultRecord>)
    ensures r.Some? ==> r.value.callId == c && r.value in rs
  {
    if rs == [] then None else if rs[0].callId == c then Some(rs[0]) else FindResult(rs[1..], c)
  }

  /** Overwrites the first record of the same call, or appends. */
  function Put(rs: seq<ResultRecord>, rec: ResultRecord): seq<ResultRecord> {
    if rs == [] then [rec]
    else if rs[0].callId == rec.callId then [rec] + rs[1..]
    else [rs[0]] + Put(rs[1..], rec)
  }

  function FindCall(calls: seq<CallRecord>, c: Text): Option<CallRecord> {
    if calls == [] then None else if calls[0].callId == c then Some(calls[0]) else FindCall(calls[1..], c)
  }

  predicate HasCall(calls: seq<CallRecord>, c: Text) { FindCall(calls, c).Some? }

  /** The name of the first record of the call; empty when there is none. */
  function CallName(calls: seq<CallRecord>, c: Text): Text {
    match FindCall(calls, c) case Some(call) => call.name case None => []
  }

  function AddCall(calls: seq<CallRecord>, call: CallRecord): seq<CallRecord> {
    if HasCall(calls, call.callId) then calls else calls + [call]
  }

  /** The description a start event left behind; empty when there is none. */
  function Stashed(descriptions: map<Text, Text>, c: Text): Text {
    if c in descriptions then descriptions[c] else []
  }

  function Stash(descriptions: map<Text, Text>, c: Text, d: Text): map<Text, Text> {
    if d == [] then descriptions else descriptions[c := d]
  }

  function Push(content: Text, data: Text): Text {
    PushCapped(content, data, MAX_TOOL_OUTPUT_BYTES, TRUNCATION_SUFFIX)
  }

  function Backfilled(r: ResultRecord, name: Text, d: Text): ResultRecord {
    r.(name := Or(r.name, name), description := Or(r.description, d))
  }

  function Stub(c: Text, name: Text): ResultRecord { ResultRecord(c, name, [], false, [], None) }

  /** The record a chunk adds to: the existing one, or a stub named after the call. */
  function Base(t: Turn, c: Text): (r: ResultRecord)
    ensures r.callId == c
  {
    match FindResult(t.results, c)
    case Some(r) => r
    case None => Stub(c, CallName(t.calls, c))
  }

  function Chunk(t: Turn, descriptions: map<Text, Text>, c: Text, data: Text): Turn {
    var r := Base(t, c);
    var rec := r.(description := Or(r.description, Stashed(descriptions, c)), content := Push(r.content, data));
    t.(results := Put(t.results, rec))
  }

  function Start(t: Turn, c: Text, name: Text, arguments: Text, d: Text): Turn {
    var results := match FindResult(t.results, c)
      case Some(r) => Put(t.results, Backfilled(r, name, d))
      case None => t.results;
    t.(results := results, calls := AddCall(t.calls, CallRecord(c, name, arguments)))
  }

  function Appended(text: Option<Text>, data: Text): Option<Text> {
    match text case Some(prefix) => Some(prefix + data) case None => Some(data)
  }

  function WithOutput(t: Turn, stream: Stream, data: Text): Turn {
    match stream
    case Reasoning => t.(reasoning := Appended(t.reasoning, data))
    case Answer => t.(answer := Appended(t.answer, data))
    case OtherStream => t
  }

  // ---- Events on the view ----------------------------------------------------------

  predicate Routed(v: View, request: nat) { request in v.routes && v.routes[request] in v.turns }

  /** Events that are routed to a turn by their request. */
  predicate Streams(e: Event) { e.Output? || e.CallStarted? || e.ResultChunk? }

  function StreamStep(v: View, e: Event): View
    requires Streams(e) && Routed(v, e.request)
  {
    var id := v.routes[e.request];
    var t := v.turns[id];
    match e
    case Output(_, stream, data) => v.(turns := v.turns[id := WithOutput(t, stream, data)])
    case CallStarted(_, c, name, arguments, d) =>
      v.(turns := v.turns[id := Start(t, c, name, arguments, d)], descriptions := Stash(v.descriptions, c, d))
    case ResultChunk(_, c, data) => v.(turns := v.turns[id := Chunk(t, v.descriptions, c, data)])
  }

  function Step(v: View, e: Event): View {
    match e
    case TurnReplaced(id, turn) =>
      v.(turns := v.turns[id := turn], descriptions := WithoutCalls(v.descriptions, turn.calls))
    case RouteSet(request, id) => v.(routes := v.routes[request := id])
    case RouteDropped(request) => v.(routes := v.routes - {request})
    case _ => if Routed(v, e.request) then StreamStep(v, e) else v
  }

  function Play(v: View, events: seq<Event>): View {
    if events == [] then v else Step(Play(v, events[..|events| - 1]), events[|events| - 1])
  }

  function WithoutCalls(descriptions: map<Text, Text>, calls: seq<CallRecord>): map<Text, Text> {
    map c | c in descriptions && !HasCall(calls, c) :: descriptions[c]
  }

  // ---- The view as the source keeps it ---------------------------------------------

  class SessionView {
    var turns: map<nat, Turn>
    var routes: map<nat, nat>
    var descriptions: map<Text, Text>

    function Value(): View reads this { View(turns, routes, descriptions) }

    constructor ()
      ensures Value() == View(map[], map[], map[])
    {
      turns, routes, descriptions := map[], map[], map[];
    }

    /** The authoritative turn replaces the accumulated one and its calls' stashes go. */
    method InsertOrReplace(id: nat, turn: Turn)
      modifies this
      ensures Value() == Step(old(Value()), TurnReplaced(id, turn))
    {
      DropStashes(turn.calls);
      turns := turns[id := turn];
    }

    method ClearToolCallDescriptions(id: nat)
      modifies this
      ensures turns == old(turns) && routes == old(routes)
      ensures descriptions ==
              if id in turns then WithoutCalls(old(descriptions), turns[id].calls) else old(descriptions)
    {
      if id in turns {
        DropStashes(turns[id].calls);
      }
    }

    method DropStashes(calls: seq<CallRecord>)
      modifies this`descriptions
      ensures descriptions == WithoutCalls(old(descriptions), calls)
    {
      assert WithoutCalls(descriptions, calls[..0]) == descriptions;
      for i := 0 to |calls|
        invariant descriptions == WithoutCalls(old(descriptions), calls[..i])
      {
        WithoutOneMore(old(descriptions), calls, i);
        descriptions := descriptions - {calls[i].callId};
      }
      assert calls[..|calls|] == calls;
    }

    method StreamChunk(request: nat, stream: Stream, data: Text)
      modifies this
      ensures Value() == Step(old(Value()), Output(request, stream, data))
    {
      if request !in routes || routes[request] !in turns { return; }
      var id := routes[request];
      var turn := turns[id];
      match stream {
        case Reasoning => turn := turn.(reasoning := Appended(turn.reasoning, data));
        case Answer => turn := turn.(answer := Appended(turn.answer, data));
        case OtherStream =>
      }
      turns := turns[id := turn];
    }

    method ToolCallStarted(request: nat, c: Text, name: Text, arguments: Text, d: Text)
      modifies this
      ensures Value() == Step(old(Value()), CallStarted(request, c, name, arguments, d))
    {
      if request !in routes || routes[request] !in turns { return; }
      var id := routes[request];
      var turn := turns[id];
      if d != [] {
        descriptions := descriptions[c := d];
      }
      var i := IndexOfResult(turn.results, c);
      if i < |turn.results| {
        var result := turn.results[i];
        if result.name == [] { result := result.(name := name); }
        if result.description == [] { result := result.(description := d); }
        PutAtIndex(turn.results, i, result);
        turn := turn.(results := turn.results[i := result]);
      }
      if !HasCall(turn.calls, c) {
        turn := turn.(calls := turn.calls + [CallRecord(c, name, arguments)]);
      }
      turns := turns[id := turn];
    }

    method ToolResultChunk(request: nat, c: Text, data: Text)
      modifies this
      ensures Value() == Step(old(Value()), ResultChunk(request, c, data))
    {
      if request !in routes || routes[request] !in turns { return; }
      var id := routes[request];
      var turn := turns[id];
      var i := IndexOfResult(turn.results, c);
      if i < |turn.results| {
        var result := turn.results[i];
        if result.description == [] && c in descriptions {
          result := result.(description := descriptions[c]);
        }
        var content := AppendCapped(result.content, data, MAX_TOOL_OUTPUT_BYTES, TRUNCATION_SUFFIX);
        result := result.(content := content);
        PutAtIndex(turn.results, i, result);
        turn := turn.(results := turn.results[i := result]);
      } else {
        var content := AppendCapped([], data, MAX_TOOL_OUTPUT_BYTES, TRUNCATION_SUFFIX);
        var d := if c in descriptions then descriptions[c] else [];
        var result := ResultRecord(c, CallName(turn.calls, c), content, false, d, None);
        PutAppends(turn.results, result);
        turn := turn.(results := turn.results + [result]);
      }
      turns := turns[id := turn];
    }
  }

  lemma WithoutOneMore(descriptions: map<Text, Text>, calls: seq<CallRecord>, i: nat)
    requires i < |calls|
    ensures WithoutCalls(descriptions, calls[..i]) - {calls[i].callId} == WithoutCalls(descriptions, calls[..i + 1])
  {
    assert calls[..i + 1] == calls[..i] + [calls[i]];
    forall c | c in descriptions
      ensures HasCall(calls[..i + 1], c) <==> HasCall(calls[..i], c) || calls[i].callId == c
    {
      FindAfterAppend(calls[..i], calls[i], c);
    }
  }

  lemma {:induction false} FindAfterAppend(calls: seq<CallRecord>, call: CallRecord, c: Text)
    ensures FindCall(calls + [call], c) ==
            if FindCall(calls, c).Some? then FindCall(calls, c) else if call.callId == c then Some(call) else None
  {
    if calls == [] {
      assert ([] + [call])[1..] == [];
    } else {
      FindAfterAppend(calls[1..], call, c);
      assert (calls + [call])[1..] == calls[1..] + [call];
    }
  }

  /** The position of the first record of the call, or the length. */
  method IndexOfResult(rs: seq<ResultRecord>, c: Text) returns (i: nat)
    ensures i <= |rs| && forall k :: 0 <= k < i ==> rs[k].callId != c
    ensures FindResult(rs, c) == if i < |rs| then Some(rs[i]) else None
    ensures i < |rs| ==> rs[i].callId == c
  {
    i := 0;
    while i < |rs| && rs[i].callId != c
      invariant i <= |rs| && forall k :: 0 <= k < i ==> rs[k].callId != c
      invariant FindResult(rs, c) == FindResult(rs[i..], c)
    {
      i := i + 1;
    }
  }

  lemma {:induction false} PutAtIndex(rs: seq<ResultRecord>, i: nat, rec: ResultRecord)
    requires i < |rs| && rs[i].callId == rec.callId
    requires forall k :: 0 <= k < i ==> rs[k].callId != rec.callId
    ensures Put(rs, rec) == rs[i := rec]
  {
    if i > 0 { PutAtIndex(rs[1..], i - 1, rec); }
  }

  lemma {:induction false} PutAppends(rs: seq<ResultRecord>, rec: ResultRecord)
    requires forall k :: 0 <= k < |rs| ==> rs[k].callId != rec.callId
    ensures Put(rs, rec) == rs + [rec]
  {
    if rs != [] { PutAppends(rs[1..], rec); }
  }

  // ---- Laws of a record store ------------------------------------------------------

  function ResultCount(rs: seq<ResultRecord>, c: Text): nat {
    if rs == [] then 0 else (if rs[0].callId == c then 1 else 0) + ResultCount(rs[1..], c)
  }

  function CallCount(calls: seq<CallRecord>, c: Text): nat {
    if calls == [] then 0 else (if calls[0].callId == c then 1 else 0) + CallCount(calls[1..], c)
  }

  /** A put is found, touches no other call, and never duplicates. */
  lemma {:induction false} PutThenFind(rs: seq<ResultRecord>, rec: ResultRecord, c: Text)
    ensures FindResult(Put(rs, rec), c) == if c == rec.callId then Some(rec) else FindResult(rs, c)
    ensures ResultCount(Put(rs, rec), c) ==
            if c == rec.callId && ResultCount(rs, c) == 0 then 1 else ResultCount(rs, c)
  {
    if rs == [] {
      assert [rec][1..] == [];
    } else if rs[0].callId != rec.callId {
      PutThenFind(rs[1..], rec, c);
      assert ([rs[0]] + Put(rs[1..], rec))[1..] == Put(rs[1..], rec);
    } else {
      assert ([rec] + rs[1..])[1..] == rs[1..];
    }
  }

  lemma {:induction false} PutTwice(rs: seq<ResultRecord>, a: ResultRecord, b: ResultRecord)
    requires a.callId == b.callId
    ensures Put(Put(rs, a), b) == Put(rs, b)
  {
    if rs == [] {
      assert [a][1..] == [];
    } else if rs[0].callId != a.callId {
      PutTwice(rs[1..], a, b);
      assert ([rs[0]] + Put(rs[1..], a))[1..] == Put(rs[1..], a);
    } else {
      assert ([a] + rs[1..])[1..] == rs[1..];
    }
  }

  lemma NameAfterAdd(calls: seq<CallRecord>, call: CallRecord)
    ensures CallName(AddCall(calls, call), call.callId) ==
            if HasCall(calls, call.callId) then CallName(calls, call.callId) else call.name
  {
    FindAfterAppend(calls, call, call.callId);
  }

  lemma {:induction false} CountIsZero(calls: seq<CallRecord>, c: Text)
    ensures HasCall(calls, c) <==> CallCount(calls, c) > 0
  {
    if calls != [] { CountIsZero(calls[1..], c); }
  }

  lemma {:induction false} CountAfterAppend(calls: seq<CallRecord>, call: CallRecord, c: Text)
    ensures CallCount(calls + [call], c) == CallCount(calls, c) + if call.callId == c then 1 else 0
  {
    if calls == [] {
      assert ([] + [call])[1..] == [];
    } else {
      CountAfterAppend(calls[1..], call, c);
      assert (calls + [call])[1..] == calls[1..] + [call];
    }
  }

  // ---- Any run of chunks of one call -----------------------------------------------

  function Chunks(t: Turn, descriptions: map<Text, Text>, c: Text, ds: seq<Text>): Turn {
    if ds == [] then t else Chunk(Chunks(t, descriptions, c, ds[..|ds| - 1]), descriptions, c, ds[|ds| - 1])
  }

  function PushEach(content: Text, ds: seq<Text>): Text {
    PushAll(content, ds, MAX_TOOL_OUTPUT_BYTES, TRUNCATION_SUFFIX)
  }

  /** The record a non-empty run of chunks leaves, in one step. */
  function Streamed(t: Turn, descriptions: map<Text, Text>, c: Text, ds: seq<Text>): ResultRecord {
    var r := Base(t, c);
    r.(description := Or(r.description, Stashed(descriptions, c)), content := PushEach(r.content, ds))
  }

  lemma {:induction false} ChunksInOneStep(t: Turn, descriptions: map<Text, Text>, c: Text, ds: seq<Text>)
    requires ds != []
    ensures Chunks(t, descriptions, c, ds) == t.(results := Put(t.results, Streamed(t, descriptions, c, ds)))
  {
    var init := ds[..|ds| - 1];
    if init == [] {
      assert Chunks(t, descriptions, c, init) == t;
      assert PushEach(Base(t, c).content, init) == Base(t, c).content;
    } else {
      ChunksInOneStep(t, descriptions, c, init);
      var before := Streamed(t, descriptions, c, init);
      PutThenFind(t.results, before, c);
      PutTwice(t.results, before, Streamed(t, descriptions, c, ds));
    }
  }

  lemma {:induction false} PushEachSplits(content: Text, a: seq<Text>, b: seq<Text>)
    ensures PushEach(content, a + b) == PushEach(PushEach(content, a), b)
  {
    if b == [] {
      assert a + b == a;
    } else {
      PushEachSplits(content, a, b[..|b| - 1]);
      assert (a + b)[..|a + b| - 1] == a + b[..|b| - 1];
    }
  }

  // ---- Where the start event lands -------------------------------------------------

  datatype StartInfo = StartInfo(callId: Text, name: Text, arguments: Text, description: Text)

  /** The turn after `before`, then the start event, then `after`. */
  function Landed(t: Turn, descriptions: map<Text, Text>, s: StartInfo, before: seq<Text>, after: seq<Text>): Turn {
    var t1 := Chunks(t, descriptions, s.callId, before);
    var t2 := Start(t1, s.callId, s.name, s.arguments, s.description);
    Chunks(t2, Stash(descriptions, s.callId, s.description), s.callId, after)
  }

  /** What the record says when the start event came first. */
  function EarlyRecord(t: Turn, descriptions: map<Text, Text>, s: StartInfo, ds: seq<Text>): ResultRecord {
    var r := Base(t, s.callId);
    var seeded := FindResult(t.results, s.callId).None? && HasCall(t.calls, s.callId);
    var name := if seeded then r.name else Or(r.name, s.name);
    r.(name := name,
       description := Or(Or(r.description, s.description), Stashed(descriptions, s.callId)),
       content := PushEach(r.content, ds))
  }

  /** What it says when at least one chunk came first. */
  function LateRecord(t: Turn, descriptions: map<Text, Text>, s: StartInfo, ds: seq<Text>): ResultRecord {
    var r := Base(t, s.callId);
    r.(name := Or(r.name, s.name),
       description := Or(Or(r.description, Stashed(descriptions, s.callId)), s.description),
       content := PushEach(r.content, ds))
  }

  function Settled(t: Turn, s: StartInfo, rec: ResultRecord): Turn {
    t.(results := Put(t.results, rec), calls := AddCall(t.calls, CallRecord(s.callId, s.name, s.arguments)))
  }

  lemma LandedEarly(t: Turn, descriptions: map<Text, Text>, s: StartInfo, ds: seq<Text>)
    requires ds != []
    ensures Landed(t, descriptions, s, [], ds) == Settled(t, s, EarlyRecord(t, descriptions, s, ds))
  {
    var c := s.callId;
    var t2 := Start(t, c, s.name, s.arguments, s.description);
    var stashed := Stash(descriptions, c, s.description);
    ChunksInOneStep(t2, stashed, c, ds);
    match FindResult(t.results, c) {
      case None => NameAfterAdd(t.calls, CallRecord(c, s.name, s.arguments));
      case Some(r) =>
        PutThenFind(t.results, Backfilled(r, s.name, s.description), c);
        PutTwice(t.results, Backfilled(r, s.name, s.description), Streamed(t2, stashed, c, ds));
    }
    assert Streamed(t2, stashed, c, ds) == EarlyRecord(t, descriptions, s, ds);
  }

  lemma LandedLate(t: Turn, descriptions: map<Text, Text>, s: StartInfo, before: seq<Text>, after: seq<Text>)
    requires before != []
    ensures Landed(t, descriptions, s, before, after) == Settled(t, s, LateRecord(t, descriptions, s, before + after))
  {
    var c := s.callId;
    ChunksInOneStep(t, descriptions, c, before);
    var r1 := Streamed(t, descriptions, c, before);
    PutThenFind(t.results, r1, c);
    var r2 := Backfilled(r1, s.name, s.description);
    PutTwice(t.results, r1, r2);
    PutThenFind(t.results, r2, c);
    var t2 := Settled(t, s, r2);
    var stashed := Stash(descriptions, c, s.description);
    PushEachSplits(Base(t, c).content, before, after);
    if after != [] {
      ChunksInOneStep(t2, stashed, c, after);
      PutTwice(t.results, r2, Streamed(t2, stashed, c, after));
    } else {
      assert before + after == before;
    }
  }

  // ---- Convergence -----------------------------------------------------------------

  /** A nameless seeded call record names the stub when the start event comes first. */
  predicate NameDiffers(t: Turn, s: StartInfo) {
    && FindResult(t.results, s.callId).None?
    && HasCall(t.calls, s.callId)
    && CallName(t.calls, s.callId) == []
    && s.name != []
  }

  /** An older stashed description competes with the start event's. */
  predicate DescriptionDiffers(t: Turn, descriptions: map<Text, Text>, s: StartInfo) {
    && Base(t, s.callId).description == []
    && Stashed(descriptions, s.callId) != []
    && s.description != []
    && s.description != Stashed(descriptions, s.callId)
  }

  lemma RecordsAgree(t: Turn, descriptions: map<Text, Text>, s: StartInfo, ds: seq<Text>)
    ensures EarlyRecord(t, descriptions, s, ds) == LateRecord(t, descriptions, s, ds)
            <==> !NameDiffers(t, s) && !DescriptionDiffers(t, descriptions, s)
  {}

  lemma SettledIsInjective(t: Turn, s: StartInfo, a: ResultRecord, b: ResultRecord)
    requires a.callId == s.callId && b.callId == s.callId
    ensures Settled(t, s, a) == Settled(t, s, b) <==> a == b
  {
    PutThenFind(t.results, a, s.callId);
    PutThenFind(t.results, b, s.callId);
  }

  function Chunked(request: nat, c: Text, ds: seq<Text>): seq<Event> {
    seq(|ds|, i requires 0 <= i < |ds| => ResultChunk(request, c, ds[i]))
  }

  /** All chunks of one call, with its start event after the first `p` of them. */
  function Arrival(request: nat, s: StartInfo, ds: seq<Text>, p: nat): seq<Event>
    requires p <= |ds|
  {
    Chunked(request, s.callId, ds[..p])
    + [CallStarted(request, s.callId, s.name, s.arguments, s.description)]
    + Chunked(request, s.callId, ds[p..])
  }

  lemma {:induction false} PlaySplits(v: View, a: seq<Event>, b: seq<Event>)
    ensures Play(v, a + b) == Play(Play(v, a), b)
  {
    if b == [] {
      assert a + b == a;
    } else {
      PlaySplits(v, a, b[..|b| - 1]);
      assert (a + b)[..|a + b| - 1] == a + b[..|b| - 1];
    }
  }

  function Replaced(v: View, id: nat, t: Turn, descriptions: map<Text, Text>): View {
    v.(turns := v.turns[id := t], descriptions := descriptions)
  }

  lemma {:induction false} PlayChunks(v: View, request: nat, c: Text, ds: seq<Text>)
    requires Routed(v, request)
    ensures var id := v.routes[request];
            Play(v, Chunked(request, c, ds))
            == Replaced(v, id, Chunks(v.turns[id], v.descriptions, c, ds), v.descriptions)
  {
    var events := Chunked(request, c, ds);
    if ds != [] {
      var init, last := ds[..|ds| - 1], ds[|ds| - 1];
      PlayChunks(v, request, c, init);
      assert events == Chunked(request, c, init) + [ResultChunk(request, c, last)];
      PlayNext(v, Chunked(request, c, init), ResultChunk(request, c, last));
      var id := v.routes[request];
      StepChunk(v, request, Chunks(v.turns[id], v.descriptions, c, init), c, last);
    } else {
      assert events == [];
      assert v.turns[v.routes[request] := v.turns[v.routes[request]]] == v.turns;
    }
  }

  lemma StepChunk(v: View, request: nat, t: Turn, c: Text, data: Text)
    requires Routed(v, request)
    ensures var id, d := v.routes[request], v.descriptions;
            Step(Replaced(v, id, t, d), ResultChunk(request, c, data)) == Replaced(v, id, Chunk(t, d, c, data), d)
  {
    var id, d := v.routes[request], v.descriptions;
    ReplacedTwice(v, id, t, d, Chunk(t, d, c, data), d);
  }

  /** Playing the events on the view is playing them on the routed turn. */
  lemma PlayArrival(v: View, request: nat, s: StartInfo, ds: seq<Text>, p: nat)
    requires Routed(v, request) && p <= |ds|
    ensures var id := v.routes[request];
            Play(v, Arrival(request, s, ds, p)) ==
            Replaced(v, id, Landed(v.turns[id], v.descriptions, s, ds[..p], ds[p..]),
                     Stash(v.descriptions, s.callId, s.description))
  {
    var id := v.routes[request];
    var t, d := v.turns[id], v.descriptions;
    var start := CallStarted(request, s.callId, s.name, s.arguments, s.description);
    var t1 := Chunks(t, d, s.callId, ds[..p]);
    var t2 := Start(t1, s.callId, s.name, s.arguments, s.description);
    var d2 := Stash(d, s.callId, s.description);
    PlayAround(v, Chunked(request, s.callId, ds[..p]), start, Chunked(request, s.callId, ds[p..]));
    PlayChunks(v, request, s.callId, ds[..p]);
    assert Step(Replaced(v, id, t1, d), start) == Replaced(v, id, t2, d2) by { ReplacedTwice(v, id, t1, d, t2, d2); }
    PlayChunks(Replaced(v, id, t2, d2), request, s.callId, ds[p..]);
    ReplacedTwice(v, id, t2, d2, Chunks(t2, d2, s.callId, ds[p..]), d2);
  }

  lemma PlayAround(v: View, before: seq<Event>, e: Event, after: seq<Event>)
    ensures Play(v, before + [e] + after) == Play(Step(Play(v, before), e), after)
  {
    PlaySplits(v, before + [e], after);
    assert (before + [e])[..|before|] == before;
  }

  lemma ReplacedTwice(v: View, id: nat, a: Turn, d: map<Text, Text>, b: Turn, d2: map<Text, Text>)
    ensures Replaced(Replaced(v, id, a, d), id, b, d2) == Replaced(v, id, b, d2)
    ensures Replaced(v, id, a, d).turns[id] == a
  {
    assert v.turns[id := a][id := b] == v.turns[id := b];
  }

  /**
   * The start event may land anywhere among the chunks, even last: the whole view
   * comes out the same, except that landing first may differ, and does so exactly
   * when the seeded call record is nameless or an older description is stashed.
   */
  lemma ArrivalOrderConverges(v: View, request: nat, s: StartInfo, ds: seq<Text>, p: nat)
    requires Routed(v, request) && 1 <= p <= |ds|
    ensures Play(v, Arrival(request, s, ds, p)) == Play(v, Arrival(request, s, ds, |ds|))
    ensures Play(v, Arrival(request, s, ds, 0)) == Play(v, Arrival(request, s, ds, p))
            <==> (var t := v.turns[v.routes[request]];
                  !NameDiffers(t, s) && !DescriptionDiffers(t, v.descriptions, s))
  {
    var id := v.routes[request];
    var t, d := v.turns[id], v.descriptions;
    var early, late := EarlyRecord(t, d, s, ds), LateRecord(t, d, s, ds);
    ArrivalSettles(v, request, s, ds, 0);
    ArrivalSettles(v, request, s, ds, p);
    ArrivalSettles(v, request, s, ds, |ds|);
    ReplacedIsInjective(v, id, Settled(t, s, early), Settled(t, s, late), Stash(d, s.callId, s.description));
    SettledIsInjective(t, s, early, late);
    RecordsAgree(t, d, s, ds);
  }

  /** The view after an arrival depends only on whether the start event came first. */
  lemma ArrivalSettles(v: View, request: nat, s: StartInfo, ds: seq<Text>, p: nat)
    requires Routed(v, request) && p <= |ds| && ds != []
    ensures var id := v.routes[request];
            var t, d := v.turns[id], v.descriptions;
            var rec := if p == 0 then EarlyRecord(t, d, s, ds) else LateRecord(t, d, s, ds);
            Play(v, Arrival(request, s, ds, p))
            == Replaced(v, id, Settled(t, s, rec), Stash(d, s.callId, s.description))
  {
    PlayArrival(v, request, s, ds, p);
    LandedSettles(v.turns[v.routes[request]], v.descriptions, s, ds, p);
  }

  lemma LandedSettles(t: Turn, d: map<Text, Text>, s: StartInfo, ds: seq<Text>, p: nat)
    requires p <= |ds| && ds != []
    ensures Landed(t, d, s, ds[..p], ds[p..]) ==
            Settled(t, s, if p == 0 then EarlyRecord(t, d, s, ds) else LateRecord(t, d, s, ds))
  {
    assert ds[..p] + ds[p..] == ds;
    if p == 0 {
      assert ds[..0] == [] && ds[0..] == ds;
      LandedEarly(t, d, s, ds);
    } else {
      LandedLate(t, d, s, ds[..p], ds[p..]);
    }
  }

  lemma ReplacedIsInjective(v: View, id: nat, a: Turn, b: Turn, descriptions: map<Text, Text>)
    ensures Replaced(v, id, a, descriptions) == Replaced(v, id, b, descriptions) <==> a == b
  {
    assert Replaced(v, id, a, descriptions).turns[id] == a;
    assert Replaced(v, id, b, descriptions).turns[id] == b;
  }

  /**
   * Wherever it lands, the call ends with one call record and one result record,
   * no more than it had before if it had more, holding the truncated text; other
   * calls' results are untouched.
   */
  lemma ArrivalNeverDuplicates(t: Turn, descriptions: map<Text, Text>, s: StartInfo, ds: seq<Text>, p: nat, other: Text)
    requires p <= |ds| && ds != [] && AllValid(ds)
    ensures var c := s.callId;
            var final := Landed(t, descriptions, s, ds[..p], ds[p..]);
            && CallCount(final.calls, c) == (if CallCount(t.calls, c) == 0 then 1 else CallCount(t.calls, c))
            && ResultCount(final.results, c)
               == (if ResultCount(t.results, c) == 0 then 1 else ResultCount(t.results, c))
            && FindResult(final.results, c).Some?
            && (FindResult(t.results, c).None? ==>
                  && FindResult(final.results, c).value.content
                     == Truncate(Flatten(ds), MAX_TOOL_OUTPUT_BYTES, TRUNCATION_SUFFIX)
                  && !FindResult(final.results, c).value.isError
                  && FindResult(final.results, c).value.image == None)
            && (FindResult(t.results, c).Some? ==>
                  && FindResult(final.results, c).value.isError == FindResult(t.results, c).value.isError
                  && FindResult(final.results, c).value.image == FindResult(t.results, c).value.image)
            && (other != c ==> FindResult(final.results, other) == FindResult(t.results, other))
  {
    var c := s.callId;
    var rec := if p == 0 then EarlyRecord(t, descriptions, s, ds) else LateRecord(t, descriptions, s, ds);
    LandedSettles(t, descriptions, s, ds, p);
    PutThenFind(t.results, rec, c);
    PutThenFind(t.results, rec, other);
    CountIsZero(t.calls, c);
    CountAfterAppend(t.calls, CallRecord(c, s.name, s.arguments), c);
    StreamingIsTruncation(ds, MAX_TOOL_OUTPUT_BYTES, TRUNCATION_SUFFIX);
  }

  // ---- Where the order does show -----------------------------------------------------

  /** A turn seeded with one call record, and a view that routes request 0 to it. */
  function Seeded(c: Text, name: Text, descriptions: map<Text, Text>): View {
    View(map[0 := Turn(None, None, [CallRecord(c, name, [])], [])], map[0 := 0], descriptions)
  }

  /** For one: a nameless seeded call leaves the result nameless if the start event comes first. */
  lemma NamelessSeedShows(c: Text, name: Text)
    requires name != []
    ensures var s := StartInfo(c, name, [], []);
            Play(Seeded(c, [], map[]), Arrival(0, s, [[]], 0)) != Play(Seeded(c, [], map[]), Arrival(0, s, [[]], 1))
  {
    var v, s := Seeded(c, [], map[]), StartInfo(c, name, [], []);
    assert NameDiffers(v.turns[0], s);
    ArrivalOrderConverges(v, 0, s, [[]], 1);
  }

  /** For another: the older of two descriptions wins if a chunk comes first. */
  lemma StaleDescriptionShows(c: Text, name: Text, older: Text, newer: Text)
    requires older != [] && newer != [] && older != newer
    ensures var v, s := Seeded(c, name, map[c := older]), StartInfo(c, name, [], newer);
            Play(v, Arrival(0, s, [[]], 0)) != Play(v, Arrival(0, s, [[]], 1))
  {
    var v, s := Seeded(c, name, map[c := older]), StartInfo(c, name, [], newer);
    assert DescriptionDiffers(v.turns[0], v.descriptions, s);
    ArrivalOrderConverges(v, 0, s, [[]], 1);
  }

  // ---- Other events in between -------------------------------------------------------

  /** All that a view says of one call. */
  datatype CallView = CallView(result: Option<ResultRecord>, call: Option<CallRecord>, stash: Text)

  function CallIn(t: Turn, descriptions: map<Text, Text>, c: Text): CallView {
    CallView(FindResult(t.results, c), FindCall(t.calls, c), Stashed(descriptions, c))
  }

  /** The request is routed to this turn, and the turn is there. */
  predicate RoutedTo(v: View, request: nat, id: nat) {
    request in v.routes && v.routes[request] == id && id in v.turns
  }

  function ViewOf(v: View, id: nat, c: Text): CallView
    requires id in v.turns
  {
    CallIn(v.turns[id], v.descriptions, c)
  }

  /** An event of the call, on its own request. */
  predicate IsOwn(e: Event, request: nat, c: Text) {
    (e.CallStarted? || e.ResultChunk?) && e.request == request && e.callId == c
  }

  /**
   * An event about something else: output, another call, a replacement of another turn
   * that does not list the call, the route of another request.
   */
  predicate Foreign(e: Event, request: nat, id: nat, c: Text) {
    match e
    case Output(_, _, _) => true
    case CallStarted(_, other, _, _, _) => other != c
    case ResultChunk(_, other, _) => other != c
    case TurnReplaced(other, turn) => other != id && !HasCall(turn.calls, c)
    case RouteSet(other, to) => other != request || to == id
    case RouteDropped(other) => other != request
  }

  lemma FindAfterAdd(calls: seq<CallRecord>, call: CallRecord, c: Text)
    ensures FindCall(AddCall(calls, call), c) ==
            if FindCall(calls, c).None? && call.callId == c then Some(call) else FindCall(calls, c)
  {
    FindAfterAppend(calls, call, c);
  }

  lemma ForeignChunk(t: Turn, d: map<Text, Text>, other: Text, data: Text, c: Text)
    requires other != c
    ensures CallIn(Chunk(t, d, other, data), d, c) == CallIn(t, d, c)
  {
    var r := Base(t, other);
    var rec := r.(description := Or(r.description, Stashed(d, other)), content := Push(r.content, data));
    PutThenFind(t.results, rec, c);
  }

  lemma ForeignStart(t: Turn, d: map<Text, Text>, s: StartInfo, c: Text)
    requires s.callId != c
    ensures CallIn(Start(t, s.callId, s.name, s.arguments, s.description), Stash(d, s.callId, s.description), c)
            == CallIn(t, d, c)
  {
    FindAfterAdd(t.calls, CallRecord(s.callId, s.name, s.arguments), c);
    match FindResult(t.results, s.callId) {
      case Some(r) => PutThenFind(t.results, Backfilled(r, s.name, s.description), c);
      case None =>
    }
  }

  /** An event about something else leaves what the view says of the call. */
  lemma ForeignStep(v: View, request: nat, id: nat, e: Event, c: Text)
    requires RoutedTo(v, request, id) && Foreign(e, request, id, c)
    ensures RoutedTo(Step(v, e), request, id) && ViewOf(Step(v, e), id, c) == ViewOf(v, id, c)
  {
    if Streams(e) && Routed(v, e.request) {
      var t := v.turns[v.routes[e.request]];
      match e {
        case Output(_, _, _) =>
        case ResultChunk(_, other, data) => ForeignChunk(t, v.descriptions, other, data, c);
        case CallStarted(_, other, name, arguments, d) =>
          ForeignStart(t, v.descriptions, StartInfo(other, name, arguments, d), c);
      }
    }
  }

  lemma SameChunk(t: Turn, d: map<Text, Text>, u: Turn, f: map<Text, Text>, c: Text, data: Text)
    requires CallIn(t, d, c) == CallIn(u, f, c)
    ensures CallIn(Chunk(t, d, c, data), d, c) == CallIn(Chunk(u, f, c, data), f, c)
  {
    var r := Base(t, c);
    var rec := r.(description := Or(r.description, Stashed(d, c)), content := Push(r.content, data));
    assert r == Base(u, c);
    PutThenFind(t.results, rec, c);
    PutThenFind(u.results, rec, c);
  }

  lemma SameStart(t: Turn, d: map<Text, Text>, u: Turn, f: map<Text, Text>, s: StartInfo)
    requires CallIn(t, d, s.callId) == CallIn(u, f, s.callId)
    ensures var c := s.callId;
            CallIn(Start(t, c, s.name, s.arguments, s.description), Stash(d, c, s.description), c)
            == CallIn(Start(u, c, s.name, s.arguments, s.description), Stash(f, c, s.description), c)
  {
    var c := s.callId;
    FindAfterAdd(t.calls, CallRecord(c, s.name, s.arguments), c);
    FindAfterAdd(u.calls, CallRecord(c, s.name, s.arguments), c);
    match FindResult(t.results, c) {
      case Some(r) =>
        PutThenFind(t.results, Backfilled(r, s.name, s.description), c);
        PutThenFind(u.results, Backfilled(r, s.name, s.description), c);
      case None =>
    }
  }

  /** An event of the call does the same to two views that say the same of it. */
  lemma OwnStep(v: View, w: View, request: nat, id: nat, e: Event, c: Text)
    requires RoutedTo(v, request, id) && RoutedTo(w, request, id) && ViewOf(v, id, c) == ViewOf(w, id, c)
    requires IsOwn(e, request, c)
    ensures RoutedTo(Step(v, e), request, id) && RoutedTo(Step(w, e), request, id)
    ensures ViewOf(Step(v, e), id, c) == ViewOf(Step(w, e), id, c)
  {
    var t, u := v.turns[id], w.turns[id];
    match e {
      case ResultChunk(_, _, data) => SameChunk(t, v.descriptions, u, w.descriptions, c, data);
      case CallStarted(_, _, name, arguments, d) =>
        SameStart(t, v.descriptions, u, w.descriptions, StartInfo(c, name, arguments, d));
    }
  }

  /** The events of one call, in order. */
  function Own(events: seq<Event>, request: nat, c: Text): seq<Event> {
    if events == [] then []
    else
      var e := events[|events| - 1];
      Own(events[..|events| - 1], request, c) + if IsOwn(e, request, c) then [e] else []
  }

  /** Events of the call, and anything about something else between them. */
  predicate Mixed(events: seq<Event>, request: nat, id: nat, c: Text) {
    forall i :: 0 <= i < |events| ==> IsOwn(events[i], request, c) || Foreign(events[i], request, id, c)
  }

  lemma PlayNext(v: View, events: seq<Event>, e: Event)
    ensures Play(v, events + [e]) == Step(Play(v, events), e)
  {
    assert (events + [e])[..|events|] == events;
  }

  /** What a view says of a call depends on what it said before and on that call's own events alone. */
  lemma {:induction false} OnlyOwnEventsShow(v: View, w: View, request: nat, id: nat, events: seq<Event>, c: Text)
    requires RoutedTo(v, request, id) && RoutedTo(w, request, id) && ViewOf(v, id, c) == ViewOf(w, id, c)
    requires Mixed(events, request, id, c)
    ensures RoutedTo(Play(v, events), request, id) && RoutedTo(Play(w, Own(events, request, c)), request, id)
    ensures ViewOf(Play(v, events), id, c) == ViewOf(Play(w, Own(events, request, c)), id, c)
  {
    if events != [] {
      var init, e := events[..|events| - 1], events[|events| - 1];
      OnlyOwnEventsShow(v, w, request, id, init, c);
      var own := Own(init, request, c);
      if IsOwn(e, request, c) {
        OwnStep(Play(v, init), Play(w, own), request, id, e, c);
        PlayNext(w, own, e);
      } else {
        ForeignStep(Play(v, init), request, id, e, c);
        assert own + [] == own;
      }
    }
  }

  /** What the view says of the call once its start event and all its chunks have arrived. */
  lemma ArrivalView(v: View, request: nat, id: nat, s: StartInfo, ds: seq<Text>, p: nat)
    requires RoutedTo(v, request, id) && p <= |ds| && ds != []
    ensures var t, d := v.turns[id], v.descriptions;
            var rec := if p == 0 then EarlyRecord(t, d, s, ds) else LateRecord(t, d, s, ds);
            var w := Play(v, Arrival(request, s, ds, p));
            && RoutedTo(w, request, id)
            && ViewOf(w, id, s.callId) == CallIn(Settled(t, s, rec), Stash(d, s.callId, s.description), s.callId)
            && FindResult(Settled(t, s, rec).results, s.callId) == Some(rec)
  {
    var t, d := v.turns[id], v.descriptions;
    var rec := if p == 0 then EarlyRecord(t, d, s, ds) else LateRecord(t, d, s, ds);
    ArrivalSettles(v, request, s, ds, p);
    PutThenFind(t.results, rec, s.callId);
  }

  /** The events bring the call's chunks, with its start event after the first `p` of them. */
  predicate Brings(events: seq<Event>, request: nat, id: nat, s: StartInfo, ds: seq<Text>, p: nat) {
    && p <= |ds|
    && Mixed(events, request, id, s.callId)
    && Own(events, request, s.callId) == Arrival(request, s, ds, p)
  }

  /**
   * Convergence with anything in between: output, other calls' events, other turns'
   * replacements and other requests' routes may stand anywhere among the chunks and the
   * start event. All positions after the first chunk leave the same records of the call,
   * and landing first leaves them too exactly under the same condition.
   */
  lemma InterleavedArrivalConverges(v: View, request: nat, id: nat, s: StartInfo, ds: seq<Text>, p: nat, q: nat,
                                    a: seq<Event>, b: seq<Event>, first: seq<Event>)
    requires RoutedTo(v, request, id) && 1 <= p && 1 <= q
    requires Brings(a, request, id, s, ds, p) && Brings(b, request, id, s, ds, q)
    requires Brings(first, request, id, s, ds, 0)
    ensures id in Play(v, a).turns && id in Play(v, b).turns && id in Play(v, first).turns
    ensures ViewOf(Play(v, a), id, s.callId) == ViewOf(Play(v, b), id, s.callId)
    ensures ViewOf(Play(v, first), id, s.callId) == ViewOf(Play(v, a), id, s.callId)
            <==> !NameDiffers(v.turns[id], s) && !DescriptionDiffers(v.turns[id], v.descriptions, s)
  {
    OnlyOwnEventsShow(v, v, request, id, a, s.callId);
    OnlyOwnEventsShow(v, v, request, id, b, s.callId);
    OnlyOwnEventsShow(v, v, request, id, first, s.callId);
    ArrivalView(v, request, id, s, ds, p);
    ArrivalView(v, request, id, s, ds, q);
    ArrivalView(v, request, id, s, ds, 0);
    RecordsAgree(v.turns[id], v.descriptions, s, ds);
  }

  // ---- An authoritative replacement in mid-call ----------------------------------------

  /** A view that holds one turn and nothing else. */
  function Alone(request: nat, id: nat, turn: Turn): View { View(map[id := turn], map[request := id], map[]) }

  /**
   * A replacement that lists the call is a fresh start: whatever came before it, in
   * whatever order, the call afterwards reads as the authoritative turn and the call's
   * later events alone make it.
   */
  lemma ReplacementIsFreshStart(v: View, request: nat, id: nat, before: seq<Event>, turn: Turn,
                                after: seq<Event>, c: Text)
    requires request in Play(v, before).routes && Play(v, before).routes[request] == id
    requires HasCall(turn.calls, c) && Mixed(after, request, id, c)
    ensures var w := Play(v, before + [TurnReplaced(id, turn)] + after);
            var alone := Play(Alone(request, id, turn), Own(after, request, c));
            && id in w.turns && id in alone.turns
            && ViewOf(w, id, c) == ViewOf(alone, id, c)
  {
    var replaced := Step(Play(v, before), TurnReplaced(id, turn));
    PlayNext(v, before, TurnReplaced(id, turn));
    PlaySplits(v, before + [TurnReplaced(id, turn)], after);
    OnlyOwnEventsShow(replaced, Alone(request, id, turn), request, id, after, c);
  }

  /** So events before a replacement never show after it: any two pasts converge. */
  lemma ReplacementConverges(v: View, w: View, request: nat, id: nat, a: seq<Event>, b: seq<Event>, turn: Turn,
                             after: seq<Event>, c: Text)
    requires request in Play(v, a).routes && Play(v, a).routes[request] == id
    requires request in Play(w, b).routes && Play(w, b).routes[request] == id
    requires HasCall(turn.calls, c) && Mixed(after, request, id, c)
    ensures var x := Play(v, a + [TurnReplaced(id, turn)] + after);
            var y := Play(w, b + [TurnReplaced(id, turn)] + after);
            id in x.turns && id in y.turns && ViewOf(x, id, c) == ViewOf(y, id, c)
  {
    ReplacementIsFreshStart(v, request, id, a, turn, after, c);
    ReplacementIsFreshStart(w, request, id, b, turn, after, c);
  }

  // ---- Answer and reasoning text ---------------------------------------------------

  function StreamOf(t: Turn, stream: Stream): Text {
    match stream
    case Reasoning => OrEmpty(t.reasoning)
    case Answer => OrEmpty(t.answer)
    case OtherStream => []
  }

  function OrEmpty(text: Option<Text>): Text { if text.Some? then text.value else [] }

  /** Whether an event, as things are routed now, adds text to this stream of the turn `id`. */
  predicate Feeds(v: View, id: nat, stream: Stream, e: Event) {
    && !stream.OtherStream?
    && e.Output? && e.stream == stream && e.request in v.routes && v.routes[e.request] == id
  }

  predicate Replaces(e: Event, id: nat) { e.TurnReplaced? && e.id == id }

  /** The stream's text when the turn was last replaced, or at the start. */
  function LastText(v: View, id: nat, stream: Stream, events: seq<Event>): Text
    requires id in v.turns
  {
    if events == [] then StreamOf(v.turns[id], stream)
    else
      var e := events[|events| - 1];
      if Replaces(e, id) then StreamOf(e.turn, stream) else LastText(v, id, stream, events[..|events| - 1])
  }

  /** The text the events have carried for the stream since then. */
  function TextSince(v: View, id: nat, stream: Stream, events: seq<Event>): Text {
    if events == [] || Replaces(events[|events| - 1], id) then []
    else
      var init, e := events[..|events| - 1], events[|events| - 1];
      TextSince(v, id, stream, init) + if Feeds(Play(v, init), id, stream, e) then e.data else []
  }

  lemma StepFeeds(v: View, id: nat, stream: Stream, e: Event)
    requires id in v.turns
    ensures id in Step(v, e).turns
    ensures StreamOf(Step(v, e).turns[id], stream) ==
            if Replaces(e, id) then StreamOf(e.turn, stream)
            else StreamOf(v.turns[id], stream) + if Feeds(v, id, stream, e) then e.data else []
  {}

  /**
   * However the streams of a turn, its tool events, other turns' events, replacements
   * and route changes interleave, each stream is the text of the last authoritative turn
   * followed by exactly its own chunks since, in order.
   */
  lemma {:induction false} StreamsDoNotMix(v: View, id: nat, stream: Stream, events: seq<Event>)
    requires id in v.turns
    ensures id in Play(v, events).turns
    ensures StreamOf(Play(v, events).turns[id], stream) ==
            LastText(v, id, stream, events) + TextSince(v, id, stream, events)
  {
    if events != [] {
      var init, e := events[..|events| - 1], events[|events| - 1];
      StreamsDoNotMix(v, id, stream, init);
      StepFeeds(Play(v, init), id, stream, e);
    }
  }
}
