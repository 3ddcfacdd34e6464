/**
 Which catalog the daemon holds, in memory and on disk, and what its etag names.

 Versions are the server's, in publication order; an etag names the version it came with.  The thread
 fetches; the daemon's command loop persists, the cache file first and the etag second, and a crash
 may come between the two.
 */
module CatalogCache {
  import opened Options

  datatype Base = Embedded | Fetched(version: nat)

  datatype Memory = Memory(base: Base, etag: Option<nat>)

  /** A `CatalogBaseChanged` with `persist` set, waiting in the command loop's queue. */
  datatype Persist = Persist(version: nat, etag: Option<nat>)

  /** `half` is a persist whose cache file is written and whose etag is not. */
  datatype State = State(
    server: nat,
    diskBase: Option<nat>,
    diskEtag: Option<nat>,
    memory: Option<Memory>,
    queue: seq<Persist>,
    half: Option<Persist>)

  /** How a request that is not answered 304 ends. */
  datatype Reply = Body(withEtag: bool) | UnusableBody | Failure

  datatype Step =
    | Publish
    | LoseCache
    | Start(etagReadable: bool)
    | Fetch(force: bool, reply: Reply)
    | Skip
    | WriteCache(ok: bool)
    | WriteEtag(ok: bool)
    | Crash

  const INIT := State(0, None, None, None, [], None)

  /** The request carries `If-None-Match`. */
  predicate Conditional(m: Memory, force: bool) { !force && m.etag.Some? }

  /** The server answers a conditional request 304 exactly when the etag names what it serves. */
  predicate NotModified(s: State, force: bool) {
    s.memory.Some? && Conditional(s.memory.value, force) && s.memory.value.etag.value == s.server
  }

  predicate Enabled(s: State, step: Step) {
    match step
    case Publish => true
    case LoseCache => true
    case Start(_) => s.memory.None?
    case Fetch(_, _) => s.memory.Some?
    case Skip => s.half.None? && s.queue != []
    case WriteCache(_) => s.half.None? && s.queue != []
    case WriteEtag(_) => s.half.Some?
    case Crash => true
  }

  function Next(s: State, step: Step): State {
    if !Enabled(s, step) then s
    else
      match step
      case Publish => s.(server := s.server + 1)
      case LoseCache => s.(diskBase := None)
      case Start(etagReadable) =>
        s.(memory := Some(if s.diskBase.Some?
                          then Memory(Fetched(s.diskBase.value), if etagReadable then s.diskEtag else None)
                          else Memory(Embedded, None)))
      case Fetch(force, reply) =>
        if NotModified(s, force) || !reply.Body? then s
        else
          var etag := if reply.withEtag then Some(s.server) else None;
          s.(memory := Some(Memory(Fetched(s.server), etag)), queue := s.queue + [Persist(s.server, etag)])
      case Skip => s.(queue := s.queue[1..])
      case WriteCache(ok) =>
        if ok then s.(diskBase := Some(s.queue[0].version), half := Some(s.queue[0]), queue := s.queue[1..])
        else s.(queue := s.queue[1..])
      case WriteEtag(ok) => s.(diskEtag := if ok then s.half.value.etag else s.diskEtag, half := None)
      case Crash => s.(memory := None, queue := [], half := None)
  }

  function Exec(steps: seq<Step>): State {
    if steps == [] then INIT else Next(Exec(steps[..|steps| - 1]), steps[|steps| - 1])
  }

  /** Every version still to be persisted lies between `lo` and the server's, in order, with its own etag. */
  ghost predicate Rising(q: seq<Persist>, lo: nat, server: nat) {
    && (forall i :: 0 <= i < |q| ==> lo <= q[i].version <= server)
    && (forall i, j :: 0 <= i < j < |q| ==> q[i].version <= q[j].version)
    && (forall i :: 0 <= i < |q| ==> q[i].etag.None? || q[i].etag.value == q[i].version)
  }

  /** The newest version any persisted etag may name before the next etag write. */
  function EtagFloor(s: State): nat { if s.diskEtag.Some? then s.diskEtag.value else 0 }

  function HalfFloor(s: State): nat { if s.half.Some? then s.half.value.version else EtagFloor(s) }

  ghost predicate QueueOk(s: State) {
    && EtagFloor(s) <= HalfFloor(s) <= s.server
    && Rising(s.queue, HalfFloor(s), s.server)
    && (s.half.Some? ==> s.half.value.etag.None? || s.half.value.etag.value == s.half.value.version)
  }

  /** On disk and in memory, an etag never names more than the catalog beside it. */
  ghost predicate PairsOk(s: State) {
    && (s.half.Some? && s.diskBase.Some? ==> s.diskBase.value == s.half.value.version)
    && (s.diskBase.Some? ==> EtagFloor(s) <= s.diskBase.value <= s.server)
    && (s.memory.Some? && s.memory.value.etag.Some? ==>
          s.memory.value.base.Fetched?
          && s.memory.value.etag.value <= s.memory.value.base.version <= s.server)
  }

  ghost predicate Inv(s: State) { QueueOk(s) && PairsOk(s) }

  lemma RisingTail(q: seq<Persist>, lo: nat, server: nat)
    requires q != [] && Rising(q, lo, server)
    ensures Rising(q[1..], q[0].version, server) && Rising(q[1..], lo, server)
  {
  }

  lemma RisingLower(q: seq<Persist>, lo: nat, lo': nat, server: nat, server': nat)
    requires Rising(q, lo, server) && lo' <= lo && server <= server'
    ensures Rising(q, lo', server')
  {
  }

  lemma RisingSnoc(q: seq<Persist>, lo: nat, server: nat, p: Persist)
    requires Rising(q, lo, server) && lo <= server
    requires p.version == server && (p.etag.None? || p.etag.value == server)
    ensures Rising(q + [p], lo, server)
  {
  }

  lemma StepKeepsQueue(s: State, step: Step)
    requires QueueOk(s)
    ensures QueueOk(Next(s, step))
  {
    if Enabled(s, step) {
      match step
      case Publish => RisingLower(s.queue, HalfFloor(s), HalfFloor(s), s.server, s.server + 1);
      case LoseCache =>
      case Start(_) =>
      case Fetch(_, reply) =>
        if reply.Body? {
          var etag := if reply.withEtag then Some(s.server) else None;
          RisingSnoc(s.queue, HalfFloor(s), s.server, Persist(s.server, etag));
        }
      case Skip => RisingTail(s.queue, HalfFloor(s), s.server);
      case WriteCache(_) => RisingTail(s.queue, HalfFloor(s), s.server);
      case WriteEtag(_) => RisingLower(s.queue, HalfFloor(s), HalfFloor(Next(s, step)), s.server, s.server);
      case Crash =>
    }
  }

  lemma StepKeepsInv(s: State, step: Step)
    requires Inv(s)
    ensures Inv(Next(s, step))
  {
    StepKeepsQueue(s, step);
  }

  lemma {:induction false} RunKeepsInv(steps: seq<Step>)
    ensures Inv(Exec(steps))
  {
    if steps != [] {
      RunKeepsInv(steps[..|steps| - 1]);
      StepKeepsInv(Exec(steps[..|steps| - 1]), steps[|steps| - 1]);
    }
  }

  /** Whatever crashes between the two writes, the persisted etag never names more than the persisted cache. */
  lemma PersistedEtagIsNeverNewer(steps: seq<Step>)
    requires Exec(steps).diskBase.Some? && Exec(steps).diskEtag.Some?
    ensures Exec(steps).diskEtag.value <= Exec(steps).diskBase.value
  {
    RunKeepsInv(steps);
  }

  /** A 304 is always the truth: the catalog in memory is the version the server serves. */
  lemma NotModifiedMeansCurrent(steps: seq<Step>, force: bool)
    requires NotModified(Exec(steps), force)
    ensures Exec(steps).memory.value.base == Fetched(Exec(steps).server)
  {
    RunKeepsInv(steps);
  }

  /**
   In every run a fetch that succeeds, answered 304 or with a body, leaves the server's version in memory; a
   body brings its own etag and is handed on to be persisted; a forced fetch is never answered 304; and a
   fetch that fails changes nothing.
   */
  lemma FetchBringsTheCurrent(steps: seq<Step>, force: bool, reply: Reply)
    requires Exec(steps).memory.Some?
    ensures var s, t := Exec(steps), Exec(steps + [Fetch(force, reply)]);
            && (NotModified(s, force) ==> !force && t == s && t.memory.value.base == Fetched(t.server))
            && (!NotModified(s, force) && reply.Body? ==>
                  var etag := if reply.withEtag then Some(s.server) else None;
                  && t.memory == Some(Memory(Fetched(s.server), etag))
                  && t.queue == s.queue + [Persist(s.server, etag)])
            && (!NotModified(s, force) && !reply.Body? ==> t == s)
  {
    ExecSnoc(steps, Fetch(force, reply));
    if NotModified(Exec(steps), force) { NotModifiedMeansCurrent(steps, force); }
  }

  /** A start loads what the disk holds: the cached version with its etag, or the embedded one without. */
  lemma StartLoadsTheDisk(steps: seq<Step>, etagReadable: bool)
    requires Exec(steps).memory.None?
    ensures var s := Exec(steps);
            Exec(steps + [Start(etagReadable)]).memory == Some(
              match s.diskBase
              case None => Memory(Embedded, None)
              case Some(v) => Memory(Fetched(v), if etagReadable then s.diskEtag else None))
  {
    ExecSnoc(steps, Start(etagReadable));
  }

  // ----- After a start without a cache -----

  /** The step neither ends the process nor brings it a catalog. */
  predicate Fruitless(step: Step) { !step.Crash? && (step.Fetch? ==> !step.reply.Body?) }

  lemma {:induction false} StaysEmbedded(before: seq<Step>, after: seq<Step>)
    requires Exec(before).memory == Some(Memory(Embedded, None))
    requires forall i :: 0 <= i < |after| ==> Fruitless(after[i])
    ensures Exec(before + after).memory == Some(Memory(Embedded, None))
  {
    if after == [] {
      assert before + after == before;
    } else {
      var init, step := after[..|after| - 1], after[|after| - 1];
      StaysEmbedded(before, init);
      assert before + after == (before + init) + [step];
      ExecSnoc(before + init, step);
      assert Fruitless(step);
    }
  }

  lemma ExecSnoc(steps: seq<Step>, step: Step)
    ensures Exec(steps + [step]) == Next(Exec(steps), step)
  {
    assert (steps + [step])[..|steps|] == steps;
  }

  /**
   In every run: a process that started on a missing or corrupt cache sends only plain requests until
   one of them brings it a catalog, whatever etag the database holds and whatever else happens.
   */
  lemma NoCacheMeansPlainRequests(before: seq<Step>, etagReadable: bool, after: seq<Step>, force: bool)
    requires Exec(before).memory.None? && Exec(before).diskBase.None?
    requires forall i :: 0 <= i < |after| ==> Fruitless(after[i])
    ensures var m := Exec(before + [Start(etagReadable)] + after).memory;
            m.Some? && !Conditional(m.value, force)
  {
    var started := before + [Start(etagReadable)];
    assert Exec(started).memory == Some(Memory(Embedded, None)) by { ExecSnoc(before, Start(etagReadable)); }
    StaysEmbedded(started, after);
  }

  // ----- A crash between the two writes -----

  /** The run whose next persist writes its cache file and crashes before its etag. */
  function CrashBetween(steps: seq<Step>): seq<Step> { steps + [WriteCache(true)] + [Crash] }

  lemma CrashBetweenStates(steps: seq<Step>)
    requires Exec(steps).half.None? && Exec(steps).queue != []
    ensures var s := Exec(steps);
            Exec(CrashBetween(steps)) == State(s.server, Some(s.queue[0].version), s.diskEtag, None, [], None)
  {
    ExecSnoc(steps, WriteCache(true));
    ExecSnoc(steps + [WriteCache(true)], Crash);
  }

  /**
   In every run, a crash between the two writes leaves the old etag beside the file just written.  The
   pair on disk is the old one, as the comments have it, exactly when that file's version was already
   there.
   */
  lemma CrashLeavesOldPairExactly(steps: seq<Step>)
    requires Exec(steps).half.None? && Exec(steps).queue != []
    ensures var s, t := Exec(steps), Exec(CrashBetween(steps));
            && t.diskEtag == s.diskEtag
            && t.diskBase == Some(s.queue[0].version)
            && ((t.diskBase, t.diskEtag) == (s.diskBase, s.diskEtag) <==> s.diskBase == Some(s.queue[0].version))
  {
    CrashBetweenStates(steps);
  }

  /** The run after that crash and a restart that reads the etag. */
  function Restarted(steps: seq<Step>): seq<Step> { CrashBetween(steps) + [Start(true)] }

  /** Then an unforced fetch is answered 304 exactly when the old etag names what the server serves. */
  lemma RestartRevalidatesExactly(steps: seq<Step>)
    requires Exec(steps).half.None? && Exec(steps).queue != []
    ensures NotModified(Exec(Restarted(steps)), false) <==> Exec(steps).diskEtag == Some(Exec(steps).server)
  {
    CrashBetweenStates(steps);
    ExecSnoc(CrashBetween(steps), Start(true));
  }

  /** A fetch and both writes of what it brought. */
  function Refetched(steps: seq<Step>): seq<Step> {
    steps + [Fetch(false, Body(true))] + [WriteCache(true)] + [WriteEtag(true)]
  }

  /**
   So the pair heals: after the restart, one unforced fetch and its writes leave the server's version
   and its etag together on disk, whether the fetch was answered 304 or with a body.
   */
  lemma CrashHeals(steps: seq<Step>)
    requires Exec(steps).half.None? && Exec(steps).queue != []
    ensures var t := Exec(Refetched(Restarted(steps)));
            t.diskBase == Some(t.server) && t.diskEtag == Some(t.server)
  {
    var start := Restarted(steps);
    CrashBetweenStates(steps);
    ExecSnoc(CrashBetween(steps), Start(true));
    var fetched := start + [Fetch(false, Body(true))];
    ExecSnoc(start, Fetch(false, Body(true)));
    ExecSnoc(fetched, WriteCache(true));
    ExecSnoc(fetched + [WriteCache(true)], WriteEtag(true));
    if NotModified(Exec(start), false) { NotModifiedMeansCurrent(start, false); }
  }

  /**
   For one: a crash that leaves the old etag beside a new file.
   */
  lemma CrashLeavesOldEtagNewCache() returns (steps: seq<Step>)
    ensures var s := Exec(steps); s.memory.None? && s.diskEtag == Some(0) && s.diskBase == Some(1)
  {
    var a := [] + [Start(true)];
    var b := a + [Fetch(false, Body(true))];
    var c := b + [WriteCache(true)];
    var d := c + [WriteEtag(true)];
    var e := d + [Publish];
    var f := e + [Fetch(false, Body(true))];
    var g := f + [WriteCache(true)];
    steps := g + [Crash];
    ExecSnoc([], Start(true));
    ExecSnoc(a, Fetch(false, Body(true)));
    ExecSnoc(b, WriteCache(true));
    ExecSnoc(c, WriteEtag(true));
    assert Exec(d) == State(0, Some(0), Some(0), Some(Memory(Fetched(0), Some(0))), [], None);
    ExecSnoc(d, Publish);
    ExecSnoc(e, Fetch(false, Body(true)));
    ExecSnoc(f, WriteCache(true));
    ExecSnoc(g, Crash);
  }
}
