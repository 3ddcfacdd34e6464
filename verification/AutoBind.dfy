/**
 * Automatic binding of a fresh daemon's keystore (choreo-client-core/src/credentials.rs,
 * README.md "Security model"). One client, one connection, one daemon address.
 *
 * The daemon adopts the first bind key that reaches it. Messages may be lost in
 * either direction, another client may bind first, and every store access may fail
 * to read or be torn while writing.
 */
module AutoBind {
  import opened Options
  import opened KnownServers

  /** How one load-modify-persist of the store goes. */
  datatype Io = Io(readable: bool, write: Write)

  /** The load was read and the rewrite was not torn. It may still have failed. */
  predicate Intact(io: Io) { io.readable && !io.write.Torn? }

  /** The file after one load, one field set and one rewrite. */
  function Stored(file: File, slot: Slot, addr: Addr, k: Key, io: Io): File {
    Persisted(file, With(Load(file, io.readable), slot, addr, k), io.write)
  }

  function Recorded(file: File, addr: Addr, k: Key, io: Io): File { Stored(file, KeySlot, addr, k, io) }

  /** What the reloaded store says of one field of one address. */
  function Current(file: File, slot: Slot, addr: Addr): Decoded { ValueOf(Load(file, true), slot, addr) }

  predicate Holds(file: File, addr: Addr, k: Key) { Current(file, KeySlot, addr) == Good(Some(k)) }

  // ---- The client's operations -----------------------------------------------------

  datatype BindReply = Refused | AlreadyAttempted | Bind(key: Key)

  datatype Legacy = Absent | WrongLength | Present(key: Key)

  /** The key to verify with, and whether the legacy key is copied into the store. */
  function Resolved(file: File, addr: Addr, legacy: Legacy, readable: bool): (Option<Key>, bool) {
    match ValueOf(Load(file, readable), KeySlot, addr)
    case Good(Some(k)) => (Some(k), false)
    case _ => if legacy.Present? then (Some(legacy.key), true) else (None, false)
  }

  function AfterResolve(file: File, addr: Addr, legacy: Legacy, readable: bool, io: Io): File {
    if Resolved(file, addr, legacy, readable).1 then Recorded(file, addr, legacy.key, io) else file
  }

  method RecordUnlockKey(disk: Disk, addr: Addr, k: Key, io: Io) returns (ok: bool)
    modifies disk
    ensures disk.file == Recorded(old(disk.file), addr, k, io)
    ensures ok == io.write.Durable?
  {
    var store := new Store(disk, io.readable);
    ok := store.SetUnlockKey(addr, k, io.write);
  }

  /** Records the fresh key before any message exists; refuses when that fails. */
  method BindFreshDaemon(disk: Disk, addr: Addr, minted: Key, io: Io) returns (r: BindReply)
    modifies disk
    ensures disk.file == Recorded(old(disk.file), addr, minted, io)
    ensures r == if io.write.Durable? then Bind(minted) else Refused
    ensures r.Bind? ==> Holds(disk.file, addr, r.key)
  {
    var ok := RecordUnlockKey(disk, addr, minted, io);
    if !ok { return Refused; }
    DurableRecordHolds(old(disk.file), addr, minted, io.readable);
    r := Bind(minted);
  }

  method StoredOrAdopted(disk: Disk, addr: Addr, legacy: Legacy, readable: bool, io: Io) returns (key: Option<Key>)
    modifies disk
    ensures key == Resolved(old(disk.file), addr, legacy, readable).0
    ensures disk.file == AfterResolve(old(disk.file), addr, legacy, readable, io)
    ensures forall k :: readable && Holds(old(disk.file), addr, k) ==> key == Some(k) && disk.file == old(disk.file)
    ensures !readable || Current(old(disk.file), KeySlot, addr) == Good(None) ==>
              key == if legacy.Present? then Some(legacy.key) else None
  {
    var store := new Store(disk, readable);
    var found := store.UnlockKey(addr);
    if found.Good? && found.key.Some? { return found.key; }
    if !legacy.Present? { return None; }
    var _ := RecordUnlockKey(disk, addr, legacy.key, io);
    key := Some(legacy.key);
  }

  class KeystoreAutoBind {
    var attempted: bool

    constructor () ensures !attempted { attempted := false; }

    /** The latch is set before the key is minted, so a failure counts as the attempt. */
    method OnUnbound(disk: Disk, addr: Addr, minted: Key, io: Io) returns (r: BindReply)
      modifies this, disk
      ensures attempted
      ensures old(attempted) ==> r == AlreadyAttempted && disk.file == old(disk.file)
      ensures !old(attempted) ==>
                && r == (if io.write.Durable? then Bind(minted) else Refused)
                && disk.file == Recorded(old(disk.file), addr, minted, io)
      ensures r.Bind? ==> Holds(disk.file, addr, r.key)
    {
      if attempted { return AlreadyAttempted; }
      attempted := true;
      r := BindFreshDaemon(disk, addr, minted, io);
    }
  }

  // ---- The connection --------------------------------------------------------------

  datatype Conn = Conn(
    attempted: bool,
    file: File,
    sent: seq<Key>,              // bind keys this client sent, in order
    inFlight: Option<Key>,       // a bind on its way to the daemon
    binding: Option<Key>,        // the daemon's binding
    adopted: Option<Key>,        // the key the daemon adopted from this connection
    reply: Option<Key>)          // a Bound confirmation on its way back

  datatype Step =
    | UnboundReport(minted: Key, io: Io)
    | BindArrives
    | BindLost
    | BoundReply(io: Io)
    | ReplyLost
    | OtherClientBinds(key: Key)
    | UnlockConfirmed(io: Io)
    | ResolveKey(legacy: Legacy, readable: bool, io: Io)
    | PinServer(server: Addr, key: Key, io: Io)
    | RecordOther(server: Addr, key: Key, io: Io)

  function Next(s: Conn, addr: Addr, e: Step): Conn {
    match e
    case UnboundReport(minted, io) =>
      if s.attempted then s
      else
        var after := s.(attempted := true, file := Recorded(s.file, addr, minted, io));
        if io.write.Durable? then after.(sent := s.sent + [minted], inFlight := Some(minted)) else after
    case BindArrives =>
      if s.inFlight.Some? && s.binding.None?
      then s.(inFlight := None, binding := s.inFlight, adopted := s.inFlight, reply := s.inFlight)
      else s.(inFlight := None)
    case BindLost => s.(inFlight := None)
    case BoundReply(io) =>
      if s.reply.Some? then s.(reply := None, file := Recorded(s.file, addr, s.reply.value, io)) else s
    case ReplyLost => s.(reply := None)
    case OtherClientBinds(k) => if s.binding.None? then s.(binding := Some(k)) else s
    case UnlockConfirmed(io) =>
      if s.binding.Some? then s.(file := Recorded(s.file, addr, s.binding.value, io)) else s
    case ResolveKey(legacy, readable, io) => s.(file := AfterResolve(s.file, addr, legacy, readable, io))
    case PinServer(server, k, io) => s.(file := Stored(s.file, PinSlot, server, k, io))
    case RecordOther(server, k, io) => if server == addr then s else s.(file := Recorded(s.file, server, k, io))
  }

  function Exec(s: Conn, addr: Addr, es: seq<Step>): Conn {
    if es == [] then s else Next(Exec(s, addr, es[..|es| - 1]), addr, es[|es| - 1])
  }

  /** A new connection: nothing sent, nothing adopted; the daemon may be bound already. */
  function Fresh(file: File, binding: Option<Key>): Conn { Conn(false, file, [], None, binding, None, None) }

  // ---- One rewrite -----------------------------------------------------------------

  lemma LoadIsClean(file: File, readable: bool)
    ensures Clean(Load(file, readable))
  {
    if file.Toml? { ParsedIsClean(file.tables); }
  }

  lemma DurableRecordHolds(file: File, addr: Addr, k: Key, readable: bool)
    ensures Holds(Recorded(file, addr, k, Io(readable, Durable)), addr, k)
  {
    var es := Load(file, readable);
    LoadIsClean(file, readable);
    SetIsIndependent(es, KeySlot, addr, k, KeySlot, addr);
    SetKeepsClean(es, KeySlot, addr, k);
    ReloadIsIdentity(file, With(es, KeySlot, addr, k), Durable);
  }

  /** Whether a rewrite of these contents gets as far as the field. */
  predicate Reaches(w: Write, es: seq<Entry>, slot: Slot, addr: Addr) { w.Torn? ==> CutSpares(es, w.cut, slot, addr) }

  /** What any rewrite leaves in any field. */
  lemma RewriteValue(file: File, es: seq<Entry>, w: Write, slot: Slot, addr: Addr)
    requires Clean(es)
    ensures Current(Persisted(file, es, w), slot, addr) ==
            if w.FailedBefore? then Current(file, slot, addr)
            else if Reaches(w, es, slot, addr) then ValueOf(es, slot, addr) else Good(None)
  {
    match w {
      case FailedBefore(created) => FailedBeforeKeeps(file, es, created);
      case Durable => ReloadIsIdentity(file, es, w);
      case FailedAfter => ReloadIsIdentity(file, es, w);
      case Torn(cut) => TornValue(file, es, cut, slot, addr);
    }
  }

  // ---- Exactly when a field is left alone ------------------------------------------

  /** The store rewrite a step performs, if any. */
  datatype Edit = NoEdit | Set(slot: Slot, server: Addr, key: Key, io: Io)

  function Edited(file: File, d: Edit): File {
    match d
    case NoEdit => file
    case Set(slot, server, k, io) => Stored(file, slot, server, k, io)
  }

  predicate Targets(d: Edit, slot: Slot, addr: Addr) { d.Set? && d.slot == slot && d.server == addr }

  /** The contents an edit writes. */
  function Contents(file: File, d: Edit): seq<Entry>
    requires d.Set?
  {
    With(Load(file, d.io.readable), d.slot, d.server, d.key)
  }

  /**
   * An edit spares a field if its rewrite never starts. A field it does not set must
   * otherwise be absent, or have been read and be written before any cut; one it sets
   * must already hold the new value, or be absent and not reached.
   */
  predicate Spares(file: File, d: Edit, slot: Slot, addr: Addr) {
    || d.NoEdit?
    || d.io.write.FailedBefore?
    || (var reached := Reaches(d.io.write, Contents(file, d), slot, addr);
        var now := Current(file, slot, addr);
        if Targets(d, slot, addr) then now == (if reached then Good(Some(d.key)) else Good(None))
        else now == Good(None) || (d.io.readable && reached))
  }

  lemma EditKeepsExactly(file: File, d: Edit, slot: Slot, addr: Addr)
    ensures Current(Edited(file, d), slot, addr) == Current(file, slot, addr) <==> Spares(file, d, slot, addr)
  {
    if d.Set? {
      var es := Load(file, d.io.readable);
      LoadIsClean(file, d.io.readable);
      LoadIsClean(file, true);
      SetKeepsClean(es, d.slot, d.server, d.key);
      SetIsIndependent(es, d.slot, d.server, d.key, slot, addr);
      RewriteValue(file, Contents(file, d), d.io.write, slot, addr);
      assert !d.io.readable ==> ValueOf(es, slot, addr) == Good(None);
    }
  }

  /** An undamaged edit spares every field but the one it sets, and that one if it is unchanged. */
  lemma IntactSpares(file: File, d: Edit, slot: Slot, addr: Addr)
    requires d.Set? ==> Intact(d.io)
    requires Targets(d, slot, addr) ==> Current(file, slot, addr) == Good(Some(d.key))
    ensures Current(Edited(file, d), slot, addr) == Current(file, slot, addr)
  {
    EditKeepsExactly(file, d, slot, addr);
  }

  function EditOf(s: Conn, addr: Addr, e: Step): Edit {
    match e
    case UnboundReport(minted, io) => if s.attempted then NoEdit else Set(KeySlot, addr, minted, io)
    case BoundReply(io) => if s.reply.Some? then Set(KeySlot, addr, s.reply.value, io) else NoEdit
    case UnlockConfirmed(io) => if s.binding.Some? then Set(KeySlot, addr, s.binding.value, io) else NoEdit
    case ResolveKey(legacy, readable, io) =>
      if Resolved(s.file, addr, legacy, readable).1 then Set(KeySlot, addr, legacy.key, io) else NoEdit
    case PinServer(server, k, io) => Set(PinSlot, server, k, io)
    case RecordOther(server, k, io) => if server == addr then NoEdit else Set(KeySlot, server, k, io)
    case _ => NoEdit
  }

  lemma EditOfIsRight(s: Conn, addr: Addr, e: Step)
    ensures Next(s, addr, e).file == Edited(s.file, EditOf(s, addr, e))
  {}

  /** A file and the edits made to it, one after another. */
  ghost predicate History(files: seq<File>, edits: seq<Edit>) {
    && |files| == |edits| + 1
    && forall i :: 0 <= i < |edits| ==> files[i + 1] == Edited(files[i], edits[i])
  }

  predicate Unchanged(files: seq<File>, i: nat, slot: Slot, at: Addr)
    requires i < |files|
  {
    Current(files[i], slot, at) == Current(files[0], slot, at)
  }

  lemma {:induction false} SparedIsUnchanged(files: seq<File>, edits: seq<Edit>, n: nat, slot: Slot, at: Addr)
    requires History(files, edits) && n <= |edits|
    requires forall i :: 0 <= i < n ==> Spares(files[i], edits[i], slot, at)
    ensures Unchanged(files, n, slot, at)
  {
    if n > 0 {
      SparedIsUnchanged(files, edits, n - 1, slot, at);
      EditKeepsExactly(files[n - 1], edits[n - 1], slot, at);
    }
  }

  lemma UnchangedIsSpared(files: seq<File>, edits: seq<Edit>, i: nat, slot: Slot, at: Addr)
    requires History(files, edits) && i < |edits|
    requires Unchanged(files, i, slot, at) && Unchanged(files, i + 1, slot, at)
    ensures Spares(files[i], edits[i], slot, at)
  {
    EditKeepsExactly(files[i], edits[i], slot, at);
  }

  /** The file at the start of a run and after each of its steps. */
  function Files(s: Conn, addr: Addr, es: seq<Step>): (files: seq<File>)
    ensures |files| == |es| + 1 && files[0] == s.file && files[|es|] == Exec(s, addr, es).file
  {
    if es == [] then [s.file] else Files(s, addr, es[..|es| - 1]) + [Exec(s, addr, es).file]
  }

  /** The edit each step of a run makes. */
  function Edits(s: Conn, addr: Addr, es: seq<Step>): (edits: seq<Edit>)
    ensures |edits| == |es|
  {
    if es == [] then []
    else Edits(s, addr, es[..|es| - 1]) + [EditOf(Exec(s, addr, es[..|es| - 1]), addr, es[|es| - 1])]
  }

  lemma {:induction false} RunIsHistory(s: Conn, addr: Addr, es: seq<Step>)
    ensures History(Files(s, addr, es), Edits(s, addr, es))
  {
    if es != [] {
      var init := es[..|es| - 1];
      RunIsHistory(s, addr, init);
      EditOfIsRight(Exec(s, addr, init), addr, es[|es| - 1]);
    }
  }

  /**
   * With any failures at all, torn rewrites included: the pin or the unlock key of
   * any address, this connection's own or another daemon's, reads the same throughout
   * a run exactly when every step's rewrite spares it.
   */
  lemma FieldKeptExactly(s: Conn, addr: Addr, es: seq<Step>, slot: Slot, at: Addr)
    ensures var files, edits := Files(s, addr, es), Edits(s, addr, es);
            (forall i :: 0 <= i <= |es| ==> Unchanged(files, i, slot, at))
            <==> (forall i :: 0 <= i < |es| ==> Spares(files[i], edits[i], slot, at))
  {
    var files, edits := Files(s, addr, es), Edits(s, addr, es);
    RunIsHistory(s, addr, es);
    if forall i :: 0 <= i <= |es| ==> Unchanged(files, i, slot, at) {
      forall i | 0 <= i < |es| ensures Spares(files[i], edits[i], slot, at) {
        assert Unchanged(files, i, slot, at) && Unchanged(files, i + 1, slot, at);
        UnchangedIsSpared(files, edits, i, slot, at);
      }
    }
    if forall i :: 0 <= i < |es| ==> Spares(files[i], edits[i], slot, at) {
      forall i | 0 <= i <= |es| ensures Unchanged(files, i, slot, at) {
        SparedIsUnchanged(files, edits, i, slot, at);
      }
    }
  }

  /**
   * A load that fails to read, followed by a write that succeeds, wipes every other
   * daemon's pin and key: the failed load counted as an empty store.
   */
  lemma UnreadableLoadWipes(file: File, addr: Addr, k: Key, other: Addr)
    requires other != addr
    ensures var after := Load(Recorded(file, addr, k, Io(false, Durable)), true);
            ValueOf(after, PinSlot, other) == Good(None) && ValueOf(after, KeySlot, other) == Good(None)
  {
    var es := With([], KeySlot, addr, k);
    ReloadIsIdentity(file, es, Durable);
    IndexIsUnique(es, other, 1);
  }

  // ---- Every run -------------------------------------------------------------------

  /** What every reachable connection satisfies, whatever fails. */
  predicate Sound(t: Conn) {
    && |t.sent| <= 1
    && (t.sent != [] ==> t.attempted)
    && (t.inFlight.Some? ==> t.sent == [t.inFlight.value] && t.adopted.None?)
    && (t.adopted.Some? ==> t.sent == [t.adopted.value] && t.binding == t.adopted)
    && (t.reply.Some? ==> t.reply == t.adopted)
  }

  lemma StepIsSound(s: Conn, addr: Addr, e: Step)
    requires Sound(s)
    ensures Sound(Next(s, addr, e))
  {}

  /** At most one bind key is ever sent, and only after the latch is set. */
  lemma {:induction false} AtMostOneBind(s: Conn, addr: Addr, es: seq<Step>)
    requires s == Fresh(s.file, s.binding)
    ensures Sound(Exec(s, addr, es))
  {
    if es != [] {
      AtMostOneBind(s, addr, es[..|es| - 1]);
      StepIsSound(Exec(s, addr, es[..|es| - 1]), addr, es[|es| - 1]);
    }
  }

  /** Whatever the state, a step that sends a bind key leaves it in the reloaded store. */
  lemma RecordedBeforeSend(s: Conn, addr: Addr, e: Step)
    requires Next(s, addr, e).sent != s.sent
    ensures e.UnboundReport? && Next(s, addr, e).sent == s.sent + [e.minted]
    ensures Holds(Next(s, addr, e).file, addr, e.minted)
  {
    assert OnlyReportsSend(s, addr, e);
    assert e.io == Io(e.io.readable, Durable);
    DurableRecordHolds(s.file, addr, e.minted, e.io.readable);
  }

  predicate OnlyReportsSend(s: Conn, addr: Addr, e: Step) {
    Next(s, addr, e).sent == s.sent || (e.UnboundReport? && !s.attempted && e.io.write.Durable?)
  }

  predicate StepIntact(e: Step) {
    match e
    case UnboundReport(_, io) => Intact(io)
    case BoundReply(io) => Intact(io)
    case UnlockConfirmed(io) => Intact(io)
    case ResolveKey(_, readable, io) => readable && Intact(io)
    case PinServer(_, _, io) => Intact(io)
    case RecordOther(_, _, io) => Intact(io)
    case _ => true
  }

  predicate AllIntact(es: seq<Step>) { forall i :: 0 <= i < |es| ==> StepIntact(es[i]) }

  /** The key this client sent is still the one to keep: nobody else's is bound. */
  predicate Live(s: Conn) { s.sent != [] && (s.binding.None? || s.binding == s.adopted) }

  /** One undamaged step keeps a live key in the store. */
  lemma StepKeepsKey(s: Conn, addr: Addr, e: Step)
    requires StepIntact(e) && Sound(s)
    requires Live(s) ==> Holds(s.file, addr, s.sent[0])
    ensures Live(Next(s, addr, e)) ==> Holds(Next(s, addr, e).file, addr, Next(s, addr, e).sent[0])
  {
    if s.sent == [] {
      if Next(s, addr, e).sent != [] { RecordedBeforeSend(s, addr, e); }
    } else if Live(s) {
      EditOfIsRight(s, addr, e);
      IntactSpares(s.file, EditOf(s, addr, e), KeySlot, addr);
    }
  }

  /**
   * In every run whose store accesses are undamaged, whatever is lost, refused or
   * repeated, a key the daemon adopted from this connection is in the reloaded store.
   */
  lemma {:induction false} AdoptedKeyIsHeld(s: Conn, addr: Addr, es: seq<Step>)
    requires s == Fresh(s.file, s.binding) && AllIntact(es)
    ensures var t := Exec(s, addr, es);
            && (t.adopted.Some? ==> Holds(t.file, addr, t.adopted.value))
            && (Live(t) ==> Holds(t.file, addr, t.sent[0]))
  {
    if es != [] {
      var init := es[..|es| - 1];
      AtMostOneBind(s, addr, init);
      AdoptedKeyIsHeld(s, addr, init);
      StepKeepsKey(Exec(s, addr, init), addr, es[|es| - 1]);
    }
    AtMostOneBind(s, addr, es);
  }

  /**
   * The hypothesis is needed: re-recording the key when the Bound confirmation
   * arrives rewrites a file that already held it, and a rewrite torn mid-line
   * leaves the client without the key its daemon adopted.
   */
  lemma ReRecordCanLoseTheKey(file: File, addr: Addr, k: Key)
    ensures var es := [UnboundReport(k, Io(true, Durable)), BindArrives, BoundReply(Io(true, Torn(Cut(0, true))))];
            var t := Exec(Fresh(file, None), addr, es);
            t.adopted == Some(k) && !Holds(t.file, addr, k)
  {
    var a, b, c := UnboundReport(k, Io(true, Durable)), BindArrives, BoundReply(Io(true, Torn(Cut(0, true))));
    var s := Fresh(file, None);
    ExecThree(s, addr, a, b, c);
    var bound := Next(Next(s, addr, a), addr, b);
    assert bound.reply == Some(k) && bound.adopted == Some(k);
    FirstLineCutIsGarbled(bound.file, With(Load(bound.file, true), KeySlot, addr, k));
  }

  lemma FirstLineCutIsGarbled(file: File, es: seq<Entry>)
    ensures Persisted(file, es, Torn(Cut(0, true))) == Garbled
  {
    LinesStartWithHeader(es);
  }

  lemma ExecThree(s: Conn, addr: Addr, a: Step, b: Step, c: Step)
    ensures Exec(s, addr, [a, b, c]) == Next(Next(Next(s, addr, a), addr, b), addr, c)
  {
    ExecNext(s, addr, [], a);
    ExecNext(s, addr, [a], b);
    ExecNext(s, addr, [a, b], c);
    assert [] + [a] == [a] && [a] + [b] == [a, b] && [a, b] + [c] == [a, b, c];
  }

  lemma ExecNext(s: Conn, addr: Addr, es: seq<Step>, e: Step)
    ensures Exec(s, addr, es + [e]) == Next(Exec(s, addr, es), addr, e)
  {
    assert (es + [e])[..|es|] == es;
  }

  lemma {:induction false} LatchStays(s: Conn, addr: Addr, es: seq<Step>, i: nat)
    requires i < |es| && es[i].UnboundReport?
    ensures Exec(s, addr, es).attempted
  {
    var n := |es| - 1;
    if i < n { LatchStays(s, addr, es[..n], i); }
  }

  /** In every run only the first report does anything: even a refused bind is the connection's one attempt. */
  lemma LaterReportsDoNothing(s: Conn, addr: Addr, es: seq<Step>, i: nat, e: Step)
    requires i < |es| && es[i].UnboundReport? && e.UnboundReport?
    ensures Exec(s, addr, es + [e]) == Exec(s, addr, es)
  {
    LatchStays(s, addr, es, i);
    ExecNext(s, addr, es, e);
  }

  // ---- Which key is used, and what lands in the store --------------------------------

  /** A stored key always wins and leaves the store alone; without one the legacy key is used and copied. */
  lemma StoredKeyWins(file: File, addr: Addr, legacy: Legacy, io: Io)
    ensures forall k :: Holds(file, addr, k) ==>
              Resolved(file, addr, legacy, true).0 == Some(k) && AfterResolve(file, addr, legacy, true, io) == file
    ensures Current(file, KeySlot, addr) == Good(None) ==>
              && Resolved(file, addr, legacy, true).0 == (if legacy.Present? then Some(legacy.key) else None)
              && (legacy.Present? && io.write.Durable? ==>
                    Holds(AfterResolve(file, addr, legacy, true, io), addr, legacy.key))
  {
    if legacy.Present? { DurableRecordHolds(file, addr, legacy.key, io.readable); }
  }

  /** In every undamaged run, once the daemon has adopted a key every resolve returns that key. */
  lemma AdoptedKeyIsUsed(s: Conn, addr: Addr, es: seq<Step>, legacy: Legacy, io: Io)
    requires s == Fresh(s.file, s.binding) && AllIntact(es)
    ensures var t := Exec(s, addr, es);
            t.adopted.Some? ==>
              && Resolved(t.file, addr, legacy, true).0 == t.adopted
              && AfterResolve(t.file, addr, legacy, true, io) == t.file
  {
    AdoptedKeyIsHeld(s, addr, es);
    StoredKeyWins(Exec(s, addr, es).file, addr, legacy, io);
  }

  lemma DurableSetLands(file: File, slot: Slot, server: Addr, k: Key, readable: bool)
    ensures Current(Stored(file, slot, server, k, Io(readable, Durable)), slot, server) == Good(Some(k))
  {
    var es := Load(file, readable);
    LoadIsClean(file, readable);
    SetIsIndependent(es, slot, server, k, slot, server);
    SetKeepsClean(es, slot, server, k);
    ReloadIsIdentity(file, With(es, slot, server, k), Durable);
  }

  /** What a step is to record, and where: the minted key, a confirmed key, a pin, another daemon's key. */
  function ToRecord(s: Conn, addr: Addr, e: Step): Option<(Slot, Addr, Key, Io)> {
    match e
    case UnboundReport(minted, io) => if s.attempted then None else Some((KeySlot, addr, minted, io))
    case BoundReply(io) => if s.reply.Some? then Some((KeySlot, addr, s.reply.value, io)) else None
    case UnlockConfirmed(io) => if s.binding.Some? then Some((KeySlot, addr, s.binding.value, io)) else None
    case PinServer(server, k, io) => Some((PinSlot, server, k, io))
    case RecordOther(server, k, io) => if server == addr then None else Some((KeySlot, server, k, io))
    case _ => None
  }

  /** In any state, what a step is to record is in the reloaded store once its write succeeds. */
  lemma RecordsLand(s: Conn, addr: Addr, e: Step)
    requires ToRecord(s, addr, e).Some? && ToRecord(s, addr, e).value.3.write.Durable?
    ensures var (slot, at, k, io) := ToRecord(s, addr, e).value;
            Current(Next(s, addr, e).file, slot, at) == Good(Some(k))
  {
    var (slot, at, k, io) := ToRecord(s, addr, e).value;
    assert io == Io(io.readable, Durable);
    DurableSetLands(s.file, slot, at, k, io.readable);
  }

  // ---- Undamaged runs --------------------------------------------------------------

  /** The fields a step may set: the unlock key of its address, or the pin of a re-pinned one. */
  predicate MaySet(addr: Addr, e: Step, slot: Slot, at: Addr) {
    match e
    case PinServer(server, _, _) => slot.PinSlot? && at == server
    case RecordOther(server, _, _) => slot.KeySlot? && at == server
    case _ => slot.KeySlot? && at == addr
  }

  /**
   * The store behaves as a map with two independent fields per address: over any
   * undamaged run no bind, unlock record or re-pin changes the other field, or
   * another address.
   */
  lemma {:induction false} FieldsAreIndependent(s: Conn, addr: Addr, es: seq<Step>, slot: Slot, at: Addr)
    requires AllIntact(es) && forall i :: 0 <= i < |es| ==> !MaySet(addr, es[i], slot, at)
    ensures Current(Exec(s, addr, es).file, slot, at) == Current(s.file, slot, at)
  {
    if es != [] {
      var init, e := es[..|es| - 1], es[|es| - 1];
      FieldsAreIndependent(s, addr, init, slot, at);
      var t := Exec(s, addr, init);
      EditOfIsRight(t, addr, e);
      assert StepIntact(e) && !MaySet(addr, e, slot, at);
      IntactSpares(t.file, EditOf(t, addr, e), slot, at);
    }
  }
}
