/**
 * The client's store of known daemons (choreo-client-core/src/known_servers.rs):
 * per address a transport pin and a keystore unlock key, rewritten whole on every
 * change and parsed tolerantly on load.
 */
module KnownServers {
  import opened Options

  type Addr = string

  /** A 32-byte key. */
  type Key = seq<int>

  /** The text of a stored key: it decodes, canonically written or not, or it is corrupt. */
  datatype KeyText = Encodes(key: Key, canonical: bool) | Corrupt

  datatype Entry = Entry(addr: Addr, pubkey: Option<KeyText>, unlockKey: Option<KeyText>)

  datatype Decoded = Good(key: Option<Key>) | Undecodable

  function EncodeKey(k: Key): KeyText { Encodes(k, true) }

  function DecodeField(field: Option<KeyText>): Decoded {
    match field
    case None => Good(None)
    case Some(Encodes(k, _)) => Good(Some(k))
    case Some(Corrupt) => Undecodable
  }

  /** The position of the first entry of the address, or the length. */
  function IndexOf(es: seq<Entry>, addr: Addr): (i: nat)
    ensures i <= |es|
    ensures i < |es| ==> es[i].addr == addr
    ensures forall k :: 0 <= k < i ==> es[k].addr != addr
  {
    if es == [] then 0 else if es[0].addr == addr then 0 else 1 + IndexOf(es[1..], addr)
  }

  function FirstEntry(es: seq<Entry>, addr: Addr): Option<Entry> {
    if IndexOf(es, addr) < |es| then Some(es[IndexOf(es, addr)]) else None
  }

  /** The two independent fields of an entry. */
  datatype Slot = PinSlot | KeySlot

  function Field(e: Entry, slot: Slot): Option<KeyText> { if slot.PinSlot? then e.pubkey else e.unlockKey }

  function WithField(e: Entry, slot: Slot, k: Key): Entry {
    if slot.PinSlot? then e.(pubkey := Some(EncodeKey(k))) else e.(unlockKey := Some(EncodeKey(k)))
  }

  /** What a lookup of the address's pin or unlock key returns. */
  function ValueOf(es: seq<Entry>, slot: Slot, addr: Addr): Decoded {
    match FirstEntry(es, addr) case Some(e) => DecodeField(Field(e, slot)) case None => Good(None)
  }

  /** Sets one field of the address's first entry, or appends an entry that holds only it. */
  function With(es: seq<Entry>, slot: Slot, addr: Addr, k: Key): seq<Entry> {
    var i := IndexOf(es, addr);
    if i < |es| then es[i := WithField(es[i], slot, k)] else es + [WithField(Entry(addr, None, None), slot, k)]
  }

  function Without(es: seq<Entry>, addr: Addr): seq<Entry> {
    if es == [] then []
    else if es[|es| - 1].addr == addr then Without(es[..|es| - 1], addr)
    else Without(es[..|es| - 1], addr) + [es[|es| - 1]]
  }

  // ---- Parsing ---------------------------------------------------------------------

  /** One parsed table: dropped for a corrupt pin, stripped of a corrupt unlock key. */
  function ParseEntry(e: Entry): Option<Entry> {
    match DecodeField(e.pubkey)
    case Undecodable => None
    case Good(pin) =>
      Some(Entry(e.addr,
                 if pin.Some? then Some(EncodeKey(pin.value)) else None,
                 match DecodeField(e.unlockKey)
                 case Good(Some(k)) => Some(EncodeKey(k))
                 case Good(None) => None
                 case Undecodable => None))
  }

  function ParseStore(es: seq<Entry>): seq<Entry> {
    if es == [] then []
    else
      ParseStore(es[..|es| - 1]) +
      match ParseEntry(es[|es| - 1]) case Some(e) => [e] case None => []
  }

  /** The loop of `parse_store` over the tables of a file that is valid TOML. */
  method ParseEntries(tables: seq<Entry>) returns (es: seq<Entry>)
    ensures es == ParseStore(tables)
  {
    es := [];
    for i := 0 to |tables|
      invariant es == ParseStore(tables[..i])
    {
      assert tables[..i + 1][..i] == tables[..i];
      var entry := tables[i];
      if entry.pubkey == Some(Corrupt) {
        continue;
      }
      var pin := if entry.pubkey.Some? then Some(EncodeKey(entry.pubkey.value.key)) else None;
      var unlock: Option<KeyText> := None;
      if entry.unlockKey.Some? && entry.unlockKey.value.Encodes? {
        unlock := Some(EncodeKey(entry.unlockKey.value.key));
      }
      es := es + [entry.(pubkey := pin, unlockKey := unlock)];
    }
    assert tables[..|tables|] == tables;
  }

  predicate CleanField(field: Option<KeyText>) { field.None? || (field.value.Encodes? && field.value.canonical) }

  predicate CleanEntry(e: Entry) { CleanField(e.pubkey) && CleanField(e.unlockKey) }

  /** What a loaded store looks like: nothing in it fails to decode. */
  predicate Clean(es: seq<Entry>) { forall i :: 0 <= i < |es| ==> CleanEntry(es[i]) }

  lemma {:induction false} ParsedIsClean(es: seq<Entry>)
    ensures Clean(ParseStore(es))
  {
    if es != [] { ParsedIsClean(es[..|es| - 1]); }
  }

  /** A clean store survives the round trip through its file unchanged. */
  lemma {:induction false} CleanRoundTrips(es: seq<Entry>)
    requires Clean(es)
    ensures ParseStore(es) == es
  {
    if es != [] {
      CleanRoundTrips(es[..|es| - 1]);
      assert CleanEntry(es[|es| - 1]);
      assert es == es[..|es| - 1] + [es[|es| - 1]];
    }
  }

  /** Each table is judged alone: one bad line costs no other server anything. */
  lemma {:induction false} ParsingIsPerEntry(a: seq<Entry>, b: seq<Entry>)
    ensures ParseStore(a + b) == ParseStore(a) + ParseStore(b)
  {
    if b == [] {
      assert a + b == a;
    } else {
      ParsingIsPerEntry(a, b[..|b| - 1]);
      assert (a + b)[..|a + b| - 1] == a + b[..|b| - 1];
    }
  }

  /** A bad unlock key never costs the pin; a bad pin costs the whole entry. */
  lemma ParseEntryKeeps(e: Entry)
    ensures ParseEntry(e).None? <==> e.pubkey == Some(Corrupt)
    ensures ParseEntry(e).Some? ==>
              && DecodeField(ParseEntry(e).value.pubkey) == DecodeField(e.pubkey)
              && (DecodeField(e.unlockKey).Good? ==>
                    DecodeField(ParseEntry(e).value.unlockKey) == DecodeField(e.unlockKey))
              && (DecodeField(e.unlockKey).Undecodable? ==> ParseEntry(e).value.unlockKey == None)
  {}

  // ---- The store as a map ----------------------------------------------------------

  lemma IndexIsUnique(es: seq<Entry>, addr: Addr, i: nat)
    requires i <= |es| && (i < |es| ==> es[i].addr == addr)
    requires forall k :: 0 <= k < i ==> es[k].addr != addr
    ensures IndexOf(es, addr) == i
  {}

  lemma IndexAfterUpdate(es: seq<Entry>, i: nat, e: Entry, addr: Addr)
    requires i < |es| && e.addr == es[i].addr
    ensures IndexOf(es[i := e], addr) == IndexOf(es, addr)
  {
    IndexIsUnique(es[i := e], addr, IndexOf(es, addr));
  }

  lemma IndexAfterAppend(es: seq<Entry>, e: Entry, addr: Addr)
    ensures IndexOf(es + [e], addr) ==
            if IndexOf(es, addr) < |es| then IndexOf(es, addr) else if e.addr == addr then |es| else |es| + 1
  {
    var i := IndexOf(es, addr);
    IndexIsUnique(es + [e], addr, if i < |es| then i else if e.addr == addr then |es| else |es| + 1);
  }

  /** Setting a field changes that field of that address: no other field, no other address. */
  lemma SetIsIndependent(es: seq<Entry>, slot: Slot, addr: Addr, k: Key, other: Slot, elsewhere: Addr)
    ensures ValueOf(With(es, slot, addr, k), other, elsewhere) ==
            if other == slot && elsewhere == addr then Good(Some(k)) else ValueOf(es, other, elsewhere)
  {
    var i := IndexOf(es, addr);
    if i < |es| {
      IndexAfterUpdate(es, i, WithField(es[i], slot, k), elsewhere);
    } else {
      FirstAfterAppend(es, WithField(Entry(addr, None, None), slot, k), elsewhere);
    }
  }

  lemma SetKeepsClean(es: seq<Entry>, slot: Slot, addr: Addr, k: Key)
    requires Clean(es)
    ensures Clean(With(es, slot, addr, k))
  {
    var i := IndexOf(es, addr);
    if i < |es| { assert CleanEntry(es[i]); }
  }

  lemma FirstAfterAppend(es: seq<Entry>, e: Entry, addr: Addr)
    ensures FirstEntry(es + [e], addr) ==
            if FirstEntry(es, addr).Some? then FirstEntry(es, addr) else if e.addr == addr then Some(e) else None
  {
    IndexAfterAppend(es, e, addr);
  }

  /** Removing drops every entry of the address, duplicates included, and no other. */
  lemma {:induction false} RemoveIsExact(es: seq<Entry>, addr: Addr, other: Addr)
    ensures FirstEntry(Without(es, addr), other) == if other == addr then None else FirstEntry(es, other)
  {
    if es != [] {
      var init, last := es[..|es| - 1], es[|es| - 1];
      RemoveIsExact(init, addr, other);
      assert es == init + [last];
      FirstAfterAppend(init, last, other);
      FirstAfterAppend(Without(init, addr), last, other);
    }
  }

  lemma {:induction false} RemoveKeepsClean(es: seq<Entry>, addr: Addr)
    requires Clean(es)
    ensures Clean(Without(es, addr))
  {
    if es != [] {
      RemoveKeepsClean(es[..|es| - 1], addr);
      assert CleanEntry(es[|es| - 1]);
    }
  }

  /** The length tells whether anything was removed. */
  lemma {:induction false} RemoveShortens(es: seq<Entry>, addr: Addr)
    ensures |Without(es, addr)| <= |es|
    ensures |Without(es, addr)| == |es| <==> FirstEntry(es, addr).None?
  {
    if es != [] {
      var init, last := es[..|es| - 1], es[|es| - 1];
      RemoveShortens(init, addr);
      assert es == init + [last];
      FirstAfterAppend(init, last, addr);
    }
  }

  /** A loaded store never surfaces a key that does not decode. */
  lemma CleanAlwaysDecodes(es: seq<Entry>, addr: Addr)
    requires Clean(es)
    ensures ValueOf(es, PinSlot, addr).Good? && ValueOf(es, KeySlot, addr).Good?
  {
    if IndexOf(es, addr) < |es| { assert CleanEntry(es[IndexOf(es, addr)]); }
  }

  // ---- The text of the file --------------------------------------------------------

  /** The lines the store is written as: a header per table, then its fields in order. */
  datatype Line = EmptyList | Header | AddrLine(addr: Addr) | PinLine(text: KeyText) | KeyLine(text: KeyText)

  function EntryLines(e: Entry): (ls: seq<Line>)
    ensures |ls| >= 2 && ls[0].Header?
  {
    [Header, AddrLine(e.addr)]
    + (if e.pubkey.Some? then [PinLine(e.pubkey.value)] else [])
    + (if e.unlockKey.Some? then [KeyLine(e.unlockKey.value)] else [])
  }

  function Lines(es: seq<Entry>): seq<Line> {
    if es == [] then [] else EntryLines(es[0]) + Lines(es[1..])
  }

  function Rendered(es: seq<Entry>): seq<Line> { if es == [] then [EmptyList] else Lines(es) }

  /** Reads tables back; a header without its address line is not a table. */
  function ReadTables(ls: seq<Line>): Option<seq<Entry>>
    decreases |ls|
  {
    if ls == [] then Some([])
    else if |ls| < 2 || !ls[0].Header? || !ls[1].AddrLine? then None
    else
      var pin := if |ls| > 2 && ls[2].PinLine? then Some(ls[2].text) else None;
      var p := if pin.Some? then 3 else 2;
      var key := if |ls| > p && ls[p].KeyLine? then Some(ls[p].text) else None;
      var q := if key.Some? then p + 1 else p;
      match ReadTables(ls[q..])
      case None => None
      case Some(rest) => Some([Entry(ls[1].addr, pin, key)] + rest)
  }

  /** What is on disk: nothing, text that is not a store, or tables. */
  datatype File = Missing | Garbled | Toml(tables: seq<Entry>)

  /** Text that ends inside a line, is empty, or has an unfinished table is not a store. */
  function Reading(ls: seq<Line>, broken: bool): File {
    if broken || ls == [] then Garbled
    else if ls == [EmptyList] then Toml([])
    else match ReadTables(ls) case Some(tables) => Toml(tables) case None => Garbled
  }

  /** A load sees the file, or fails to read it. Both failures count as an empty store. */
  function Load(file: File, readable: bool): seq<Entry> {
    if readable && file.Toml? then ParseStore(file.tables) else []
  }

  /** Where a rewrite stopped: after this many whole lines, and perhaps inside the next. */
  datatype Cut = Cut(lines: nat, inside: bool)

  /** How a rewrite of the file ends; only `Durable` reports success. */
  datatype Write = Durable | FailedBefore(created: bool) | Torn(cut: Cut) | FailedAfter

  function Persisted(file: File, es: seq<Entry>, w: Write): File {
    match w
    case Durable => Reading(Rendered(es), false)
    case FailedAfter => Reading(Rendered(es), false)
    case FailedBefore(created) => if file.Missing? && created then Garbled else file
    case Torn(Cut(n, inside)) =>
      if n >= |Rendered(es)| then Reading(Rendered(es), false) else Reading(Rendered(es)[..n], inside)
  }

  // ---- Reading back what was written -----------------------------------------------

  lemma ReadEntry(e: Entry, rest: seq<Line>)
    requires rest == [] || rest[0].Header?
    ensures ReadTables(EntryLines(e) + rest) ==
            match ReadTables(rest) { case None => None case Some(tables) => Some([e] + tables) }
  {
    var n := |EntryLines(e)|;
    var ls := EntryLines(e) + rest;
    assert ls[n..] == rest;
    assert e == Entry(e.addr, e.pubkey, e.unlockKey);
  }

  lemma LinesStartWithHeader(es: seq<Entry>)
    ensures Lines(es) == [] || Lines(es)[0].Header?
    ensures es != [] ==> Lines(es) != [] && |Lines(es)| >= 2
  {}

  lemma {:induction false} LinesReadBack(es: seq<Entry>)
    ensures ReadTables(Lines(es)) == Some(es)
  {
    if es != [] {
      LinesReadBack(es[1..]);
      LinesStartWithHeader(es[1..]);
      ReadEntry(es[0], Lines(es[1..]));
      assert es == [es[0]] + es[1..];
    }
  }

  /** The whole text reads back as the store that was written. */
  lemma WholeTextReadsBack(es: seq<Entry>)
    ensures Reading(Rendered(es), false) == Toml(es)
  {
    LinesReadBack(es);
    LinesStartWithHeader(es);
  }

  /** The entry that the first `n` lines of its table spell, address line included. */
  function Leading(e: Entry, n: nat): Entry {
    Entry(e.addr, if n >= 3 then e.pubkey else None, if n >= |EntryLines(e)| then e.unlockKey else None)
  }

  /** What a reader makes of the first `n` lines of a store. */
  function Prefix(es: seq<Entry>, n: nat): Option<seq<Entry>>
    requires n <= |Lines(es)|
  {
    if n == 0 then Some([])
    else if n == 1 then None
    else
      var m := |EntryLines(es[0])|;
      if n < m then Some([Leading(es[0], n)])
      else match Prefix(es[1..], n - m)
        case None => None
        case Some(tables) => Some([es[0]] + tables)
  }

  lemma ReadLeading(e: Entry, n: nat)
    requires 2 <= n < |EntryLines(e)|
    ensures ReadTables(EntryLines(e)[..n]) == Some([Leading(e, n)])
  {
    var ls := EntryLines(e)[..n];
    if n == 3 {
      ReadEntry(Leading(e, 3), []);
      assert ls == EntryLines(Leading(e, 3)) + [];
    } else {
      ReadEntry(Leading(e, 2), []);
      assert ls == EntryLines(Leading(e, 2)) + [];
    }
    assert [Leading(e, n)] + [] == [Leading(e, n)];
  }

  lemma {:induction false} PrefixReads(es: seq<Entry>, n: nat)
    requires n <= |Lines(es)|
    ensures ReadTables(Lines(es)[..n]) == Prefix(es, n)
  {
    var ls := Lines(es)[..n];
    if n >= 2 {
      var m, rest := |EntryLines(es[0])|, Lines(es[1..]);
      if n < m {
        assert ls == EntryLines(es[0])[..n];
        ReadLeading(es[0], n);
      } else {
        assert ls == EntryLines(es[0]) + rest[..n - m];
        LinesStartWithHeader(es[1..]);
        PrefixReads(es[1..], n - m);
        ReadEntry(es[0], rest[..n - m]);
      }
    }
  }

  /** The line at which entry `i` starts, and the one after its field. */
  function Start(es: seq<Entry>, i: nat): nat
    requires i <= |es|
  {
    if i == 0 then 0 else |EntryLines(es[0])| + Start(es[1..], i - 1)
  }

  function EndOf(es: seq<Entry>, i: nat, slot: Slot): nat
    requires i < |es|
  {
    Start(es, i) + if slot.PinSlot? then 3 else |EntryLines(es[i])|
  }

  /** The cut falls between a header line and the end of its address line. */
  predicate AfterHeader(es: seq<Entry>, n: nat) { exists j :: 0 <= j < |es| && n == Start(es, j) + 1 }

  lemma AfterHeaderTail(es: seq<Entry>, n: nat)
    requires es != [] && n >= |EntryLines(es[0])|
    ensures AfterHeader(es, n) <==> AfterHeader(es[1..], n - |EntryLines(es[0])|)
  {
    var m := |EntryLines(es[0])|;
    if AfterHeader(es, n) {
      var j :| 0 <= j < |es| && n == Start(es, j) + 1;
      assert j > 0 && n - m == Start(es[1..], j - 1) + 1;
    }
    if AfterHeader(es[1..], n - m) {
      var j :| 0 <= j < |es[1..]| && n - m == Start(es[1..], j) + 1;
      assert n == Start(es, j + 1) + 1;
    }
  }

  lemma AfterFirstHeader(es: seq<Entry>, n: nat)
    requires es != [] && n < |EntryLines(es[0])|
    ensures AfterHeader(es, n) <==> n == 1
  {
    assert Start(es, 0) == 0;
    if AfterHeader(es, n) {
      var j :| 0 <= j < |es| && n == Start(es, j) + 1;
      assert j == 0;
    }
  }

  /** The text so far fails to read exactly when it stops right after a header. */
  lemma {:induction false} PrefixFailsExactly(es: seq<Entry>, n: nat)
    requires n <= |Lines(es)|
    ensures Prefix(es, n).None? <==> AfterHeader(es, n)
  {
    if es == [] {
      assert !AfterHeader(es, n);
    } else if n < |EntryLines(es[0])| {
      AfterFirstHeader(es, n);
    } else {
      PrefixFailsExactly(es[1..], n - |EntryLines(es[0])|);
      AfterHeaderTail(es, n);
    }
  }

  /** Otherwise a field is there exactly when the text goes past its line. */
  lemma {:induction false} PrefixValue(es: seq<Entry>, n: nat, slot: Slot, addr: Addr)
    requires n <= |Lines(es)| && Prefix(es, n).Some?
    ensures ValueOf(Prefix(es, n).value, slot, addr) == Visible(es, n, slot, addr)
  {
    if n >= 2 {
      var m := |EntryLines(es[0])|;
      if n >= m {
        PrefixValue(es[1..], n - m, slot, addr);
        VisibleTail(es, Prefix(es[1..], n - m).value, n, slot, addr);
      } else {
        LeadingValue(es, n, slot, addr);
      }
    }
  }

  /** The field as the first `n` lines show it. */
  function Visible(es: seq<Entry>, n: nat, slot: Slot, addr: Addr): Decoded {
    var i := IndexOf(es, addr);
    if i < |es| && n >= EndOf(es, i, slot) then ValueOf(es, slot, addr) else Good(None)
  }

  lemma VisibleTail(es: seq<Entry>, tables: seq<Entry>, n: nat, slot: Slot, addr: Addr)
    requires es != [] && n >= |EntryLines(es[0])|
    requires ValueOf(tables, slot, addr) == Visible(es[1..], n - |EntryLines(es[0])|, slot, addr)
    ensures ValueOf([es[0]] + tables, slot, addr) == Visible(es, n, slot, addr)
  {
    assert es == [es[0]] + es[1..];
    FirstOfCons(es[0], es[1..], addr);
    FirstOfCons(es[0], tables, addr);
    EndOfTail(es, addr, slot);
  }

  /** The end of a field, counted from the second entry on. */
  lemma EndOfTail(es: seq<Entry>, addr: Addr, slot: Slot)
    requires es != []
    ensures var i := IndexOf(es, addr);
            && (es[0].addr == addr ==> i == 0 && EndOf(es, i, slot) <= |EntryLines(es[0])| + 1)
            && (es[0].addr == addr && Field(es[0], slot).Some? ==> EndOf(es, i, slot) <= |EntryLines(es[0])|)
            && (es[0].addr != addr && i < |es| ==>
                  EndOf(es, i, slot) == |EntryLines(es[0])| + EndOf(es[1..], i - 1, slot))
  {}

  lemma LeadingValue(es: seq<Entry>, n: nat, slot: Slot, addr: Addr)
    requires es != [] && 2 <= n < |EntryLines(es[0])|
    ensures ValueOf([Leading(es[0], n)], slot, addr) == Visible(es, n, slot, addr)
  {
    var one := Leading(es[0], n);
    FirstOfCons(one, [], addr);
    assert [one] + [] == [one];
    EndOfTail(es, addr, slot);
  }

  lemma FirstOfCons(e: Entry, es: seq<Entry>, addr: Addr)
    ensures FirstEntry([e] + es, addr) == if e.addr == addr then Some(e) else FirstEntry(es, addr)
    ensures IndexOf([e] + es, addr) == if e.addr == addr then 0 else 1 + IndexOf(es, addr)
  {
    assert ([e] + es)[1..] == es;
  }

  lemma {:induction false} PrefixIsClean(es: seq<Entry>, n: nat)
    requires n <= |Lines(es)| && Prefix(es, n).Some? && Clean(es)
    ensures Clean(Prefix(es, n).value)
  {
    if n >= 2 {
      assert CleanEntry(es[0]);
      var m := |EntryLines(es[0])|;
      if n >= m { PrefixIsClean(es[1..], n - m); }
    }
  }

  // ---- What a rewrite leaves -------------------------------------------------------

  /** A rewrite that reached the disk whole reloads as the store in memory. */
  lemma ReloadIsIdentity(file: File, es: seq<Entry>, w: Write)
    requires Clean(es) && (w.Durable? || w.FailedAfter?)
    ensures Load(Persisted(file, es, w), true) == es
  {
    WholeTextReadsBack(es);
    CleanRoundTrips(es);
  }

  /** A rewrite that failed before truncation reloads as the old store. */
  lemma FailedBeforeKeeps(file: File, es: seq<Entry>, created: bool)
    ensures Load(Persisted(file, es, FailedBefore(created)), true) == Load(file, true)
  {}

  /**
   * The cut lies past the field's line, not inside a later line, and not between a
   * later header and the end of its address line.
   */
  predicate CutSpares(es: seq<Entry>, cut: Cut, slot: Slot, addr: Addr) {
    || cut.lines >= |Rendered(es)|
    || (&& !cut.inside
        && !AfterHeader(es, cut.lines)
        && IndexOf(es, addr) < |es|
        && cut.lines >= EndOf(es, IndexOf(es, addr), slot))
  }

  /** A torn rewrite leaves a field as written if the cut spares it, and absent otherwise. */
  lemma TornValue(file: File, es: seq<Entry>, cut: Cut, slot: Slot, addr: Addr)
    requires Clean(es)
    ensures ValueOf(Load(Persisted(file, es, Torn(cut)), true), slot, addr) ==
            if CutSpares(es, cut, slot, addr) then ValueOf(es, slot, addr) else Good(None)
  {
    if cut.lines >= |Rendered(es)| {
      WholeTextReadsBack(es);
      CleanRoundTrips(es);
    } else if !cut.inside && es != [] {
      CutValue(es, cut.lines, slot, addr);
    }
  }

  lemma CutValue(es: seq<Entry>, n: nat, slot: Slot, addr: Addr)
    requires Clean(es) && es != [] && n < |Lines(es)|
    ensures ValueOf(Load(Reading(Lines(es)[..n], false), true), slot, addr) ==
            if AfterHeader(es, n) then Good(None) else Visible(es, n, slot, addr)
  {
    CutReads(es, n);
    PrefixFailsExactly(es, n);
    if Prefix(es, n).Some? { PrefixValue(es, n, slot, addr); }
  }

  /** A text cut between lines loads as what its lines spell, or as nothing. */
  lemma CutReads(es: seq<Entry>, n: nat)
    requires Clean(es) && es != [] && n <= |Lines(es)|
    ensures Load(Reading(Lines(es)[..n], false), true) ==
            match Prefix(es, n) { case Some(tables) => tables case None => [] }
  {
    PrefixReads(es, n);
    CutTextIsNoList(es, n);
    if Prefix(es, n).Some? {
      PrefixIsClean(es, n);
      CleanRoundTrips(Prefix(es, n).value);
    }
  }

  lemma CutTextIsNoList(es: seq<Entry>, n: nat)
    requires es != [] && n <= |Lines(es)|
    ensures Lines(es)[..n] != [EmptyList]
  {
    LinesStartWithHeader(es);
    if n > 0 { assert Lines(es)[..n][0].Header?; }
  }

  /** So a recorded value survives a torn rewrite exactly when the cut spares its field. */
  lemma TornKeepsExactly(file: File, es: seq<Entry>, cut: Cut, slot: Slot, addr: Addr, k: Key)
    requires Clean(es) && ValueOf(es, slot, addr) == Good(Some(k))
    ensures ValueOf(Load(Persisted(file, es, Torn(cut)), true), slot, addr) == Good(Some(k))
            <==> CutSpares(es, cut, slot, addr)
  {
    TornValue(file, es, cut, slot, addr);
  }

  /** Stopping right after any table's header empties the reloaded store, earlier entries included. */
  lemma HeaderCutEmptiesTheStore(file: File, es: seq<Entry>, j: nat)
    requires j < |es|
    ensures Load(Persisted(file, es, Torn(Cut(Start(es, j) + 1, false))), true) == []
  {
    var n := Start(es, j) + 1;
    StartIsInside(es, j);
    assert AfterHeader(es, n);
    PrefixReads(es, n);
    PrefixFailsExactly(es, n);
    CutTextIsNoList(es, n);
  }

  /** For one: the third line break is past the first entry, yet its key is gone. */
  lemma HeaderCutLosesEarlierKey(file: File, k: Key)
    ensures var es := [Entry("a", None, Some(EncodeKey(k))), Entry("b", None, Some(EncodeKey(k)))];
            && ValueOf(es, KeySlot, "a") == Good(Some(k))
            && EndOf(es, IndexOf(es, "a"), KeySlot) == 3
            && ValueOf(Load(Persisted(file, es, Torn(Cut(3, false))), true), KeySlot, "a") == Good(Some(k))
            && ValueOf(Load(Persisted(file, es, Torn(Cut(4, false))), true), KeySlot, "a") == Good(None)
  {
    var es := [Entry("a", None, Some(EncodeKey(k))), Entry("b", None, Some(EncodeKey(k)))];
    assert Start(es, 0) == 0 && Start(es, 1) == 3;
    assert es[1..] == [es[1]] && Lines([es[1]]) == EntryLines(es[1]) + Lines([]);
    assert |Lines(es)| == 6;
    HeaderCutEmptiesTheStore(file, es, 1);
    assert !AfterHeader(es, 3);
    TornValue(file, es, Cut(3, false), KeySlot, "a");
  }

  lemma {:induction false} StartIsInside(es: seq<Entry>, j: nat)
    requires j < |es|
    ensures Start(es, j) + 2 <= |Lines(es)|
  {
    if j > 0 { StartIsInside(es[1..], j - 1); }
  }

  /** The file every loaded store persists to. */
  class Disk {
    var file: File

    constructor (f: File) ensures file == f { file := f; }
  }

  class Store {
    var entries: seq<Entry>
    const disk: Disk

    /** `load_from`: missing, unreadable and invalid files all load as empty. */
    constructor (disk: Disk, readable: bool)
      ensures this.disk == disk && entries == Load(disk.file, readable) && Clean(entries)
    {
      this.disk := disk;
      entries := [];
      new;
      if readable && disk.file.Toml? {
        ParsedIsClean(disk.file.tables);
        entries := ParseEntries(disk.file.tables);
      }
    }

    /** Rewrites the whole file; the outcome of the write is the environment's. */
    method Persist(w: Write) returns (ok: bool)
      modifies disk
      ensures disk.file == Persisted(old(disk.file), entries, w)
      ensures ok == w.Durable?
    {
      match w {
        case FailedBefore(created) =>
          if disk.file.Missing? && created { disk.file := Garbled; }
          return false;
        case Torn(_) =>
          disk.file := Persisted(disk.file, entries, w);
          return false;
        case FailedAfter =>
          WholeTextReadsBack(entries);
          disk.file := Toml(entries);
          return false;
        case Durable =>
          WholeTextReadsBack(entries);
          disk.file := Toml(entries);
          return true;
      }
    }

    method Find(addr: Addr) returns (i: nat)
      ensures i == IndexOf(entries, addr)
    {
      i := 0;
      while i < |entries| && entries[i].addr != addr
        invariant i <= |entries| && forall k :: 0 <= k < i ==> entries[k].addr != addr
      {
        i := i + 1;
      }
      IndexIsUnique(entries, addr, i);
    }

    method Lookup(addr: Addr) returns (r: Decoded)
      ensures r == ValueOf(entries, PinSlot, addr)
    {
      var i := Find(addr);
      if i == |entries| { return Good(None); }
      r := DecodeField(entries[i].pubkey);
    }

    method UnlockKey(addr: Addr) returns (r: Decoded)
      ensures r == ValueOf(entries, KeySlot, addr)
    {
      var i := Find(addr);
      if i == |entries| { return Good(None); }
      r := DecodeField(entries[i].unlockKey);
    }

    method SetUnlockKey(addr: Addr, k: Key, w: Write) returns (ok: bool)
      modifies this, disk
      ensures entries == With(old(entries), KeySlot, addr, k) && (old(Clean(entries)) ==> Clean(entries))
      ensures disk.file == Persisted(old(disk.file), entries, w)
      ensures ok == w.Durable?
    {
      if Clean(entries) { SetKeepsClean(entries, KeySlot, addr, k); }
      var i := Find(addr);
      if i < |entries| {
        entries := entries[i := entries[i].(unlockKey := Some(EncodeKey(k)))];
      } else {
        entries := entries + [Entry(addr, None, Some(EncodeKey(k)))];
      }
      ok := Persist(w);
    }

    method Pin(addr: Addr, k: Key, w: Write) returns (ok: bool)
      modifies this, disk
      ensures entries == With(old(entries), PinSlot, addr, k) && (old(Clean(entries)) ==> Clean(entries))
      ensures disk.file == Persisted(old(disk.file), entries, w)
      ensures ok == w.Durable?
    {
      if Clean(entries) { SetKeepsClean(entries, PinSlot, addr, k); }
      var i := Find(addr);
      if i < |entries| {
        entries := entries[i := entries[i].(pubkey := Some(EncodeKey(k)))];
      } else {
        entries := entries + [Entry(addr, Some(EncodeKey(k)), None)];
      }
      ok := Persist(w);
    }

    /** Persists only when something was removed. */
    method Remove(addr: Addr, w: Write) returns (ok: bool, removed: bool)
      modifies this, disk
      ensures entries == Without(old(entries), addr) && (old(Clean(entries)) ==> Clean(entries))
      ensures removed ==> old(IndexOf(entries, addr) < |entries|) && ok
      ensures old(IndexOf(entries, addr) < |entries|) ==>
                disk.file == Persisted(old(disk.file), entries, w) && ok == removed == w.Durable?
      ensures old(IndexOf(entries, addr) == |entries|) ==> disk.file == old(disk.file) && ok && !removed
    {
      var before := entries;
      var kept: seq<Entry> := [];
      for i := 0 to |before|
        invariant kept == Without(before[..i], addr) && entries == before && disk.file == old(disk.file)
      {
        assert before[..i + 1][..i] == before[..i];
        if before[i].addr != addr { kept := kept + [before[i]]; }
      }
      assert before[..|before|] == before;
      RemoveShortens(before, addr);
      if Clean(before) { RemoveKeepsClean(before, addr); }
      entries := kept;
      if |kept| == |before| {
        WithoutAbsent(before, addr);
        return true, false;
      }
      ok := Persist(w);
      removed := ok;
    }
  }

  lemma {:induction false} WithoutAbsent(es: seq<Entry>, addr: Addr)
    requires IndexOf(es, addr) == |es|
    ensures Without(es, addr) == es
  {
    if es != [] {
      var init := es[..|es| - 1];
      IndexIsUnique(init, addr, |init|);
      WithoutAbsent(init, addr);
    }
  }
}
