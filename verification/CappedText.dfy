/**
 * The capped accumulator of a streaming tool result (`push_capped` in
 * choreo-client-core/src/history.rs). The cap and the marker are parameters; the
 * repository's own are `MAX_TOOL_OUTPUT_BYTES` and `TRUNCATION_SUFFIX`.
 */
module CappedText {
  import opened Utf8
  import opened Arithmetic
  import opened Sequences

  const MAX_TOOL_OUTPUT_BYTES: nat := 128 * 1024

  /** A line break and "...[truncated]". */
  const TRUNCATION_SUFFIX: Text :=
    [0x0A, 0x2E, 0x2E, 0x2E, 0x5B, 0x74, 0x72, 0x75, 0x6E, 0x63, 0x61, 0x74, 0x65, 0x64, 0x5D]

  function PushCapped(content: Text, data: Text, cap: nat, marker: Text): Text {
    if |content| >= cap then
      if |content| == cap && data != [] then content + marker else content
    else if |data| <= cap - |content| then content + data
    else content + data[..FloorBoundary(data, cap - |content|)] + marker
  }

  /** The same steps on a buffer that is appended to. */
  method AppendCapped(buffer: Text, data: Text, cap: nat, marker: Text) returns (content: Text)
    ensures content == PushCapped(buffer, data, cap, marker)
  {
    content := buffer;
    if |content| >= cap {
      if |content| == cap && data != [] {
        content := content + marker;
      }
      return;
    }
    var remaining := cap - |content|;
    if |data| <= remaining {
      content := content + data;
    } else {
      var cut := FloorBoundary(data, remaining);
      content := content + data[..cut];
      content := content + marker;
    }
  }

  /** One-shot truncation: the longest whole-character prefix within the cap, then the marker. */
  function Truncate(text: Text, cap: nat, marker: Text): Text {
    if |text| <= cap then text else text[..FloorBoundary(text, cap)] + marker
  }

  function Flatten(chunks: seq<Text>): Text {
    if chunks == [] then [] else Flatten(chunks[..|chunks| - 1]) + chunks[|chunks| - 1]
  }

  predicate AllValid(chunks: seq<Text>) { forall d <- chunks :: Valid(d) }

  /** Feeds the chunks in order, starting from `content`. */
  function PushAll(content: Text, chunks: seq<Text>, cap: nat, marker: Text): Text {
    if chunks == [] then content
    else PushCapped(PushAll(content, chunks[..|chunks| - 1], cap, marker), chunks[|chunks| - 1], cap, marker)
  }

  /** After any cut the marker takes the content past the cap, or there is nothing to cut. */
  predicate MarkerSuffices(cap: nat, marker: Text) { cap == 0 || |marker| > Min(3, cap) }

  /** One chunk keeps the accumulator equal to the truncation of all text so far. */
  lemma PushKeepsTruncation(text: Text, data: Text, cap: nat, marker: Text)
    requires Valid(text) && Valid(data) && MarkerSuffices(cap, marker)
    ensures PushCapped(Truncate(text, cap, marker), data, cap, marker) == Truncate(text + data, cap, marker)
  {
    if |text| <= cap {
      PushWithinCap(text, data, cap, marker);
    } else {
      PushPastCap(text, data, cap, marker);
    }
  }

  lemma PushWithinCap(text: Text, data: Text, cap: nat, marker: Text)
    requires Valid(data) && |text| <= cap
    ensures PushCapped(text, data, cap, marker) == Truncate(text + data, cap, marker)
  {
    if |text + data| > cap {
      CutInData(text, data, cap);
      if |text| == cap { assert text + data[..0] == text; }
    } else if |text| == cap {
      assert text + data == text;
    }
  }

  /** A cut past the old text is a cut of the new data. */
  lemma CutInData(text: Text, data: Text, cap: nat)
    requires Valid(data) && |text| <= cap < |text + data|
    ensures var f := FloorBoundary(data, cap - |text|);
            (text + data)[..FloorBoundary(text + data, cap)] == text + data[..f] && (|text| == cap ==> f == 0)
  {
    FloorInSuffix(text, data, cap);
  }

  lemma PushPastCap(text: Text, data: Text, cap: nat, marker: Text)
    requires Valid(text) && MarkerSuffices(cap, marker) && |text| > cap
    ensures PushCapped(Truncate(text, cap, marker), data, cap, marker) == Truncate(text + data, cap, marker)
  {
    var f := FloorBoundary(text, cap);
    FloorIsNear(text, cap);
    FloorInPrefix(text, data, cap);
    assert (text + data)[..f] == text[..f];
  }

  lemma {:induction false} FlattenIsValid(chunks: seq<Text>)
    requires AllValid(chunks)
    ensures Valid(Flatten(chunks))
  {
    if chunks != [] {
      FlattenIsValid(chunks[..|chunks| - 1]);
      ValidConcat(Flatten(chunks[..|chunks| - 1]), chunks[|chunks| - 1]);
    }
  }

  /**
   * For every text and every way of cutting it into chunks, streaming it through
   * the accumulator is one-shot truncation of the whole text.
   */
  lemma {:induction false} StreamingIsTruncation(chunks: seq<Text>, cap: nat, marker: Text)
    requires AllValid(chunks) && MarkerSuffices(cap, marker)
    ensures PushAll([], chunks, cap, marker) == Truncate(Flatten(chunks), cap, marker)
  {
    if chunks != [] {
      var init := chunks[..|chunks| - 1];
      StreamingIsTruncation(init, cap, marker);
      FlattenIsValid(init);
      PushKeepsTruncation(Flatten(init), chunks[|chunks| - 1], cap, marker);
    }
  }

  /** So two chunkings of one text never read differently. */
  lemma ChunkingDoesNotShow(a: seq<Text>, b: seq<Text>)
    requires AllValid(a) && AllValid(b) && Flatten(a) == Flatten(b)
    ensures PushAll([], a, MAX_TOOL_OUTPUT_BYTES, TRUNCATION_SUFFIX)
            == PushAll([], b, MAX_TOOL_OUTPUT_BYTES, TRUNCATION_SUFFIX)
    ensures |PushAll([], a, MAX_TOOL_OUTPUT_BYTES, TRUNCATION_SUFFIX)| <= MAX_TOOL_OUTPUT_BYTES + 15
    ensures Valid(PushAll([], a, MAX_TOOL_OUTPUT_BYTES, TRUNCATION_SUFFIX))
  {
    assert |TRUNCATION_SUFFIX| == 15;
    SameTextSameStream(a, b, MAX_TOOL_OUTPUT_BYTES, TRUNCATION_SUFFIX);
  }

  lemma SameTextSameStream(a: seq<Text>, b: seq<Text>, cap: nat, marker: Text)
    requires AllValid(a) && AllValid(b) && Flatten(a) == Flatten(b)
    requires MarkerSuffices(cap, marker) && forall i :: 0 <= i < |marker| ==> marker[i] <= 0x7F
    ensures PushAll([], a, cap, marker) == PushAll([], b, cap, marker)
    ensures |PushAll([], a, cap, marker)| <= cap + |marker| && Valid(PushAll([], a, cap, marker))
  {
    StreamingIsTruncation(a, cap, marker);
    StreamingIsTruncation(b, cap, marker);
    FlattenIsValid(a);
    TruncationIsTidy(Flatten(a), cap, marker);
  }

  /** A truncated text is bounded and never splits a character. */
  lemma TruncationIsTidy(text: Text, cap: nat, marker: Text)
    requires Valid(text) && forall i :: 0 <= i < |marker| ==> marker[i] <= 0x7F
    ensures |Truncate(text, cap, marker)| <= cap + |marker| && Valid(Truncate(text, cap, marker))
  {
    if |text| > cap {
      var f := FloorBoundary(text, cap);
      CutIsValid(text, f);
      AsciiIsValid(marker);
      ValidConcat(text[..f], marker);
    }
  }

  lemma {:induction false} AsciiIsValid(s: Text)
    requires forall i :: 0 <= i < |s| ==> s[i] <= 0x7F
    ensures Valid(s)
  {
    if s != [] { AsciiIsValid(s[1..]); }
  }

  /** Cutting valid text at a boundary never splits a character. */
  lemma {:induction false} CutIsValid(s: Text, i: nat)
    requires Valid(s) && i <= |s| && IsBoundary(s, i)
    ensures Valid(s[..i])
    decreases |s|
  {
    if i > 0 {
      var n := CharLength(s);
      assert n <= i;
      if i < |s| && i > n { assert s[n..][i - n] == s[i]; }
      CutIsValid(s[n..], i - n);
      assert s[..i][n..] == s[n..][..i - n];
      assert CharLength(s[..i]) == n;
    }
  }

  /** A marker that does not suffice fails: some two chunks stream differently from their truncation. */
  lemma ShortMarkerFails(cap: nat, marker: Text) returns (chunks: seq<Text>)
    requires !MarkerSuffices(cap, marker)
    ensures AllValid(chunks) && PushAll([], chunks, cap, marker) != Truncate(Flatten(chunks), cap, marker)
  {
    var k := if |marker| == 0 then 1 else |marker|;
    var plain, b: Text := Repeat(0x61, cap - k), [0x61];
    var a := plain + [0xF0, 0x9F, 0x98, 0x80];
    OverCut(plain, k, cap);
    AsciiIsValid(b);
    SecondChunkShows(plain, a, b, cap, marker);
    chunks := [a, b];
  }

  ghost predicate Agrees(chunks: seq<Text>, cap: nat, marker: Text) {
    PushAll([], chunks, cap, marker) == Truncate(Flatten(chunks), cap, marker)
  }

  /**
   * Exactly which markers will do, for every cap: streaming agrees with one-shot
   * truncation on all chunkings of all texts if and only if the cap is zero or the
   * marker is longer than the part of a character a cut can drop.
   */
  lemma MarkerSufficesExactly(cap: nat, marker: Text)
    ensures (forall chunks :: AllValid(chunks) ==> Agrees(chunks, cap, marker)) <==> MarkerSuffices(cap, marker)
  {
    if MarkerSuffices(cap, marker) {
      forall chunks | AllValid(chunks) ensures Agrees(chunks, cap, marker) {
        StreamingIsTruncation(chunks, cap, marker);
      }
    } else {
      var chunks := ShortMarkerFails(cap, marker);
      assert !Agrees(chunks, cap, marker);
    }
  }

  /** After a cut that leaves room for the marker within the cap, more text is still appended. */
  lemma SecondChunkShows(plain: Text, a: Text, b: Text, cap: nat, marker: Text)
    requires |a| > cap && FloorBoundary(a, cap) == |plain| < cap && a[..|plain|] == plain
    requires |plain| + |marker| <= cap && |b| == 1
    ensures PushAll([], [a, b], cap, marker) != Truncate(Flatten([a, b]), cap, marker)
  {
    PushTwo(a, b, cap, marker);
    assert Truncate(a + b, cap, marker) == plain + marker by {
      FloorInPrefix(a, b, cap);
      assert (a + b)[..|plain|] == plain;
    }
    assert PushCapped([], a, cap, marker) == plain + marker by { assert [] + plain == plain; }
    PushGrows(plain + marker, b, cap, marker);
  }

  lemma PushGrows(content: Text, b: Text, cap: nat, marker: Text)
    requires |content| <= cap && |b| == 1 && (|content| < cap || |marker| > 0)
    ensures |PushCapped(content, b, cap, marker)| > |content|
  {}

  /** A four-byte character that straddles the cap is dropped whole. */
  lemma OverCut(plain: Text, k: nat, cap: nat)
    requires 1 <= k <= 3 && |plain| + k == cap
    requires forall i :: 0 <= i < |plain| ==> plain[i] <= 0x7F
    ensures var a := plain + [0xF0, 0x9F, 0x98, 0x80];
            Valid(a) && FloorBoundary(a, cap) == |plain| && a[..|plain|] == plain
  {
    var wide: Text := [0xF0, 0x9F, 0x98, 0x80];
    AsciiIsValid(plain);
    assert Valid(wide) by { assert CharLength(wide) == 4 && wide[4..] == []; }
    ValidConcat(plain, wide);
    FloorIsUnique(wide, k, 0);
    FloorInSuffix(plain, wide, cap);
  }

  lemma PushTwo(a: Text, b: Text, cap: nat, marker: Text)
    ensures PushAll([], [a, b], cap, marker) == PushCapped(PushCapped([], a, cap, marker), b, cap, marker)
    ensures Flatten([a, b]) == a + b
  {
    assert [a, b][..1] == [a] && [a][..0] == [];
    assert PushAll([], [a], cap, marker) == PushCapped(PushAll([], [], cap, marker), a, cap, marker);
    assert Flatten([a]) == Flatten([]) + a == a;
  }
}
