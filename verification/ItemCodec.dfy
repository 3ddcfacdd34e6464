/**
 * Encoding and decoding whole content items (choreo-content/src/encode.rs): digest
 * and CID conversion, the mixin set of an item, and reading one back.
 */
module ItemCodec {
  import opened Options
  import opened Utf8
  import opened Arithmetic
  import opened Wire
  import opened Numerals
  import opened Item

  // ---- Digests and CIDs ------------------------------------------------------------

  const MULTIHASH_HEADER: Text := [0x12, 0x20]

  function Multihash(digest: Text): Text { MULTIHASH_HEADER + digest }

  function BytesToHex(bytes: Text): Text { HEX_PREFIX + HexEncode(bytes) }

  function HexToBytes(s: Text): (r: Option<Text>)
    ensures r.Some? ==> |r.value| == 32
  {
    match HexDecode(TrimHexPrefix(s))
    case Some(bytes) => if |bytes| == 32 then Some(bytes) else None
    case None => None
  }

  function MultihashOfHex(s: Text): Option<Text> {
    match HexToBytes(s) case Some(d) => Some(Multihash(d)) case None => None
  }

  function CidToDigestHex(cid: Text): Option<Text> {
    match Base58Decode(cid)
    case None => None
    case Some(mh) =>
      if |mh| != 34 || mh[0] != 0x12 || mh[1] != 0x20 then None else Some(HEX_PREFIX + HexEncode(mh[2..]))
  }

  function CidToDigest(cid: Text): (r: Option<Text>)
    ensures r.Some? ==> |r.value| == 32
  {
    match CidToDigestHex(cid) case Some(hex) => HexToBytes(hex) case None => None
  }

  function CidToMultihash(cid: Text): (r: Option<Text>)
    ensures r.Some? ==> |r.value| == 34
  {
    match CidToDigest(cid) case Some(d) => Some(Multihash(d)) case None => None
  }

  function BytesToCid(digest: Text): Text { Base58Encode(Multihash(digest)) }

  /** Strips the multihash header when it is there; a bare digest passes unchanged. */
  function DigestFromBytes(bytes: Text): Text {
    if |bytes| == 34 && bytes[0] == 0x12 && bytes[1] == 0x20 then bytes[2..] else bytes
  }

  lemma HexFormReadsBack(digest: Text)
    requires |digest| == 32
    ensures HexToBytes(BytesToHex(digest)) == Some(digest)
  {
    TrimOnce(digest);
    HexRoundTrip(digest);
  }

  lemma HeaderStrips(digest: Text)
    requires |digest| == 32
    ensures DigestFromBytes(Multihash(digest)) == digest
  {
    assert Multihash(digest)[2..] == digest;
  }

  /** A CID the encoder accepts comes back from its stored bytes letter for letter. */
  lemma CidRoundTrip(cid: Text)
    requires CidToMultihash(cid).Some?
    ensures BytesToCid(DigestFromBytes(CidToMultihash(cid).value)) == cid
  {
    var mh := Base58Decode(cid).value;
    var d := mh[2..];
    HexFormReadsBack(d);
    HeaderStrips(d);
    assert Multihash(d) == mh;
    Base58TextRoundTrip(cid);
  }

  lemma DigestToCidReadsBack(d: Text)
    requires |d| == 32
    ensures CidToMultihash(BytesToCid(d)) == Some(Multihash(d))
  {
    Base58RoundTrip(Multihash(d));
    assert Multihash(d)[2..] == d;
    HexFormReadsBack(d);
  }

  /** The CIDs accepted are exactly the Base58 forms of 32-byte sha2-256 digests. */
  lemma AcceptedCidsAreCanonical(cid: Text)
    ensures CidToMultihash(cid).Some? <==> exists d: Text :: |d| == 32 && cid == BytesToCid(d)
  {
    if CidToMultihash(cid).Some? {
      CidRoundTrip(cid);
      var d := CidToDigest(cid).value;
      HeaderStrips(d);
      assert cid == BytesToCid(d);
    }
    if exists d: Text :: |d| == 32 && cid == BytesToCid(d) {
      var d: Text :| |d| == 32 && cid == BytesToCid(d);
      DigestToCidReadsBack(d);
    }
  }

  // ---- Images ----------------------------------------------------------------------

  function ToLevels(ls: seq<Level>): (r: Option<seq<LevelMessage>>)
    ensures r.Some? ==> |r.value| == |ls|
  {
    if ls == [] then Some([])
    else match (ToLevels(ls[..|ls| - 1]), CidToMultihash(ls[|ls| - 1].cid))
      case (Some(init), Some(hash)) => Some(init + [LevelMessage(ls[|ls| - 1].filesize, hash)])
      case _ => None
  }

  function ToMessage(i: Image): Option<ImageMessage> {
    match (ToLevels(i.levels), MultihashOfHex(i.digestHex))
    case (Some(levels), Some(hash)) => Some(ImageMessage(i.filename, i.filesize, hash, i.width, i.height, levels))
    case _ => None
  }

  function FromLevel(l: LevelMessage): Level { Level(l.filesize, BytesToCid(DigestFromBytes(l.hash))) }

  function FromMessage(m: ImageMessage): Image {
    Image(m.filename, m.filesize, BytesToHex(DigestFromBytes(m.hash)), m.width, m.height,
          seq(|m.levels|, i requires 0 <= i < |m.levels| => FromLevel(m.levels[i])))
  }

  function CanonicalImage(i: Image): Image {
    match HexToBytes(i.digestHex) case Some(d) => i.(digestHex := BytesToHex(d)) case None => i
  }

  lemma {:induction false} LevelsAreRight(ls: seq<Level>, i: nat)
    requires ToLevels(ls).Some? && i < |ls|
    ensures CidToMultihash(ls[i].cid).Some?
    ensures ToLevels(ls).value[i] == LevelMessage(ls[i].filesize, CidToMultihash(ls[i].cid).value)
  {
    if i < |ls| - 1 { LevelsAreRight(ls[..|ls| - 1], i); }
  }

  lemma {:induction false} LevelsFailExactly(ls: seq<Level>)
    ensures ToLevels(ls).None? <==> exists i :: 0 <= i < |ls| && CidToMultihash(ls[i].cid).None?
  {
    if ls != [] {
      var init := ls[..|ls| - 1];
      LevelsFailExactly(init);
      if ToLevels(init).None? {
        var i :| 0 <= i < |init| && CidToMultihash(init[i].cid).None?;
        assert CidToMultihash(ls[i].cid).None?;
      }
      if exists i :: 0 <= i < |ls| && CidToMultihash(ls[i].cid).None? {
        var i :| 0 <= i < |ls| && CidToMultihash(ls[i].cid).None?;
        if i < |init| { assert CidToMultihash(init[i].cid).None?; }
      }
    }
  }

  /** An encoded image reads back with its digest in canonical hex and its CIDs unchanged. */
  lemma ImageConverts(i: Image)
    requires ToMessage(i).Some?
    ensures FromMessage(ToMessage(i).value) == CanonicalImage(i)
  {
    var m := ToMessage(i).value;
    HeaderStrips(HexToBytes(i.digestHex).value);
    var back := FromMessage(m).levels;
    forall k | 0 <= k < |i.levels| ensures back[k] == i.levels[k] {
      LevelsAreRight(i.levels, k);
      CidRoundTrip(i.levels[k].cid);
    }
    assert back == i.levels;
  }

  // ---- Items -----------------------------------------------------------------------

  function MarkerOf(t: ContentType): seq<Mixin> {
    match t
    case Feed => [Mixin(FEED_MARKER, [])]
    case Comment => [Mixin(COMMENT_MARKER, [])]
    case _ => []
  }

  function TextPayload(t: Text): Text { EncodeFields(BytesFields(1, t)) }

  function Language(c: Content): Text { if c.language.Some? then c.language.value else DEFAULT_LANGUAGE }

  function TextPart(id: nat, t: Option<Text>): seq<Mixin> {
    if t.Some? then [Mixin(id, TextPayload(t.value))] else []
  }

  function ImagePart(i: Option<Image>): seq<Mixin> {
    if i.Some? && ToMessage(i.value).Some?
    then [Mixin(IMAGE_MIXIN, EncodeFields(ImageFields(ToMessage(i.value).value)))] else []
  }

  function ProfilePart(p: Option<Profile>): seq<Mixin>
    requires p.Some? ==> IsI32(p.value.accountType)
  {
    if p.Some? then [Mixin(PROFILE_MIXIN, EncodeFields(ProfileFields(p.value)))] else []
  }

  /** What the Rust integer and string types guarantee of an item. */
  predicate IsContent(c: Content) {
    && (c.title.Some? ==> Valid(c.title.value))
    && (c.body.Some? ==> Valid(c.body.value))
    && (c.language.Some? ==> Valid(c.language.value))
    && (c.profile.Some? ==> IsProfile(c.profile.value))
    && (c.image.Some? ==> IsImageSpec(c.image.value))
  }

  predicate IsImageSpec(i: Image) {
    && Valid(i.filename) && i.filesize < U64 && i.width < U32 && i.height < U32
    && forall k :: 0 <= k < |i.levels| ==> i.levels[k].filesize < U64
  }

  predicate BadImage(c: Content) { c.image.Some? && ToMessage(c.image.value).None? }

  /** The mixins of an item, in order; none when its image reference is malformed. */
  function MixinsOf(c: Content): Option<seq<Mixin>>
    requires IsContent(c)
  {
    if BadImage(c) then None
    else Some(MarkerOf(c.contentType)
              + [Mixin(LANGUAGE_MIXIN, TextPayload(Language(c)))]
              + TextPart(TITLE_MIXIN, c.title)
              + TextPart(BODY_MIXIN, c.body)
              + ImagePart(c.image)
              + ProfilePart(c.profile))
  }

  function EncodeItem(c: Content): Option<Text>
    requires IsContent(c)
  {
    match MixinsOf(c) case Some(ms) => Some(EncodeMixins(ms)) case None => None
  }

  /** `encode_item`: pushes one mixin after another, giving up on a malformed image. */
  method EncodeItemBytes(c: Content) returns (r: Option<Text>)
    requires IsContent(c)
    ensures r == EncodeItem(c)
  {
    var mixins: seq<Mixin> := [];
    match c.contentType {
      case Feed => mixins := mixins + [Mixin(FEED_MARKER, [])];
      case Comment => mixins := mixins + [Mixin(COMMENT_MARKER, [])];
      case _ =>
    }
    assert mixins == MarkerOf(c.contentType);
    mixins := mixins + [Mixin(LANGUAGE_MIXIN, TextPayload(Language(c)))];
    ghost var typed := mixins;
    if c.title.Some? { mixins := mixins + [Mixin(TITLE_MIXIN, TextPayload(c.title.value))]; }
    assert mixins == typed + TextPart(TITLE_MIXIN, c.title);
    ghost var titled := mixins;
    if c.body.Some? { mixins := mixins + [Mixin(BODY_MIXIN, TextPayload(c.body.value))]; }
    assert mixins == titled + TextPart(BODY_MIXIN, c.body);
    ghost var texts := mixins;
    if c.image.Some? {
      var message := EncodeImage(c.image.value);
      if message.None? { return None; }
      mixins := mixins + [Mixin(IMAGE_MIXIN, EncodeFields(ImageFields(message.value)))];
    }
    assert mixins == texts + ImagePart(c.image);
    ghost var illustrated := mixins;
    if c.profile.Some? { mixins := mixins + [Mixin(PROFILE_MIXIN, EncodeFields(ProfileFields(c.profile.value)))]; }
    assert mixins == illustrated + ProfilePart(c.profile);
    r := Some(EncodeMixins(mixins));
  }

  method EncodeImage(image: Image) returns (r: Option<ImageMessage>)
    ensures r == ToMessage(image)
  {
    var levels: seq<LevelMessage> := [];
    assert image.levels[..|image.levels|] == image.levels;
    for i := 0 to |image.levels|
      invariant ToLevels(image.levels[..i]) == Some(levels)
    {
      var l := image.levels[i];
      assert image.levels[..i + 1][..i] == image.levels[..i];
      var hash := CidToMultihash(l.cid);
      if hash.None? {
        LevelsFailExactly(image.levels);
        return None;
      }
      levels := levels + [LevelMessage(l.filesize, hash.value)];
    }
    var hash := MultihashOfHex(image.digestHex);
    if hash.None? { return None; }
    r := Some(ImageMessage(image.filename, image.filesize, hash.value, image.width, image.height, levels));
  }

  // ---- Reading an item -------------------------------------------------------------

  /** The first marker or profile mixin, which decides the type. */
  function FirstMarker(ms: seq<Mixin>): Option<ContentType> {
    if ms == [] then None
    else if ms[0].id == FEED_MARKER then Some(Feed)
    else if ms[0].id == COMMENT_MARKER then Some(Comment)
    else if ms[0].id == PROFILE_MIXIN then Some(ProfileType)
    else FirstMarker(ms[1..])
  }

  predicate HasImage(ms: seq<Mixin>) { exists i :: 0 <= i < |ms| && ms[i].id == IMAGE_MIXIN }

  function TypeOf(ms: seq<Mixin>): ContentType {
    match FirstMarker(ms)
    case Some(t) => t
    case None => if HasImage(ms) then ImageType else Document
  }

  method InferContentType(ms: seq<Mixin>) returns (t: ContentType)
    ensures t == TypeOf(ms)
  {
    for i := 0 to |ms|
      invariant FirstMarker(ms) == FirstMarker(ms[i..])
    {
      if ms[i].id == FEED_MARKER { return Feed; }
      if ms[i].id == COMMENT_MARKER { return Comment; }
      if ms[i].id == PROFILE_MIXIN { return ProfileType; }
    }
    t := if exists i :: 0 <= i < |ms| && ms[i].id == IMAGE_MIXIN then ImageType else Document;
  }

  function DecodeImage(payload: Text): Option<Image> {
    match DecodeMessage(MergeImage, EMPTY_IMAGE, payload) case Some(m) => Some(FromMessage(m)) case None => None
  }

  function DecodeText(payload: Text): Option<Text> { DecodeMessage(MergeText, [], payload) }

  function DecodeProfile(payload: Text): Option<Profile> { DecodeMessage(MergeProfile, EMPTY_PROFILE, payload) }

  /** One mixin's effect: a later one of the same id replaces, an ill-formed one clears. */
  function Absorb(out: Content, m: Mixin): Content {
    if m.id == LANGUAGE_MIXIN then out.(language := DecodeText(m.payload))
    else if m.id == TITLE_MIXIN then out.(title := DecodeText(m.payload))
    else if m.id == BODY_MIXIN then out.(body := DecodeText(m.payload))
    else if m.id == IMAGE_MIXIN then out.(image := DecodeImage(m.payload))
    else if m.id == PROFILE_MIXIN then out.(profile := DecodeProfile(m.payload))
    else out
  }

  function AbsorbAll(out: Content, ms: seq<Mixin>): Content {
    if ms == [] then out else Absorb(AbsorbAll(out, ms[..|ms| - 1]), ms[|ms| - 1])
  }

  function Blank(t: ContentType): Content { Content(t, None, None, None, None, None) }

  function Interpret(ms: seq<Mixin>): Content { AbsorbAll(Blank(TypeOf(ms)), ms) }

  function DecodeItem(s: Text): Option<Content> {
    match DecodeMixins(s) case Some(ms) => Some(Interpret(ms)) case None => None
  }

  method DecodeItemBytes(s: Text) returns (r: Option<Content>)
    ensures r == DecodeItem(s)
  {
    var item := DecodeMixins(s);
    if item.None? { return None; }
    var ms := item.value;
    var t := InferContentType(ms);
    var out := Blank(t);
    for i := 0 to |ms|
      invariant out == AbsorbAll(Blank(t), ms[..i])
    {
      assert ms[..i + 1][..i] == ms[..i];
      var m := ms[i];
      if m.id == LANGUAGE_MIXIN {
        out := out.(language := DecodeText(m.payload));
      } else if m.id == TITLE_MIXIN {
        out := out.(title := DecodeText(m.payload));
      } else if m.id == BODY_MIXIN {
        out := out.(body := DecodeText(m.payload));
      } else if m.id == IMAGE_MIXIN {
        out := out.(image := DecodeImage(m.payload));
      } else if m.id == PROFILE_MIXIN {
        out := out.(profile := DecodeProfile(m.payload));
      }
    }
    assert ms[..|ms|] == ms;
    r := Some(out);
  }

  // ---- Laws ------------------------------------------------------------------------

  lemma {:induction false} AbsorbSplits(out: Content, a: seq<Mixin>, b: seq<Mixin>)
    ensures AbsorbAll(out, a + b) == AbsorbAll(AbsorbAll(out, a), b)
  {
    if b == [] {
      assert a + b == a;
    } else {
      AbsorbSplits(out, a, b[..|b| - 1]);
      assert (a + b)[..|a + b| - 1] == a + b[..|b| - 1];
    }
  }

  lemma AbsorbOne(out: Content, m: Mixin)
    ensures AbsorbAll(out, [m]) == Absorb(out, m)
  {
    assert [m][..0] == [];
    assert AbsorbAll(out, []) == out;
  }

  lemma {:induction false} MarkerSplits(a: seq<Mixin>, b: seq<Mixin>)
    ensures FirstMarker(a + b) == if FirstMarker(a).Some? then FirstMarker(a) else FirstMarker(b)
  {
    if a == [] {
      assert a + b == b;
    } else {
      MarkerSplits(a[1..], b);
      assert (a + b)[1..] == a[1..] + b;
    }
  }

  lemma ImageSplits(a: seq<Mixin>, b: seq<Mixin>)
    ensures HasImage(a + b) <==> HasImage(a) || HasImage(b)
  {
    var s := a + b;
    if HasImage(a) {
      var i :| 0 <= i < |a| && a[i].id == IMAGE_MIXIN;
      assert s[i].id == IMAGE_MIXIN;
    }
    if HasImage(b) {
      var i :| 0 <= i < |b| && b[i].id == IMAGE_MIXIN;
      assert s[|a| + i].id == IMAGE_MIXIN;
    }
    if HasImage(s) {
      var i :| 0 <= i < |s| && s[i].id == IMAGE_MIXIN;
      if i < |a| { assert a[i].id == IMAGE_MIXIN; } else { assert b[i - |a|].id == IMAGE_MIXIN; }
    }
  }

  predicate Known(id: nat) {
    id in {LANGUAGE_MIXIN, TITLE_MIXIN, BODY_MIXIN, IMAGE_MIXIN, PROFILE_MIXIN, FEED_MARKER, COMMENT_MARKER}
  }

  lemma UnknownIsInert(a: seq<Mixin>, u: Mixin, b: seq<Mixin>)
    requires !Known(u.id)
    ensures Interpret(a + [u] + b) == Interpret(a + b)
  {
    var whole := a + [u] + b;
    assert whole == a + ([u] + b);
    MarkerSplits(a, [u] + b);
    MarkerSplits([u], b);
    MarkerSplits(a, b);
    ImageSplits(a, [u] + b);
    ImageSplits([u], b);
    ImageSplits(a, b);
    assert FirstMarker([u]) == None by { assert [u][1..] == []; }
    var out := Blank(TypeOf(a + b));
    AbsorbSplits(out, a, [u] + b);
    AbsorbSplits(AbsorbAll(out, a), [u], b);
    AbsorbOne(AbsorbAll(out, a), u);
    AbsorbSplits(out, a, b);
  }

  /** Unknown mixins anywhere in an item's bytes change nothing that is read from it. */
  lemma UnknownMixinsChangeNothing(a: seq<Mixin>, u: Mixin, b: seq<Mixin>)
    requires !Known(u.id)
    requires SmallIds(a) && u.id < U32 && SmallIds(b)
    requires |EncodeMixins(a + [u] + b)| < U64 && |EncodeMixins(a + b)| < U64
    ensures DecodeItem(EncodeMixins(a + [u] + b)) == DecodeItem(EncodeMixins(a + b))
    ensures DecodeItem(EncodeMixins(a + b)).Some?
  {
    SmallIdsJoin(a, [u]);
    SmallIdsJoin(a + [u], b);
    SmallIdsJoin(a, b);
    MixinsRoundTrip(a + [u] + b);
    MixinsRoundTrip(a + b);
    UnknownIsInert(a, u, b);
  }

  /** The type read back, by precedence: marker, then profile, then image, then document. */
  function PrecedenceType(c: Content): ContentType {
    if c.contentType.Feed? || c.contentType.Comment? then c.contentType
    else if c.profile.Some? then ProfileType
    else if c.image.Some? then ImageType
    else Document
  }

  /** What an item reads back as. */
  function Canonical(c: Content): Content {
    Content(PrecedenceType(c), c.title, c.body, Some(Language(c)),
            if c.image.Some? then Some(CanonicalImage(c.image.value)) else None, c.profile)
  }

  lemma TextFits(t: Text)
    requires |TextPayload(t)| < U64
    ensures |t| < U64
  {
    if t != [] { PayloadIsShorter(BytesFields(1, t), 0); }
  }

  lemma AbsorbText(out: Content, id: nat, t: Text)
    requires Valid(t) && |TextPayload(t)| < U64
    ensures DecodeText(TextPayload(t)) == Some(t)
    ensures AbsorbAll(out, [Mixin(id, TextPayload(t))]) == Absorb(out, Mixin(id, TextPayload(t)))
  {
    TextFits(t);
    TextRoundTrip(t);
    AbsorbOne(out, Mixin(id, TextPayload(t)));
  }

  lemma AbsorbImage(out: Content, i: Image)
    requires IsImageSpec(i) && ToMessage(i).Some?
    requires |EncodeFields(ImageFields(ToMessage(i).value))| < U64
    ensures AbsorbAll(out, ImagePart(Some(i))) == out.(image := Some(CanonicalImage(i)))
  {
    ImageReadsBack(i);
    AbsorbImagePayload(out, EncodeFields(ImageFields(ToMessage(i).value)), CanonicalImage(i));
  }

  lemma AbsorbImagePayload(out: Content, payload: Text, i: Image)
    requires DecodeImage(payload) == Some(i)
    ensures AbsorbAll(out, [Mixin(IMAGE_MIXIN, payload)]) == out.(image := Some(i))
  {
    AbsorbOne(out, Mixin(IMAGE_MIXIN, payload));
  }

  lemma ImageReadsBack(i: Image)
    requires IsImageSpec(i) && ToMessage(i).Some?
    requires |EncodeFields(ImageFields(ToMessage(i).value))| < U64
    ensures DecodeImage(EncodeFields(ImageFields(ToMessage(i).value))) == Some(CanonicalImage(i))
  {
    MessageIsImage(i);
    ImageRoundTrip(ToMessage(i).value);
    ImageConverts(i);
  }

  lemma MessageIsImage(i: Image)
    requires IsImageSpec(i) && ToMessage(i).Some?
    ensures IsImage(ToMessage(i).value)
  {
    var m := ToMessage(i).value;
    forall k | 0 <= k < |m.levels| ensures IsLevel(m.levels[k]) { LevelsAreRight(i.levels, k); }
  }

  lemma AbsorbProfile(out: Content, p: Profile)
    requires IsProfile(p) && |EncodeFields(ProfileFields(p))| < U64
    ensures AbsorbAll(out, ProfilePart(Some(p))) == out.(profile := Some(p))
  {
    var fs := ProfileFields(p);
    if p.location != [] {
      assert fs[|fs| - 1] == Field(2, Bytes(p.location));
      PayloadIsShorter(fs, |fs| - 1);
    }
    ProfileRoundTrip(p);
    AbsorbOne(out, Mixin(PROFILE_MIXIN, EncodeFields(fs)));
  }

  /** Every payload of an item whose bytes fit is itself small enough to carry. */
  predicate PartFits(ms: seq<Mixin>) { forall i :: 0 <= i < |ms| ==> |ms[i].payload| < U64 }

  lemma AbsorbTextPart(out: Content, id: nat, t: Option<Text>)
    requires t.Some? ==> Valid(t.value)
    requires PartFits(TextPart(id, t))
    ensures t.Some? ==> DecodeText(TextPayload(t.value)) == t
    ensures AbsorbAll(out, TextPart(id, t)) == if t.Some? then Absorb(out, Mixin(id, TextPayload(t.value))) else out
  {
    if t.Some? {
      assert |TextPart(id, t)[0].payload| < U64;
      AbsorbText(out, id, t.value);
    }
  }

  /** Reading the parts of an item one after another rebuilds it field by field. */
  lemma AbsorbParts(c: Content, t: ContentType)
    requires IsContent(c) && !BadImage(c) && PartFits(MixinsOf(c).value)
    ensures AbsorbAll(Blank(t), MixinsOf(c).value) == Canonical(c).(contentType := t)
  {
    var m, l := MarkerOf(c.contentType), TextPart(LANGUAGE_MIXIN, Some(Language(c)));
    var ti, b := TextPart(TITLE_MIXIN, c.title), TextPart(BODY_MIXIN, c.body);
    var i, p := ImagePart(c.image), ProfilePart(c.profile);
    PartsFit(m, l, ti, b, i, p);
    LanguageIsValid(c);
    var o1 := Blank(t);
    var o2 := o1.(language := Some(Language(c)));
    var o3 := o2.(title := c.title);
    var o4 := o3.(body := c.body);
    var o5 := o4.(image := Canonical(c).image);
    assert AbsorbAll(o1, m) == o1 by { if m != [] { AbsorbOne(o1, m[0]); } }
    AbsorbTextPart(o1, LANGUAGE_MIXIN, Some(Language(c)));
    AbsorbTextPart(o2, TITLE_MIXIN, c.title);
    AbsorbTextPart(o3, BODY_MIXIN, c.body);
    if c.image.Some? { assert |i[0].payload| < U64; AbsorbImage(o4, c.image.value); }
    if c.profile.Some? { assert |p[0].payload| < U64; AbsorbProfile(o5, c.profile.value); }
    AbsorbSix(o1, m, l, ti, b, i, p);
  }

  lemma LanguageIsValid(c: Content)
    requires IsContent(c)
    ensures Valid(Language(c))
  {
    if c.language.None? {
      assert Language(c)[1..][1..] == [];
      assert CharLength(Language(c)[1..]) == 1;
    }
  }

  lemma PartsFit(a: seq<Mixin>, b: seq<Mixin>, c: seq<Mixin>, d: seq<Mixin>, e: seq<Mixin>, f: seq<Mixin>)
    requires PartFits(a + b + c + d + e + f)
    ensures PartFits(a) && PartFits(b) && PartFits(c) && PartFits(d) && PartFits(e) && PartFits(f)
  {
    FitsSplit(a + b + c + d + e, f);
    FitsSplit(a + b + c + d, e);
    FitsSplit(a + b + c, d);
    FitsSplit(a + b, c);
    FitsSplit(a, b);
  }

  lemma FitsSplit(a: seq<Mixin>, b: seq<Mixin>)
    requires PartFits(a + b)
    ensures PartFits(a) && PartFits(b)
  {
    forall i | 0 <= i < |a| ensures |a[i].payload| < U64 { assert (a + b)[i] == a[i]; }
    forall i | 0 <= i < |b| ensures |b[i].payload| < U64 { assert (a + b)[|a| + i] == b[i]; }
  }

  lemma AbsorbSix(out: Content, a: seq<Mixin>, b: seq<Mixin>, c: seq<Mixin>, d: seq<Mixin>, e: seq<Mixin>,
                  f: seq<Mixin>)
    ensures AbsorbAll(out, a + b + c + d + e + f) ==
            AbsorbAll(AbsorbAll(AbsorbAll(AbsorbAll(AbsorbAll(AbsorbAll(out, a), b), c), d), e), f)
  {
    AbsorbSplits(out, a + b + c + d + e, f);
    AbsorbSplits(out, a + b + c + d, e);
    AbsorbSplits(out, a + b + c, d);
    AbsorbSplits(out, a + b, c);
    AbsorbSplits(out, a, b);
  }

  lemma OneMixin(m: Mixin)
    ensures FirstMarker([m]) == (if m.id == FEED_MARKER then Some(Feed)
                                 else if m.id == COMMENT_MARKER then Some(Comment)
                                 else if m.id == PROFILE_MIXIN then Some(ProfileType) else None)
    ensures HasImage([m]) <==> m.id == IMAGE_MIXIN
  {
    assert [m][1..] == [];
    if m.id == IMAGE_MIXIN { assert [m][0].id == IMAGE_MIXIN; }
  }

  /** The first marker and the presence of an image, over six parts. */
  lemma TypeOfSix(a: seq<Mixin>, b: seq<Mixin>, c: seq<Mixin>, d: seq<Mixin>, e: seq<Mixin>, f: seq<Mixin>)
    requires FirstMarker(b) == FirstMarker(c) == FirstMarker(d) == FirstMarker(e) == None
    ensures FirstMarker(a + b + c + d + e + f) == if FirstMarker(a).Some? then FirstMarker(a) else FirstMarker(f)
    ensures HasImage(a + b + c + d + e + f) <==>
            HasImage(a) || HasImage(b) || HasImage(c) || HasImage(d) || HasImage(e) || HasImage(f)
  {
    MarkerSplits(a + b + c + d + e, f);
    MarkerSplits(a + b + c + d, e);
    MarkerSplits(a + b + c, d);
    MarkerSplits(a + b, c);
    MarkerSplits(a, b);
    ImageSplits(a + b + c + d + e, f);
    ImageSplits(a + b + c + d, e);
    ImageSplits(a + b + c, d);
    ImageSplits(a + b, c);
    ImageSplits(a, b);
  }

  lemma TypeFollowsPrecedence(c: Content)
    requires IsContent(c) && !BadImage(c)
    ensures TypeOf(MixinsOf(c).value) == PrecedenceType(c)
  {
    var m, l := MarkerOf(c.contentType), TextPart(LANGUAGE_MIXIN, Some(Language(c)));
    var t, b := TextPart(TITLE_MIXIN, c.title), TextPart(BODY_MIXIN, c.body);
    var i, p := ImagePart(c.image), ProfilePart(c.profile);
    TypeOfParts(m, l, t, b, i, p);
  }

  /** The part is empty or one mixin of this id. */
  predicate IsPart(ms: seq<Mixin>, id: nat) { ms == [] || (|ms| == 1 && ms[0].id == id) }

  lemma TypeOfParts(m: seq<Mixin>, l: seq<Mixin>, t: seq<Mixin>, b: seq<Mixin>, i: seq<Mixin>, p: seq<Mixin>)
    requires IsPart(m, FEED_MARKER) || IsPart(m, COMMENT_MARKER)
    requires IsPart(l, LANGUAGE_MIXIN) && IsPart(t, TITLE_MIXIN) && IsPart(b, BODY_MIXIN)
    requires IsPart(i, IMAGE_MIXIN) && IsPart(p, PROFILE_MIXIN)
    ensures TypeOf(m + l + t + b + i + p) ==
            if m != [] then (if m[0].id == FEED_MARKER then Feed else Comment)
            else if p != [] then ProfileType else if i != [] then ImageType else Document
  {
    AtMostOneMixin(m);
    AtMostOneMixin(l);
    AtMostOneMixin(t);
    AtMostOneMixin(b);
    AtMostOneMixin(i);
    AtMostOneMixin(p);
    TypeOfSix(m, l, t, b, i, p);
  }

  lemma AtMostOneMixin(ms: seq<Mixin>)
    requires |ms| <= 1
    ensures FirstMarker(ms) == (if ms == [] then None
                                else if ms[0].id == FEED_MARKER then Some(Feed)
                                else if ms[0].id == COMMENT_MARKER then Some(Comment)
                                else if ms[0].id == PROFILE_MIXIN then Some(ProfileType) else None)
    ensures HasImage(ms) <==> ms != [] && ms[0].id == IMAGE_MIXIN
  {
    if ms != [] { OneMixin(ms[0]); assert ms == [ms[0]]; }
  }

  lemma IdsFit(c: Content)
    requires IsContent(c) && !BadImage(c)
    ensures SmallIds(MixinsOf(c).value)
  {
    var m, l := MarkerOf(c.contentType), TextPart(LANGUAGE_MIXIN, Some(Language(c)));
    var t, b := TextPart(TITLE_MIXIN, c.title), TextPart(BODY_MIXIN, c.body);
    var i, p := ImagePart(c.image), ProfilePart(c.profile);
    SmallIdsOfSix(m, l, t, b, i, p);
  }

  lemma SmallIdsOfSix(a: seq<Mixin>, b: seq<Mixin>, c: seq<Mixin>, d: seq<Mixin>, e: seq<Mixin>, f: seq<Mixin>)
    requires SmallIds(a) && SmallIds(b) && SmallIds(c) && SmallIds(d) && SmallIds(e) && SmallIds(f)
    ensures SmallIds(a + b + c + d + e + f)
  {
    SmallIdsJoin(a, b);
    SmallIdsJoin(a + b, c);
    SmallIdsJoin(a + b + c, d);
    SmallIdsJoin(a + b + c + d, e);
    SmallIdsJoin(a + b + c + d + e, f);
  }

  predicate SmallIds(ms: seq<Mixin>) { forall i :: 0 <= i < |ms| ==> ms[i].id < U32 }

  lemma SmallIdsJoin(a: seq<Mixin>, b: seq<Mixin>)
    requires SmallIds(a) && SmallIds(b)
    ensures SmallIds(a + b)
  {}

  /**
   * Every item that encodes reads back: title, body and profile exactly, the
   * language or its default, the image with its digest in canonical hex and every
   * CID unchanged, and the content type its mixins call for.
   */
  lemma ItemRoundTrip(c: Content)
    requires IsContent(c)
    requires EncodeItem(c).Some? && |EncodeItem(c).value| < U64
    ensures DecodeItem(EncodeItem(c).value) == Some(Canonical(c))
  {
    var ms := MixinsOf(c).value;
    IdsFit(c);
    forall i | 0 <= i < |ms| ensures |ms[i].payload| < U64 { MixinPayloadIsShorter(ms, i); }
    MixinsRoundTrip(ms);
    TypeFollowsPrecedence(c);
    AbsorbParts(c, PrecedenceType(c));
  }

  /** An item fails to encode exactly when its image names a bad digest or a bad CID. */
  lemma EncodeFailsExactly(c: Content)
    requires IsContent(c)
    ensures EncodeItem(c).None? <==>
            && c.image.Some?
            && (|| HexToBytes(c.image.value.digestHex).None?
                || exists i :: 0 <= i < |c.image.value.levels| && CidToMultihash(c.image.value.levels[i].cid).None?)
  {
    assert EncodeItem(c).None? <==> BadImage(c);
    if c.image.Some? { ImageFailsExactly(c.image.value); }
  }

  lemma ImageFailsExactly(i: Image)
    ensures ToMessage(i).None? <==>
            || HexToBytes(i.digestHex).None?
            || exists k :: 0 <= k < |i.levels| && CidToMultihash(i.levels[k].cid).None?
  {
    LevelsFailExactly(i.levels);
  }

  /** The content type itself comes back exactly when the item carries what implies it. */
  lemma TypeRoundTripsExactly(c: Content)
    requires IsContent(c)
    requires EncodeItem(c).Some? && |EncodeItem(c).value| < U64
    ensures DecodeItem(EncodeItem(c).value).Some?
    ensures DecodeItem(EncodeItem(c).value).value.contentType == c.contentType <==>
            match c.contentType {
              case Feed => true
              case Comment => true
              case ProfileType => c.profile.Some?
              case ImageType => c.image.Some? && c.profile.None?
              case Document => c.image.None? && c.profile.None?
            }
  {
    ItemRoundTrip(c);
  }

  /**
   * Reading back loses nothing that is written: what an encoded item decodes to
   * encodes to the same bytes.
   */
  lemma ReencodingIsIdentical(c: Content)
    requires IsContent(c)
    requires EncodeItem(c).Some? && |EncodeItem(c).value| < U64
    ensures DecodeItem(EncodeItem(c).value).Some?
    ensures var back := DecodeItem(EncodeItem(c).value).value;
            IsContent(back) && EncodeItem(back) == EncodeItem(c)
  {
    ItemRoundTrip(c);
    LanguageIsValid(c);
    CanonicalMixins(c);
  }

  lemma CanonicalMixins(c: Content)
    requires IsContent(c) && !BadImage(c) && IsContent(Canonical(c))
    ensures MixinsOf(Canonical(c)) == MixinsOf(c)
  {
    var k := Canonical(c);
    if c.image.Some? { CanonicalImageEncodes(c.image.value); }
    assert MarkerOf(k.contentType) == MarkerOf(c.contentType);
    assert Language(k) == Language(c);
    assert ImagePart(k.image) == ImagePart(c.image);
  }

  lemma CanonicalImageEncodes(i: Image)
    requires ToMessage(i).Some?
    ensures ToMessage(CanonicalImage(i)) == ToMessage(i)
  {
    HexFormReadsBack(HexToBytes(i.digestHex).value);
  }

  // ---- Items of any origin -----------------------------------------------------------

  /** The payload of the last mixin of an id. */
  function LastOf(ms: seq<Mixin>, id: nat): Option<Text> {
    if ms == [] then None
    else if ms[|ms| - 1].id == id then Some(ms[|ms| - 1].payload)
    else LastOf(ms[..|ms| - 1], id)
  }

  function TextIn(payload: Option<Text>): Option<Text> { if payload.Some? then DecodeText(payload.value) else None }

  /**
   * For any mixins in any order: each field is what the last mixin of its id decodes to,
   * absent if there is none or it is ill-formed, whatever the others are.
   */
  lemma LastMixinDecides(t: ContentType, ms: seq<Mixin>)
    ensures var c := AbsorbAll(Blank(t), ms);
            && c.contentType == t
            && c.title == TextIn(LastOf(ms, 0x344f_4812))
            && c.body == TextIn(LastOf(ms, 0x2d38_2044))
            && c.language == TextIn(LastOf(ms, 0x9bc7_a0e6))
            && c.image == (match LastOf(ms, 0x045e_ee8c) case Some(p) => DecodeImage(p) case None => None)
            && c.profile == (match LastOf(ms, 0xbeef_2144) case Some(p) => DecodeProfile(p) case None => None)
  {
    LastTextDecides(t, ms);
    LastRecordDecides(t, ms);
  }

  lemma {:induction false} LastTextDecides(t: ContentType, ms: seq<Mixin>)
    ensures var c := AbsorbAll(Blank(t), ms);
            && c.title == TextIn(LastOf(ms, TITLE_MIXIN))
            && c.body == TextIn(LastOf(ms, BODY_MIXIN))
            && c.language == TextIn(LastOf(ms, LANGUAGE_MIXIN))
  {
    if ms != [] { LastTextDecides(t, ms[..|ms| - 1]); }
  }

  lemma {:induction false} LastRecordDecides(t: ContentType, ms: seq<Mixin>)
    ensures var c := AbsorbAll(Blank(t), ms);
            && c.contentType == t
            && c.image == (match LastOf(ms, IMAGE_MIXIN) case Some(p) => DecodeImage(p) case None => None)
            && c.profile == (match LastOf(ms, PROFILE_MIXIN) case Some(p) => DecodeProfile(p) case None => None)
  {
    if ms != [] { LastRecordDecides(t, ms[..|ms| - 1]); }
  }

  predicate Decisive(id: nat) { id in {0xbcec_8faa, 0x874a_ba65, 0xbeef_2144} }

  /** The first feed marker, comment marker or profile decides the type, whichever comes first. */
  lemma {:induction false} FirstDecisiveDecides(ms: seq<Mixin>, i: nat)
    requires i < |ms| && Decisive(ms[i].id) && forall j :: 0 <= j < i ==> !Decisive(ms[j].id)
    ensures TypeOf(ms) == if ms[i].id == 0xbcec_8faa then Feed
                          else if ms[i].id == 0x874a_ba65 then Comment else ProfileType
  {
    if i > 0 {
      assert !Decisive(ms[0].id);
      FirstDecisiveDecides(ms[1..], i - 1);
    }
  }

  /** Without one, an image mixin makes an image and its absence a document. */
  lemma {:induction false} OtherwiseImageOrDocument(ms: seq<Mixin>)
    requires forall j :: 0 <= j < |ms| ==> !Decisive(ms[j].id)
    ensures FirstMarker(ms) == None
    ensures TypeOf(ms) == if exists i :: 0 <= i < |ms| && ms[i].id == 0x045e_ee8c then ImageType else Document
  {
    if ms != [] {
      assert !Decisive(ms[0].id);
      OtherwiseImageOrDocument(ms[1..]);
    }
  }

  /** The legacy form of a hash, a bare digest, reads as the reference form does. */
  lemma LegacyHashReadsTheSame(d: Text, n: nat)
    requires |d| == 32
    ensures FromLevel(LevelMessage(n, d)) == FromLevel(LevelMessage(n, Multihash(d)))
    ensures BytesToHex(DigestFromBytes(d)) == BytesToHex(DigestFromBytes(Multihash(d)))
    ensures CidToMultihash(FromLevel(LevelMessage(n, d)).cid) == Some(Multihash(d))
  {
    HeaderStrips(d);
    DigestToCidReadsBack(d);
  }

  /** Mixins byte by byte: the default language and a title "Hi". */
  lemma TextMixinExamples()
    ensures EncodeFields(MixinFields(Mixin(LANGUAGE_MIXIN, TextPayload(DEFAULT_LANGUAGE))))
            == [0x0D] + [0xE6, 0xA0, 0xC7, 0x9B] + [0x12, 0x04] + [0x0A, 0x02, 0x65, 0x6E]
    ensures EncodeFields(MixinFields(Mixin(TITLE_MIXIN, TextPayload([0x48, 0x69]))))
            == [0x0D] + [0x12, 0x48, 0x4F, 0x34] + [0x12, 0x04] + [0x0A, 0x02, 0x48, 0x69]
  {
    TwoLetterMixin(LANGUAGE_MIXIN, 0x65, 0x6E);
    TwoLetterMixin(TITLE_MIXIN, 0x48, 0x69);
    IdBytes();
  }

  lemma IdBytes()
    ensures LittleEndian32(LANGUAGE_MIXIN) == [0xE6, 0xA0, 0xC7, 0x9B]
    ensures LittleEndian32(TITLE_MIXIN) == [0x12, 0x48, 0x4F, 0x34]
  {}

  lemma TwoLetterMixin(id: nat, p: Byte, q: Byte)
    requires id != 0
    ensures EncodeFields(MixinFields(Mixin(id, TextPayload([p, q]))))
            == [0x0D] + LittleEndian32(id) + [0x12, 0x04] + [0x0A, 0x02, p, q]
  {
    TwoLetterText(p, q);
    TextMixinExample(Mixin(id, [0x0A, 0x02, p, q]));
  }

  /** A marker is its id alone. */
  lemma MarkerExample()
    ensures EncodeFields(MixinFields(Mixin(FEED_MARKER, []))) == [0x0D, 0xAA, 0x8F, 0xEC, 0xBC]
  {
    var f := Field(1, Fixed32(FEED_MARKER));
    assert MixinFields(Mixin(FEED_MARKER, [])) == [f];
    EncodeOne(f);
    SmallFixed32(1, FEED_MARKER);
  }

  lemma TextMixinExample(m: Mixin)
    requires m.id != 0 && |m.payload| == 4
    ensures EncodeFields(MixinFields(m)) == [0x0D] + LittleEndian32(m.id) + [0x12, 0x04] + m.payload
  {
    assert MixinFields(m) == [Field(1, Fixed32(m.id)), Field(2, Bytes(m.payload))];
    EncodeTwo(Field(1, Fixed32(m.id)), Field(2, Bytes(m.payload)));
    SmallFixed32(1, m.id);
    SmallBytes(2, m.payload);
  }

  /** Each mixin is framed as a length-delimited field 1, one after another. */
  lemma {:induction false} MixinsAreFramed(m: Mixin, ms: seq<Mixin>)
    requires |EncodeFields(MixinFields(m))| < 128
    ensures var x := EncodeFields(MixinFields(m)); EncodeMixins([m] + ms) == [0x0A, |x|] + x + EncodeMixins(ms)
  {
    var f := Field(1, Bytes(EncodeFields(MixinFields(m))));
    assert Repeated(1, EncodedMixins([m] + ms)) == [f] + Repeated(1, EncodedMixins(ms));
    EncodeConcat([f], Repeated(1, EncodedMixins(ms)));
    EncodeOne(f);
    SmallBytes(1, EncodeFields(MixinFields(m)));
  }

  lemma TwoLetterText(p: Byte, q: Byte)
    ensures TextPayload([p, q]) == [0x0A, 0x02, p, q]
  {
    EncodeOne(Field(1, Bytes([p, q])));
    SmallBytes(1, [p, q]);
  }
}
