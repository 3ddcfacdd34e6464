/**
 * Content items (choreo-content/src/encode.rs): an ordered list of mixins, each a
 * fixed32 id and a payload that is itself a small message. Strings are byte texts.
 */
module Item {
  import opened Options
  import opened Utf8
  import opened Arithmetic
  import opened Wire

  const LANGUAGE_MIXIN: nat := 0x9bc7_a0e6
  const TITLE_MIXIN: nat := 0x344f_4812
  const BODY_MIXIN: nat := 0x2d38_2044
  const IMAGE_MIXIN: nat := 0x045e_ee8c
  const PROFILE_MIXIN: nat := 0xbeef_2144
  const FEED_MARKER: nat := 0xbcec_8faa
  const COMMENT_MARKER: nat := 0x874a_ba65

  const DEFAULT_LANGUAGE: Text := [0x65, 0x6E]    // "en"

  datatype Mixin = Mixin(id: nat, payload: Text)

  datatype LevelMessage = LevelMessage(filesize: nat, hash: Text)

  datatype ImageMessage = ImageMessage(
    filename: Text, filesize: nat, hash: Text, width: nat, height: nat, levels: seq<LevelMessage>)

  datatype Profile = Profile(accountType: int, location: Text)

  datatype Level = Level(filesize: nat, cid: Text)

  datatype Image = Image(
    filename: Text, filesize: nat, digestHex: Text, width: nat, height: nat, levels: seq<Level>)

  datatype ContentType = Document | Feed | Comment | ProfileType | ImageType

  datatype Content = Content(
    contentType: ContentType,
    title: Option<Text>, body: Option<Text>, language: Option<Text>,
    image: Option<Image>, profile: Option<Profile>)

  // ---- Messages as fields: a default value is not written ---------------------------

  function BytesFields(tag: nat, data: Text): seq<Field> { if data == [] then [] else [Field(tag, Bytes(data))] }

  function VarintFields(tag: nat, n: nat): seq<Field> { if n == 0 then [] else [Field(tag, Varint(n))] }

  function MixinFields(m: Mixin): seq<Field> {
    (if m.id == 0 then [] else [Field(1, Fixed32(m.id))]) + BytesFields(2, m.payload)
  }

  function ProfileFields(p: Profile): seq<Field>
    requires IsI32(p.accountType)
  {
    VarintFields(1, I32ToVarint(p.accountType)) + BytesFields(2, p.location)
  }

  function LevelFields(l: LevelMessage): seq<Field> { VarintFields(1, l.filesize) + BytesFields(2, l.hash) }

  /** A repeated message field is written once per element, empty elements included. */
  function Repeated(tag: nat, elements: seq<Text>): seq<Field> {
    seq(|elements|, i requires 0 <= i < |elements| => Field(tag, Bytes(elements[i])))
  }

  function EncodedLevels(ls: seq<LevelMessage>): seq<Text> {
    seq(|ls|, i requires 0 <= i < |ls| => EncodeFields(LevelFields(ls[i])))
  }

  function EncodedMixins(ms: seq<Mixin>): seq<Text> {
    seq(|ms|, i requires 0 <= i < |ms| => EncodeFields(MixinFields(ms[i])))
  }

  function ImageFields(m: ImageMessage): seq<Field> {
    ScalarFields(m) + Repeated(6, EncodedLevels(m.levels))
  }

  function ScalarFields(m: ImageMessage): seq<Field> {
    BytesFields(1, m.filename) + VarintFields(2, m.filesize) + BytesFields(3, m.hash)
    + VarintFields(4, m.width) + VarintFields(5, m.height)
  }

  // ---- Merging a field into a message: unknown tags are skipped ---------------------

  function MergeText(t: Text, f: Field): Option<Text> {
    if f.tag == 1 then if f.value.Bytes? && Valid(f.value.data) then Some(f.value.data) else None
    else Some(t)
  }

  function MergeMixin(m: Mixin, f: Field): Option<Mixin> {
    if f.tag == 1 then if f.value.Fixed32? then Some(m.(id := f.value.n)) else None
    else if f.tag == 2 then if f.value.Bytes? then Some(m.(payload := f.value.data)) else None
    else Some(m)
  }

  function MergeProfile(p: Profile, f: Field): Option<Profile> {
    if f.tag == 1 then if f.value.Varint? then Some(p.(accountType := VarintToI32(f.value.n))) else None
    else if f.tag == 2 then
      if f.value.Bytes? && Valid(f.value.data) then Some(p.(location := f.value.data)) else None
    else Some(p)
  }

  function MergeLevel(l: LevelMessage, f: Field): Option<LevelMessage> {
    if f.tag == 1 then if f.value.Varint? then Some(l.(filesize := f.value.n)) else None
    else if f.tag == 2 then if f.value.Bytes? then Some(l.(hash := f.value.data)) else None
    else Some(l)
  }

  function MergeImage(m: ImageMessage, f: Field): Option<ImageMessage> {
    if f.tag == 1 then
      if f.value.Bytes? && Valid(f.value.data) then Some(m.(filename := f.value.data)) else None
    else if f.tag == 2 then if f.value.Varint? then Some(m.(filesize := f.value.n)) else None
    else if f.tag == 3 then if f.value.Bytes? then Some(m.(hash := f.value.data)) else None
    else if f.tag == 4 then if f.value.Varint? then Some(m.(width := f.value.n % U32)) else None
    else if f.tag == 5 then if f.value.Varint? then Some(m.(height := f.value.n % U32)) else None
    else if f.tag == 6 then
      if !f.value.Bytes? then None
      else match DecodeMessage(MergeLevel, EMPTY_LEVEL, f.value.data)
        case None => None
        case Some(l) => Some(m.(levels := m.levels + [l]))
    else Some(m)
  }

  function MergeItem(ms: seq<Mixin>, f: Field): Option<seq<Mixin>> {
    if f.tag == 1 then
      if !f.value.Bytes? then None
      else match DecodeMessage(MergeMixin, EMPTY_MIXIN, f.value.data)
        case None => None
        case Some(m) => Some(ms + [m])
    else Some(ms)
  }

  const EMPTY_LEVEL: LevelMessage := LevelMessage(0, [])
  const EMPTY_MIXIN: Mixin := Mixin(0, [])
  const EMPTY_PROFILE: Profile := Profile(0, [])
  const EMPTY_IMAGE: ImageMessage := ImageMessage([], 0, [], 0, 0, [])

  function EncodeMixins(ms: seq<Mixin>): Text { EncodeFields(Repeated(1, EncodedMixins(ms))) }

  function DecodeMixins(s: Text): Option<seq<Mixin>> { DecodeMessage(MergeItem, [], s) }

  // ---- Message round trips ---------------------------------------------------------

  /** What the Rust integer and string types guarantee of a message's fields. */
  predicate IsMixin(m: Mixin) { m.id < U32 && |m.payload| < U64 }
  predicate IsProfile(p: Profile) { IsI32(p.accountType) && Valid(p.location) }
  predicate IsLevel(l: LevelMessage) { l.filesize < U64 && |l.hash| < U64 }
  predicate IsImage(m: ImageMessage) {
    && Valid(m.filename) && m.filesize < U64 && m.width < U32 && m.height < U32
    && forall i :: 0 <= i < |m.levels| ==> IsLevel(m.levels[i])
  }

  lemma TextRoundTrip(t: Text)
    requires Valid(t) && |t| < U64
    ensures DecodeMessage(MergeText, [], EncodeFields(BytesFields(1, t))) == Some(t)
  {
    FieldsRoundTrip(BytesFields(1, t));
    if t != [] { MergeOne(MergeText, [], Field(1, Bytes(t))); }
  }

  lemma MixinRoundTrip(m: Mixin)
    requires IsMixin(m)
    ensures DecodeMessage(MergeMixin, EMPTY_MIXIN, EncodeFields(MixinFields(m))) == Some(m)
  {
    FieldsRoundTrip(MixinFields(m));
    var a := if m.id == 0 then [] else [Field(1, Fixed32(m.id))];
    var m1 := EMPTY_MIXIN.(id := m.id);
    MergeSplits(MergeMixin, EMPTY_MIXIN, a, BytesFields(2, m.payload));
    if m.id != 0 { MergeOne(MergeMixin, EMPTY_MIXIN, Field(1, Fixed32(m.id))); }
    if m.payload != [] { MergeOne(MergeMixin, m1, Field(2, Bytes(m.payload))); }
  }

  lemma ProfileRoundTrip(p: Profile)
    requires IsProfile(p) && |p.location| < U64
    ensures DecodeMessage(MergeProfile, EMPTY_PROFILE, EncodeFields(ProfileFields(p))) == Some(p)
  {
    var n := I32ToVarint(p.accountType);
    var p1 := EMPTY_PROFILE.(accountType := p.accountType);
    FieldsRoundTrip(ProfileFields(p));
    I32RoundTrip(p.accountType);
    MergeSplits(MergeProfile, EMPTY_PROFILE, VarintFields(1, n), BytesFields(2, p.location));
    if n != 0 { MergeOne(MergeProfile, EMPTY_PROFILE, Field(1, Varint(n))); }
    if p.location != [] { MergeOne(MergeProfile, p1, Field(2, Bytes(p.location))); }
  }

  lemma LevelRoundTrip(l: LevelMessage)
    requires IsLevel(l)
    ensures DecodeMessage(MergeLevel, EMPTY_LEVEL, EncodeFields(LevelFields(l))) == Some(l)
  {
    var l1 := EMPTY_LEVEL.(filesize := l.filesize);
    FieldsRoundTrip(LevelFields(l));
    MergeSplits(MergeLevel, EMPTY_LEVEL, VarintFields(1, l.filesize), BytesFields(2, l.hash));
    if l.filesize != 0 { MergeOne(MergeLevel, EMPTY_LEVEL, Field(1, Varint(l.filesize))); }
    if l.hash != [] { MergeOne(MergeLevel, l1, Field(2, Bytes(l.hash))); }
  }

  /** Level fields append to whatever levels are already there. */
  lemma MergeLevels(m: ImageMessage, ls: seq<LevelMessage>)
    requires forall i :: 0 <= i < |ls| ==> IsLevel(ls[i])
    ensures MergeAll(MergeImage, m, Repeated(6, EncodedLevels(ls))) == Some(m.(levels := m.levels + ls))
  {
    var states := seq(|ls| + 1, i requires 0 <= i <= |ls| => WithLevels(m, ls[..i]));
    var fs := Repeated(6, EncodedLevels(ls));
    forall i | 0 <= i < |fs| ensures MergeImage(states[i], fs[i]) == Some(states[i + 1]) {
      MergeLevelAt(m, ls, i);
    }
    MergeThrough(MergeImage, states, fs);
    assert ls[..0] == [] && ls[..|ls|] == ls;
    assert WithLevels(m, []) == m;
  }

  function WithLevels(m: ImageMessage, ls: seq<LevelMessage>): ImageMessage { m.(levels := m.levels + ls) }

  lemma MergeLevelAt(m: ImageMessage, ls: seq<LevelMessage>, i: nat)
    requires i < |ls| && IsLevel(ls[i])
    ensures MergeImage(WithLevels(m, ls[..i]), Field(6, Bytes(EncodeFields(LevelFields(ls[i])))))
            == Some(WithLevels(m, ls[..i + 1]))
  {
    assert m.levels + ls[..i] + [ls[i]] == m.levels + ls[..i + 1];
    assert WithLevels(m, ls[..i]).(levels := WithLevels(m, ls[..i]).levels + [ls[i]]) == WithLevels(m, ls[..i + 1]);
    MergeOneLevel(WithLevels(m, ls[..i]), ls[i]);
  }

  lemma MergeOneLevel(m: ImageMessage, l: LevelMessage)
    requires IsLevel(l)
    ensures MergeImage(m, Field(6, Bytes(EncodeFields(LevelFields(l))))) == Some(m.(levels := m.levels + [l]))
  {
    LevelRoundTrip(l);
  }

  lemma MergeScalars(m: ImageMessage)
    requires IsImage(m)
    ensures MergeAll(MergeImage, EMPTY_IMAGE, ScalarFields(m)) == Some(m.(levels := []))
  {
    var a, b, c := BytesFields(1, m.filename), VarintFields(2, m.filesize), BytesFields(3, m.hash);
    var d, e := VarintFields(4, m.width), VarintFields(5, m.height);
    var m3 := ImageMessage(m.filename, m.filesize, m.hash, 0, 0, []);
    MergeFirstThree(m);
    if d != [] { MergeOne(MergeImage, m3, d[0]); }
    if e != [] { MergeOne(MergeImage, m3.(width := m.width), e[0]); }
    MergeSplits(MergeImage, EMPTY_IMAGE, a + b + c, d);
    MergeSplits(MergeImage, EMPTY_IMAGE, a + b + c + d, e);
  }

  lemma MergeFirstThree(m: ImageMessage)
    requires IsImage(m)
    ensures MergeAll(MergeImage, EMPTY_IMAGE,
                     BytesFields(1, m.filename) + VarintFields(2, m.filesize) + BytesFields(3, m.hash))
            == Some(ImageMessage(m.filename, m.filesize, m.hash, 0, 0, []))
  {
    var a, b, c := BytesFields(1, m.filename), VarintFields(2, m.filesize), BytesFields(3, m.hash);
    var m1 := EMPTY_IMAGE.(filename := m.filename);
    if a != [] { MergeOne(MergeImage, EMPTY_IMAGE, a[0]); }
    if b != [] { MergeOne(MergeImage, m1, b[0]); }
    if c != [] { MergeOne(MergeImage, m1.(filesize := m.filesize), c[0]); }
    MergeSplits(MergeImage, EMPTY_IMAGE, a, b);
    MergeSplits(MergeImage, EMPTY_IMAGE, a + b, c);
  }

  lemma ImageRoundTrip(m: ImageMessage)
    requires IsImage(m) && |EncodeFields(ImageFields(m))| < U64
    ensures DecodeMessage(MergeImage, EMPTY_IMAGE, EncodeFields(ImageFields(m))) == Some(m)
  {
    var fs := ImageFields(m);
    var levels := Repeated(6, EncodedLevels(m.levels));
    ImageFieldsAreWellFormed(m);
    FieldsRoundTrip(fs);
    MergeScalars(m);
    MergeSplits(MergeImage, EMPTY_IMAGE, ScalarFields(m), levels);
    MergeLevels(m.(levels := []), m.levels);
    assert [] + m.levels == m.levels;
  }

  lemma ImageFieldsAreWellFormed(m: ImageMessage)
    requires IsImage(m) && |EncodeFields(ImageFields(m))| < U64
    ensures AllWellFormed(ImageFields(m))
  {
    var fs := ImageFields(m);
    forall i | 0 <= i < |fs| ensures WellFormed(fs[i]) {
      PayloadIsShorter(fs, i);
      if i < |ScalarFields(m)| { ScalarIsWellFormed(m, i); }
    }
  }

  lemma ScalarIsWellFormed(m: ImageMessage, i: nat)
    requires IsImage(m) && i < |ScalarFields(m)|
    ensures var f := ScalarFields(m)[i]; !f.value.Bytes? ==> WellFormed(f)
    ensures 1 <= ScalarFields(m)[i].tag <= 5
  {
    var a, b := BytesFields(1, m.filename) + VarintFields(2, m.filesize), BytesFields(3, m.hash);
    var c := VarintFields(4, m.width) + VarintFields(5, m.height);
    assert ScalarFields(m) == a + b + c;
  }

  lemma MergeMixins(ms: seq<Mixin>)
    requires forall i :: 0 <= i < |ms| ==> IsMixin(ms[i])
    ensures MergeAll(MergeItem, [], Repeated(1, EncodedMixins(ms))) == Some(ms)
  {
    var states := seq(|ms| + 1, i requires 0 <= i <= |ms| => ms[..i]);
    var fs := Repeated(1, EncodedMixins(ms));
    forall i | 0 <= i < |fs| ensures MergeItem(states[i], fs[i]) == Some(states[i + 1]) {
      MergeOneMixin(states[i], ms[i]);
      assert ms[..i] + [ms[i]] == ms[..i + 1];
    }
    MergeThrough(MergeItem, states, fs);
    assert states[0] == [] && states[|ms|] == ms;
  }

  lemma MergeOneMixin(before: seq<Mixin>, m: Mixin)
    requires IsMixin(m)
    ensures MergeItem(before, Field(1, Bytes(EncodeFields(MixinFields(m))))) == Some(before + [m])
  {
    MixinRoundTrip(m);
  }

  lemma MixinPayloadIsShorter(ms: seq<Mixin>, i: nat)
    requires i < |ms|
    ensures |EncodeFields(MixinFields(ms[i]))| < |EncodeMixins(ms)|
    ensures |ms[i].payload| < |EncodeMixins(ms)|
  {
    PayloadIsShorter(Repeated(1, EncodedMixins(ms)), i);
    var fs := MixinFields(ms[i]);
    if ms[i].payload != [] {
      assert fs[|fs| - 1] == Field(2, Bytes(ms[i].payload));
      PayloadIsShorter(fs, |fs| - 1);
    }
  }

  /** Any list of mixins survives the wire: ids, payloads and order. */
  lemma MixinsRoundTrip(ms: seq<Mixin>)
    requires forall i :: 0 <= i < |ms| ==> ms[i].id < U32
    requires |EncodeMixins(ms)| < U64
    ensures DecodeMixins(EncodeMixins(ms)) == Some(ms)
  {
    var fs := Repeated(1, EncodedMixins(ms));
    forall i | 0 <= i < |ms| ensures WellFormed(fs[i]) && IsMixin(ms[i]) { MixinPayloadIsShorter(ms, i); }
    FieldsRoundTrip(fs);
    MergeMixins(ms);
  }

  // ---- Examples byte by byte -------------------------------------------------------

  /** Each field of an image message under its own number, levels last. */
  lemma ImageExample()
    ensures EncodeFields(ImageFields(ImageMessage([0x61], 1, [0x12], 2, 3, [LevelMessage(4, [0x20])])))
            == [0x0A, 0x01, 0x61, 0x10, 0x01] + [0x1A, 0x01, 0x12, 0x20, 0x02]
               + ([0x28, 0x03, 0x32, 0x05] + [0x08, 0x04, 0x12, 0x01, 0x20])
  {
    LevelExample();
    OneLevelImage([0x61], [0x12], LevelMessage(4, [0x20]), [0x08, 0x04, 0x12, 0x01, 0x20]);
  }

  lemma OneLevelImage(x: Text, y: Text, l: LevelMessage, z: Text)
    requires |x| == 1 && |y| == 1 && |z| == 5 && EncodeFields(LevelFields(l)) == z
    ensures EncodeFields(ImageFields(ImageMessage(x, 1, y, 2, 3, [l])))
            == [0x0A, 0x01, x[0], 0x10, 0x01] + [0x1A, 0x01, y[0], 0x20, 0x02] + ([0x28, 0x03, 0x32, 0x05] + z)
  {
    var a := [Field(1, Bytes(x)), Field(2, Varint(1))];
    var b := [Field(3, Bytes(y)), Field(4, Varint(2))];
    var c := [Field(5, Varint(3)), Field(6, Bytes(z))];
    OneLevelFields(x, y, l, z);
    SmallPair(x, y, z);
    EncodeConcat(a + b, c);
    EncodeConcat(a, b);
  }

  lemma OneLevelFields(x: Text, y: Text, l: LevelMessage, z: Text)
    requires x != [] && y != [] && EncodeFields(LevelFields(l)) == z
    ensures ImageFields(ImageMessage(x, 1, y, 2, 3, [l]))
            == [Field(1, Bytes(x)), Field(2, Varint(1))] + [Field(3, Bytes(y)), Field(4, Varint(2))]
               + [Field(5, Varint(3)), Field(6, Bytes(z))]
  {
    assert Repeated(6, EncodedLevels([l])) == [Field(6, Bytes(z))];
  }

  lemma LevelExample()
    ensures EncodeFields(LevelFields(LevelMessage(4, [0x20]))) == [0x08, 0x04, 0x12, 0x01, 0x20]
  {
    assert LevelFields(LevelMessage(4, [0x20])) == [Field(1, Varint(4)), Field(2, Bytes([0x20]))];
    EncodeTwo(Field(1, Varint(4)), Field(2, Bytes([0x20])));
    SmallVarint(1, 4);
    SmallBytes(2, [0x20]);
  }

  lemma SmallPair(x: Text, y: Text, z: Text)
    requires |x| == 1 && |y| == 1 && |z| == 5
    ensures EncodeFields([Field(1, Bytes(x)), Field(2, Varint(1))]) == [0x0A, 0x01, x[0], 0x10, 0x01]
    ensures EncodeFields([Field(3, Bytes(y)), Field(4, Varint(2))]) == [0x1A, 0x01, y[0], 0x20, 0x02]
    ensures EncodeFields([Field(5, Varint(3)), Field(6, Bytes(z))]) == [0x28, 0x03, 0x32, 0x05] + z
  {
    EncodeTwo(Field(1, Bytes(x)), Field(2, Varint(1)));
    EncodeTwo(Field(3, Bytes(y)), Field(4, Varint(2)));
    EncodeTwo(Field(5, Varint(3)), Field(6, Bytes(z)));
    SmallBytes(1, x);
    SmallVarint(2, 1);
    SmallBytes(3, y);
    SmallVarint(4, 2);
    SmallVarint(5, 3);
    SmallBytes(6, z);
  }

  /** A negative account type takes ten bytes. */
  lemma ProfileExample()
    ensures EncodeFields(ProfileFields(Profile(-1, [0x61])))
            == [0x08, 0xFF, 0xFF, 0xFF, 0xFF, 0xFF, 0xFF, 0xFF, 0xFF, 0xFF, 0x01, 0x12, 0x01, 0x61]
  {
    var n := U64 - 1;
    assert ProfileFields(Profile(-1, [0x61])) == [Field(1, Varint(n)), Field(2, Bytes([0x61]))];
    EncodeTwo(Field(1, Varint(n)), Field(2, Bytes([0x61])));
    SmallBytes(2, [0x61]);
    AllOnes();
    assert EncodeField(Field(1, Varint(n))) == [0x08] + EncodeVarint(n);
  }

  lemma AllOnes()
    ensures EncodeVarint(U64 - 1) == [0xFF, 0xFF, 0xFF, 0xFF, 0xFF, 0xFF, 0xFF, 0xFF, 0xFF, 0x01]
  {
    EncodeStep(U64 - 1);
    EncodeStep(0x1FF_FFFF_FFFF_FFFF);
    EncodeStep(0x3_FFFF_FFFF_FFFF);
    EncodeStep(0x7FF_FFFF_FFFF);
    EncodeStep(0xF_FFFF_FFFF);
    EncodeStep(0x1FFF_FFFF);
    EncodeStep(0x3F_FFFF);
    EncodeStep(0x7FFF);
    EncodeStep(0xFF);
  }

  lemma EncodeStep(n: nat)
    requires n >= 128
    ensures EncodeVarint(n) == [n % 128 + 128] + EncodeVarint(n / 128)
  {}

  lemma EncodeOne(a: Field)
    ensures EncodeFields([a]) == EncodeField(a)
  {
    assert [a][1..] == [];
    assert EncodeFields([]) == [];
  }

  lemma EncodeTwo(a: Field, b: Field)
    ensures EncodeFields([a, b]) == EncodeField(a) + EncodeField(b)
  {
    assert [a, b][1..] == [b] && [b][1..] == [];
    assert EncodeFields([b]) == EncodeField(b) + EncodeFields([]) == EncodeField(b);
  }

  lemma {:induction false} EncodeConcat(a: seq<Field>, b: seq<Field>)
    ensures EncodeFields(a + b) == EncodeFields(a) + EncodeFields(b)
  {
    if a == [] {
      assert a + b == b;
    } else {
      assert (a + b)[1..] == a[1..] + b;
      EncodeConcat(a[1..], b);
    }
  }

  /** Text that is not UTF-8, or a string field of another wire type, is refused. */
  lemma BadTextIsRefused(data: Text, n: nat)
    requires |data| < U64 && n < U64
    ensures !Valid(data) ==> DecodeMessage(MergeText, [], EncodeFields([Field(1, Bytes(data))])) == None
    ensures DecodeMessage(MergeText, [], EncodeFields([Field(1, Varint(n))])) == None
  {
    FieldsRoundTrip([Field(1, Bytes(data))]);
    FieldsRoundTrip([Field(1, Varint(n))]);
    MergeOne(MergeText, [], Field(1, Bytes(data)));
    MergeOne(MergeText, [], Field(1, Varint(n)));
  }
}
