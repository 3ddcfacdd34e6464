/**
 * The Protocol Buffers wire format as the item codec uses it: base-128 varints,
 * fixed32, fixed64 and length-delimited fields. A message is read as a list of
 * fields, then folded into a value one field at a time.
 */
module Wire {
  import opened Options
  import opened Utf8
  import opened Arithmetic

  datatype Value = Varint(n: nat) | Fixed64(raw: Text) | Bytes(data: Text) | Fixed32(n: nat)

  datatype Field = Field(tag: nat, value: Value)

  // ---- Varints ---------------------------------------------------------------------

  function EncodeVarint(n: nat): (s: Text)
    ensures |s| > 0
  {
    if n < 128 then [n] else [n % 128 + 128] + EncodeVarint(n / 128)
  }

  /** Reads one varint of which `count` bytes are already read; ten bytes hold 64 bits. */
  function DecodeVarint(s: Text, count: nat): (r: Option<(nat, Text)>)
    requires count <= 10
    ensures r.Some? ==> |r.value.1| < |s|
    decreases 10 - count
  {
    if count == 10 || s == [] then None
    else if s[0] < 128 then
      if count == 9 && s[0] >= 2 then None else Some((s[0], s[1..]))
    else match DecodeVarint(s[1..], count + 1)
      case None => None
      case Some((high, rest)) => Some((s[0] - 128 + 128 * high, rest))
  }

  /** One more than the largest value the bytes from `count` on can hold. */
  function Room(count: nat): nat
    requires count <= 9
    decreases 9 - count
  {
    if count == 9 then 2 else 128 * Room(count + 1)
  }

  lemma RoomIs64Bits()
    ensures Room(0) == U64
  {
    assert Room(8) == 256;
    assert Room(6) == 128 * 128 * 256;
    assert Room(3) == 128 * 128 * 128 * Room(6);
    assert Room(0) == 128 * 128 * 128 * Room(3);
  }

  lemma {:induction false} VarintRoundTripFrom(n: nat, rest: Text, count: nat)
    requires count <= 9 && n < Room(count)
    ensures DecodeVarint(EncodeVarint(n) + rest, count) == Some((n, rest))
    decreases n
  {
    var s := EncodeVarint(n) + rest;
    if n < 128 {
      assert s[1..] == rest;
    } else {
      var low, high := n % 128, n / 128;
      assert n == low + 128 * high && high < Room(count + 1) by { HighFits(n, Room(count + 1)); }
      VarintRoundTripFrom(high, rest, count + 1);
      assert s[0] == low + 128 && s[1..] == EncodeVarint(high) + rest;
    }
  }

  lemma HighFits(n: nat, r: nat)
    requires n < 128 * r
    ensures n / 128 < r && n == n % 128 + 128 * (n / 128)
  {}

  /** Every 64-bit value survives, whatever follows it. */
  lemma VarintRoundTrip(n: nat, rest: Text)
    requires n < U64
    ensures DecodeVarint(EncodeVarint(n) + rest, 0) == Some((n, rest))
  {
    RoomIs64Bits();
    VarintRoundTripFrom(n, rest, 0);
  }

  /** What a varint reads as fits 64 bits, and it takes at most ten bytes. */
  lemma VarintFits(s: Text)
    ensures DecodeVarint(s, 0).Some? ==>
              DecodeVarint(s, 0).value.0 < U64 && |s| - |DecodeVarint(s, 0).value.1| <= 10
  {
    RoomIs64Bits();
    VarintFitsFrom(s, 0);
  }

  lemma {:induction false} VarintFitsFrom(s: Text, count: nat)
    requires count <= 9
    ensures match DecodeVarint(s, count)
            case None => true
            case Some((n, rest)) => n < Room(count) && |s| - |rest| <= 10 - count
    decreases 9 - count
  {
    if s != [] && s[0] >= 128 && count < 9 {
      VarintFitsFrom(s[1..], count + 1);
      match DecodeVarint(s[1..], count + 1) {
        case None =>
        case Some((high, rest)) => assert s[0] - 128 + 128 * high < 128 * Room(count + 1);
      }
    } else if s != [] && s[0] < 128 && count < 9 {
      assert Room(count + 1) >= 2 by { RoomIsPositive(count + 1); }
    }
  }

  lemma {:induction false} RoomIsPositive(count: nat)
    requires count <= 9
    ensures Room(count) >= 2
    decreases 9 - count
  {
    if count < 9 { RoomIsPositive(count + 1); }
  }

  // ---- Fields ----------------------------------------------------------------------

  function WireType(v: Value): nat {
    match v case Varint(_) => 0 case Fixed64(_) => 1 case Bytes(_) => 2 case Fixed32(_) => 5
  }

  function LittleEndian32(n: nat): Text {
    [n % 256, n / 256 % 256, n / 256 / 256 % 256, n / 256 / 256 / 256 % 256]
  }

  function FromLittleEndian32(s: Text): nat
    requires |s| >= 4
  {
    var a: int, b: int, c: int, d: int := s[0], s[1], s[2], s[3];
    a + 256 * b + 65536 * c + 16777216 * d
  }

  /** Fields the format can carry. */
  predicate WellFormed(f: Field) {
    && 1 <= f.tag < U32 / 8
    && match f.value
       case Varint(n) => n < U64
       case Fixed64(raw) => |raw| == 8
       case Bytes(data) => |data| < U64
       case Fixed32(n) => n < U32
  }

  function EncodeValue(v: Value): Text {
    match v
    case Varint(n) => EncodeVarint(n)
    case Fixed64(raw) => raw
    case Bytes(data) => EncodeVarint(|data|) + data
    case Fixed32(n) => LittleEndian32(n)
  }

  function EncodeField(f: Field): (s: Text)
    ensures |s| > 0
    ensures f.value.Bytes? ==> |s| > |f.value.data|
  {
    EncodeVarint(8 * f.tag + WireType(f.value)) + EncodeValue(f.value)
  }

  function DecodeValue(wireType: nat, s: Text): (r: Option<(Value, Text)>)
    ensures r.Some? ==> |r.value.1| <= |s|
  {
    if wireType == 0 then
      match DecodeVarint(s, 0)
      case Some((n, rest)) => Some((Varint(n), rest))
      case None => None
    else if wireType == 1 then
      if |s| >= 8 then Some((Fixed64(s[..8]), s[8..])) else None
    else if wireType == 2 then
      match DecodeVarint(s, 0)
      case Some((n, rest)) => if n <= |rest| then Some((Bytes(rest[..n]), rest[n..])) else None
      case None => None
    else if wireType == 5 then
      if |s| >= 4 then Some((Fixed32(FromLittleEndian32(s)), s[4..])) else None
    else None
  }

  /** A key is a 32-bit varint whose tag is not zero. */
  function DecodeField(s: Text): (r: Option<(Field, Text)>)
    ensures r.Some? ==> |r.value.1| < |s|
  {
    match DecodeVarint(s, 0)
    case None => None
    case Some((key, rest)) =>
      if key >= U32 || key / 8 == 0 then None
      else match DecodeValue(key % 8, rest)
        case None => None
        case Some((v, rest')) => Some((Field(key / 8, v), rest'))
  }

  predicate AllWellFormed(fs: seq<Field>) { forall i :: 0 <= i < |fs| ==> WellFormed(fs[i]) }

  function EncodeFields(fs: seq<Field>): Text {
    if fs == [] then [] else EncodeField(fs[0]) + EncodeFields(fs[1..])
  }

  function DecodeFields(s: Text): Option<seq<Field>>
    decreases |s|
  {
    if s == [] then Some([])
    else match DecodeField(s)
      case None => None
      case Some((f, rest)) =>
        match DecodeFields(rest)
        case None => None
        case Some(fs) => Some([f] + fs)
  }

  lemma Fixed32RoundTrip(n: nat, rest: Text)
    requires n < U32
    ensures FromLittleEndian32(LittleEndian32(n) + rest) == n
  {
    var s := LittleEndian32(n) + rest;
    var a := n / 256;
    var b := a / 256;
    var c := b / 256;
    assert s[0] == n % 256 && s[1] == a % 256 && s[2] == b % 256 && s[3] == c % 256;
    assert c < 256;
    assert n == 256 * a + n % 256 && a == 256 * b + a % 256 && b == 256 * c + b % 256;
  }

  lemma ValueRoundTrip(f: Field, rest: Text)
    requires WellFormed(f)
    ensures DecodeValue(WireType(f.value), EncodeValue(f.value) + rest) == Some((f.value, rest))
  {
    match f.value {
      case Varint(n) => VarintRoundTrip(n, rest);
      case Fixed64(raw) => assert (raw + rest)[..8] == raw && (raw + rest)[8..] == rest;
      case Bytes(data) =>
        VarintRoundTrip(|data|, data + rest);
        assert EncodeVarint(|data|) + data + rest == EncodeVarint(|data|) + (data + rest);
        assert (data + rest)[..|data|] == data && (data + rest)[|data|..] == rest;
      case Fixed32(n) =>
        Fixed32RoundTrip(n, rest);
        assert (LittleEndian32(n) + rest)[4..] == rest;
    }
  }

  lemma FieldRoundTrip(f: Field, rest: Text)
    requires WellFormed(f)
    ensures DecodeField(EncodeField(f) + rest) == Some((f, rest))
  {
    var key, body := 8 * f.tag + WireType(f.value), EncodeValue(f.value);
    assert EncodeField(f) + rest == EncodeVarint(key) + (body + rest);
    assert key / 8 == f.tag && key % 8 == WireType(f.value);
    VarintRoundTrip(key, body + rest);
    ValueRoundTrip(f, rest);
  }

  /** Any list of well-formed fields survives the wire, in order. */
  lemma {:induction false} FieldsRoundTrip(fs: seq<Field>)
    requires AllWellFormed(fs)
    ensures DecodeFields(EncodeFields(fs)) == Some(fs)
  {
    if fs != [] {
      FieldsRoundTrip(fs[1..]);
      FieldRoundTrip(fs[0], EncodeFields(fs[1..]));
      assert fs == [fs[0]] + fs[1..];
    }
  }

  lemma {:induction false} PayloadIsShorter(fs: seq<Field>, i: nat)
    requires i < |fs|
    ensures fs[i].value.Bytes? ==> |fs[i].value.data| < |EncodeFields(fs)|
  {
    if i > 0 { PayloadIsShorter(fs[1..], i - 1); }
  }

  /** A key beyond 32 bits, a zero field number and an unknown wire type are refused. */
  lemma BadKeyIsRefused(key: nat, rest: Text)
    requires key < U64 && (key >= U32 || key / 8 == 0 || key % 8 in {6, 7})
    ensures DecodeField(EncodeVarint(key) + rest) == None
  {
    VarintRoundTrip(key, rest);
  }

  /** A length beyond the end of the input is refused. */
  lemma TruncatedIsRefused(tag: nat, n: nat, rest: Text)
    requires 1 <= tag < U32 / 8 && |rest| < n < U64
    ensures DecodeField(EncodeVarint(8 * tag + 2) + (EncodeVarint(n) + rest)) == None
  {
    VarintRoundTrip(8 * tag + 2, EncodeVarint(n) + rest);
    VarintRoundTrip(n, rest);
    assert (8 * tag + 2) / 8 == tag && (8 * tag + 2) % 8 == 2;
  }

  /** Small fields byte by byte. */
  lemma SmallBytes(tag: nat, data: Text)
    requires tag < 15 && |data| < 128
    ensures EncodeField(Field(tag, Bytes(data))) == [8 * tag + 2, |data|] + data
  {}

  lemma SmallVarint(tag: nat, n: nat)
    requires tag < 15 && n < 128
    ensures EncodeField(Field(tag, Varint(n))) == [8 * tag, n]
  {}

  lemma SmallFixed32(tag: nat, n: nat)
    requires tag < 15
    ensures EncodeField(Field(tag, Fixed32(n))) == [8 * tag + 5] + LittleEndian32(n)
  {}

  /** The worked examples of the Protocol Buffers encoding guide, and a little-endian fixed32. */
  lemma WireExamples()
    ensures EncodeVarint(300) == [0xAC, 0x02]
    ensures EncodeField(Field(1, Varint(150))) == [0x08, 0x96, 0x01]
    ensures EncodeField(Field(2, Bytes([0x74, 0x65, 0x73, 0x74, 0x69, 0x6E, 0x67])))
            == [0x12, 0x07, 0x74, 0x65, 0x73, 0x74, 0x69, 0x6E, 0x67]
    ensures EncodeField(Field(1, Fixed32(0x0102_0304))) == [0x0D, 0x04, 0x03, 0x02, 0x01]
  {}

  // ---- Folding fields into a message -----------------------------------------------

  /** Merges the fields in order; the first one refused fails the message. */
  function MergeAll<M>(merge: (M, Field) -> Option<M>, m: M, fs: seq<Field>): Option<M> {
    if fs == [] then Some(m)
    else match merge(m, fs[0])
      case None => None
      case Some(next) => MergeAll(merge, next, fs[1..])
  }

  function DecodeMessage<M>(merge: (M, Field) -> Option<M>, empty: M, s: Text): Option<M> {
    match DecodeFields(s)
    case None => None
    case Some(fs) => MergeAll(merge, empty, fs)
  }

  lemma {:induction false} MergeSplits<M>(merge: (M, Field) -> Option<M>, m: M, a: seq<Field>, b: seq<Field>)
    ensures MergeAll(merge, m, a + b) ==
            match MergeAll(merge, m, a) { case None => None case Some(next) => MergeAll(merge, next, b) }
  {
    if a == [] {
      assert a + b == b;
    } else {
      assert (a + b)[1..] == a[1..] + b;
      match merge(m, a[0]) {
        case None =>
        case Some(next) => MergeSplits(merge, next, a[1..], b);
      }
    }
  }

  /** A merge that passes through these states ends in the last of them. */
  lemma {:induction false} MergeThrough<M>(merge: (M, Field) -> Option<M>, states: seq<M>, fs: seq<Field>)
    requires |states| == |fs| + 1
    requires forall i :: 0 <= i < |fs| ==> merge(states[i], fs[i]) == Some(states[i + 1])
    ensures MergeAll(merge, states[0], fs) == Some(states[|fs|])
    decreases |fs|
  {
    if fs != [] {
      assert merge(states[0], fs[0]) == Some(states[1]);
      forall i | 0 <= i < |fs[1..]| ensures merge(states[1..][i], fs[1..][i]) == Some(states[1..][i + 1]) {
        assert merge(states[i + 1], fs[i + 1]) == Some(states[i + 2]);
      }
      MergeThrough(merge, states[1..], fs[1..]);
    }
  }

  lemma MergeOne<M>(merge: (M, Field) -> Option<M>, m: M, f: Field)
    ensures MergeAll(merge, m, [f]) == merge(m, f)
  {
    assert [f][1..] == [];
    match merge(m, f) {
      case None =>
      case Some(next) => assert MergeAll(merge, next, []) == Some(next);
    }
  }

  /** A field a message ignores may stand anywhere in it. */
  lemma IgnoredFieldChangesNothing<M(!new)>(merge: (M, Field) -> Option<M>, m: M, a: seq<Field>, f: Field,
                                            b: seq<Field>)
    requires forall x :: merge(x, f) == Some(x)
    ensures MergeAll(merge, m, a + [f] + b) == MergeAll(merge, m, a + b)
  {
    assert a + [f] + b == a + ([f] + b);
    MergeSplits(merge, m, a, [f] + b);
    MergeSplits(merge, m, a, b);
    match MergeAll(merge, m, a) {
      case None =>
      case Some(next) =>
        MergeSplits(merge, next, [f], b);
        MergeOne(merge, next, f);
    }
  }

  // ---- Scalar conversions ----------------------------------------------------------

  predicate IsI32(i: int) { -0x8000_0000 <= i < 0x8000_0000 }

  /** An int32 travels sign-extended to 64 bits. */
  function I32ToVarint(i: int): (n: nat)
    requires IsI32(i)
    ensures n < U64
  {
    if i >= 0 then i else i + U64
  }

  function VarintToI32(n: nat): (i: int)
    ensures IsI32(i)
  {
    var low := n % U32;
    if low >= 0x8000_0000 then low - U32 else low
  }

  lemma I32RoundTrip(i: int)
    requires IsI32(i)
    ensures VarintToI32(I32ToVarint(i)) == i
  {
    if i < 0 { assert (i + U64) % U32 == i + U32; }
  }
}
