/**
 * Positional numerals, and the two text forms of a digest built on bytes: lower-case
 * hex and Base58 with the Bitcoin alphabet.
 */
module Numerals {
  import opened Options
  import opened Utf8
  import opened Sequences

  // ---- Numerals in any base, most significant digit first --------------------------

  predicate AreDigits(base: nat, ds: seq<nat>) { forall i :: 0 <= i < |ds| ==> ds[i] < base }

  function ValueOf(base: nat, ds: seq<nat>): nat {
    if ds == [] then 0 else ValueOf(base, ds[..|ds| - 1]) * base + ds[|ds| - 1]
  }

  /** The digits of `n` without a leading zero; none for zero. */
  function DigitsOf(base: nat, n: nat): (ds: seq<nat>)
    requires base >= 2
    ensures AreDigits(base, ds) && (ds == [] || ds[0] != 0)
  {
    if n == 0 then [] else DigitsOf(base, n / base) + [n % base]
  }

  lemma DivMod(q: nat, base: nat, d: nat)
    requires d < base
    ensures (q * base + d) / base == q && (q * base + d) % base == d
  {
    var n := q * base + d;
    assert n == (n / base) * base + n % base;
    var k: int := n / base - q;
    assert k * base == (n / base) * base - q * base;
    assert k >= 1 ==> k * base >= base;
    assert k <= -1 ==> k * base <= 0 - base;
  }

  lemma {:induction false} ValueOfDigits(base: nat, n: nat)
    requires base >= 2
    ensures ValueOf(base, DigitsOf(base, n)) == n
  {
    if n > 0 {
      var q, r := n / base, n % base;
      assert q < n && n == q * base + r by { QuotientShrinks(n, base); }
      ValueOfDigits(base, q);
      ValueOfAppend(base, DigitsOf(base, q), r);
    }
  }

  lemma QuotientShrinks(n: nat, base: nat)
    requires n > 0 && base >= 2
    ensures n / base < n && n == (n / base) * base + n % base
  {}

  lemma ValueOfAppend(base: nat, ds: seq<nat>, d: nat)
    ensures ValueOf(base, ds + [d]) == ValueOf(base, ds) * base + d
  {
    assert (ds + [d])[..|ds|] == ds;
  }

  lemma DigitsOfAppend(base: nat, v: nat, d: nat)
    requires base >= 2 && d < base && v + d > 0
    ensures v * base + d > 0 && DigitsOf(base, v * base + d) == DigitsOf(base, v) + [d]
  {
    PositiveNumeral(v, base, d);
    DivMod(v, base, d);
    DigitsUnfold(base, v * base + d);
  }

  lemma PositiveNumeral(v: nat, base: nat, d: nat)
    requires base >= 1 && v + d > 0
    ensures v * base + d > 0
  {
    assert v > 0 ==> v * base >= base;
  }

  lemma DigitsUnfold(base: nat, n: nat)
    requires base >= 2 && n > 0
    ensures DigitsOf(base, n) == DigitsOf(base, n / base) + [n % base]
  {}

  /** A numeral without a leading zero is the only one for its value. */
  lemma {:induction false} DigitsOfValue(base: nat, ds: seq<nat>)
    requires base >= 2 && AreDigits(base, ds) && (ds == [] || ds[0] != 0)
    ensures DigitsOf(base, ValueOf(base, ds)) == ds
    ensures ds != [] ==> ValueOf(base, ds) > 0
  {
    if ds != [] {
      var init, last := ds[..|ds| - 1], ds[|ds| - 1];
      DigitsOfValue(base, init);
      DigitsOfAppend(base, ValueOf(base, init), last);
      assert ds == init + [last];
    }
  }

  // ---- Base58 ----------------------------------------------------------------------

  function Base58Char(d: nat): Byte
    requires d < 58
  {
    if d < 9 then 0x31 + d
    else if d < 17 then 0x41 + (d - 9)
    else if d < 22 then 0x4A + (d - 17)
    else if d < 33 then 0x50 + (d - 22)
    else if d < 44 then 0x61 + (d - 33)
    else 0x6D + (d - 44)
  }

  /** The Bitcoin alphabet, in digit order. */
  const BASE58_ALPHABET: string :=
    "123456789" + "ABCDEFGH" + "JKLMN" + "PQRSTUVWXYZ" + "abcdefghijk" + "mnopqrstuvwxyz"

  lemma Base58Alphabet(d: nat)
    requires d < 58
    ensures |BASE58_ALPHABET| == 58 && Base58Char(d) == BASE58_ALPHABET[d] as int
  {
    var letter := BASE58_ALPHABET[d];
    if d < 9 {
      assert letter == "123456789"[d];
    } else if d < 17 {
      assert letter == "ABCDEFGH"[d - 9];
    } else if d < 22 {
      assert letter == "JKLMN"[d - 17];
    } else if d < 33 {
      assert letter == "PQRSTUVWXYZ"[d - 22];
    } else if d < 44 {
      assert letter == "abcdefghijk"[d - 33];
    } else {
      assert letter == "mnopqrstuvwxyz"[d - 44];
    }
  }

  function Base58Digit(c: Byte): (d: Option<nat>)
    ensures d.Some? ==> d.value < 58
  {
    if 0x31 <= c <= 0x39 then Some(c - 0x31)
    else if 0x41 <= c <= 0x48 then Some(c - 0x41 + 9)
    else if 0x4A <= c <= 0x4E then Some(c - 0x4A + 17)
    else if 0x50 <= c <= 0x5A then Some(c - 0x50 + 22)
    else if 0x61 <= c <= 0x6B then Some(c - 0x61 + 33)
    else if 0x6D <= c <= 0x7A then Some(c - 0x6D + 44)
    else None
  }

  function Zeros(ds: seq<nat>): (z: nat)
    ensures z <= |ds|
    ensures forall i :: 0 <= i < z ==> ds[i] == 0
    ensures z < |ds| ==> ds[z] != 0
  {
    if ds == [] || ds[0] != 0 then 0 else 1 + Zeros(ds[1..])
  }

  /** Rewrites a numeral in another base, keeping its leading zeros one for one. */
  function Rebase(from: nat, to: nat, ds: seq<nat>): (r: seq<nat>)
    requires to >= 2
    ensures AreDigits(to, r)
  {
    Repeat(0, Zeros(ds)) + DigitsOf(to, ValueOf(from, ds))
  }

  lemma {:induction false} LeadingZerosAreWorthless(base: nat, z: nat, ds: seq<nat>)
    ensures ValueOf(base, Repeat(0, z) + ds) == ValueOf(base, ds)
    decreases z + |ds|
  {
    var s := Repeat(0, z) + ds;
    if ds != [] {
      assert s[..|s| - 1] == Repeat(0, z) + ds[..|ds| - 1];
      LeadingZerosAreWorthless(base, z, ds[..|ds| - 1]);
    } else if z > 0 {
      assert s[..|s| - 1] == Repeat(0, z - 1) + ds;
      LeadingZerosAreWorthless(base, z - 1, ds);
    } else {
      assert s == ds;
    }
  }

  lemma {:induction false} ZerosOf(z: nat, ds: seq<nat>)
    requires ds == [] || ds[0] != 0
    ensures Zeros(Repeat(0, z) + ds) == z
  {
    var s := Repeat(0, z) + ds;
    if z > 0 {
      ZerosOf(z - 1, ds);
      assert s[1..] == Repeat(0, z - 1) + ds;
    } else {
      assert s == ds;
    }
  }

  /** Changing base and back is the identity on every numeral. */
  lemma RebaseRoundTrip(from: nat, to: nat, ds: seq<nat>)
    requires from >= 2 && to >= 2 && AreDigits(from, ds)
    ensures Rebase(to, from, Rebase(from, to, ds)) == ds
  {
    var z := Zeros(ds);
    var tail := ds[z..];
    assert ds == Repeat(0, z) + tail;
    LeadingZerosAreWorthless(from, z, tail);
    DigitsOfValue(from, tail);
    var out := DigitsOf(to, ValueOf(from, tail));
    ValueOfDigits(to, ValueOf(from, tail));
    LeadingZerosAreWorthless(to, z, out);
    ZerosOf(z, out);
  }

  function Base58Encode(bytes: Text): Text {
    var ds := Rebase(256, 58, bytes);
    seq(|ds|, i requires 0 <= i < |ds| => Base58Char(ds[i]))
  }

  function Base58Digits(s: Text): (r: Option<seq<nat>>)
    ensures r.Some? ==> |r.value| == |s| && AreDigits(58, r.value)
  {
    if s == [] then Some([])
    else match (Base58Digits(s[..|s| - 1]), Base58Digit(s[|s| - 1]))
      case (Some(ds), Some(d)) => Some(ds + [d])
      case _ => None
  }

  function Base58Decode(s: Text): Option<Text> {
    match Base58Digits(s)
    case None => None
    case Some(ds) =>
      var bytes := Rebase(58, 256, ds);
      Some(seq(|bytes|, i requires 0 <= i < |bytes| => bytes[i] as Byte))
  }

  lemma {:induction false} DigitsNameTheirChars(s: Text, i: nat)
    requires Base58Digits(s).Some? && i < |s|
    ensures Base58Char(Base58Digits(s).value[i]) == s[i]
  {
    if i < |s| - 1 { DigitsNameTheirChars(s[..|s| - 1], i); }
  }

  lemma {:induction false} CharsReadBack(ds: seq<nat>, s: Text)
    requires AreDigits(58, ds) && |s| == |ds|
    requires forall i :: 0 <= i < |ds| ==> s[i] == Base58Char(ds[i])
    ensures Base58Digits(s) == Some(ds)
  {
    if ds != [] {
      CharsReadBack(ds[..|ds| - 1], s[..|s| - 1]);
      assert ds == ds[..|ds| - 1] + [ds[|ds| - 1]];
    }
  }

  /** Base58 text decodes exactly when all of it is written in the alphabet. */
  lemma {:induction false} Base58DecodesExactly(s: Text)
    ensures Base58Decode(s).Some? <==>
            forall i :: 0 <= i < |s| ==> exists d: nat :: d < 58 && s[i] == BASE58_ALPHABET[d] as int
  {
    if s != [] {
      var n := |s| - 1;
      Base58DecodesExactly(s[..n]);
      InAlphabet(s[n]);
      assert s == s[..n] + [s[n]];
    }
  }

  lemma InAlphabet(c: Byte)
    ensures Base58Digit(c).Some? <==> exists d: nat :: d < 58 && c == BASE58_ALPHABET[d] as int
  {
    if Base58Digit(c).Some? {
      Base58Alphabet(Base58Digit(c).value);
    }
    forall d: nat | d < 58 && c == BASE58_ALPHABET[d] as int ensures Base58Digit(c).Some? {
      Base58Alphabet(d);
    }
  }

  /** Base58 text that decodes at all re-encodes to itself. */
  lemma Base58TextRoundTrip(s: Text)
    requires Base58Decode(s).Some?
    ensures Base58Encode(Base58Decode(s).value) == s
  {
    var ds := Base58Digits(s).value;
    var bytes := Base58Decode(s).value;
    assert bytes == Rebase(58, 256, ds);
    RebaseRoundTrip(58, 256, ds);
    forall i | 0 <= i < |s| ensures Base58Encode(bytes)[i] == s[i] { DigitsNameTheirChars(s, i); }
  }

  /** Every byte string survives Base58. */
  lemma Base58RoundTrip(bytes: Text)
    ensures Base58Decode(Base58Encode(bytes)) == Some(bytes)
  {
    var ds := Rebase(256, 58, bytes);
    CharsReadBack(ds, Base58Encode(bytes));
    RebaseRoundTrip(256, 58, bytes);
    assert Base58Decode(Base58Encode(bytes)).value == bytes;
  }

  // ---- Hex -------------------------------------------------------------------------

  function HexChar(d: nat): Byte
    requires d < 16
  {
    if d < 10 then 0x30 + d else 0x61 + (d - 10)
  }

  function HexDigit(c: Byte): (d: Option<nat>)
    ensures d.Some? ==> d.value < 16
  {
    if 0x30 <= c <= 0x39 then Some(c - 0x30)
    else if 0x61 <= c <= 0x66 then Some(c - 0x61 + 10)
    else if 0x41 <= c <= 0x46 then Some(c - 0x41 + 10)
    else None
  }

  function HexEncode(bytes: Text): (s: Text)
    ensures |s| == 2 * |bytes|
  {
    if bytes == [] then [] else [HexChar(bytes[0] / 16), HexChar(bytes[0] % 16)] + HexEncode(bytes[1..])
  }

  function HexDecode(s: Text): (r: Option<Text>)
    ensures r.Some? ==> |s| == 2 * |r.value|
  {
    if s == [] then Some([])
    else if |s| == 1 then None
    else match (HexDigit(s[0]), HexDigit(s[1]), HexDecode(s[2..]))
      case (Some(high), Some(low), Some(rest)) => Some([16 * high + low] + rest)
      case _ => None
  }

  lemma HexDigitRoundTrip(d: nat)
    requires d < 16
    ensures HexDigit(HexChar(d)) == Some(d)
  {}

  lemma {:induction false} HexRoundTrip(bytes: Text)
    ensures HexDecode(HexEncode(bytes)) == Some(bytes)
  {
    if bytes != [] {
      HexRoundTrip(bytes[1..]);
      assert HexEncode(bytes)[2..] == HexEncode(bytes[1..]);
      HexDigitRoundTrip(bytes[0] / 16);
      HexDigitRoundTrip(bytes[0] % 16);
      assert bytes == [bytes[0]] + bytes[1..];
    }
  }

  lemma {:induction false} HexHasNoX(bytes: Text, i: nat)
    requires i < |HexEncode(bytes)|
    ensures HexEncode(bytes)[i] != 0x78
  {
    if i >= 2 { HexHasNoX(bytes[1..], i - 2); }
  }

  /** The sixteen digits of canonical hex. */
  const HEX_DIGITS: string := "0123456789abcdef"

  lemma HexAlphabet(d: nat)
    requires d < 16
    ensures HexChar(d) == HEX_DIGITS[d] as int
  {}

  /** Every character of an encoding is one of the sixteen, lower case. */
  lemma {:induction false} HexIsLowerCase(bytes: Text, i: nat)
    requires i < |HexEncode(bytes)|
    ensures exists d: nat :: d < 16 && HexEncode(bytes)[i] == HEX_DIGITS[d] as int
  {
    if i >= 2 {
      HexIsLowerCase(bytes[1..], i - 2);
    } else {
      var d := if i == 0 then bytes[0] / 16 else bytes[0] % 16;
      HexAlphabet(d);
    }
  }

  predicate IsHexDigit(c: Byte) { 0x30 <= c <= 0x39 || 0x41 <= c <= 0x46 || 0x61 <= c <= 0x66 }

  /** Hex of either case is read, and nothing else: an even number of hex digits. */
  lemma {:induction false} HexDecodesExactly(s: Text)
    ensures HexDecode(s).Some? <==> |s| % 2 == 0 && forall i :: 0 <= i < |s| ==> IsHexDigit(s[i])
  {
    if |s| >= 2 {
      HexDecodesExactly(s[2..]);
      assert forall i :: 0 <= i < |s[2..]| ==> s[2..][i] == s[i + 2];
      if HexDecode(s).Some? {
        forall i | 0 <= i < |s| ensures IsHexDigit(s[i]) { if i >= 2 { assert s[2..][i - 2] == s[i]; } }
      }
    }
  }

  /** Reading does not depend on the case of the digits. */
  function LowerHex(c: Byte): Byte { if 0x41 <= c <= 0x46 then c + 32 else c }

  lemma {:induction false} HexIgnoresCase(s: Text, t: Text)
    requires |s| == |t| && forall i :: 0 <= i < |s| ==> LowerHex(s[i]) == LowerHex(t[i])
    ensures HexDecode(s) == HexDecode(t)
  {
    if |s| >= 2 {
      HexIgnoresCase(s[2..], t[2..]);
      assert HexDigit(s[0]) == HexDigit(t[0]) && HexDigit(s[1]) == HexDigit(t[1]);
    }
  }

  const HEX_PREFIX: Text := [0x30, 0x78]

  /** Rust's `trim_start_matches("0x")`: strips the prefix as often as it repeats. */
  function TrimHexPrefix(s: Text): Text {
    if |s| >= 2 && s[..2] == HEX_PREFIX then TrimHexPrefix(s[2..]) else s
  }

  lemma TrimOnce(bytes: Text)
    ensures TrimHexPrefix(HEX_PREFIX + HexEncode(bytes)) == HexEncode(bytes)
  {
    var h := HexEncode(bytes);
    assert (HEX_PREFIX + h)[..2] == HEX_PREFIX && (HEX_PREFIX + h)[2..] == h;
    if |h| >= 2 { HexHasNoX(bytes, 1); assert h[..2][1] == h[1] && HEX_PREFIX[1] == 0x78; }
    assert TrimHexPrefix(h) == h;
  }
}
