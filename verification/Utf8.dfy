/** UTF-8 as bytes: the well-formed sequences of section 4 of RFC 3629, and character boundaries. */
module Utf8 {

  type Byte = b: int | 0 <= b < 256
  type Text = seq<Byte>

  predicate IsContinuation(b: Byte) { 0x80 <= b <= 0xBF }

  /** Bytes in the character that starts `s`, or 0 when no well-formed one does. */
  function CharLength(s: Text): (n: nat)
    ensures n <= 4 && n <= |s|
  {
    if |s| == 0 then 0
    else if s[0] <= 0x7F then 1
    else if 0xC2 <= s[0] <= 0xDF then
      if |s| >= 2 && IsContinuation(s[1]) then 2 else 0
    else if 0xE0 <= s[0] <= 0xEF then
      if |s| >= 3 && SecondOfThree(s[0], s[1]) && IsContinuation(s[2]) then 3 else 0
    else if 0xF0 <= s[0] <= 0xF4 then
      if |s| >= 4 && SecondOfFour(s[0], s[1]) && IsContinuation(s[2]) && IsContinuation(s[3]) then 4 else 0
    else 0
  }

  predicate SecondOfThree(lead: Byte, b: Byte) {
    && IsContinuation(b)
    && (lead == 0xE0 ==> b >= 0xA0)
    && (lead == 0xED ==> b <= 0x9F)
  }

  predicate SecondOfFour(lead: Byte, b: Byte) {
    && IsContinuation(b)
    && (lead == 0xF0 ==> b >= 0x90)
    && (lead == 0xF4 ==> b <= 0x8F)
  }

  predicate Valid(s: Text)
    decreases |s|
  {
    s == [] || (CharLength(s) > 0 && Valid(s[CharLength(s)..]))
  }

  /** Rust's `str::is_char_boundary`. */
  predicate IsBoundary(s: Text, i: nat) {
    i == 0 || i == |s| || (i < |s| && !IsContinuation(s[i]))
  }

  /** Rust's `str::floor_char_boundary`: the last boundary at or before `i`. */
  function FloorBoundary(s: Text, i: nat): (f: nat)
    ensures f <= i && f <= |s| && IsBoundary(s, f)
    ensures forall j :: f < j <= i && j <= |s| ==> !IsBoundary(s, j)
  {
    if i >= |s| then |s| else if IsBoundary(s, i) then i else FloorBoundary(s, i - 1)
  }

  lemma StartsAtBoundary(s: Text)
    requires Valid(s) && s != []
    ensures !IsContinuation(s[0])
  {}

  lemma FloorIsUnique(s: Text, i: nat, f: nat)
    requires f <= i && f <= |s| && IsBoundary(s, f)
    requires forall j :: f < j <= i && j <= |s| ==> !IsBoundary(s, j)
    ensures FloorBoundary(s, i) == f
  {}

  lemma CharLengthIsLocal(s: Text, t: Text)
    requires CharLength(s) > 0
    ensures CharLength(s + t) == CharLength(s)
  {}

  /** Valid texts concatenate to a valid text. */
  lemma {:induction false} ValidConcat(s: Text, t: Text)
    requires Valid(s) && Valid(t)
    ensures Valid(s + t)
    decreases |s|
  {
    if s == [] {
      assert s + t == t;
    } else {
      var n := CharLength(s);
      CharLengthIsLocal(s, t);
      ValidConcat(s[n..], t);
      assert (s + t)[n..] == s[n..] + t;
    }
  }

  /** In valid text a boundary is at most three bytes back. */
  lemma {:induction false} FloorIsNear(s: Text, i: nat)
    requires Valid(s) && i <= |s|
    ensures FloorBoundary(s, i) + 3 >= i
    decreases |s|
  {
    if s != [] {
      var n := CharLength(s);
      if i >= n {
        var rest := s[n..];
        FloorIsNear(rest, i - n);
        var f := FloorBoundary(rest, i - n);
        if f == 0 && rest != [] { StartsAtBoundary(rest); }
        assert IsBoundary(s, n + f) by { if f < |rest| { assert rest[f] == s[n + f]; } }
      }
    }
  }

  /** Cutting after a valid suffix begins is cutting that suffix. */
  lemma FloorInSuffix(s: Text, t: Text, i: nat)
    requires Valid(t) && |s| <= i < |s| + |t|
    ensures FloorBoundary(s + t, i) == |s| + FloorBoundary(t, i - |s|)
  {
    var f := FloorBoundary(t, i - |s|);
    StartsAtBoundary(t);
    assert forall j :: 0 <= j < |t| ==> (s + t)[|s| + j] == t[j];
    assert IsBoundary(s + t, |s| + f);
    forall j | |s| + f < j <= i && j <= |s + t|
      ensures !IsBoundary(s + t, j)
    {
      assert !IsBoundary(t, j - |s|);
    }
    FloorIsUnique(s + t, i, |s| + f);
  }

  /** Text past the cut does not move it. */
  lemma FloorInPrefix(s: Text, t: Text, i: nat)
    requires i < |s|
    ensures FloorBoundary(s + t, i) == FloorBoundary(s, i)
  {
    var f := FloorBoundary(s, i);
    assert IsBoundary(s + t, f);
    forall j | f < j <= i
      ensures !IsBoundary(s + t, j)
    {
      assert !IsBoundary(s, j) && (s + t)[j] == s[j];
    }
    FloorIsUnique(s + t, i, f);
  }
}
