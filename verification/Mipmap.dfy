/**
 * The shape of the mipmap pyramid (choreo-content/src/image.rs).
 *
 * A level's side is `(original as f32 / 2^level as f32).round().max(1.0) as u32`.
 * Every step of that expression but the first is exact, because the divisor is a
 * power of two; the conversion to f32 keeps 24 significant bits, rounding to the
 * nearest with ties to even, and the conversion back saturates.
 */
module Mipmap {
  import opened Arithmetic

  const MIN_LEVEL_DIMENSION: nat := 64
  const SIGNIFICAND: nat := 0x100_0000        // 2^24

  /** How many low bits of `n` do not fit a 24-bit significand. */
  function Excess(n: nat): (e: nat)
  {
    if n < SIGNIFICAND then 0 else 1 + Excess(n / 2)
  }

  /** `n / s` rounded to the nearest integer, ties to even. */
  function NearestEven(n: nat, s: nat): (q: nat)
    requires s >= 1
  {
    var q, r := n / s, n % s;
    if 2 * r < s || (2 * r == s && q % 2 == 0) then q else q + 1
  }

  /** The value of `n as f32`, which is always an integer. */
  function AsF32(n: nat): (f: nat)
  {
    NearestEven(n, Pow2(Excess(n))) * Pow2(Excess(n))
  }

  /** `n / s` rounded to the nearest integer, ties away from zero (`f32::round`). */
  function RoundDiv(n: nat, s: nat): (q: nat)
    requires s >= 1
  {
    (2 * n + s) / (2 * s)
  }

  function LevelDimension(original: nat, level: nat): (d: nat)
  {
    Min(Max(RoundDiv(AsF32(original), Pow2(level)), 1), U32 - 1)
  }

  /** Whether a level of this size ends the pyramid. */
  predicate Small(dims: (nat, nat)) {
    dims.0 <= MIN_LEVEL_DIMENSION || dims.1 <= MIN_LEVEL_DIMENSION
  }

  function Level(width: nat, height: nat, k: nat): (nat, nat) {
    (LevelDimension(width, k), LevelDimension(height, k))
  }

  // ---- The conversion to f32 -------------------------------------------------------

  /** A wide integer keeps exactly 24 significant bits. */
  lemma {:induction false} ExcessBounds(n: nat)
    ensures n < SIGNIFICAND * Pow2(Excess(n))
    ensures n >= SIGNIFICAND ==> Excess(n) >= 1 && n >= SIGNIFICAND / 2 * Pow2(Excess(n))
    ensures n < SIGNIFICAND ==> Excess(n) == 0
  {
    if n >= SIGNIFICAND {
      ExcessBounds(n / 2);
      if n / 2 < SIGNIFICAND {
        assert Excess(n) == 1 && Pow2(1) == 2;
      } else {
        var p := Pow2(Excess(n / 2));
        assert Pow2(Excess(n)) == 2 * p;
        assert n / 2 < SIGNIFICAND * p && n / 2 >= SIGNIFICAND / 2 * p;
      }
    }
  }

  lemma {:induction false} ExcessBelow(n: nat, k: nat)
    requires n < SIGNIFICAND * Pow2(k)
    ensures Excess(n) <= k
  {
    if n >= SIGNIFICAND {
      assert Pow2(0) == 1;
      assert Pow2(k) == 2 * Pow2(k - 1);
      ExcessBelow(n / 2, k - 1);
    }
  }

  lemma NearestEvenIsNear(n: nat, s: nat)
    requires s >= 1
    ensures 2 * Dist(NearestEven(n, s) * s, n) <= s
    ensures n / s <= NearestEven(n, s) <= n / s + 1
  {
    var q, r := n / s, n % s;
    assert n == q * s + r;
    assert (q + 1) * s == q * s + s;
  }

  /** No multiple of `s` is nearer. */
  lemma NearestEvenIsNearest(n: nat, s: nat, m: nat)
    requires s >= 1
    ensures Dist(NearestEven(n, s) * s, n) <= Dist(m * s, n)
  {
    NearestEvenIsNear(n, s);
    var q, r := n / s, n % s;
    assert n == q * s + r;
    assert (q + 1) * s == q * s + s;
    if m <= q { Scale(s, m, q); } else { Scale(s, q + 1, m); }
  }

  /**
   * `as f32` picks a representable value nearest the integer: no other value
   * with a 24-bit significand is closer.
   */
  lemma F32IsNearest(n: nat, m: nat, e: nat)
    requires m < SIGNIFICAND
    ensures Dist(AsF32(n), n) <= Dist(m * Pow2(e), n)
  {
    var x := Excess(n);
    var s := Pow2(x);
    if e >= x {
      var t := m * Pow2(e - x);
      assert m * Pow2(e) == t * s by {
        Pow2Adds(x, e - x);
        Reassociate(m, Pow2(e - x), s);
      }
      NearestEvenIsNearest(n, s, t);
    } else {
      FinerGridIsFarther(n, m, e);
    }
  }

  /** The value picked has a 24-bit significand, which is even after a tie. */
  lemma F32IsRepresentable(n: nat) returns (q: nat)
    ensures q <= SIGNIFICAND && AsF32(n) == q * Pow2(Excess(n))
    ensures 2 * (n % Pow2(Excess(n))) == Pow2(Excess(n)) ==> q % 2 == 0
  {
    var s := Pow2(Excess(n));
    assert n / s < SIGNIFICAND by {
      ExcessBounds(n);
      QuotientBelow(n, s, SIGNIFICAND);
    }
    NearestEvenTies(n, s);
    q := NearestEven(n, s);
  }

  lemma NearestEvenTies(n: nat, s: nat)
    requires s >= 1
    ensures NearestEven(n, s) <= n / s + 1
    ensures 2 * (n % s) == s ==> NearestEven(n, s) % 2 == 0
  {}

  /** A value on a finer grid than `n` needs lies below the significand's range. */
  lemma FinerGridIsFarther(n: nat, m: nat, e: nat)
    requires m < SIGNIFICAND && e < Excess(n)
    ensures Dist(AsF32(n), n) <= Dist(m * Pow2(e), n)
  {
    var s, half := Pow2(Excess(n)), SIGNIFICAND / 2;
    NearestEvenIsNearest(n, s, half);
    FinerGridIsBelow(n, m, e);
    DistBelow(m * Pow2(e), half * s, n);
  }

  lemma FinerGridIsBelow(n: nat, m: nat, e: nat)
    requires m < SIGNIFICAND && e < Excess(n)
    ensures m * Pow2(e) <= SIGNIFICAND / 2 * Pow2(Excess(n)) <= n
  {
    var p := Pow2(Excess(n) - 1);
    assert SIGNIFICAND / 2 * Pow2(Excess(n)) <= n by { ExcessBounds(n); }
    assert m * Pow2(e) <= SIGNIFICAND * p by {
      Pow2Grows(e, Excess(n) - 1);
      Product(m, SIGNIFICAND, Pow2(e), p);
    }
    HalfOfTwice(p);
  }

  lemma HalfOfTwice(p: nat)
    ensures SIGNIFICAND * p == SIGNIFICAND / 2 * (2 * p)
  {}

  lemma DistBelow(v: nat, w: nat, n: nat)
    requires v <= w <= n
    ensures Dist(w, n) <= Dist(v, n)
  {}

  lemma QuotientBelow(n: nat, s: nat, limit: nat)
    requires s >= 1 && n < limit * s
    ensures n / s < limit
  {
    assert n == (n / s) * s + n % s;
    if n / s >= limit { Scale(s, limit, n / s); }
  }

  lemma ExactBelowSignificand(n: nat)
    requires n < SIGNIFICAND
    ensures AsF32(n) == n
  {
    assert Excess(n) == 0 && Pow2(0) == 1;
  }

  /** The conversion moves an integer by at most one part in 2^24. */
  lemma F32Error(n: nat)
    requires n < U32
    ensures SIGNIFICAND * Dist(AsF32(n), n) <= n
    ensures AsF32(n) <= U32
  {
    ExcessBounds(n);
    var s := Pow2(Excess(n));
    NearestEvenIsNear(n, s);
    if n < SIGNIFICAND {
      ExactBelowSignificand(n);
    } else {
      F32IsNearest(n, 1, 32);
      Pow2Is32();
    }
  }

  lemma Pow2Is32()
    ensures Pow2(8) == 256 && Pow2(26) == 0x400_0000 && Pow2(32) == U32
    ensures Pow2(18) == 0x4_0000
  {
    assert Pow2(8) == 256;
    Pow2Adds(8, 8);
    Pow2Adds(16, 16);
    assert Pow2(2) == 4;
    Pow2Adds(16, 2);
    Pow2Adds(18, 8);
  }

  // ---- One level -------------------------------------------------------------------

  lemma RoundDivIsNear(n: nat, s: nat)
    requires s >= 1
    ensures 2 * n < 2 * (RoundDiv(n, s) * s) + s
    ensures 2 * (RoundDiv(n, s) * s) <= 2 * n + s
  {
    var q, t := RoundDiv(n, s), 2 * s;
    assert 2 * n + s == q * t + (2 * n + s) % t;
    assert q * t == 2 * (q * s);
  }

  /** Division by one is exact, so level 0 is the converted original. */
  lemma RoundDivByOne(n: nat)
    ensures RoundDiv(n, 1) == n
  {}

  /**
   * A level's side is within one half of `AsF32(original) / 2^k`, unless it was
   * clamped to 1 or saturated.
   */
  lemma DimensionIsNear(original: nat, k: nat)
    requires original < U32
    ensures var d := LevelDimension(original, k);
            || 2 * Dist(d * Pow2(k), AsF32(original)) <= Pow2(k)
            || (d == 1 && 2 * AsF32(original) < Pow2(k))
            || (d == U32 - 1 && AsF32(original) == U32 && k == 0)
  {
    F32Error(original);
    var f, s := AsF32(original), Pow2(k);
    var q := RoundDiv(f, s);
    RoundDivIsNear(f, s);
    if q == 0 {
    } else if q >= U32 {
      if k == 0 {
        RoundDivByOne(f);
      } else {
        assert s >= 2 by { Pow2Grows(1, k); assert Pow2(1) == 2; }
        Scale(s, U32, q);
      }
    }
  }

  /**
   * For an original below 2^24 the conversion is exact: a side is within one half
   * of original / 2^k, or clamped to 1.
   */
  lemma SmallDimensionIsNear(original: nat, k: nat)
    requires original < SIGNIFICAND
    ensures var d := LevelDimension(original, k);
            || 2 * Dist(d * Pow2(k), original) <= Pow2(k)
            || (d == 1 && 2 * original < Pow2(k))
  {
    DimensionIsNear(original, k);
    ExactBelowSignificand(original);
  }

  /**
   * Level 0 is the original side, clamped to 1, exactly when the side is a whole
   * multiple of the last bit f32 keeps of it, or is the largest u32.
   */
  lemma LevelZeroIsOriginal(original: nat)
    requires original < U32
    ensures LevelDimension(original, 0) == Max(original, 1)
            <==> (original % Pow2(Excess(original)) == 0 || original == U32 - 1)
  {
    F32Error(original);
    RoundDivByOne(AsF32(original));
    ConversionIsExact(original, Pow2(Excess(original)));
    if original == U32 - 1 {
      LargestRoundsUp();
    } else if original == 0 {
      ExactBelowSignificand(0);
    }
  }

  /** For one: a side of 2^24 + 1 is planned one pixel smaller. */
  lemma LevelZeroCanShrink()
    ensures LevelDimension(SIGNIFICAND + 1, 0) == SIGNIFICAND
  {
    var n := SIGNIFICAND + 1;
    assert Excess(n / 2) == 0;
    assert Excess(n) == 1 && Pow2(1) == 2;
    assert NearestEven(n, 2) == SIGNIFICAND / 2;
    assert AsF32(n) == SIGNIFICAND;
    RoundDivByOne(SIGNIFICAND);
    assert Pow2(0) == 1;
  }

  lemma ConversionIsExact(n: nat, s: nat)
    requires s >= 1
    ensures NearestEven(n, s) * s == n <==> n % s == 0
  {
    var q, r := n / s, n % s;
    assert n == q * s + r;
    assert (q + 1) * s == q * s + s;
  }

  lemma LargestRoundsUp()
    ensures AsF32(U32 - 1) == U32
  {
    Pow2Is32();
    ExcessBelow(U32 - 1, 8);
    ExcessBounds(U32 - 1);
    var e := Excess(U32 - 1);
    assert Pow2(8) == 2 * Pow2(7);
    if e < 8 { Pow2Grows(e, 7); }
  }

  /** A side above the minimum is at least halved, up to rounding, by the next level. */
  lemma NextLevelIsSmaller(original: nat, k: nat)
    requires original < U32
    requires LevelDimension(original, k) > MIN_LEVEL_DIMENSION
    ensures LevelDimension(original, k + 1) < LevelDimension(original, k)
  {
    F32Error(original);
    assert Pow2(k + 1) == 2 * Pow2(k);
    HalvingRounds(AsF32(original), Pow2(k));
    QuotientBounded(AsF32(original), Pow2(k));
  }

  lemma HalvingRounds(f: nat, s: nat)
    requires s >= 1
    ensures 4 * RoundDiv(f, 2 * s) <= 2 * RoundDiv(f, s) + 3
  {
    var a, b := RoundDiv(f, s), RoundDiv(f, 2 * s);
    RoundDivIsNear(f, s);
    RoundDivIsNear(f, 2 * s);
    assert 2 * (b * (2 * s)) == s * (4 * b);
    assert 2 * (a * s) + 3 * s == s * (2 * a + 3);
    Cancel(s, 4 * b, 2 * a + 3);
  }

  lemma QuotientBounded(f: nat, s: nat)
    requires s >= 1 && f <= U32
    ensures RoundDiv(f, s) <= U32
  {
    RoundDivIsNear(f, s);
    Scale(U32, 1, s);
    if RoundDiv(f, s) > U32 { Scale(s, U32 + 1, RoundDiv(f, s)); }
  }

  /** A side still above the minimum at level `k` bounds `k`. */
  lemma LevelBound(original: nat, k: nat)
    requires original < U32
    requires LevelDimension(original, k) > MIN_LEVEL_DIMENSION
    ensures k < 26
    ensures original < SIGNIFICAND ==> k < 18
  {
    F32Error(original);
    var f, s := AsF32(original), Pow2(k);
    RoundDivIsNear(f, s);
    var q := RoundDiv(f, s);
    Scale(s, 65, q);
    assert 129 * s <= 2 * f;
    Pow2Is32();
    if k >= 26 { Pow2Grows(26, k); }
    if original < SIGNIFICAND && k >= 18 { ExactBelowSignificand(original); Pow2Grows(18, k); }
  }

  // ---- The whole plan --------------------------------------------------------------

  /** The pyramid a width and height call for, stated without the loop. */
  ghost predicate IsPyramid(width: nat, height: nat, plan: seq<(nat, nat)>) {
    && |plan| > 0
    && (forall k :: 0 <= k < |plan| ==> plan[k] == Level(width, height, k))
    && (forall k :: 0 <= k < |plan| - 1 ==> !Small(plan[k]))
    && Small(plan[|plan| - 1])
  }

  /**
   * Plans every level. Termination is part of the claim: the loop makes at most
   * 27 levels for any pair of u32 sides, 19 below 2^24, so the power of two in
   * `level_dimensions` stays far inside a u32.
   */
  method PlanLevels(width: nat, height: nat) returns (plan: seq<(nat, nat)>)
    requires width < U32 && height < U32
    ensures IsPyramid(width, height, plan)
    ensures |plan| <= 27
    ensures width < SIGNIFICAND || height < SIGNIFICAND ==> |plan| <= 19
  {
    plan := [];
    var level: nat := 0;
    while true
      invariant |plan| == level <= 26
      invariant width < SIGNIFICAND || height < SIGNIFICAND ==> level <= 18
      invariant forall k :: 0 <= k < level ==> plan[k] == Level(width, height, k) && !Small(plan[k])
      decreases 27 - level
    {
      var dims := (LevelDimension(width, level), LevelDimension(height, level));
      plan := plan + [dims];
      if dims.0 <= MIN_LEVEL_DIMENSION || dims.1 <= MIN_LEVEL_DIMENSION {
        break;
      }
      LevelBound(width, level);
      LevelBound(height, level);
      level := level + 1;
    }
  }

  /** Only one plan fits a pair of sides. */
  lemma PyramidIsUnique(width: nat, height: nat, p: seq<(nat, nat)>, q: seq<(nat, nat)>)
    requires IsPyramid(width, height, p) && IsPyramid(width, height, q)
    ensures p == q
  {
    var m := Min(|p|, |q|) - 1;
    assert p[m] == Level(width, height, m) == q[m];
  }

  /**
   * Both sides strictly decrease from level to level, every level but the last
   * exceeds 64 on both sides, and the last is at most 64 on one.
   */
  lemma {:induction false} PyramidShrinks(width: nat, height: nat, plan: seq<(nat, nat)>, i: nat, j: nat)
    requires width < U32 && height < U32
    requires IsPyramid(width, height, plan)
    requires i < j < |plan|
    ensures plan[i].0 > plan[j].0 && plan[i].1 > plan[j].1
    ensures plan[i].0 > 64 && plan[i].1 > 64
    ensures plan[|plan| - 1].0 <= 64 || plan[|plan| - 1].1 <= 64
    decreases j
  {
    assert plan[j - 1] == Level(width, height, j - 1) && !Small(plan[j - 1]) && !Small(plan[i]);
    assert plan[j] == Level(width, height, j);
    NextLevelIsSmaller(width, j - 1);
    NextLevelIsSmaller(height, j - 1);
    if i < j - 1 { PyramidShrinks(width, height, plan, i, j - 1); }
  }
}
