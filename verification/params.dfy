/** World constants of the small-world generators and the clamped cubic
    smoothstep used for the coast falloff. The two parameter classes of the
    repository agree on every constant they share, so they are defined once. */
module WorldParams {
  import opened Numeric

  const RADIUS: int := 512
  const SEA_LEVEL: int := 50
  const PLAINS_CENTER_RAD: int := 128

  const WORLD_HEIGHT: int := 384
  const BASE_SURFACE_Y: int := 63
  const BEDROCK_Y: int := -64
  /** The lowest block row of the world; it is the bedrock row. */
  const MIN_Y: int := BEDROCK_Y

  const HEIGHT_FREQ: real := 0.008

  const BEACH_WIDTH: int := 256
  const BEACH_DRY_HEIGHT: int := 100
  const SLOPE_WIDTH: int := 10

  const OCEAN_BLEND_MAX_THRESHOLD: real := 0.75
  const OCEAN_BLEND_MIN_THRESHOLD: real := 0.4

  const OCEAN_FLOOR_Y: int := SEA_LEVEL - 8
  const DEEP_OCEAN_FLOOR_Y: int := SEA_LEVEL - 16

  /** Lowest and highest surface height the clamping generators produce:
      one row above bedrock, and two rows below the world ceiling. */
  const MIN_SURFACE: int := MIN_Y + 1
  const MAX_SURFACE: int := MIN_Y + WORLD_HEIGHT - 2

  /** Cubic Hermite smoothstep of t clamped to [0, 1]. */
  function Smoothstep(t: real): real
  {
    Cubic(Clamp(t, 0.0, 1.0))
  }

  /** The Hermite cubic 3 c^2 - 2 c^3. */
  function Cubic(c: real): real
  {
    c * c * (3.0 - 2.0 * c)
  }

  /** The clamp makes smoothstep flat outside [0, 1], and it stays in [0, 1]. */
  lemma SmoothstepRange(t: real)
    ensures 0.0 <= Smoothstep(t) <= 1.0
    ensures t <= 0.0 ==> Smoothstep(t) == 0.0
    ensures t >= 1.0 ==> Smoothstep(t) == 1.0
    ensures Smoothstep(0.0) == 0.0 && Smoothstep(1.0) == 1.0
  {
    CubicUnit(Clamp(t, 0.0, 1.0));
    CubicEnds();
  }

  lemma CubicEnds()
    ensures Cubic(0.0) == 0.0 && Cubic(1.0) == 1.0
  {
  }

  /** The cubic maps [0, 1] into [0, 1]. */
  lemma CubicUnit(c: real)
    requires 0.0 <= c <= 1.0
    ensures 0.0 <= Cubic(c) <= 1.0
  {
    MulNonNegative(c, c);
    MulAtMostOne(c, c);
    MulNonNegative(c * c, 3.0 - 2.0 * c);
    // 1 - c^2 (3 - 2c) = (1 - c)^2 (1 + 2c) >= 0
    var e := 1.0 - c;
    MulNonNegative(e, e);
    MulNonNegative(e * e, 1.0 + 2.0 * c);
    CubicComplement(c, e);
  }

  lemma CubicComplement(c: real, e: real)
    requires e == 1.0 - c
    ensures 1.0 - c * c * (3.0 - 2.0 * c) == e * e * (1.0 + 2.0 * c)
  {
  }

  /** Smoothstep never decreases. */
  lemma SmoothstepMonotonic(s: real, t: real)
    requires s <= t
    ensures Smoothstep(s) <= Smoothstep(t)
  {
    CubicMonotonic(Clamp(s, 0.0, 1.0), Clamp(t, 0.0, 1.0));
  }

  /** The cubic does not decrease on [0, 1]. */
  lemma CubicMonotonic(a: real, b: real)
    requires 0.0 <= a <= b <= 1.0
    ensures Cubic(a) <= Cubic(b)
  {
    var k := 3.0 * (a + b) - 2.0 * (a * a + a * b + b * b);
    SlopeFactor(a, b, k);
    MulNonNegative(b - a, k);
    CubicDifference(a, b, k);
  }

  /** Cubic(b) - Cubic(a) factors as (b - a) times the slope factor k. */
  lemma CubicDifference(a: real, b: real, k: real)
    requires k == 3.0 * (a + b) - 2.0 * (a * a + a * b + b * b)
    ensures Cubic(b) - Cubic(a) == (b - a) * k
  {
  }

  /** The slope factor is non-negative on [0, 1]: every product of two
      numbers in [0, 1] is at most either factor. */
  lemma SlopeFactor(a: real, b: real, k: real)
    requires 0.0 <= a <= b <= 1.0
    requires k == 3.0 * (a + b) - 2.0 * (a * a + a * b + b * b)
    ensures k >= 0.0
  {
    ProductBelow(a, a);
    ProductBelow(b, b);
    ProductBelow(a, b);
    ProductBelow(b, a);
    assert Mul(a, b) == Mul(b, a);
    LinearBound(a, b, Mul(a, a), Mul(a, b), Mul(b, b), k);
  }

  lemma ProductBelow(x: real, y: real)
    requires x >= 0.0 && y <= 1.0
    ensures Mul(x, y) <= x
  {
    MulAtMostOne(x, y);
  }

  lemma LinearBound(a: real, b: real, aa: real, ab: real, bb: real, k: real)
    requires aa <= a && bb <= b && ab <= a && ab <= b
    requires k == 3.0 * (a + b) - 2.0 * (aa + ab + bb)
    ensures k >= 0.0
  {
  }

  /** Orderings between the world constants that the generators rely on: the
      deep floor is below the shallow floor, which is below the sea; the
      beach and ocean blend thresholds split (0, 1); the forced plains disc
      lies strictly inside the band where the unwarped ocean blend is zero;
      and the ocean-blend ramp has a positive width. */
  lemma ConstantsOrdered()
    ensures DEEP_OCEAN_FLOOR_Y < OCEAN_FLOOR_Y < SEA_LEVEL
    ensures 0.0 < OCEAN_BLEND_MIN_THRESHOLD < OCEAN_BLEND_MAX_THRESHOLD < 1.0
    ensures PLAINS_CENTER_RAD < RADIUS - BEACH_WIDTH
    ensures RADIUS - BEACH_WIDTH < RADIUS + SLOPE_WIDTH
    ensures MIN_SURFACE == -63 && MAX_SURFACE == 318
  {
  }
}
