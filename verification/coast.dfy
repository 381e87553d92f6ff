/** The ocean blend: 0 on the island, rising along a smoothstep ramp with the
    Chebyshev (square) distance from the origin, and 1 beyond the island's
    edge. All three generators use the same formula. */
module Coast {
  import opened Numeric
  import opened WorldParams

  /** max(|x|, |z|): the island is a square. */
  function Chebyshev(x: int, z: int): nat
  {
    if Abs(x) >= Abs(z) then Abs(x) else Abs(z)
  }

  /** The ramp starts BEACH_WIDTH inside the radius and ends SLOPE_WIDTH
      beyond it. */
  const RAMP_START: int := RADIUS - BEACH_WIDTH
  const RAMP_END: int := RADIUS + SLOPE_WIDTH

  /** smoothstep((d - start) / (end - start)) with d the Chebyshev distance. */
  function OceanBlend(x: int, z: int): (b: real)
    ensures 0.0 <= b <= 1.0
  {
    var t := (Chebyshev(x, z) - RAMP_START) as real / (RAMP_END - RAMP_START) as real;
    SmoothstepRange(t);
    Smoothstep(t)
  }

  /** Zero up to the start of the ramp, one from its end on. */
  lemma OceanBlendEnds(x: int, z: int)
    ensures Chebyshev(x, z) <= RAMP_START ==> OceanBlend(x, z) == 0.0
    ensures Chebyshev(x, z) >= RAMP_END ==> OceanBlend(x, z) == 1.0
    ensures RAMP_START == 256 && RAMP_END == 522
  {
    var t := (Chebyshev(x, z) - RAMP_START) as real / (RAMP_END - RAMP_START) as real;
    SmoothstepRange(t);
  }

  /** The blend depends only on the Chebyshev distance, and never decreases
      as that distance grows. */
  lemma OceanBlendMonotone(x1: int, z1: int, x2: int, z2: int)
    ensures Chebyshev(x1, z1) <= Chebyshev(x2, z2) ==> OceanBlend(x1, z1) <= OceanBlend(x2, z2)
    ensures Chebyshev(x1, z1) == Chebyshev(x2, z2) ==> OceanBlend(x1, z1) == OceanBlend(x2, z2)
  {
    var w := (RAMP_END - RAMP_START) as real;
    var t1 := (Chebyshev(x1, z1) - RAMP_START) as real / w;
    var t2 := (Chebyshev(x2, z2) - RAMP_START) as real / w;
    if Chebyshev(x1, z1) <= Chebyshev(x2, z2) {
      assert t1 <= t2;
      SmoothstepMonotonic(t1, t2);
    }
  }

  /** The forced plains disc: (x, y, z) is strictly within PLAINS_CENTER_RAD
      of (0, y, 0), i.e. x^2 + z^2 < r^2 (the vertical difference is zero). */
  predicate InCentreDisc(x: int, z: int)
  {
    x * x + z * z < PLAINS_CENTER_RAD * PLAINS_CENTER_RAD
  }

  /** The plains disc lies entirely where the unwarped blend is zero. */
  lemma CentreDiscIsInland(x: int, z: int)
    requires InCentreDisc(x, z)
    ensures Chebyshev(x, z) < PLAINS_CENTER_RAD
    ensures OceanBlend(x, z) == 0.0
  {
    var r := PLAINS_CENTER_RAD;
    assert x * x >= 0 && z * z >= 0;
    RootBelow(x, r);
    RootBelow(z, r);
    OceanBlendEnds(x, z);
  }

  /** |v| < r whenever v^2 < r^2. */
  lemma RootBelow(v: int, r: nat)
    requires v * v < r * r
    ensures Abs(v) < r
  {
    var a := Abs(v);
    assert v * v == a * a;
    assert (a - r) * (a + r) == a * a - r * r;
    assert a + r > 0;
    NegativeFactor(a - r, a + r);
  }

  lemma NegativeFactor(p: int, q: int)
    requires p * q < 0 && q > 0
    ensures p < 0
  {
  }
}
