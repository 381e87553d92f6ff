/** The terrain of the older small-world generator: its six custom biomes,
    the climate blend over the four land biomes, the biome classification
    with its forced plains disc and warped coast thresholds, and the surface
    height recipe that pulls inland terrain down to the ocean floor. */
module LegacyTerrain {
  import opened Numeric
  import opened WorldParams
  import opened Coast
  import opened Blend
  import opened Noise

  datatype CustomBiome = PLAINS | DESERT | SNOW | BEACH | OCEAN | JUNGLE

  /** The enum's declaration (ordinal) order. */
  const BIOMES: seq<CustomBiome> := [PLAINS, DESERT, SNOW, BEACH, OCEAN, JUNGLE]

  /** The biomes that take part in the climate blend, in the ordinal order in
      which the blend's enum map yields them. */
  const LAND: seq<CustomBiome> := [PLAINS, DESERT, SNOW, JUNGLE]

  function LandIndex(b: CustomBiome): (i: nat)
    requires b in LAND
    ensures i < |LAND| && LAND[i] == b
  {
    match b
    case PLAINS => 0
    case DESERT => 1
    case SNOW => 2
    case JUNGLE => 3
  }

  /** A point in climate space: temperature, humidity and normalised height. */
  datatype Climate = Climate(temp: real, humidity: real, height: real)

  /** Each biome's blend target. Beach and ocean have targets but are skipped
      by the blend. */
  function Target(b: CustomBiome): Climate
  {
    match b
    case PLAINS => Climate(0.0, 0.2, 0.5)
    case DESERT => Climate(1.0, -0.5, 0.2)
    case SNOW => Climate(-1.0, 0.3, 0.6)
    case JUNGLE => Climate(0.8, 0.8, 0.8)
    case BEACH => Climate(0.2, 0.0, 0.0)
    case OCEAN => Climate(0.0, 0.0, 0.0)
  }

  /** The two hill octaves of each biome: sampling scales and amplitudes. */
  datatype Hills = Hills(scale1: real, scale2: real, amp1: real, amp2: real)

  function HillsOf(b: CustomBiome): (h: Hills)
    ensures h.amp1 >= 0.0 && h.amp2 >= 0.0
    ensures h.amp1 + h.amp2 <= 31.0
  {
    match b
    case PLAINS => Hills(0.008, 0.02, 5.0, 2.0)
    case DESERT => Hills(0.004, 0.02, 3.0, 2.0)
    case SNOW => Hills(0.01, 0.02, 12.0, 8.0)
    case BEACH => Hills(0.007, 0.02, 4.0, 2.0)
    case OCEAN => Hills(0.007, 0.02, 4.0, 2.0)
    case JUNGLE => Hills(0.01, 0.02, 30.0, 1.0)
  }

  /** The generator's three noise samplers (height, temperature, humidity). */
  datatype Samplers = Samplers(height: Field, temp: Field, humid: Field)

  const CLIMATE_SCALE: real := 512.0

  /** Temperature and humidity at x / 512, and the main height noise mapped
      from [-1, 1] to [0, 1]. */
  function ClimateAt(s: Samplers, x: int, z: int): Climate
  {
    Climate(
      s.temp(x as real / CLIMATE_SCALE, z as real / CLIMATE_SCALE),
      s.humid(x as real / CLIMATE_SCALE, z as real / CLIMATE_SCALE),
      (s.height(Mul(x as real, HEIGHT_FREQ), Mul(z as real, HEIGHT_FREQ)) + 1.0) / 2.0)
  }

  function SquaredDistance(a: Climate, c: Climate): (d: real)
    ensures d >= 0.0
  {
    (a.temp - c.temp) * (a.temp - c.temp)
    + (a.humidity - c.humidity) * (a.humidity - c.humidity)
    + (a.height - c.height) * (a.height - c.height)
  }

  /** Squared climate distances of the land biomes from the climate at (x, z). */
  function SquaredDistances(s: Samplers, x: int, z: int): (sq: seq<real>)
    ensures |sq| == |LAND| && AllNonNegative(sq)
  {
    seq(|LAND|, i requires 0 <= i < |LAND| => SquaredDistance(Target(LAND[i]), ClimateAt(s, x, z)))
  }

  /** The climate distances: the square root of the squared distances. */
  function Distances(s: Samplers, root: Root, x: int, z: int): (ds: seq<real>)
    ensures |ds| == |LAND| && AllNonNegative(ds)
  {
    Roots(root, SquaredDistances(s, x, z))
  }

  /** Inverse-power weights of the land biomes divided by their total: one
      positive weight per land biome, summing to one. */
  function BlendWeights(s: Samplers, root: Root, x: int, z: int): (ws: seq<real>)
    ensures |ws| == |LAND| && AllPositive(ws)
    ensures Sum(ws) == 1.0
  {
    var raw := Weights(Distances(s, root, x, z));
    NormalizeSumsToOne(raw);
    Normalize(raw)
  }

  /** The ocean blend displaced by the height noise at 0.01 times 0.08, then
      clamped back into [0, 1]. */
  function WarpedOceanBlend(s: Samplers, x: int, z: int): (b: real)
    ensures 0.0 <= b <= 1.0
    ensures UnitField(s.height) ==> OceanBlend(x, z) - 0.08 <= b <= OceanBlend(x, z) + 0.08
  {
    var n := s.height(Mul(x as real, 0.01), Mul(z as real, 0.01));
    WarpBound(n);
    Clamp(OceanBlend(x, z) + n * 0.08, 0.0, 1.0)
  }

  lemma WarpBound(n: real)
    ensures -1.0 <= n <= 1.0 ==> -0.08 <= n * 0.08 <= 0.08
  {
    if -1.0 <= n <= 1.0 {
      UnitTimes(n, 0.08);
    }
  }

  /** The biome at block column (x, z) (the height of the queried position
      plays no part): plains inside the centre disc, then ocean above the
      upper warped-blend threshold, beach above the lower one, and otherwise
      the land biome with the first strictly greatest blend weight. */
  function BiomeAt(s: Samplers, root: Root, x: int, z: int): (r: CustomBiome)
    ensures InCentreDisc(x, z) ==> r == PLAINS
    ensures !InCentreDisc(x, z) ==> (r == OCEAN <==> WarpedOceanBlend(s, x, z) > OCEAN_BLEND_MAX_THRESHOLD)
    ensures !InCentreDisc(x, z) ==>
              (r == BEACH <==> OCEAN_BLEND_MIN_THRESHOLD < WarpedOceanBlend(s, x, z) <= OCEAN_BLEND_MAX_THRESHOLD)
    ensures !InCentreDisc(x, z) && WarpedOceanBlend(s, x, z) <= OCEAN_BLEND_MIN_THRESHOLD ==>
              r in LAND && IsFirstMax(BlendWeights(s, root, x, z), LandIndex(r))
  {
    var b := WarpedOceanBlend(s, x, z);
    if InCentreDisc(x, z) then PLAINS
    else if b > OCEAN_BLEND_MAX_THRESHOLD then OCEAN
    else if b > OCEAN_BLEND_MIN_THRESHOLD then BEACH
    else LandBiome(s, root, x, z)
  }

  /** The land biome whose blend weight is the first strictly greatest. */
  function LandBiome(s: Samplers, root: Root, x: int, z: int): (r: CustomBiome)
    ensures r in LAND && IsFirstMax(BlendWeights(s, root, x, z), LandIndex(r))
  {
    LAND[FirstMaxIndex(BlendWeights(s, root, x, z))]
  }

  /** With a strictly increasing square root, the land biome chosen is the
      first one whose climate target is nearest (in squared distance) to the
      climate at the column. */
  lemma BiomeAtNearestClimate(s: Samplers, root: Root, x: int, z: int)
    requires Monotone(root)
    requires !InCentreDisc(x, z) && WarpedOceanBlend(s, x, z) <= OCEAN_BLEND_MIN_THRESHOLD
    ensures BiomeAt(s, root, x, z) in LAND
    ensures IsFirstMin(SquaredDistances(s, x, z), LandIndex(BiomeAt(s, root, x, z)))
  {
    BiomeAtLand(s, root, x, z);
    LandWinnerNearest(s, root, x, z);
  }

  lemma BiomeAtLand(s: Samplers, root: Root, x: int, z: int)
    requires !InCentreDisc(x, z) && WarpedOceanBlend(s, x, z) <= OCEAN_BLEND_MIN_THRESHOLD
    ensures BiomeAt(s, root, x, z) == LandBiome(s, root, x, z)
  {
  }

  /** The blend's winner is the nearest land biome in squared distance. */
  lemma LandWinnerNearest(s: Samplers, root: Root, x: int, z: int)
    requires Monotone(root)
    ensures IsFirstMin(SquaredDistances(s, x, z), LandIndex(LandBiome(s, root, x, z)))
  {
    SelectedIsNearest(root, SquaredDistances(s, x, z));
    BlendWeightsUnfold(s, root, x, z);
  }

  lemma BlendWeightsUnfold(s: Samplers, root: Root, x: int, z: int)
    ensures LandIndex(LandBiome(s, root, x, z))
            == FirstMaxIndex(Normalize(Weights(Roots(root, SquaredDistances(s, x, z)))))
  {
    assert BlendWeights(s, root, x, z) == Normalize(Weights(Roots(root, SquaredDistances(s, x, z))));
  }

  /** Inside the centre disc the warp cannot matter: the unwarped blend is
      zero there, and the answer is plains. */
  lemma CentreIsPlains(s: Samplers, root: Root, x: int, z: int)
    requires InCentreDisc(x, z)
    ensures OceanBlend(x, z) == 0.0
    ensures BiomeAt(s, root, x, z) == PLAINS
  {
    CentreDiscIsInland(x, z);
  }

  /** 63 + n(x s1, z s1) a1 + n(x s2, z s2) a2 for the biome's hills. */
  function UnblendedHeight(s: Samplers, x: int, z: int, b: CustomBiome): real
  {
    var h := HillsOf(b);
    BASE_SURFACE_Y as real
    + s.height(Mul(x as real, h.scale1), Mul(z as real, h.scale1)) * h.amp1
    + s.height(Mul(x as real, h.scale2), Mul(z as real, h.scale2)) * h.amp2
  }

  /** Non-plains heights are raised to at least the plains height. */
  function ClampedHeight(s: Samplers, x: int, z: int, b: CustomBiome): (h: real)
    ensures h >= UnblendedHeight(s, x, z, PLAINS)
    ensures h >= UnblendedHeight(s, x, z, b)
  {
    if b == PLAINS then UnblendedHeight(s, x, z, b)
    else MaxReal(UnblendedHeight(s, x, z, b), UnblendedHeight(s, x, z, PLAINS))
  }

  /** With a unit height field every unblended height is within 63 +- (a1 + a2). */
  lemma UnblendedHeightRange(s: Samplers, x: int, z: int, b: CustomBiome)
    requires UnitField(s.height)
    ensures var h := HillsOf(b);
      63.0 - (h.amp1 + h.amp2) <= UnblendedHeight(s, x, z, b) <= 63.0 + h.amp1 + h.amp2
  {
    var h := HillsOf(b);
    UnitTimes(s.height(Mul(x as real, h.scale1), Mul(z as real, h.scale1)), h.amp1);
    UnitTimes(s.height(Mul(x as real, h.scale2), Mul(z as real, h.scale2)), h.amp2);
  }

  /** The blend weight of a biome, zero for the biomes left out of the blend. */
  function WeightOf(ws: seq<real>, b: CustomBiome): real
    requires |ws| == |LAND|
  {
    if b in LAND then ws[LandIndex(b)] else 0.0
  }

  /** The weights of all six biomes in ordinal order. */
  function AllWeights(s: Samplers, root: Root, x: int, z: int): (ws: seq<real>)
    ensures |ws| == |BIOMES| && AllNonNegative(ws)
  {
    var lw := BlendWeights(s, root, x, z);
    seq(|BIOMES|, i requires 0 <= i < |BIOMES| => WeightOf(lw, BIOMES[i]))
  }

  function AllClampedHeights(s: Samplers, x: int, z: int): (hs: seq<real>)
    ensures |hs| == |BIOMES|
  {
    seq(|BIOMES|, i requires 0 <= i < |BIOMES| => ClampedHeight(s, x, z, BIOMES[i]))
  }

  /** The inland height: weight times clamped height summed over all six
      biomes in ordinal order (beach and ocean contribute zero terms). No
      weight is negative, so the cutoff of 0 keeps every term. */
  function Inland(s: Samplers, root: Root, x: int, z: int): real
  {
    Blended(AllWeights(s, root, x, z), AllClampedHeights(s, x, z), 0.0)
  }

  /** The six weights still sum to one: the two zero terms add nothing. */
  lemma AllWeightsSumToOne(s: Samplers, root: Root, x: int, z: int)
    ensures Sum(AllWeights(s, root, x, z)) == 1.0
  {
    var lw := BlendWeights(s, root, x, z);
    var ws := AllWeights(s, root, x, z);
    assert ws == [lw[0], lw[1], lw[2], 0.0, 0.0, lw[3]];
    assert lw == [lw[0], lw[1], lw[2], lw[3]];
    SumSix(lw[0], lw[1], lw[2], 0.0, 0.0, lw[3]);
    SumFour(lw[0], lw[1], lw[2], lw[3]);
  }

  /** The inland height is a weighted mean of the clamped heights: never
      below the plains height, and never above any bound on all clamped
      heights. */
  lemma InlandBounds(s: Samplers, root: Root, x: int, z: int, hi: real)
    requires forall b :: ClampedHeight(s, x, z, b) <= hi
    ensures UnblendedHeight(s, x, z, PLAINS) <= Inland(s, root, x, z) <= hi
  {
    var ws, hs := AllWeights(s, root, x, z), AllClampedHeights(s, x, z);
    var lo := UnblendedHeight(s, x, z, PLAINS);
    BlendedBounds(ws, hs, 0.0, lo, hi);
    CountedWeightAll(ws, 0.0);
    AllWeightsSumToOne(s, root, x, z);
  }

  /** With a unit height field the inland height lies in [56, 94]. */
  lemma InlandRange(s: Samplers, root: Root, x: int, z: int)
    requires UnitField(s.height)
    ensures 56.0 <= Inland(s, root, x, z) <= 94.0
  {
    forall b
      ensures ClampedHeight(s, x, z, b) <= 94.0
    {
      UnblendedHeightRange(s, x, z, b);
      UnblendedHeightRange(s, x, z, PLAINS);
    }
    UnblendedHeightRange(s, x, z, PLAINS);
    InlandBounds(s, root, x, z, 94.0);
  }

  /** The ocean floor target: between the shallow floor (blend 0) and the
      deep floor (blend 1), each displaced by twice the height noise at 0.02. */
  function OceanTarget(s: Samplers, x: int, z: int): real
  {
    var noise := s.height(Mul(x as real, 0.02), Mul(z as real, 0.02)) * 2.0;
    Lerp(OceanBlend(x, z), OCEAN_FLOOR_Y as real + noise, DEEP_OCEAN_FLOOR_Y as real + noise)
  }

  /** The coast shaping of the height: the inland relief flattens towards 63
      as the blend grows (fully flat from blend 1/1.3 on), the result is
      interpolated towards the ocean target, and inside the beach band
      (strictly between the thresholds) it is capped at sea level plus the
      beach's dry height. */
  function CoastHeight(b: real, inland: real, target: real): real
  {
    var coastFactor := 1.0 - Clamp(b * 1.3, 0.0, 1.0);
    var coastalInland := Lerp(coastFactor, BASE_SURFACE_Y as real, inland);
    var h := Lerp(b, coastalInland, target);
    if OCEAN_BLEND_MIN_THRESHOLD < b < OCEAN_BLEND_MAX_THRESHOLD then MinReal(h, (SEA_LEVEL + BEACH_DRY_HEIGHT) as real)
    else h
  }

  /** Blend 0 gives the inland height and blend 1 the ocean target. */
  lemma CoastHeightEnds(inland: real, target: real)
    ensures CoastHeight(0.0, inland, target) == inland
    ensures CoastHeight(1.0, inland, target) == target
  {
  }

  /** Inside the beach band the height never exceeds 150. */
  lemma CoastHeightBeachCap(b: real, inland: real, target: real)
    requires OCEAN_BLEND_MIN_THRESHOLD < b < OCEAN_BLEND_MAX_THRESHOLD
    ensures CoastHeight(b, inland, target) <= (SEA_LEVEL + BEACH_DRY_HEIGHT) as real
    ensures SEA_LEVEL + BEACH_DRY_HEIGHT == 150
  {
  }

  /** For a blend in [0, 1] the height lies between the lowest and the highest
      of 63, the inland height and the target (the beach cap can only lower
      it, and not below 150). */
  lemma CoastHeightBetween(b: real, inland: real, target: real)
    requires 0.0 <= b <= 1.0
    ensures CoastHeight(b, inland, target) <= MaxReal(MaxReal(63.0, inland), target)
    ensures MinReal(MinReal(MinReal(63.0, inland), target), 150.0) <= CoastHeight(b, inland, target)
  {
    var cf := 1.0 - Clamp(b * 1.3, 0.0, 1.0);
    var ci := Lerp(cf, 63.0, inland);
    var h := Lerp(b, ci, target);
    LerpBetween(cf, 63.0, inland);
    LerpBetween(b, ci, target);
    BetweenChain(ci, h, inland, target);
    CapBetween(CoastHeight(b, inland, target), h, MinReal(MinReal(63.0, inland), target), MaxReal(MaxReal(63.0, inland), target));
  }

  lemma BetweenChain(ci: real, h: real, inland: real, target: real)
    requires MinReal(63.0, inland) <= ci <= MaxReal(63.0, inland)
    requires MinReal(ci, target) <= h <= MaxReal(ci, target)
    ensures MinReal(MinReal(63.0, inland), target) <= h <= MaxReal(MaxReal(63.0, inland), target)
  {
  }

  lemma CapBetween(c: real, h: real, lo: real, hi: real)
    requires c == h || c == MinReal(h, 150.0)
    requires lo <= h <= hi
    ensures MinReal(lo, 150.0) <= c <= hi
  {
  }

  /** The surface height of column (x, z): the coast-shaped height (with the
      unwarped blend), rounded and clamped to [MIN_Y + 1, MIN_Y + WORLD_HEIGHT - 2]. */
  function SurfaceHeight(s: Samplers, root: Root, x: int, z: int): (y: int)
    ensures MIN_SURFACE <= y <= MAX_SURFACE
  {
    var h := CoastHeight(OceanBlend(x, z), Inland(s, root, x, z), OceanTarget(s, x, z));
    ClampInt(Round(h), MIN_SURFACE, MAX_SURFACE)
  }

  /** On the island (Chebyshev distance at most 256) the surface is the
      rounded inland height, which a unit height field keeps in [56, 94]. */
  lemma SurfaceHeightInland(s: Samplers, root: Root, x: int, z: int)
    requires Chebyshev(x, z) <= RAMP_START
    ensures SurfaceHeight(s, root, x, z) == ClampInt(Round(Inland(s, root, x, z)), MIN_SURFACE, MAX_SURFACE)
    ensures UnitField(s.height) ==> 56 <= SurfaceHeight(s, root, x, z) <= 94
  {
    OceanBlendEnds(x, z);
    CoastHeightEnds(Inland(s, root, x, z), OceanTarget(s, x, z));
    if UnitField(s.height) {
      InlandRange(s, root, x, z);
      RoundBetween(Inland(s, root, x, z), 56, 94);
    }
  }

  /** Beyond the slope (Chebyshev distance at least 522) the surface is the
      deep ocean floor 34 displaced by at most 2. */
  lemma SurfaceHeightDeepOcean(s: Samplers, root: Root, x: int, z: int)
    requires UnitField(s.height) && Chebyshev(x, z) >= RAMP_END
    ensures 32 <= SurfaceHeight(s, root, x, z) <= 36
  {
    OceanBlendEnds(x, z);
    var n := s.height(Mul(x as real, 0.02), Mul(z as real, 0.02));
    UnitTimes(n, 2.0);
    var t := OceanTarget(s, x, z);
    assert t == DEEP_OCEAN_FLOOR_Y as real + n * 2.0;
    CoastHeightEnds(Inland(s, root, x, z), t);
    RoundBetween(t, 32, 36);
  }

  /** In the beach band of the unwarped blend the surface is at most 150. */
  lemma SurfaceHeightBeachCap(s: Samplers, root: Root, x: int, z: int)
    requires OCEAN_BLEND_MIN_THRESHOLD < OceanBlend(x, z) < OCEAN_BLEND_MAX_THRESHOLD
    ensures SurfaceHeight(s, root, x, z) <= SEA_LEVEL + BEACH_DRY_HEIGHT
  {
    var h := CoastHeight(OceanBlend(x, z), Inland(s, root, x, z), OceanTarget(s, x, z));
    CoastHeightBeachCap(OceanBlend(x, z), Inland(s, root, x, z), OceanTarget(s, x, z));
    assert Round(h) <= 150;
  }
}
