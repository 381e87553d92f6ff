/** The small-world generator: climate and coastline noises, inverse-distance
    blend weights over all six biomes (ocean and beach pulled in by a
    coastline bias), the biome argmax, the truncated blended surface height
    and depth, the single classification pass of its initialisation, and its
    surface column. */
module SmallWorld {
  import opened Numeric
  import opened WorldParams
  import opened Noise
  import opened Blend
  import opened Coast
  import opened Blocks
  import opened Columns
  import opened TerracraftBiomes
  import opened Labelling
  import Territory

  /** One entry of the blend parameter list: a biome and its climate target. */
  datatype BlendParam = BlendParam(biome: Biome, temp: real, humidity: real)

  /** The parameter list, in its declared order (beach before ocean). */
  const BLEND_PARAMS: seq<BlendParam> := [
    BlendParam(PLAINS, 0.0, 0.2),
    BlendParam(DESERT, 1.0, -0.5),
    BlendParam(SNOW, -1.0, 0.3),
    BlendParam(JUNGLE, 0.8, 0.8),
    BlendParam(BEACH, 0.1, 0.1),
    BlendParam(OCEAN, 0.0, 0.0)
  ]

  /** The parameter of biome b. */
  function ParamOf(b: Biome): (p: BlendParam)
    ensures p in BLEND_PARAMS && p.biome == b
  {
    match b
    case PLAINS => BLEND_PARAMS[0]
    case DESERT => BLEND_PARAMS[1]
    case SNOW => BLEND_PARAMS[2]
    case JUNGLE => BLEND_PARAMS[3]
    case BEACH => BLEND_PARAMS[4]
    case OCEAN => BLEND_PARAMS[5]
  }

  /** The list names every biome exactly once, so the weight map the blend
      fills has exactly one entry per biome. */
  lemma ParamsOnePerBiome(b: Biome)
    ensures exists i :: 0 <= i < |BLEND_PARAMS| && BLEND_PARAMS[i].biome == b
    ensures forall i, j :: 0 <= i < j < |BLEND_PARAMS| ==> BLEND_PARAMS[i].biome != BLEND_PARAMS[j].biome
    ensures |BLEND_PARAMS| == |ORDER|
  {
    assert BLEND_PARAMS[Position(b)].biome == b;
  }

  /** Where biome b sits in the parameter list. */
  function Position(b: Biome): nat
  {
    match b
    case PLAINS => 0
    case DESERT => 1
    case SNOW => 2
    case JUNGLE => 3
    case BEACH => 4
    case OCEAN => 5
  }

  /** The engine samplers the generator builds once: temperature, humidity,
      coastline, and one surface base per biome. */
  datatype Samplers = Samplers(temp: Field, humid: Field, coast: Field, surface: Biome -> Field)

  /** Temperature and humidity: the sampler octavated with 4 octaves,
      lacunarity 2 and gain 0.5. */
  function ClimateNoise(f: Field): (n: Noise)
    ensures WellFormed(n)
  {
    ScopePositive(4, 0.5);
    Base(f).Octavate(4, 2.0, 0.5)
  }

  /** The coastline: the sampler scaled by 8 at frequency 0.01. */
  function CoastNoise(f: Field): (n: Noise)
    ensures WellFormed(n)
  {
    Base(f).Scale(8.0).AtFrequency(0.01)
  }

  const CLIMATE_SCALE: real := 512.0

  /** The plain climate distance sqrt(dt^2 + dh^2) of a parameter from the
      sampled temperature and humidity. */
  function ClimateDistance(root: Root, p: BlendParam, temp: real, humid: real): (d: real)
    ensures d >= 0.0
  {
    root((p.temp - temp) * (p.temp - temp) + (p.humidity - humid) * (p.humidity - humid))
  }

  /** The coastline bias added to a biome's distance: ocean gets
      6.5 - c1 / 64, beach gets 2.0 - c2 / 192, the rest nothing. */
  function CoastBias(b: Biome, c1: real, c2: real): real
  {
    (if b == OCEAN then 6.5 - c1 / 64.0 else 0.0)
    + (if b == BEACH then 2.0 - c2 / 192.0 else 0.0)
  }

  /** The two coastline distances: the coastline at (x, z), and at
      (z + 128, x + 128), each plus the Chebyshev distance from the origin. */
  function CoastDistances(s: Samplers, x: int, z: int): (real, real)
  {
    var origin := Chebyshev(x, z) as real;
    (Sample(CoastNoise(s.coast), x as real, z as real) + origin,
     Sample(CoastNoise(s.coast), z as real + 128.0, x as real + 128.0) + origin)
  }

  /** The distance biome b's weight is computed from: climate distance plus
      coastline bias, clamped below at zero. */
  function AdjustedDistance(s: Samplers, root: Root, b: Biome, x: int, z: int): (d: real)
    ensures d >= 0.0
  {
    var temp := Sample(ClimateNoise(s.temp), x as real / CLIMATE_SCALE, z as real / CLIMATE_SCALE);
    var humid := Sample(ClimateNoise(s.humid), x as real / CLIMATE_SCALE, z as real / CLIMATE_SCALE);
    var (c1, c2) := CoastDistances(s, x, z);
    MaxReal(0.0, ClimateDistance(root, ParamOf(b), temp, humid) + CoastBias(b, c1, c2))
  }

  /** Only ocean and beach see the coastline; every other biome's distance is
      its climate distance alone. */
  lemma CoastBiasOnlyWet(s: Samplers, root: Root, b: Biome, x: int, z: int)
    ensures b != OCEAN && b != BEACH ==>
              AdjustedDistance(s, root, b, x, z)
              == ClimateDistance(root, ParamOf(b),
                   Sample(ClimateNoise(s.temp), x as real / CLIMATE_SCALE, z as real / CLIMATE_SCALE),
                   Sample(ClimateNoise(s.humid), x as real / CLIMATE_SCALE, z as real / CLIMATE_SCALE))
    ensures b == OCEAN ==> CoastBias(b, CoastDistances(s, x, z).0, CoastDistances(s, x, z).1) == 6.5 - CoastDistances(s, x, z).0 / 64.0
    ensures b == BEACH ==> CoastBias(b, CoastDistances(s, x, z).0, CoastDistances(s, x, z).1) == 2.0 - CoastDistances(s, x, z).1 / 192.0
  {
  }

  /** The adjusted distances in ordinal order (the weight map is an enum map,
      so this is the order in which it is read back). */
  function Distances(s: Samplers, root: Root, x: int, z: int): (ds: seq<real>)
    ensures |ds| == |ORDER| && AllNonNegative(ds)
  {
    seq(|ORDER|, i requires 0 <= i < |ORDER| => AdjustedDistance(s, root, ORDER[i], x, z))
  }

  /** 1 / (d + 0.0001)^10 per biome, divided by the total. */
  function BlendingWeights(s: Samplers, root: Root, x: int, z: int): (ws: seq<real>)
    ensures |ws| == |ORDER| && AllPositive(ws)
    ensures Sum(ws) == 1.0
  {
    var raw := Weights(Distances(s, root, x, z));
    NormalizeSumsToOne(raw);
    Normalize(raw)
  }

  /** Plains inside the centre disc; otherwise the first biome in ordinal
      order with the strictly greatest weight. Ocean and beach compete like
      any other biome. */
  function BiomeAt(s: Samplers, root: Root, x: int, z: int): (b: Biome)
    ensures InCentreDisc(x, z) ==> b == PLAINS
    ensures !InCentreDisc(x, z) ==> IsFirstMax(BlendingWeights(s, root, x, z), Ordinal(b))
  {
    if InCentreDisc(x, z) then PLAINS
    else Heaviest(BlendingWeights(s, root, x, z))
  }

  /** The biome at the first strictly greatest of six ordinal-ordered weights. */
  function Heaviest(ws: seq<real>): (b: Biome)
    requires |ws| == |ORDER|
    ensures IsFirstMax(ws, Ordinal(b))
  {
    var k := FirstMaxIndex(ws);
    assert Ordinal(ORDER[k]) == k;
    ORDER[k]
  }

  /** The selection loop as written: scan the weights in ordinal order from
      negative infinity, taking each strictly larger weight. */
  method SelectBiome(s: Samplers, root: Root, x: int, z: int) returns (b: Biome)
    ensures b == BiomeAt(s, root, x, z)
  {
    if InCentreDisc(x, z) {
      return PLAINS;
    }
    var k := ArgMaxScan(BlendingWeights(s, root, x, z));
    b := ORDER[k];
  }

  /** A biome whose weight beats every other biome's is chosen outside the
      centre disc, whichever biome it is (ocean and beach included). */
  lemma StrictWinnerChosen(s: Samplers, root: Root, x: int, z: int, b: Biome)
    requires !InCentreDisc(x, z)
    requires forall c :: c != b ==> BlendingWeights(s, root, x, z)[Ordinal(c)] < BlendingWeights(s, root, x, z)[Ordinal(b)]
    ensures BiomeAt(s, root, x, z) == b
  {
  }

  /** Outside the disc the chosen biome is the first one with the least
      adjusted distance. */
  lemma BiomeAtNearest(s: Samplers, root: Root, x: int, z: int)
    requires !InCentreDisc(x, z)
    ensures IsFirstMin(Distances(s, root, x, z), Ordinal(BiomeAt(s, root, x, z)))
  {
    var ds := Distances(s, root, x, z);
    var k := Ordinal(BiomeAt(s, root, x, z));
    NormalizeKeepsWinner(Weights(ds), k);
    HeaviestIsNearest(ds, k);
  }

  /** Weights below this do not take part in the height blends. */
  const WEIGHT_CUTOFF: real := 0.01

  /** Each biome's surface height recipe sampled at (x, z), in ordinal order. */
  function SurfaceHeights(s: Samplers, x: int, z: int): (hs: seq<real>)
    ensures |hs| == |ORDER|
  {
    seq(|ORDER|, i requires 0 <= i < |ORDER| => Sample(SurfaceHeightMap(ORDER[i], s.surface(ORDER[i])), x as real, z as real))
  }

  /** Each biome's constant terrain depth, in ordinal order. */
  function SurfaceDepths(): (ds: seq<real>)
    ensures |ds| == |ORDER|
    ensures forall i :: 0 <= i < |ds| ==> 1.0 <= ds[i] <= 8.0
  {
    seq(|ORDER|, i requires 0 <= i < |ORDER| => TerrainDepth(ORDER[i]) as real)
  }

  /** The weighted height over the biomes whose weight is at least 0.01,
      truncated toward zero, with no clamp. */
  function SurfaceHeight(s: Samplers, root: Root, x: int, z: int): int
  {
    Trunc(Blended(BlendingWeights(s, root, x, z), SurfaceHeights(s, x, z), WEIGHT_CUTOFF))
  }

  /** The same blend over the terrain depths. */
  function SurfaceDepth(s: Samplers, root: Root, x: int, z: int): int
  {
    Trunc(Blended(BlendingWeights(s, root, x, z), SurfaceDepths(), WEIGHT_CUTOFF))
  }

  /** The counted weight lies in [0.94, 1]: six weights summing to one, each
      skipped one below 0.01. */
  lemma CountedWeightNearOne(s: Samplers, root: Root, x: int, z: int)
    ensures 0.94 <= CountedWeight(BlendingWeights(s, root, x, z), WEIGHT_CUTOFF) <= 1.0
  {
    var ws := BlendingWeights(s, root, x, z);
    CountedWeightBounds(ws, WEIGHT_CUTOFF);
  }

  /** A blend of six weights summing to one over values in [lo, hi], with
      lo >= 0, lies in [0.94 lo, hi]. */
  lemma BlendNearRange(ws: seq<real>, hs: seq<real>, lo: real, hi: real)
    requires |ws| == |hs| == |ORDER| && AllPositive(ws) && Sum(ws) == 1.0
    requires forall i :: 0 <= i < |hs| ==> lo <= hs[i] <= hi
    requires 0.0 <= lo <= hi
    ensures 0.94 * lo <= Blended(ws, hs, WEIGHT_CUTOFF) <= hi
  {
    BlendedBounds(ws, hs, WEIGHT_CUTOFF, lo, hi);
    CountedWeightBounds(ws, WEIGHT_CUTOFF);
    NearOneScaled(Blended(ws, hs, WEIGHT_CUTOFF), CountedWeight(ws, WEIGHT_CUTOFF), lo, hi);
  }

  lemma NearOneScaled(b: real, cw: real, lo: real, hi: real)
    requires cw * lo <= b <= cw * hi
    requires 0.94 <= cw <= 1.0 && 0.0 <= lo <= hi
    ensures 0.94 * lo <= b <= hi
  {
    MulAtMost(lo, 0.94, cw);
    MulAtMostOne(hi, cw);
    assert lo * 0.94 == 0.94 * lo;
    assert cw * lo == lo * cw && cw * hi == hi * cw;
  }

  /** With unit base fields every biome recipe lies in [31, 88]; dropping at
      most 6% of the weight, the truncated blend lies in [29, 88], inside
      the world although nothing clamps it. */
  lemma SurfaceHeightRange(s: Samplers, root: Root, x: int, z: int)
    requires forall b :: UnitField(s.surface(b))
    ensures 29 <= SurfaceHeight(s, root, x, z) <= 88
    ensures MIN_SURFACE < SurfaceHeight(s, root, x, z) < MAX_SURFACE
  {
    var ws, hs := BlendingWeights(s, root, x, z), SurfaceHeights(s, x, z);
    SurfaceHeightsInRange(s, x, z);
    BlendNearRange(ws, hs, 31.0, 88.0);
    TruncNearRange(Blended(ws, hs, WEIGHT_CUTOFF));
  }

  lemma SurfaceHeightsInRange(s: Samplers, x: int, z: int)
    requires forall b :: UnitField(s.surface(b))
    ensures forall i :: 0 <= i < |SurfaceHeights(s, x, z)| ==> 31.0 <= SurfaceHeights(s, x, z)[i] <= 88.0
  {
    var hs := SurfaceHeights(s, x, z);
    forall i | 0 <= i < |hs|
      ensures 31.0 <= hs[i] <= 88.0
    {
      SurfaceHeightBounds(ORDER[i], s.surface(ORDER[i]));
    }
  }

  lemma TruncNearRange(b: real)
    requires 0.94 * 31.0 <= b <= 88.0
    ensures 29 <= Trunc(b) <= 88
    ensures MIN_SURFACE < Trunc(b) < MAX_SURFACE
  {
  }

  /** The depth blend of depths 1 and 8 truncates into [0, 8]; it is zero
      when only depth-1 biomes count and some weight was dropped. */
  lemma SurfaceDepthRange(s: Samplers, root: Root, x: int, z: int)
    ensures 0 <= SurfaceDepth(s, root, x, z) <= 8
  {
    BlendNearRange(BlendingWeights(s, root, x, z), SurfaceDepths(), 1.0, 8.0);
  }

  /** The initialisation pass: every cell of the 16-block grid classified
      once. The labelling and regeneration after it are never reached (the
      loop breaks unconditionally after this pass). */
  function InitialGrid(s: Samplers, root: Root): (g: Grid<Biome>)
    ensures forall c :: c in g <==> Territory.OnGrid(c)
    ensures forall c :: c in g ==> g[c] == BiomeAt(s, root, c.x, c.z)
  {
    forall c
      ensures c in Territory.ScanOrder() <==> Territory.OnGrid(c)
    {
      Territory.ScanOrderIsGrid(c);
    }
    map c | c in Territory.ScanOrder() :: BiomeAt(s, root, c.x, c.z)
  }

  /** Ocean and beach columns get water. */
  predicate Wet(b: Biome)
  {
    b == OCEAN || b == BEACH
  }

  /** Row y of a surface column whose terrain run starts at row floor, by the
      last write to it: bedrock at BEDROCK_Y, the surface block at topY, water
      in [topY, SEA_LEVEL) for wet biomes, the surface block in the topDepth
      rows ending at topY, the terrain block from floor up to the row below
      them, and otherwise what the column held. */
  function SurfaceRow(col: Column, floor: int, topY: int, topDepth: int, b: Biome, y: int): Block
  {
    if y == BEDROCK_Y then Bedrock
    else if y == topY then SurfaceBlock(b)
    else if Wet(b) && topY <= y < SEA_LEVEL then Water
    else if topY - topDepth < y <= topY then SurfaceBlock(b)
    else if floor <= y <= topY - topDepth then TerrainBlock(b)
    else Get(col, y)
  }

  /** The column writes in the source's order, with the terrain run starting
      at row floor: terrain, the surface run downwards from topY, water for
      ocean and beach, the surface block again at topY, bedrock. */
  method WriteColumn(col: Column, floor: int, topY: int, topDepth: int, b: Biome) returns (r: Column)
    ensures forall y :: InWorld(y) ==> Get(r, y) == SurfaceRow(col, floor, topY, topDepth, b, y)
  {
    r := col;
    var i := floor;
    while i < topY - topDepth + 1
      invariant floor <= i <= Max(floor, topY - topDepth + 1)
      invariant forall y :: InWorld(y) ==> Get(r, y) == (if floor <= y < i then TerrainBlock(b) else Get(col, y))
      decreases topY - topDepth + 1 - i
    {
      r := Set(r, i, TerrainBlock(b));
      i := i + 1;
    }
    var terrain := r;
    i := 0;
    while i < topDepth
      invariant 0 <= i <= Max(0, topDepth)
      invariant forall y :: InWorld(y) ==> Get(r, y) == (if topY - i < y <= topY then SurfaceBlock(b) else Get(terrain, y))
      decreases topDepth - i
    {
      r := Set(r, topY - i, SurfaceBlock(b));
      i := i + 1;
    }
    var surfaced := r;
    if Wet(b) {
      i := topY;
      while i < SEA_LEVEL
        invariant topY <= i <= Max(topY, SEA_LEVEL)
        invariant forall y :: InWorld(y) ==> Get(r, y) == (if topY <= y < i then Water else Get(surfaced, y))
        decreases SEA_LEVEL - i
      {
        r := Set(r, i, Water);
        i := i + 1;
      }
    }
    r := Set(r, topY, SurfaceBlock(b));
    r := Set(r, BEDROCK_Y, Bedrock);
  }

  /** The surface column as written: its terrain run starts at y = 0. */
  method BuildColumnAsWritten(col: Column, topY: int, topDepth: int, b: Biome) returns (r: Column)
    ensures forall y :: InWorld(y) ==> Get(r, y) == SurfaceRow(col, 0, topY, topDepth, b, y)
  {
    r := WriteColumn(col, 0, topY, topDepth, b);
  }

  /** The corrected surface column: the terrain run starts right above the
      bedrock row, as the column sample reports it. */
  method BuildColumn(col: Column, topY: int, topDepth: int, b: Biome) returns (r: Column)
    ensures forall y :: InWorld(y) ==> Get(r, y) == SurfaceRow(col, BEDROCK_Y + 1, topY, topDepth, b, y)
  {
    r := WriteColumn(col, BEDROCK_Y + 1, topY, topDepth, b);
  }

  /** As written, a fresh plains column with its surface at 64 keeps air at
      y = -1, between the bedrock floor and y = 0, where the column sample
      reports stone. */
  lemma AsWrittenLeavesGap(r: Column)
    requires forall y :: InWorld(y) ==> Get(r, y) == SurfaceRow(AirColumn(), 0, 64, 1, PLAINS, y)
    ensures Get(r, -1) == Air
    ensures Get(SampleColumn(64, true), -1) == Stone
  {
    assert InWorld(-1) && AirColumn()[-1 - MIN_Y] == Air;
    var sample := SampleColumn(64, true);
    assert StoneTop(64) == 60 && -1 - MIN_Y == 63;
    assert sample[63] == Stone;
    assert Get(sample, -1) == sample[63];
  }

  /** Corrected, every row from above the bedrock floor up to the surface is
      solid: the terrain block below the surface run and the surface block
      within it; water and air only start above the surface. */
  lemma ColumnSolidToSurface(col: Column, r: Column, topY: int, topDepth: int, b: Biome, y: int)
    requires forall y' :: InWorld(y') ==> Get(r, y') == SurfaceRow(col, BEDROCK_Y + 1, topY, topDepth, b, y')
    requires InWorld(y) && BEDROCK_Y < y <= topY && topDepth >= 0
    ensures y <= topY - topDepth && y != topY ==> Get(r, y) == TerrainBlock(b)
    ensures topY - topDepth < y || y == topY ==> Get(r, y) == SurfaceBlock(b)
  {
  }

  /** Above the surface, a column over fresh air holds water up to the row
      below sea level in ocean and beach columns, and air otherwise, wherever
      its terrain run starts. */
  lemma ColumnAboveSurface(r: Column, floor: int, topY: int, topDepth: int, b: Biome, y: int)
    requires forall y' :: InWorld(y') ==> Get(r, y') == SurfaceRow(AirColumn(), floor, topY, topDepth, b, y')
    requires InWorld(y) && BEDROCK_Y < topY < y && topDepth >= 0
    ensures Get(r, y) == (if Wet(b) && y < SEA_LEVEL then Water else Air)
  {
    assert AirColumn()[y - MIN_Y] == Air;
  }

  /** As written, the rows from 0 up to the surface are solid, the surface
      block in the top topDepth rows and at topY and the terrain block below
      them; the rows between the bedrock floor and 0 below the surface run
      keep what the column held before. */
  lemma AsWrittenRowsToSurface(col: Column, r: Column, topY: int, topDepth: int, b: Biome, y: int)
    requires forall y' :: InWorld(y') ==> Get(r, y') == SurfaceRow(col, 0, topY, topDepth, b, y')
    requires InWorld(y) && BEDROCK_Y < y <= topY && topDepth >= 0
    ensures 0 <= y <= topY - topDepth && y != topY ==> Get(r, y) == TerrainBlock(b)
    ensures topY - topDepth < y || y == topY ==> Get(r, y) == SurfaceBlock(b)
    ensures y < 0 && y <= topY - topDepth && y != topY ==> Get(r, y) == Get(col, y)
  {
  }

  /** One column of the surface pass at (x, z): the blended height and depth,
      the biome at the surface, then the column writes as written, with the
      terrain run starting at row 0. */
  method BuildSurfaceColumn(s: Samplers, root: Root, x: int, z: int, col: Column) returns (r: Column)
    ensures forall y :: InWorld(y) ==>
              Get(r, y) == SurfaceRow(col, 0, SurfaceHeight(s, root, x, z), SurfaceDepth(s, root, x, z), BiomeAt(s, root, x, z), y)
  {
    var topY := SurfaceHeight(s, root, x, z);
    var topDepth := SurfaceDepth(s, root, x, z);
    var b := BiomeAt(s, root, x, z);
    r := BuildColumnAsWritten(col, topY, topDepth, b);
  }
}
