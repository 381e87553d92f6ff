/** The six biomes of the small-world generator and their per-biome tables:
    the terrain and surface blocks, the constant terrain (surface-layer)
    depth, and the surface height recipe built from the noise combinators. */
module TerracraftBiomes {
  import opened Blocks
  import opened Noise

  /** Declared in this order; the order is the enum ordinal. */
  datatype Biome = PLAINS | DESERT | SNOW | JUNGLE | OCEAN | BEACH

  const ORDER: seq<Biome> := [PLAINS, DESERT, SNOW, JUNGLE, OCEAN, BEACH]

  function Ordinal(b: Biome): (i: nat)
    ensures i < |ORDER| && ORDER[i] == b
  {
    match b
    case PLAINS => 0
    case DESERT => 1
    case SNOW => 2
    case JUNGLE => 3
    case OCEAN => 4
    case BEACH => 5
  }

  lemma OrdinalsDistinct()
    ensures forall i, j :: 0 <= i < j < |ORDER| ==> ORDER[i] != ORDER[j]
  {
  }

  /** The terrain height map ignores position (and the random stream the
      source hands it): a constant field of 1 or 8. */
  function TerrainHeightMap(b: Biome): (n: Noise)
    ensures WellFormed(n)
    ensures forall x, y :: Sample(n, x, y) == TerrainDepth(b) as real
  {
    if b == PLAINS || b == JUNGLE || b == OCEAN then Base((x, y) => 1.0) else Base((x, y) => 8.0)
  }

  /** The constant value of the terrain height map. */
  function TerrainDepth(b: Biome): (d: nat)
    ensures d == 1 || d == 8
    ensures d == 1 <==> b in {PLAINS, JUNGLE, OCEAN}
  {
    match b
    case PLAINS => 1
    case JUNGLE => 1
    case OCEAN => 1
    case BEACH => 8
    case DESERT => 8
    case SNOW => 8
  }

  function TerrainBlock(b: Biome): Block
  {
    match b
    case PLAINS => Dirt
    case SNOW => Dirt
    case JUNGLE => Dirt
    case DESERT => RedSandstone
    case BEACH => Sandstone
    case OCEAN => Sand
  }

  function SurfaceBlock(b: Biome): Block
  {
    match b
    case PLAINS => GrassBlock
    case DESERT => RedSand
    case SNOW => SnowBlock
    case JUNGLE => Podzol
    case BEACH => Sand
    case OCEAN => Sand
  }

  /** Terrain blocks: dirt exactly for the grassy-climate biomes, and a
      distinct sandy block for each of desert, beach and ocean. */
  lemma TerrainBlockTable(b: Biome)
    ensures TerrainBlock(b) == Dirt <==> b in {PLAINS, SNOW, JUNGLE}
    ensures TerrainBlock(b) == RedSandstone <==> b == DESERT
    ensures TerrainBlock(b) == Sandstone <==> b == BEACH
    ensures TerrainBlock(b) == Sand <==> b == OCEAN
  {
  }

  /** Surface blocks: beach and ocean share sand, and otherwise two different
      biomes never share a surface block. */
  lemma SurfaceBlockShared(a: Biome, b: Biome)
    requires a != b
    ensures SurfaceBlock(a) == SurfaceBlock(b) <==> {a, b} == {BEACH, OCEAN}
  {
  }

  /** The amplitude k of each biome's surface recipe. */
  function HeightAmplitude(b: Biome): real
  {
    match b
    case PLAINS => 16.0
    case SNOW => 20.0
    case DESERT => 2.0
    case JUNGLE => 24.0
    case BEACH => 1.0
    case OCEAN => 1.0
  }

  /** The centre height c of each biome's surface recipe. */
  function HeightCentre(b: Biome): real
  {
    if b == OCEAN then 32.0 else 64.0
  }

  /** base.scale(k).offset(c).octavate(4, 2, 0.5).frequency(1/128). */
  function SurfaceHeightMap(b: Biome, base: Field): (n: Noise)
    ensures WellFormed(n)
  {
    ScopePositive(4, 0.5);
    Base(base).Scale(HeightAmplitude(b)).Shift(HeightCentre(b)).Octavate(4, 2.0, 0.5).AtFrequency(1.0 / 128.0)
  }

  /** With a base field in [-1, 1], a biome's surface height lies in
      [c - k, c + k]: plains in [48, 80], ocean in [31, 33], jungle in
      [40, 88]; every biome's height lies in [31, 88]. */
  lemma SurfaceHeightBounds(b: Biome, base: Field)
    requires forall x, y :: -1.0 <= base(x, y) <= 1.0
    ensures Bounded(SurfaceHeightMap(b, base), HeightCentre(b) - HeightAmplitude(b), HeightCentre(b) + HeightAmplitude(b))
    ensures Bounded(SurfaceHeightMap(b, base), 31.0, 88.0)
  {
    var k, c := HeightAmplitude(b), HeightCentre(b);
    var n := Base(base);
    assert Bounded(n, -1.0, 1.0);
    ScaleShiftBounds(n, k, c);
    var shifted := n.Scale(k).Shift(c);
    OctaveWeightedMean(shifted, 4, 2.0, 0.5, c - k, c + k);
    var oct := shifted.Octavate(4, 2.0, 0.5);
    FrequencyKeepsBounds(oct, 1.0 / 128.0, c - k, c + k);
  }
}
