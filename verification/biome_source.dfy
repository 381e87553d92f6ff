/** The biome source paired with the small world: the engine asks it for the
    biome of a quart cell (4 x 4 x 4 blocks), and it answers with one of
    three biomes from a surface height that interpolates between rolling
    inland hills and a noisy ocean floor along the coast blend. */
module BiomeSource {
  import opened Numeric
  import opened WorldParams
  import opened Noise
  import opened Coast

  /** The three biomes the source hands out. */
  datatype SourceBiome = Plains | Beach | Ocean

  /** The biomes the source declares, in its own order. */
  function BiomeStream(): seq<SourceBiome>
  {
    [Plains, Beach, Ocean]
  }

  /** The hill recipe of the inland surface: two sample scales and two
      amplitudes. The source reads them from a parameter class whose
      definition is not part of this model, so they are parameters. */
  datatype Hills = Hills(scale1: real, scale2: real, amp1: real, amp2: real)

  /** The inland height: the base surface plus two octaves of the height
      sampler. */
  function InlandHeight(height: Field, hills: Hills, x: int, z: int): real
  {
    BASE_SURFACE_Y as real + HillTerm(height, hills.scale1, hills.amp1, x, z) + HillTerm(height, hills.scale2, hills.amp2, x, z)
  }

  /** One octave of the hills: the sampler at the given scale times its
      amplitude. */
  function HillTerm(height: Field, scale: real, amp: real, x: int, z: int): real
  {
    height(Mul(x as real, scale), Mul(z as real, scale)) * amp
  }

  /** With the sampler in [-1, 1], an octave lies within its amplitude. */
  lemma HillTermWithin(height: Field, scale: real, amp: real, x: int, z: int)
    requires UnitField(height) && amp >= 0.0
    ensures -amp <= HillTerm(height, scale, amp, x, z) <= amp
  {
    UnitTimes(height(Mul(x as real, scale), Mul(z as real, scale)), amp);
  }

  /** The ocean floor: OCEAN_FLOOR_Y perturbed by twice the height sampler at
      scale 0.02. */
  function OceanFloorHeight(height: Field, x: int, z: int): real
  {
    OCEAN_FLOOR_Y as real + height(Mul(x as real, 0.02), Mul(z as real, 0.02)) * 2.0
  }

  /** The surface row: the inland height interpolated towards the ocean floor
      by the coast blend, rounded half up and not clamped. */
  function SurfaceY(height: Field, hills: Hills, x: int, z: int): (y: int)
    ensures MinReal(InlandHeight(height, hills, x, z), OceanFloorHeight(height, x, z)) - 1.0 / 2.0 < y as real
    ensures y as real <= MaxReal(InlandHeight(height, hills, x, z), OceanFloorHeight(height, x, z)) + 1.0 / 2.0
  {
    var h := Lerp(OceanBlend(x, z), InlandHeight(height, hills, x, z), OceanFloorHeight(height, x, z));
    LerpBetween(OceanBlend(x, z), InlandHeight(height, hills, x, z), OceanFloorHeight(height, x, z));
    Round(h)
  }

  /** On the island the surface is the rounded inland height, and beyond
      the ramp it is the rounded ocean floor. */
  lemma SurfaceYEnds(height: Field, hills: Hills, x: int, z: int)
    ensures Chebyshev(x, z) <= RAMP_START ==> SurfaceY(height, hills, x, z) == Round(InlandHeight(height, hills, x, z))
    ensures Chebyshev(x, z) >= RAMP_END ==> SurfaceY(height, hills, x, z) == Round(OceanFloorHeight(height, x, z))
  {
    OceanBlendEnds(x, z);
  }

  /** A quart coordinate to the block at the centre of its cell, in Java's
      wrapping 32-bit arithmetic: (q << 2) + 2. */
  function QuartToBlock(q: int): (w: int)
    requires -0x8000_0000 <= q < 0x8000_0000
    ensures -0x8000_0000 <= w < 0x8000_0000
  {
    Wrap32(Wrap32(4 * q) + 2)
  }

  /** Away from the ends of the int range the block is the centre of the
      quart's 4-block cell: 4 q <= w < 4 q + 4, two blocks in. */
  lemma QuartToBlockCentre(q: int)
    requires -0x2000_0000 <= q < 0x2000_0000
    ensures QuartToBlock(q) == 4 * q + 2
    ensures 4 * q <= QuartToBlock(q) < 4 * (q + 1)
  {
  }

  /** The classification of a column from its surface row and coast blend:
      below sea level is ocean; otherwise a blend above 0.10 with the surface
      at most two rows above sea level is beach; anything else is plains. */
  function Classify(topY: int, blend: real): SourceBiome
  {
    if topY < SEA_LEVEL then Ocean
    else if blend > 0.10 && topY <= SEA_LEVEL + 2 then Beach
    else Plains
  }

  /** Each biome is picked on exactly its band of surface rows and blends. */
  lemma ClassifyBands(topY: int, blend: real)
    ensures Classify(topY, blend) == Ocean <==> topY < SEA_LEVEL
    ensures Classify(topY, blend) == Beach <==> SEA_LEVEL <= topY <= SEA_LEVEL + 2 && blend > 0.10
    ensures Classify(topY, blend) == Plains <==> topY >= SEA_LEVEL && (topY > SEA_LEVEL + 2 || blend <= 0.10)
  {
  }

  /** The biome of quart cell (x, y, z): classify the column at the cell's
      centre block. The quart's y plays no part. */
  function GetBiome(height: Field, hills: Hills, x: int, y: int, z: int): (b: SourceBiome)
    requires -0x8000_0000 <= x < 0x8000_0000 && -0x8000_0000 <= z < 0x8000_0000
    ensures b in BiomeStream()
    ensures var topY := SurfaceY(height, hills, QuartToBlock(x), QuartToBlock(z));
            var blend := OceanBlend(QuartToBlock(x), QuartToBlock(z));
            && (b == Ocean <==> topY < SEA_LEVEL)
            && (b == Beach <==> SEA_LEVEL <= topY <= SEA_LEVEL + 2 && blend > 0.10)
            && (b == Plains <==> topY >= SEA_LEVEL && (topY > SEA_LEVEL + 2 || blend <= 0.10))
  {
    var wx, wz := QuartToBlock(x), QuartToBlock(z);
    ClassifyBands(SurfaceY(height, hills, wx, wz), OceanBlend(wx, wz));
    Classify(SurfaceY(height, hills, wx, wz), OceanBlend(wx, wz))
  }

  /** Two cells stacked in the same quart column get the same biome. */
  lemma GetBiomeIgnoresHeight(height: Field, hills: Hills, x: int, y1: int, y2: int, z: int)
    requires -0x8000_0000 <= x < 0x8000_0000 && -0x8000_0000 <= z < 0x8000_0000
    ensures GetBiome(height, hills, x, y1, z) == GetBiome(height, hills, x, y2, z)
  {
  }

  /** With the sampler in [-1, 1], every cell whose centre is beyond the
      coast ramp is ocean: the blend is 1 there, so the surface is the ocean
      floor, at most two rows off OCEAN_FLOOR_Y and so below sea level. The
      quart's height never matters. */
  lemma FarIsOcean(height: Field, hills: Hills, x: int, y: int, z: int)
    requires -0x8000_0000 <= x < 0x8000_0000 && -0x8000_0000 <= z < 0x8000_0000
    requires UnitField(height)
    requires Chebyshev(QuartToBlock(x), QuartToBlock(z)) >= RAMP_END
    ensures SurfaceY(height, hills, QuartToBlock(x), QuartToBlock(z)) < SEA_LEVEL
    ensures GetBiome(height, hills, x, y, z) == Ocean
  {
    var wx, wz := QuartToBlock(x), QuartToBlock(z);
    SurfaceYEnds(height, hills, wx, wz);
    var n := height(Mul(wx as real, 0.02), Mul(wz as real, 0.02));
    UnitTimes(n, 2.0);
    RoundBetween(OceanFloorHeight(height, wx, wz), OCEAN_FLOOR_Y - 2, OCEAN_FLOOR_Y + 2);
  }

  /** On the island (blend 0) a cell is never beach; and when the hills
      cannot reach down thirteen rows from the base surface, it is plains. */
  lemma IslandIsPlains(height: Field, hills: Hills, x: int, y: int, z: int)
    requires -0x8000_0000 <= x < 0x8000_0000 && -0x8000_0000 <= z < 0x8000_0000
    requires Chebyshev(QuartToBlock(x), QuartToBlock(z)) <= RAMP_START
    ensures GetBiome(height, hills, x, y, z) != Beach
    ensures UnitField(height) && hills.amp1 >= 0.0 && hills.amp2 >= 0.0 && hills.amp1 + hills.amp2 <= 13.0 ==>
              GetBiome(height, hills, x, y, z) == Plains
  {
    var wx, wz := QuartToBlock(x), QuartToBlock(z);
    SurfaceYEnds(height, hills, wx, wz);
    OceanBlendEnds(wx, wz);
    if UnitField(height) && hills.amp1 >= 0.0 && hills.amp2 >= 0.0 && hills.amp1 + hills.amp2 <= 13.0 {
      InlandAboveSea(height, hills, wx, wz);
    }
  }

  lemma InlandAboveSea(height: Field, hills: Hills, x: int, z: int)
    requires UnitField(height) && hills.amp1 >= 0.0 && hills.amp2 >= 0.0 && hills.amp1 + hills.amp2 <= 13.0
    ensures InlandHeight(height, hills, x, z) >= SEA_LEVEL as real
  {
    HillTermWithin(height, hills.scale1, hills.amp1, x, z);
    HillTermWithin(height, hills.scale2, hills.amp2, x, z);
  }
}
