/** The older generator's surface pass over one block column (x, z): bedrock,
    stone, dirt and a biome cap, sea water wherever the column is still air,
    and for plains a plant chosen by the column's own random stream. */
module LegacySurface {
  import opened Blocks
  import opened Numeric
  import opened WorldParams
  import opened Columns
  import opened Random
  import opened Blend
  import opened LegacyTerrain

  /** The surface block each biome writes at its surface row. */
  function Cap(b: CustomBiome): Block
  {
    match b
    case PLAINS => GrassBlock
    case SNOW => GrassBlock
    case JUNGLE => GrassBlock
    case DESERT => Sand
    case OCEAN => Sand
    case BEACH => Sand
  }

  /** Grass for plains, snow and jungle; sand for desert, ocean and beach. */
  lemma CapTable(b: CustomBiome)
    ensures Cap(b) == GrassBlock <==> b in {PLAINS, SNOW, JUNGLE}
    ensures Cap(b) == Sand <==> b in {DESERT, OCEAN, BEACH}
  {
  }

  /** Only ocean and beach columns run a water loop. */
  predicate Wet(b: CustomBiome)
  {
    b == OCEAN || b == BEACH
  }

  /** The first row of the water loop: just above the surface for ocean, and
      just above min(topY, SEA_LEVEL - 1) for beach. */
  function WaterStart(b: CustomBiome, topY: int): int
  {
    if b == BEACH then Min(topY, SEA_LEVEL - 1) + 1 else topY + 1
  }

  /** Row y once the dry writes are done: the layers under the biome's cap. */
  function DryRow(col: Column, topY: int, b: CustomBiome, y: int): Block
  {
    LayerRow(col, topY, Cap(b), y)
  }

  /** Row y after the terrain pass: the wet biomes' water loop turns the rows
      from WaterStart up to SEA_LEVEL that were still air into water. */
  function TerrainRow(col: Column, topY: int, b: CustomBiome, y: int): Block
  {
    var dry := DryRow(col, topY, b, y);
    if Wet(b) && WaterStart(b, topY) <= y <= SEA_LEVEL && dry == Air then Water else dry
  }

  /** Turns the air rows of [lo, hi] into water, bottom up; any other row
      keeps its block. */
  method FloodRows(col: Column, lo: int, hi: int) returns (r: Column)
    ensures forall y :: InWorld(y) ==> Get(r, y) == (if lo <= y <= hi && Get(col, y) == Air then Water else Get(col, y))
  {
    r := col;
    var y := lo;
    while y <= hi
      invariant lo <= y <= Max(lo, hi + 1)
      invariant forall y' :: InWorld(y') ==> Get(r, y') == (if lo <= y' < y && Get(col, y') == Air then Water else Get(col, y'))
      decreases hi - y
    {
      if Get(r, y) == Air {
        r := Set(r, y, Water);
      }
      y := y + 1;
    }
  }

  /** The terrain writes of one column in the source's order: bedrock, the
      stone run, the dirt run, then per biome the cap and, for ocean and
      beach, the water loop. */
  method BuildTerrain(col: Column, topY: int, b: CustomBiome) returns (r: Column)
    ensures forall y :: InWorld(y) ==> Get(r, y) == TerrainRow(col, topY, b, y)
  {
    r := Set(col, BEDROCK_Y, Bedrock);
    var stoneTop := Max(BEDROCK_Y + 1, topY - 4);
    r := FillRows(r, BEDROCK_Y + 1, stoneTop, Stone);
    r := FillRows(r, stoneTop + 1, topY - 1, Dirt);
    match b
    case PLAINS =>
      r := Set(r, topY, GrassBlock);
    case SNOW =>
      r := Set(r, topY, GrassBlock);
    case OCEAN =>
      r := Set(r, topY, Sand);
      r := FloodRows(r, topY + 1, SEA_LEVEL);
    case BEACH =>
      var beachTop := Min(topY, SEA_LEVEL - 1);
      r := Set(r, topY, Sand);
      r := FloodRows(r, beachTop + 1, SEA_LEVEL);
    case DESERT =>
      r := Set(r, topY, Sand);
    case JUNGLE =>
      r := Set(r, topY, GrassBlock);
  }

  /** Water lands only in rows above the surface and at or below sea level
      that were air before, and only in ocean and beach columns. */
  lemma WaterOnlyIntoAir(col: Column, topY: int, b: CustomBiome, y: int)
    requires InWorld(y) && BEDROCK_Y < topY
    requires TerrainRow(col, topY, b, y) == Water && Get(col, y) != Water
    ensures Wet(b) && topY < y <= SEA_LEVEL && Get(col, y) == Air
  {
  }

  /** Every row from bedrock to the surface is written by the terrain pass
      and none of them is air or water. */
  lemma SolidUpToSurface(col: Column, topY: int, b: CustomBiome, y: int)
    requires InWorld(y) && BEDROCK_Y < topY && y <= topY
    ensures TerrainRow(col, topY, b, y) in {Bedrock, Stone, Dirt, Cap(b)}
    ensures y == topY ==> TerrainRow(col, topY, b, y) == Cap(b)
  {
  }

  /** The layer order of a column built over fresh air. */
  function TerrainPalette(b: CustomBiome): seq<Block>
  {
    [Bedrock, Stone, Dirt, Cap(b), Water, Air]
  }

  /** The palette position of row y of a column built over fresh air. */
  function FreshRank(topY: int, b: CustomBiome, y: int): (k: nat)
    ensures k < 6
  {
    if y == BEDROCK_Y then 0
    else if y == topY then 3
    else if y <= StoneTop(topY) then 1
    else if y < topY then 2
    else if Wet(b) && y <= SEA_LEVEL then 4
    else 5
  }

  lemma PaletteIndex(b: CustomBiome, k: nat)
    requires k < 6
    ensures IndexOf(TerrainPalette(b), TerrainPalette(b)[k]) == k
  {
    var p := TerrainPalette(b);
    var i := IndexOf(p, p[k]);
    assert i <= k;
    assert forall j :: 0 <= j < 6 && j != k ==> p[j] != p[k];
  }

  lemma FreshRankIsRow(topY: int, b: CustomBiome, y: int)
    requires InWorld(y) && BEDROCK_Y < topY
    ensures TerrainRow(AirColumn(), topY, b, y) == TerrainPalette(b)[FreshRank(topY, b, y)]
  {
    if y > topY && Wet(b) && y <= SEA_LEVEL {
      assert WaterStart(b, topY) <= y;
    }
  }

  lemma FreshRankMonotonic(topY: int, b: CustomBiome, y1: int, y2: int)
    requires BEDROCK_Y < topY && BEDROCK_Y <= y1 < y2
    ensures FreshRank(topY, b, y1) <= FreshRank(topY, b, y2)
  {
  }

  /** Over a fresh (all-air) column the terrain pass leaves the layers
      bedrock, stone, dirt, cap, water, air from the bottom up, with bedrock
      only at the floor and water only in wet biomes, right above the
      surface and up to sea level. */
  lemma FreshTerrainLayered(r: Column, topY: int, b: CustomBiome)
    requires BEDROCK_Y < topY
    requires forall y :: InWorld(y) ==> Get(r, y) == TerrainRow(AirColumn(), topY, b, y)
    ensures Layered(r, TerrainPalette(b))
    ensures forall y :: InWorld(y) && topY < y ==> (Get(r, y) == Water <==> Wet(b) && y <= SEA_LEVEL)
  {
    forall i | 0 <= i < WORLD_HEIGHT
      ensures r[i] in TerrainPalette(b)
    {
      FreshRow(r, topY, b, i);
    }
    forall i | 0 < i < WORLD_HEIGHT
      ensures r[i] != Bedrock
    {
      FreshRow(r, topY, b, i);
    }
    FreshRow(r, topY, b, 0);
    FreshOrdered(r, topY, b);
    forall y | InWorld(y) && topY < y
      ensures Get(r, y) == Water <==> Wet(b) && y <= SEA_LEVEL
    {
      FreshRankIsRow(topY, b, y);
    }
  }

  /** Row i of a column built over fresh air is the palette entry of its rank. */
  lemma FreshRow(r: Column, topY: int, b: CustomBiome, i: int)
    requires BEDROCK_Y < topY && 0 <= i < WORLD_HEIGHT
    requires forall y :: InWorld(y) ==> Get(r, y) == TerrainRow(AirColumn(), topY, b, y)
    ensures r[i] == TerrainPalette(b)[FreshRank(topY, b, MIN_Y + i)]
    ensures r[i] in TerrainPalette(b)
    ensures IndexOf(TerrainPalette(b), r[i]) == FreshRank(topY, b, MIN_Y + i)
  {
    assert Get(r, MIN_Y + i) == r[i];
    FreshRankIsRow(topY, b, MIN_Y + i);
    PaletteIndex(b, FreshRank(topY, b, MIN_Y + i));
  }

  lemma FreshOrdered(r: Column, topY: int, b: CustomBiome)
    requires BEDROCK_Y < topY
    requires forall y :: InWorld(y) ==> Get(r, y) == TerrainRow(AirColumn(), topY, b, y)
    ensures forall i, j :: 0 <= i < j < WORLD_HEIGHT ==> IndexOf(TerrainPalette(b), r[i]) <= IndexOf(TerrainPalette(b), r[j])
  {
    forall i, j | 0 <= i < j < WORLD_HEIGHT
      ensures IndexOf(TerrainPalette(b), r[i]) <= IndexOf(TerrainPalette(b), r[j])
    {
      FreshRow(r, topY, b, i);
      FreshRow(r, topY, b, j);
      FreshRankMonotonic(topY, b, MIN_Y + i, MIN_Y + j);
    }
  }

  /** A short plant: short grass if the grass draw passed, else a bush if the
      bush draw passed, else a fern. */
  function ShortKind(isGrass: bool, bush: bool): Block
  {
    if isGrass then ShortGrass else if bush then Bush else Fern
  }

  /** The four nextInt(100) draws, in the order the source takes them. */
  const DENSITY_DRAW: nat := 0
  const GRASS_DRAW: nat := 1
  const TALL_DRAW: nat := 2
  const BUSH_DRAW: nat := 3

  /** The gates a plains column passes before its plant row is inspected:
      the surface row holds grass and the density draw is below 75. */
  predicate PlantGates(col: Column, topY: int, b: CustomBiome, s: Stream)
  {
    b == PLAINS && Get(col, topY) == GrassBlock && Draw(s, DENSITY_DRAW, 100) < 75
  }

  /** The plant pass of one column, after its terrain: plains only, on grass,
      with the column's stream deciding density, grass, tall and bush. A
      tall plant needs two air rows, a short one a single air row. */
  method Decorate(col: Column, topY: int, b: CustomBiome, s: Stream) returns (r: Column, draws: nat)
    ensures forall y :: y != topY + 1 && y != topY + 2 ==> Get(r, y) == Get(col, y)
    ensures b != PLAINS || Get(col, topY) != GrassBlock ==> r == col && draws == 0
    ensures b == PLAINS && Get(col, topY) == GrassBlock ==>
              && (draws == 1 <==> Draw(s, DENSITY_DRAW, 100) >= 75)
              && (draws == 4 <==> Draw(s, DENSITY_DRAW, 100) < 75)
    ensures draws == 0 || draws == 1 || draws == 4
    ensures r != col ==> PlantGates(col, topY, b, s) && Get(col, topY + 1) == Air
    ensures r != col && Draw(s, TALL_DRAW, 100) < 1 ==>
              && Get(r, topY + 1) == TallGrassLower && Get(col, topY + 2) == Air
              && (InWorld(topY + 2) ==> Get(r, topY + 2) == TallGrassUpper)
    ensures r != col && Draw(s, TALL_DRAW, 100) >= 1 ==>
              && Get(r, topY + 1) == ShortKind(Draw(s, GRASS_DRAW, 100) < 80, Draw(s, BUSH_DRAW, 100) < 60)
              && Get(r, topY + 2) == Get(col, topY + 2)
    ensures (&& PlantGates(col, topY, b, s) && InWorld(topY + 1) && Get(col, topY + 1) == Air
             && (Draw(s, TALL_DRAW, 100) < 1 ==> Get(col, topY + 2) == Air)) ==> r != col
    ensures InWorld(topY + 1) ==>
              PlantRows(Get(col, topY) == GrassBlock, Get(col, topY + 1), Get(col, topY + 2), Get(r, topY + 1), Get(r, topY + 2), topY, b, s)
  {
    r, draws := col, 0;
    if b != PLAINS {
      return;
    }
    var plantY := topY + 1;
    if Get(col, topY) != GrassBlock {
      return;
    }
    draws := 1;
    if Draw(s, DENSITY_DRAW, 100) >= 75 {
      return;
    }
    var isGrass := Draw(s, GRASS_DRAW, 100) < 80;
    var tall := Draw(s, TALL_DRAW, 100) < 1;
    var bush := Draw(s, BUSH_DRAW, 100) < 60;
    draws := 4;
    if Get(col, plantY) != Air {
      return;
    }
    if tall {
      if Get(col, plantY + 1) != Air {
        return;
      }
      r := Set(col, plantY, TallGrassLower);
      r := Set(r, plantY + 1, TallGrassUpper);
      assert Get(r, plantY) != Get(col, plantY) || !InWorld(plantY);
      return;
    }
    r := Set(col, plantY, ShortKind(isGrass, bush));
  }

  /** The block the terrain pass leaves at row y, read like Get: air outside
      the world. */
  function TerrainAt(col: Column, topY: int, b: CustomBiome, y: int): Block
  {
    if InWorld(y) then TerrainRow(col, topY, b, y) else Air
  }

  /** What the plant pass does to the two rows above the surface, given
      whether the surface is grass, the rows before (p1, p2) and after
      (q1, q2): they change only when the gates pass over an air row; with
      the gates passed over air, a tall plant with air above takes both rows
      and a short plant takes the first, ShortKind by its draws; a tall plant
      with no air above leaves both rows alone. */
  predicate PlantRows(grass: bool, p1: Block, p2: Block, q1: Block, q2: Block, topY: int, b: CustomBiome, s: Stream)
  {
    var gates := b == PLAINS && grass && Draw(s, DENSITY_DRAW, 100) < 75;
    var tall := Draw(s, TALL_DRAW, 100) < 1;
    && ((q1 != p1 || q2 != p2) ==> gates && p1 == Air)
    && (gates && p1 == Air && tall && p2 == Air ==> q1 == TallGrassLower && (InWorld(topY + 2) ==> q2 == TallGrassUpper))
    && (gates && p1 == Air && !tall ==> q1 == ShortKind(Draw(s, GRASS_DRAW, 100) < 80, Draw(s, BUSH_DRAW, 100) < 60) && q2 == p2)
    && (tall && p2 != Air ==> q1 == p1 && q2 == p2)
  }

  /** One column of the surface pass: the surface height and the biome at
      (x, z), the terrain writes, then the plant pass with the column's
      stream. A plains column always passes the grass gate, so its draw
      count and its plant rows depend on the draws alone. */
  method BuildSurfaceColumn(s: Samplers, root: Root, x: int, z: int, col: Column, plants: Stream)
    returns (r: Column, draws: nat)
    ensures forall y :: InWorld(y) && (y <= SurfaceHeight(s, root, x, z) || y > SurfaceHeight(s, root, x, z) + 2) ==>
              Get(r, y) == TerrainRow(col, SurfaceHeight(s, root, x, z), BiomeAt(s, root, x, z), y)
    ensures draws > 0 ==> BiomeAt(s, root, x, z) == PLAINS
    ensures draws <= 4
    ensures BiomeAt(s, root, x, z) == PLAINS ==>
              && Get(r, SurfaceHeight(s, root, x, z)) == GrassBlock
              && (draws == 1 <==> Draw(plants, DENSITY_DRAW, 100) >= 75)
              && (draws == 4 <==> Draw(plants, DENSITY_DRAW, 100) < 75)
    ensures var topY, b := SurfaceHeight(s, root, x, z), BiomeAt(s, root, x, z);
            PlantRows(TerrainAt(col, topY, b, topY) == GrassBlock,
                      TerrainAt(col, topY, b, topY + 1), TerrainAt(col, topY, b, topY + 2),
                      Get(r, topY + 1), Get(r, topY + 2), topY, b, plants)
  {
    r, draws := SurfaceColumn(col, SurfaceHeight(s, root, x, z), BiomeAt(s, root, x, z), plants);
  }

  /** The two passes of one column for a known surface height and biome. */
  method SurfaceColumn(col: Column, topY: int, b: CustomBiome, plants: Stream) returns (r: Column, draws: nat)
    requires MIN_SURFACE <= topY <= MAX_SURFACE
    ensures forall y :: InWorld(y) && (y <= topY || y > topY + 2) ==> Get(r, y) == TerrainRow(col, topY, b, y)
    ensures draws > 0 ==> b == PLAINS
    ensures draws <= 4
    ensures b == PLAINS ==>
              && Get(r, topY) == GrassBlock
              && (draws == 1 <==> Draw(plants, DENSITY_DRAW, 100) >= 75)
              && (draws == 4 <==> Draw(plants, DENSITY_DRAW, 100) < 75)
    ensures PlantRows(TerrainAt(col, topY, b, topY) == GrassBlock,
                      TerrainAt(col, topY, b, topY + 1), TerrainAt(col, topY, b, topY + 2),
                      Get(r, topY + 1), Get(r, topY + 2), topY, b, plants)
  {
    var terrain := BuildTerrain(col, topY, b);
    r, draws := Decorate(terrain, topY, b, plants);
    PlainsGateOpen(col, terrain, r, draws, topY, b, plants);
    PlantRowsOverTerrain(col, terrain, r, topY, b, plants);
  }

  /** Over the terrain pass, a plains surface is grass, so only the density
      draw decides how many draws the plant pass takes. */
  lemma PlainsGateOpen(col: Column, terrain: Column, r: Column, draws: nat, topY: int, b: CustomBiome, plants: Stream)
    requires MIN_SURFACE <= topY <= MAX_SURFACE
    requires forall y :: InWorld(y) ==> Get(terrain, y) == TerrainRow(col, topY, b, y)
    requires forall y :: y != topY + 1 && y != topY + 2 ==> Get(r, y) == Get(terrain, y)
    requires b == PLAINS && Get(terrain, topY) == GrassBlock ==>
               && (draws == 1 <==> Draw(plants, DENSITY_DRAW, 100) >= 75)
               && (draws == 4 <==> Draw(plants, DENSITY_DRAW, 100) < 75)
    ensures b == PLAINS ==>
              && Get(r, topY) == GrassBlock
              && (draws == 1 <==> Draw(plants, DENSITY_DRAW, 100) >= 75)
              && (draws == 4 <==> Draw(plants, DENSITY_DRAW, 100) < 75)
  {
    if b == PLAINS {
      SolidUpToSurface(col, topY, b, topY);
      assert Get(r, topY) == Get(terrain, topY);
    }
  }

  /** The plant rows stated over the terrain pass's rows. */
  lemma PlantRowsOverTerrain(col: Column, terrain: Column, r: Column, topY: int, b: CustomBiome, plants: Stream)
    requires MIN_SURFACE <= topY <= MAX_SURFACE
    requires forall y :: InWorld(y) ==> Get(terrain, y) == TerrainRow(col, topY, b, y)
    requires InWorld(topY + 1) ==>
               PlantRows(Get(terrain, topY) == GrassBlock, Get(terrain, topY + 1), Get(terrain, topY + 2),
                         Get(r, topY + 1), Get(r, topY + 2), topY, b, plants)
    ensures PlantRows(TerrainAt(col, topY, b, topY) == GrassBlock,
                      TerrainAt(col, topY, b, topY + 1), TerrainAt(col, topY, b, topY + 2),
                      Get(r, topY + 1), Get(r, topY + 2), topY, b, plants)
  {
    assert InWorld(topY) && InWorld(topY + 1);
    assert Get(terrain, topY) == TerrainAt(col, topY, b, topY);
    assert Get(terrain, topY + 1) == TerrainAt(col, topY, b, topY + 1);
    assert Get(terrain, topY + 2) == TerrainAt(col, topY, b, topY + 2);
  }

  /** In a fresh plains column the grass gate always passes: the surface row
      lies inside the world and the terrain pass caps it with grass. */
  lemma PlainsSurfaceIsGrass(s: Samplers, root: Root, x: int, z: int, r: Column)
    requires BiomeAt(s, root, x, z) == PLAINS
    requires forall y :: InWorld(y) ==> Get(r, y) == TerrainRow(AirColumn(), SurfaceHeight(s, root, x, z), PLAINS, y)
    ensures Get(r, SurfaceHeight(s, root, x, z)) == GrassBlock
  {
  }
}
