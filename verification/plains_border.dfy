/** The plains-border generator: a square of gently rolling plains 512 blocks
    across, centred on the origin, with nothing at all outside it. Each
    column inside is bedrock, stone, dirt and a grass surface from two
    simplex octaves, and each grass surface may get a plant chosen by the
    column's own random stream. */
module PlainsBorder {
  import opened Blocks
  import opened Numeric
  import opened WorldParams
  import opened Noise
  import opened Columns
  import opened Random

  /** Half the side of the generated square, measured from chunk centres. */
  const BORDER_RADIUS: int := 256

  const HILL_SCALE_1: real := 0.008
  const HILL_SCALE_2: real := 0.02
  const HILL_AMP_1: real := 5.0
  const HILL_AMP_2: real := 2.0

  /** A chunk by its chunk coordinates; it covers the 16 x 16 columns from
      its start block on. */
  datatype ChunkPos = ChunkPos(x: int, z: int)

  function StartX(p: ChunkPos): int { 16 * p.x }
  function StartZ(p: ChunkPos): int { 16 * p.z }

  /** A chunk centre is beyond the border when either coordinate is more
      than BORDER_RADIUS from the origin. */
  predicate BeyondBorder(cx: int, cz: int)
  {
    Max(Abs(cx), Abs(cz)) > BORDER_RADIUS
  }

  /** The chunk is skipped by every generation step: its centre block
      (start + 8 on both axes) is beyond the border. */
  predicate OutsideBorder(p: ChunkPos)
  {
    BeyondBorder(StartX(p) + 8, StartZ(p) + 8)
  }

  /** The generated chunks are exactly the 32 x 32 chunks with coordinates in
      [-16, 16), that is the blocks [-256, 256) on both axes. */
  lemma InsideBorderChunks(p: ChunkPos)
    ensures !OutsideBorder(p) <==> -16 <= p.x < 16 && -16 <= p.z < 16
  {
  }

  /** The border is symmetric: mirroring a chunk through the origin on either
      axis (chunk x maps to -x - 1, whose centre is the negated centre) or
      swapping the axes does not change whether it is outside. */
  lemma OutsideBorderSymmetric(p: ChunkPos)
    ensures OutsideBorder(ChunkPos(-p.x - 1, p.z)) == OutsideBorder(p)
    ensures OutsideBorder(ChunkPos(p.x, -p.z - 1)) == OutsideBorder(p)
    ensures OutsideBorder(ChunkPos(p.z, p.x)) == OutsideBorder(p)
  {
    assert StartX(ChunkPos(-p.x - 1, p.z)) + 8 == -(StartX(p) + 8);
    assert StartZ(ChunkPos(p.x, -p.z - 1)) + 8 == -(StartZ(p) + 8);
  }

  /** The unrounded height: the base surface plus two octaves of the height
      sampler, a wide one of amplitude 5 and a narrower one of amplitude 2. */
  function HillHeight(height: Field, x: int, z: int): real
  {
    BASE_SURFACE_Y as real
      + height(Mul(x as real, HILL_SCALE_1), Mul(z as real, HILL_SCALE_1)) * HILL_AMP_1
      + height(Mul(x as real, HILL_SCALE_2), Mul(z as real, HILL_SCALE_2)) * HILL_AMP_2
  }

  /** The surface row of column (x, z): the rounded hill height, clamped to
      one row above bedrock and two rows below the ceiling whatever the
      sampler returns. */
  function SurfaceY(height: Field, x: int, z: int): (y: int)
    ensures MIN_SURFACE <= y <= MAX_SURFACE
    ensures MIN_SURFACE == -63 && MAX_SURFACE == 318
  {
    ClampInt(Round(HillHeight(height, x, z)), MIN_SURFACE, MAX_SURFACE)
  }

  /** With the sampler in [-1, 1] the clamp never bites: the surface is the
      rounded hill height, within seven rows of the base surface. */
  lemma SurfaceYUnclamped(height: Field, x: int, z: int)
    requires UnitField(height)
    ensures SurfaceY(height, x, z) == Round(HillHeight(height, x, z))
    ensures BASE_SURFACE_Y - 7 <= SurfaceY(height, x, z) <= BASE_SURFACE_Y + 7
  {
    var n1 := height(Mul(x as real, HILL_SCALE_1), Mul(z as real, HILL_SCALE_1));
    var n2 := height(Mul(x as real, HILL_SCALE_2), Mul(z as real, HILL_SCALE_2));
    UnitTimes(n1, HILL_AMP_1);
    UnitTimes(n2, HILL_AMP_2);
    RoundBetween(HillHeight(height, x, z), BASE_SURFACE_Y - 7, BASE_SURFACE_Y + 7);
  }

  /** The dry layers of a column under a grass surface, as a whole column. */
  function Terrain(col: Column, topY: int): (t: Column)
    ensures forall y :: InWorld(y) ==> Get(t, y) == LayerRow(col, topY, GrassBlock, y)
  {
    var rows := seq(WORLD_HEIGHT, i requires 0 <= i < WORLD_HEIGHT => LayerRow(col, topY, GrassBlock, MIN_Y + i));
    assert |rows| == WORLD_HEIGHT;
    rows
  }

  /** The terrain writes of one column in the source's order: bedrock, the
      stone run, the dirt run, then grass at the surface. */
  method BuildTerrain(col: Column, topY: int) returns (r: Column)
    ensures r == Terrain(col, topY)
  {
    r := Set(col, BEDROCK_Y, Bedrock);
    var stoneTop := Max(BEDROCK_Y + 1, topY - 4);
    r := FillRows(r, BEDROCK_Y + 1, stoneTop, Stone);
    r := FillRows(r, stoneTop + 1, topY - 1, Dirt);
    r := Set(r, topY, GrassBlock);
    ColumnsEqual(r, Terrain(col, topY));
  }

  /** The reported sample of a column agrees row for row with the terrain
      generated into a fresh column, except when the surface sits directly
      on the bedrock row: there the sample's stone rule claims the surface
      row, while the generator writes grass over it last. */
  lemma SampleMatchesTerrain(topY: int)
    requires BEDROCK_Y < topY
    ensures topY > BEDROCK_Y + 1 ==> Terrain(AirColumn(), topY) == SampleColumn(topY, false)
    ensures topY == BEDROCK_Y + 1 ==>
              && Get(Terrain(AirColumn(), topY), topY) == GrassBlock
              && Get(SampleColumn(topY, false), topY) == Stone
  {
    var t, c := Terrain(AirColumn(), topY), SampleColumn(topY, false);
    if topY > BEDROCK_Y + 1 {
      forall y | InWorld(y)
        ensures Get(t, y) == Get(c, y)
      {
        assert AirColumn()[y - MIN_Y] == Air;
        RankIsIndex(topY, false, y - MIN_Y);
      }
      ColumnsEqual(t, c);
    } else {
      RankIsIndex(topY, false, topY - MIN_Y);
    }
  }

  /** The four nextInt(100) draws of a plant stream, in the source's order. */
  const DENSITY_DRAW: nat := 0
  const TALL_DRAW: nat := 1
  const FERN_DRAW: nat := 2
  const BUSH_DRAW: nat := 3

  /** A short plant: fern first, then bush, then short grass. */
  function ShortKind(fern: bool, bush: bool): Block
  {
    if fern then Fern else if bush then Bush else ShortGrass
  }

  /** The short plant the stream picks once the tall draw has failed. */
  function ShortPlant(s: Stream): Block
  {
    ShortKind(Draw(s, FERN_DRAW, 100) < 10, Draw(s, BUSH_DRAW, 100) < 15)
  }

  predicate IsTall(s: Stream)
  {
    Draw(s, TALL_DRAW, 100) < 1
  }

  /** What the plant pass may do to a column t whose surface is at topY,
      leaving r: only the two rows above the surface change; a change needs
      grass at the surface, a density draw below 75 and air at the plant
      row; a tall plant needs air in both rows and writes both halves, a
      short one writes its kind into the plant row; and whenever those
      conditions hold the plant is placed. */
  ghost predicate PlantRules(t: Column, r: Column, topY: int, s: Stream)
  {
    && (forall y :: y != topY + 1 && y != topY + 2 ==> Get(r, y) == Get(t, y))
    && (r != t ==> Get(t, topY) == GrassBlock && Draw(s, DENSITY_DRAW, 100) < 75 && Get(t, topY + 1) == Air)
    && (r != t && IsTall(s) ==>
          && Get(r, topY + 1) == TallGrassLower && Get(t, topY + 2) == Air
          && (InWorld(topY + 2) ==> Get(r, topY + 2) == TallGrassUpper))
    && (r != t && !IsTall(s) ==> Get(r, topY + 1) == ShortPlant(s) && Get(r, topY + 2) == Get(t, topY + 2))
    && ((&& Get(t, topY) == GrassBlock && Draw(s, DENSITY_DRAW, 100) < 75
         && InWorld(topY + 1) && Get(t, topY + 1) == Air
         && (IsTall(s) ==> Get(t, topY + 2) == Air)) ==> r != t)
  }

  /** The plant pass of one column t whose surface is at topY. */
  function Plant(t: Column, topY: int, s: Stream): Column
  {
    if Get(t, topY) != GrassBlock || Draw(s, DENSITY_DRAW, 100) >= 75 || Get(t, topY + 1) != Air then t
    else if !IsTall(s) then Set(t, topY + 1, ShortPlant(s))
    else if Get(t, topY + 2) != Air then t
    else Set(Set(t, topY + 1, TallGrassLower), topY + 2, TallGrassUpper)
  }

  /** The plant pass obeys the rules: the gates, the fern-bush-grass
      priority, the all-or-nothing tall plant, and placement whenever the
      gates and the free rows allow it. */
  lemma PlantObeysRules(t: Column, topY: int, s: Stream)
    ensures PlantRules(t, Plant(t, topY, s), topY, s)
  {
    var r := Plant(t, topY, s);
    if r != t {
      assert Get(r, topY + 1) != Get(t, topY + 1) || !InWorld(topY + 1);
    }
  }

  /** The plant pass in the source's order of draws and checks. The stream
      is drawn from only once the surface holds grass: one draw when the
      density gate rejects the column, and otherwise exactly four, whatever
      is then found in the plant rows. */
  method Decorate(t: Column, topY: int, s: Stream) returns (r: Column, draws: nat)
    ensures r == Plant(t, topY, s)
    ensures Get(t, topY) != GrassBlock ==> draws == 0
    ensures Get(t, topY) == GrassBlock ==>
              && (draws == 1 <==> Draw(s, DENSITY_DRAW, 100) >= 75)
              && (draws == 4 <==> Draw(s, DENSITY_DRAW, 100) < 75)
  {
    r, draws := t, 0;
    var plantY := topY + 1;
    if Get(t, topY) != GrassBlock {
      return;
    }
    draws := 1;
    if Draw(s, DENSITY_DRAW, 100) >= 75 {
      return;
    }
    var tall := Draw(s, TALL_DRAW, 100) < 1;
    var fern := Draw(s, FERN_DRAW, 100) < 10;
    var bush := Draw(s, BUSH_DRAW, 100) < 15;
    draws := 4;
    if Get(t, plantY) != Air {
      return;
    }
    if !tall {
      r := Set(t, plantY, ShortKind(fern, bush));
    } else {
      if Get(t, plantY + 1) != Air {
        return;
      }
      r := Set(t, plantY, TallGrassLower);
      r := Set(r, plantY + 1, TallGrassUpper);
    }
  }

  /** A column of the generated chunk: its terrain, then the plant pass. */
  function Populate(col: Column, topY: int, s: Stream): Column
  {
    Plant(Terrain(col, topY), topY, s)
  }

  /** One column of the noise pass. Its surface always holds grass, so the
      plant stream is always drawn from. */
  method PopulateColumn(col: Column, topY: int, s: Stream) returns (r: Column, draws: nat)
    requires MIN_SURFACE <= topY <= MAX_SURFACE
    ensures r == Populate(col, topY, s)
    ensures Get(Terrain(col, topY), topY) == GrassBlock
    ensures draws == 1 <==> Draw(s, DENSITY_DRAW, 100) >= 75
    ensures draws == 4 <==> Draw(s, DENSITY_DRAW, 100) < 75
  {
    var t := BuildTerrain(col, topY);
    assert Get(t, topY) == GrassBlock;
    r, draws := Decorate(t, topY, s);
  }

  /** The 256 columns of a chunk, column (lx, lz) at index 16 lx + lz. */
  type Chunk = c: seq<Column> | |c| == 256 witness seq(256, _ => AirColumn())

  function Index(lx: int, lz: int): int { 16 * lx + lz }

  predicate Local(lx: int, lz: int) { 0 <= lx < 16 && 0 <= lz < 16 }

  function ColumnAt(c: Chunk, lx: int, lz: int): Column
    requires Local(lx, lz)
  {
    c[Index(lx, lz)]
  }

  /** Column (lx, lz) of chunk populated with the surface from the height
      sampler and the plant stream of its world position. */
  function PopulatedAt(p: ChunkPos, chunk: Chunk, height: Field, plants: (int, int) -> Stream, lx: int, lz: int): Column
    requires Local(lx, lz)
  {
    var wx, wz := StartX(p) + lx, StartZ(p) + lz;
    Populate(ColumnAt(chunk, lx, lz), SurfaceY(height, wx, wz), plants(wx, wz))
  }

  /** Columns visited before (lx, lz) in scan order: x outer, z inner. */
  predicate Before(i: int, j: int, lx: int, lz: int)
  {
    i < lx || (i == lx && j < lz)
  }

  /** The columns before (lx, lz) are populated and the others untouched. */
  ghost predicate ScanInvariant(p: ChunkPos, chunk: Chunk, r: Chunk, height: Field, plants: (int, int) -> Stream, lx: int, lz: int)
  {
    forall i, j :: Local(i, j) ==>
      ColumnAt(r, i, j) == if Before(i, j, lx, lz) then PopulatedAt(p, chunk, height, plants, i, j) else ColumnAt(chunk, i, j)
  }

  /** Writing column (lx, lz) moves the scan one column on. */
  lemma ScanStep(p: ChunkPos, chunk: Chunk, r: Chunk, height: Field, plants: (int, int) -> Stream, lx: int, lz: int)
    requires Local(lx, lz)
    requires ScanInvariant(p, chunk, r, height, plants, lx, lz)
    ensures ScanInvariant(p, chunk, r[Index(lx, lz) := PopulatedAt(p, chunk, height, plants, lx, lz)], height, plants, lx, lz + 1)
  {
    var r' := r[Index(lx, lz) := PopulatedAt(p, chunk, height, plants, lx, lz)];
    forall i, j | Local(i, j)
      ensures ColumnAt(r', i, j) == if Before(i, j, lx, lz + 1) then PopulatedAt(p, chunk, height, plants, i, j) else ColumnAt(chunk, i, j)
    {
      if (i, j) != (lx, lz) {
        OtherColumnKept(r, lx, lz, PopulatedAt(p, chunk, height, plants, lx, lz), i, j);
      }
    }
  }

  lemma OtherColumnKept(r: Chunk, lx: int, lz: int, column: Column, i: int, j: int)
    requires Local(lx, lz) && Local(i, j) && (i, j) != (lx, lz)
    ensures ColumnAt(r[Index(lx, lz) := column], i, j) == ColumnAt(r, i, j)
  {
    assert Index(i, j) != Index(lx, lz);
  }

  /** The noise pass over one chunk: chunks outside the border come back
      untouched; inside it every column, x outer and z inner, gets its
      terrain and plant pass. */
  method PopulateNoise(p: ChunkPos, chunk: Chunk, height: Field, plants: (int, int) -> Stream) returns (r: Chunk)
    ensures OutsideBorder(p) ==> r == chunk
    ensures !OutsideBorder(p) ==> forall lx, lz :: Local(lx, lz) ==> ColumnAt(r, lx, lz) == PopulatedAt(p, chunk, height, plants, lx, lz)
  {
    r := chunk;
    if OutsideBorder(p) {
      return;
    }
    var lx := 0;
    while lx < 16
      invariant 0 <= lx <= 16
      invariant ScanInvariant(p, chunk, r, height, plants, lx, 0)
    {
      r := PopulateRow(p, chunk, r, height, plants, lx);
      lx := lx + 1;
    }
    assert forall i, j :: Local(i, j) ==> Before(i, j, 16, 0);
  }

  /** The inner loop of the noise pass: the sixteen columns of one x. */
  method PopulateRow(p: ChunkPos, chunk: Chunk, r0: Chunk, height: Field, plants: (int, int) -> Stream, lx: int)
    returns (r: Chunk)
    requires 0 <= lx < 16
    requires ScanInvariant(p, chunk, r0, height, plants, lx, 0)
    ensures ScanInvariant(p, chunk, r, height, plants, lx + 1, 0)
  {
    r := r0;
    var lz := 0;
    while lz < 16
      invariant 0 <= lz <= 16
      invariant ScanInvariant(p, chunk, r, height, plants, lx, lz)
    {
      var column := PopulatedAt(p, chunk, height, plants, lx, lz);
      ScanStep(p, chunk, r, height, plants, lx, lz);
      r := r[Index(lx, lz) := column];
      lz := lz + 1;
    }
    RowDone(p, chunk, r, height, plants, lx);
  }

  /** A finished row is the start of the next one. */
  lemma RowDone(p: ChunkPos, chunk: Chunk, r: Chunk, height: Field, plants: (int, int) -> Stream, lx: int)
    requires ScanInvariant(p, chunk, r, height, plants, lx, 16)
    ensures ScanInvariant(p, chunk, r, height, plants, lx + 1, 0)
  {
    forall i, j | Local(i, j)
      ensures Before(i, j, lx + 1, 0) == Before(i, j, lx, 16)
    {
    }
  }

  /** The tree pass of one chunk: nothing outside the border or when the
      oak feature is not registered; otherwise 1 + nextInt(2) attempts, each
      at a column nextInt(16) blocks into the chunk on both axes. The chunk
      stream is shared with the tree feature, which takes treeDraws(i) draws
      after attempt i; the origin's height and the tree itself are engine
      work. */
  method GenerateFeatures(p: ChunkPos, hasTree: bool, s: Stream, treeDraws: nat -> nat)
    returns (origins: seq<(int, int)>)
    ensures OutsideBorder(p) || !hasTree ==> origins == []
    ensures !OutsideBorder(p) && hasTree ==> |origins| == 1 + Draw(s, 0, 2)
    ensures 1 <= |origins| <= 2 || origins == []
    ensures forall i :: 0 <= i < |origins| ==>
              StartX(p) <= origins[i].0 < StartX(p) + 16 && StartZ(p) <= origins[i].1 < StartZ(p) + 16
    ensures |origins| > 0 ==> origins[0] == (StartX(p) + Draw(s, 1, 16), StartZ(p) + Draw(s, 2, 16))
  {
    origins := [];
    if OutsideBorder(p) || !hasTree {
      return;
    }
    var attempts := 1 + Draw(s, 0, 2);
    var next: nat := 1;
    var i := 0;
    while i < attempts
      invariant 0 <= i <= attempts && |origins| == i
      invariant i == 0 ==> next == 1
      invariant forall k :: 0 <= k < i ==>
                  StartX(p) <= origins[k].0 < StartX(p) + 16 && StartZ(p) <= origins[k].1 < StartZ(p) + 16
      invariant i > 0 ==> origins[0] == (StartX(p) + Draw(s, 1, 16), StartZ(p) + Draw(s, 2, 16))
    {
      var x := StartX(p) + Draw(s, next, 16);
      var z := StartZ(p) + Draw(s, next + 1, 16);
      origins := origins + [(x, z)];
      next := next + 2 + treeDraws(i);
      i := i + 1;
    }
  }
}
