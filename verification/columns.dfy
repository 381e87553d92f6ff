/** A vertical column of blocks from MIN_Y (the bedrock row) up to the world
    ceiling, read and written by absolute y. Reads outside the world see air
    and writes outside it are dropped, as the engine's chunks do. */
module Columns {
  import opened Blocks
  import opened WorldParams
  import opened Numeric

  type Column = c: seq<Block> | |c| == WORLD_HEIGHT witness seq(WORLD_HEIGHT, _ => Air)

  predicate InWorld(y: int)
  {
    MIN_Y <= y < MIN_Y + WORLD_HEIGHT
  }

  function AirColumn(): Column
  {
    seq(WORLD_HEIGHT, _ => Air)
  }

  function Get(col: Column, y: int): Block
  {
    if InWorld(y) then col[y - MIN_Y] else Air
  }

  /** One block write; the last write to a row wins. */
  function Set(col: Column, y: int, b: Block): (r: Column)
    ensures InWorld(y) ==> Get(r, y) == b
    ensures forall y' :: y' != y ==> Get(r, y') == Get(col, y')
    ensures !InWorld(y) ==> r == col
  {
    if InWorld(y) then col[y - MIN_Y := b] else col
  }

  lemma ColumnsEqual(a: Column, b: Column)
    requires forall y :: InWorld(y) ==> Get(a, y) == Get(b, y)
    ensures a == b
  {
    forall i | 0 <= i < WORLD_HEIGHT
      ensures a[i] == b[i]
    {
      assert Get(a, i + MIN_Y) == Get(b, i + MIN_Y);
    }
  }

  /** The top of the stone layer below a surface at topY: four rows below the
      surface, but never into the bedrock row. */
  function StoneTop(topY: int): int
  {
    Max(BEDROCK_Y + 1, topY - 4)
  }


  /** Row y after the dry layer writes of a column whose surface is at topY,
      the last write to a row winning: the cap at topY, bedrock at
      BEDROCK_Y, stone up to StoneTop, dirt up to the row below the surface,
      and otherwise what the column held. */
  function LayerRow(col: Column, topY: int, cap: Block, y: int): Block
  {
    if y == topY then cap
    else if y == BEDROCK_Y then Bedrock
    else if BEDROCK_Y < y <= StoneTop(topY) then Stone
    else if StoneTop(topY) < y < topY then Dirt
    else Get(col, y)
  }

  /** Writes blk into every row of [lo, hi], bottom up. */
  method FillRows(col: Column, lo: int, hi: int, blk: Block) returns (r: Column)
    ensures forall y :: InWorld(y) ==> Get(r, y) == (if lo <= y <= hi then blk else Get(col, y))
  {
    r := col;
    var y := lo;
    while y <= hi
      invariant lo <= y <= Max(lo, hi + 1)
      invariant forall y' :: InWorld(y') ==> Get(r, y') == (if lo <= y' < y then blk else Get(col, y'))
      decreases hi - y
    {
      r := Set(r, y, blk);
      y := y + 1;
    }
  }

  /** The vertical sample the generators report: row i is y = MIN_Y + i, and
      each row takes the first rule that applies: bedrock, stone up to
      StoneTop, dirt below the surface, grass at the surface, water up to sea
      level (only where the generator has water), air. */
  function SampleColumn(topY: int, withWater: bool): (col: Column)
  {
    seq(WORLD_HEIGHT, i =>
      var y := MIN_Y + i;
      if y == BEDROCK_Y then Bedrock
      else if y <= StoneTop(topY) then Stone
      else if y < topY then Dirt
      else if y == topY then GrassBlock
      else if withWater && y <= SEA_LEVEL then Water
      else Air)
  }

  /** Position of a block in a layer palette (|palette| when absent). */
  function IndexOf(palette: seq<Block>, b: Block): (i: nat)
    ensures i <= |palette|
    ensures i < |palette| ==> palette[i] == b
    ensures forall j :: 0 <= j < i ==> palette[j] != b
  {
    if |palette| == 0 then 0
    else if palette[0] == b then 0
    else 1 + IndexOf(palette[1..], b)
  }

  /** The column is a stack of the palette's layers in palette order, with no
      layer reappearing above a later one, and bedrock exactly once, at the
      floor. */
  ghost predicate Layered(col: Column, palette: seq<Block>)
  {
    && col[0] == Bedrock
    && (forall i :: 0 < i < WORLD_HEIGHT ==> col[i] != Bedrock)
    && (forall i :: 0 <= i < WORLD_HEIGHT ==> col[i] in palette)
    && (forall i, j :: 0 <= i < j < WORLD_HEIGHT ==> IndexOf(palette, col[i]) <= IndexOf(palette, col[j]))
  }

  const SAMPLE_PALETTE: seq<Block> := [Bedrock, Stone, Dirt, GrassBlock, Water, Air]

  /** Every reported sample is layered bedrock, stone, dirt, grass, water, air
      for any surface height, and its surface row (when inside the world) is
      grass, except at the lowest surface row BEDROCK_Y + 1, which the stone
      rule claims first. Without water everything above the surface is air. */
  lemma SampleColumnLayered(topY: int, withWater: bool)
    ensures Layered(SampleColumn(topY, withWater), SAMPLE_PALETTE)
    ensures InWorld(topY) && topY > BEDROCK_Y + 1 ==> Get(SampleColumn(topY, withWater), topY) == GrassBlock
    ensures topY == BEDROCK_Y + 1 ==> Get(SampleColumn(topY, withWater), topY) == Stone
    ensures !withWater && topY > BEDROCK_Y ==> forall y :: topY < y ==> Get(SampleColumn(topY, withWater), y) == Air
  {
    SampleRanks(topY, withWater);
    SampleOrdered(topY, withWater);
    SampleBedrockAtFloor(topY, withWater);
    SampleSurfaceRows(topY, withWater);
  }

  lemma SampleRanks(topY: int, withWater: bool)
    ensures forall i :: 0 <= i < WORLD_HEIGHT ==> SampleColumn(topY, withWater)[i] in SAMPLE_PALETTE
    ensures forall i :: 0 <= i < WORLD_HEIGHT ==> IndexOf(SAMPLE_PALETTE, SampleColumn(topY, withWater)[i]) == Rank(topY, withWater, MIN_Y + i)
  {
    forall i | 0 <= i < WORLD_HEIGHT
      ensures SampleColumn(topY, withWater)[i] in SAMPLE_PALETTE
      ensures IndexOf(SAMPLE_PALETTE, SampleColumn(topY, withWater)[i]) == Rank(topY, withWater, MIN_Y + i)
    {
      RankIsIndex(topY, withWater, i);
    }
  }

  lemma SampleOrdered(topY: int, withWater: bool)
    ensures forall i, j :: 0 <= i < j < WORLD_HEIGHT ==>
              IndexOf(SAMPLE_PALETTE, SampleColumn(topY, withWater)[i]) <= IndexOf(SAMPLE_PALETTE, SampleColumn(topY, withWater)[j])
  {
    forall i, j | 0 <= i < j < WORLD_HEIGHT
      ensures IndexOf(SAMPLE_PALETTE, SampleColumn(topY, withWater)[i]) <= IndexOf(SAMPLE_PALETTE, SampleColumn(topY, withWater)[j])
    {
      RankIsIndex(topY, withWater, i);
      RankIsIndex(topY, withWater, j);
      RankMonotonic(topY, withWater, MIN_Y + i, MIN_Y + j);
    }
  }

  lemma SampleBedrockAtFloor(topY: int, withWater: bool)
    ensures SampleColumn(topY, withWater)[0] == Bedrock
    ensures forall i :: 0 < i < WORLD_HEIGHT ==> SampleColumn(topY, withWater)[i] != Bedrock
  {
    forall i | 0 < i < WORLD_HEIGHT
      ensures SampleColumn(topY, withWater)[i] != Bedrock
    {
      RankIsIndex(topY, withWater, i);
    }
  }

  lemma SampleSurfaceRows(topY: int, withWater: bool)
    ensures InWorld(topY) && topY > BEDROCK_Y + 1 ==> Get(SampleColumn(topY, withWater), topY) == GrassBlock
    ensures topY == BEDROCK_Y + 1 ==> Get(SampleColumn(topY, withWater), topY) == Stone
    ensures !withWater && topY > BEDROCK_Y ==> forall y :: topY < y ==> Get(SampleColumn(topY, withWater), y) == Air
  {
    if InWorld(topY) && topY > BEDROCK_Y {
      RankIsIndex(topY, withWater, topY - MIN_Y);
    }
    if !withWater && topY > BEDROCK_Y {
      SampleAirAbove(topY);
    }
  }

  lemma SampleAirAbove(topY: int)
    requires topY > BEDROCK_Y
    ensures forall y :: topY < y ==> Get(SampleColumn(topY, false), y) == Air
  {
    var col := SampleColumn(topY, false);
    forall y | topY < y && InWorld(y)
      ensures col[y - MIN_Y] == Air
    {
      RankIsIndex(topY, false, y - MIN_Y);
    }
  }

  /** The palette index of row y of a sample, computed from the rules. */
  function Rank(topY: int, withWater: bool, y: int): (r: nat)
    ensures r < |SAMPLE_PALETTE|
  {
    if y == BEDROCK_Y then 0
    else if y <= StoneTop(topY) then 1
    else if y < topY then 2
    else if y == topY then 3
    else if withWater && y <= SEA_LEVEL then 4
    else 5
  }

  lemma RankIsIndex(topY: int, withWater: bool, i: int)
    requires 0 <= i < WORLD_HEIGHT
    ensures SampleColumn(topY, withWater)[i] in SAMPLE_PALETTE
    ensures SampleColumn(topY, withWater)[i] == SAMPLE_PALETTE[Rank(topY, withWater, MIN_Y + i)]
    ensures IndexOf(SAMPLE_PALETTE, SampleColumn(topY, withWater)[i]) == Rank(topY, withWater, MIN_Y + i)
  {
    var b := SampleColumn(topY, withWater)[i];
    var r := Rank(topY, withWater, MIN_Y + i);
    assert SAMPLE_PALETTE[r] == b;
  }

  lemma RankMonotonic(topY: int, withWater: bool, y1: int, y2: int)
    requires BEDROCK_Y <= y1 < y2
    ensures Rank(topY, withWater, y1) <= Rank(topY, withWater, y2)
  {
  }
}

/** Abstract random streams: the engine's generator is not reproduced, only
    the order in which draws are taken and that nextInt(n) lies in [0, n). */
module Random {

  /** The raw values an engine random stream yields, one per draw. */
  type Stream = nat -> nat

  /** The i-th draw of nextInt(bound). */
  function Draw(s: Stream, i: nat, bound: nat): (v: nat)
    requires bound > 0
    ensures v < bound
  {
    s(i) % bound
  }
}
