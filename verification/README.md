# Terracraft world generation, modelled in Dafny

Terracraft is a Minecraft mod that ships several small-world generators. This project
models the logic those generators use to decide what goes where, and proves properties of
that logic:

- **The first small-world chunk generator** (`worldgen/SmallWorldChunkGenerator`):
  - a forced plains disc at the centre;
  - a warped coast blend that turns far columns into beach and ocean;
  - an inverse-distance climate blend whose heaviest land biome wins;
  - a blended and clamped surface height with a beach cap;
  - the territory check at start-up, which labels the connected components of every
    biome on a 64 x 64 grid of 16-block cells and accepts a world only with 1 or 2 snow
    regions, some desert and some jungle;
  - the surface column: bedrock, stone, dirt, a biome cap, and water poured only into
    air;
  - the plains plant gates.
- **The second small-world chunk generator** (`worldgen/small_world/SmallWorldChunkGenerator`):
  - blend weights over all six biomes, with a coastline bias for ocean and beach;
  - the argmax biome;
  - truncated blended surface heights and depths;
  - the single classification pass its start-up performs;
  - its surface column.
- **The plains border generator:**
  - a square of plains chunks;
  - a clamped hill surface;
  - stone, dirt and grass columns with fern, bush, short grass or tall grass on top;
  - one or two tree attempts per chunk.
- **The small-world biome source:** classifies quart cells into plains, beach or ocean
  from a surface that interpolates between inland hills and the ocean floor.
- **The biome tables and noise combinators** (`scale`, `offset`, `frequency`,
  `octavate`), with the normalised octave sum proved to be a weighted mean.
- **The cave chest feature:** a coin flip, then a ten-deep downward scan for an air
  pocket over a solid floor that does not touch another chest.

How the engine is represented:

| engine part | in the model |
|---|---|
| noise sampler | `Field`, an uninterpreted function `(real, real) -> real`; lemmas that need bounds assume it lies in [-1, 1] (`UnitField`) |
| `Math.sqrt` | a `Root` function parameter, assumed monotone where needed |
| random stream | a `Stream` (`nat -> nat`), whose i-th `nextInt(n)` is `s(i) % n` |
| chunk column | a sequence of 384 blocks starting at y = -64; a write outside the world is dropped, a read outside it gives air |
| world around a feature | a map from positions to blocks; a missing position is air |
| doubles | exact reals |
| `Math.round` | floor(v + 1/2) |
| `(int)` cast | truncation toward zero |
| 32-bit shifts | `Wrap32` |

Both parameter classes define the same `smoothstep`, so the model has one `WorldParams`
module. The first generator names constants that only the second parameter class
declares: `PLAINS_CENTER_RAD`, `BEDROCK_Y`, `WORLD_HEIGHT`, `HEIGHT_FREQ`, the blend
thresholds, `BEACH_DRY_HEIGHT` and `DEEP_OCEAN_FLOOR_Y`. Their values come from `small_world/SmallWorldParams.java`.

Where the code and a natural reading of it differ, the model follows the code:

- **Water in the second generator's column:** water runs over [topY, SEA_LEVEL) only.
  The final surface write then replaces the cell at topY. Water never reaches below the
  surface: `SmallWorld.ColumnAboveSurface` holds for any start of the terrain run, and
  `SmallWorld.AsWrittenRowsToSurface` states the rows up to the surface of the column as
  written. `SmallWorld.ColumnSolidToSurface` states the same for the corrected column of
  the finding below.
- **Column samples versus columns:** the sampled columns of both small-world generators
  put water up to and including SEA_LEVEL, whatever the biome. The surface columns put
  water only in wet biomes.
- **Plains border at topY = -63:** the generated column has grass at that row, but the
  column sample says stone there (`PlainsBorder.SampleMatchesTerrain`).

## Model

Source paths are relative to the repository root.

| member | source | states |
|---|---|---|
| Numeric.Round | src/main/java/net/mango/worldgen/SmallWorldChunkGenerator.java:396 | `Math.round` lands within half a unit of its argument, with halves rounding up |
| Numeric.Trunc | src/main/java/net/mango/worldgen/small_world/SmallWorldChunkGenerator.java:365 | the `(int)` cast truncates toward zero: never above a positive value, never below a negative one, less than one away |
| Numeric.ClampInt | src/main/java/net/mango/worldgen/SmallWorldChunkGenerator.java:394-396 | `MathHelper.clamp` lands in [lo, hi], leaves values already in range alone, and sends values beyond either end to that end |
| Numeric.Clamp | src/main/java/net/mango/worldgen/SmallWorldChunkGenerator.java:172 | the real clamp lands in [lo, hi] and is the identity inside it |
| Numeric.LerpBetween | src/main/java/net/mango/worldgen/SmallWorldBiomeSource.java:122 | `MathHelper.lerp` with delta in [0, 1] stays between its two ends |
| Numeric.Wrap32 | src/main/java/net/mango/worldgen/SmallWorldBiomeSource.java:140-141 | Java int arithmetic wraps into the 32-bit range and changes nothing already in it |
| WorldParams.SmoothstepRange | src/main/java/net/mango/worldgen/SmallWorldParams.java:17-20 | smoothstep lies in [0, 1], is 0 for every t <= 0 and 1 for every t >= 1 |
| WorldParams.SmoothstepMonotonic | src/main/java/net/mango/worldgen/small_world/SmallWorldParams.java:28-31 | smoothstep never decreases |
| WorldParams.ConstantsOrdered | src/main/java/net/mango/worldgen/small_world/SmallWorldParams.java:8-26 | deep ocean floor < ocean floor < sea level; 0 < min threshold < max threshold < 1; the plains disc lies inside the start of the coast ramp; the ramp has positive width; the surface bounds are [-63, 318] |
| Coast.OceanBlend | src/main/java/net/mango/worldgen/SmallWorldChunkGenerator.java:420-425 | the coast blend is a fraction in [0, 1] |
| Coast.OceanBlendEnds | src/main/java/net/mango/worldgen/SmallWorldBiomeSource.java:127-132 | the blend is 0 within Chebyshev distance 256 of the origin and 1 from distance 522 outward |
| Coast.OceanBlendMonotone | src/main/java/net/mango/worldgen/SmallWorldChunkGenerator.java:420-425 | the blend depends only on the Chebyshev distance and never decreases with it |
| Coast.CentreDiscIsInland | src/main/java/net/mango/worldgen/SmallWorldChunkGenerator.java:141-143 | every column of the forced plains disc has coast blend 0 |
| Noise.Scale | src/main/java/net/mango/worldgen/noise/TerracraftNoise.java:6-8 | a scaled noise samples as the receiver's sample times k, at every point |
| Noise.Shift | src/main/java/net/mango/worldgen/noise/TerracraftNoise.java:10-12 | an offset noise samples as the receiver's sample plus c |
| Noise.AtFrequency | src/main/java/net/mango/worldgen/noise/TerracraftNoise.java:18-20 | a frequency noise samples the receiver at coordinates multiplied by f |
| Noise.Octavate | src/main/java/net/mango/worldgen/noise/TerracraftNoise.java:14-16 | octavate wraps the receiver unchanged, with exactly the octave count, lacunarity and gain given |
| Noise.FrequencyComposes | src/main/java/net/mango/worldgen/noise/TerracraftNoise.java:18-20 | frequency(f) then frequency(g) samples exactly like frequency(f * g) |
| Noise.ScaleShiftBounds | src/main/java/net/mango/worldgen/noise/TerracraftNoise.java:6-12 | scale(k).offset(c) of a noise in [-1, 1], k >= 0, lies in [c - k, c + k] |
| Noise.FrequencyKeepsBounds | src/main/java/net/mango/worldgen/noise/TerracraftNoise.java:18-20 | a change of frequency keeps every global bound |
| Noise.OctavatedSample | src/main/java/net/mango/worldgen/noise/OctavatedTerracraftNoise.java:24-40 | the octave loop, with frequency and amplitude multiplied after each octave, returns the sum over octaves i of the sample at lacunarity^i times gain^i, divided by the sum of gain^i |
| Noise.ScopePositive | src/main/java/net/mango/worldgen/noise/OctavatedTerracraftNoise.java:31-39 | with at least one octave and a positive gain the divisor is positive |
| Noise.NoOctavesNotWellFormed | src/main/java/net/mango/worldgen/noise/OctavatedTerracraftNoise.java:31-39 | with no octaves the loop never runs and the final division is by zero |
| Noise.SingleOctaveIsInner | src/main/java/net/mango/worldgen/noise/OctavatedTerracraftNoise.java:24-40 | one octave samples exactly as the wrapped noise |
| Noise.OctaveTotalBounds | src/main/java/net/mango/worldgen/noise/OctavatedTerracraftNoise.java:31-37 | the running total lies between lo and hi times the running divisor |
| Noise.OctaveWeightedMean | src/main/java/net/mango/worldgen/noise/OctavatedTerracraftNoise.java:31-39 | the normalised octave sum of a noise bounded by [lo, hi] is bounded by [lo, hi] |
| Noise.OctaveOfConstant | src/main/java/net/mango/worldgen/noise/OctavatedTerracraftNoise.java:31-39 | octaves of a constant noise c sample exactly c |
| TerracraftBiomes.Ordinal | src/main/java/net/mango/worldgen/biomes/TerracraftBiome.java:9-15 | each biome's ordinal is its position in declaration order |
| TerracraftBiomes.TerrainHeightMap | src/main/java/net/mango/worldgen/biomes/TerracraftBiome.java:17-22 | a biome's terrain height map is a sampleable noise that is the same constant everywhere |
| TerracraftBiomes.TerrainDepth | src/main/java/net/mango/worldgen/biomes/TerracraftBiome.java:17-22 | that constant is 1 exactly for plains, jungle and ocean, and 8 otherwise |
| TerracraftBiomes.TerrainBlockTable | src/main/java/net/mango/worldgen/biomes/TerracraftBiome.java:24-31 | dirt exactly for plains, snow and jungle; red sandstone only for desert; sandstone only for beach; sand only for ocean |
| TerracraftBiomes.SurfaceBlockShared | src/main/java/net/mango/worldgen/biomes/TerracraftBiome.java:44-52 | two different biomes share a surface block iff they are beach and ocean |
| TerracraftBiomes.SurfaceHeightMap | src/main/java/net/mango/worldgen/biomes/TerracraftBiome.java:33-42 | every surface recipe can be sampled: four octaves at gain 0.5 never divide by zero |
| TerracraftBiomes.SurfaceHeightBounds | src/main/java/net/mango/worldgen/biomes/TerracraftBiome.java:33-42 | with a base in [-1, 1] a biome's surface height lies in [c - k, c + k] for its centre c and amplitude k, and every biome's in [31, 88] |
| Blend.InverseWeight | src/main/java/net/mango/worldgen/small_world/SmallWorldChunkGenerator.java:182 | 1 / (d + 0.0001)^10 is positive for every non-negative distance |
| Blend.InverseWeightDecreasing | src/main/java/net/mango/worldgen/small_world/SmallWorldChunkGenerator.java:182 | a strictly larger distance gives a strictly smaller weight |
| Blend.Weights | src/main/java/net/mango/worldgen/SmallWorldChunkGenerator.java:193-205 | one positive weight per distance |
| Blend.Normalize | src/main/java/net/mango/worldgen/small_world/SmallWorldChunkGenerator.java:187-189 | dividing by the total keeps one positive weight per entry |
| Blend.NormalizeSumsToOne | src/main/java/net/mango/worldgen/small_world/SmallWorldChunkGenerator.java:187-189 | the normalised weights sum to exactly 1 |
| Blend.NormalizeKeepsOrder | src/main/java/net/mango/worldgen/SmallWorldChunkGenerator.java:207-209 | normalising keeps the order between any two weights, both ways |
| Blend.NormalizeKeepsWinner | src/main/java/net/mango/worldgen/SmallWorldChunkGenerator.java:207-209 | an entry is the first maximum after normalising iff it was before |
| Blend.FirstMaxIndex | src/main/java/net/mango/worldgen/small_world/SmallWorldChunkGenerator.java:136-144 | the chosen index holds a greatest weight, and every earlier index holds a strictly smaller one |
| Blend.FirstMaxUnique | src/main/java/net/mango/worldgen/small_world/SmallWorldChunkGenerator.java:139-144 | there is only one first maximum, so ties go to the earliest ordinal |
| Blend.ArgMaxScan | src/main/java/net/mango/worldgen/small_world/SmallWorldChunkGenerator.java:135-146 | the scan that replaces the best only on a strictly greater weight ends at the first maximum |
| Blend.HeaviestIsNearest | src/main/java/net/mango/worldgen/SmallWorldChunkGenerator.java:202 | the first heaviest inverse-distance weight sits exactly at the first nearest distance |
| Blend.Winner | src/main/java/net/mango/worldgen/SmallWorldChunkGenerator.java:151-165 | the reference winner is the first nearest entry |
| Blend.Roots | src/main/java/net/mango/worldgen/SmallWorldChunkGenerator.java:200 | square roots of the squared distances are non-negative, one per entry |
| Blend.MonotoneKeepsFirstMin | src/main/java/net/mango/worldgen/SmallWorldChunkGenerator.java:200 | a monotone square root keeps which entry is the first nearest |
| Blend.RootOrder | src/main/java/net/mango/worldgen/SmallWorldChunkGenerator.java:200 | a monotone root orders its results as it orders its arguments, both ways |
| Blend.SelectedIsNearest | src/main/java/net/mango/worldgen/SmallWorldChunkGenerator.java:151-165 | the argmax over normalised inverse-distance weights picks the first entry with the least squared climate distance |
| Blend.BlendedBounds | src/main/java/net/mango/worldgen/small_world/SmallWorldChunkGenerator.java:356-363 | a blend of values in [lo, hi] lies between lo and hi times the weight that took part |
| Blend.CountedWeightBounds | src/main/java/net/mango/worldgen/small_world/SmallWorldChunkGenerator.java:360 | skipping weights below the cutoff loses at most the cutoff per entry |
| Blend.CountedWeightAll | src/main/java/net/mango/worldgen/small_world/SmallWorldChunkGenerator.java:360 | when no weight is below the cutoff, the whole weight takes part |
| Labelling.AdjacentSymmetric | src/main/java/net/mango/worldgen/SmallWorldChunkGenerator.java:293 | the four neighbour offsets are closed under reversal |
| Labelling.ConnectedSameBiome | src/main/java/net/mango/worldgen/SmallWorldChunkGenerator.java:328-329 | connected cells are on the grid and share their biome |
| Labelling.ConnectedSymmetric | src/main/java/net/mango/worldgen/SmallWorldChunkGenerator.java:323-345 | connectedness is symmetric |
| Labelling.ConnectedTransitive | src/main/java/net/mango/worldgen/SmallWorldChunkGenerator.java:323-345 | connectedness is transitive |
| Labelling.Probe | src/main/java/net/mango/worldgen/SmallWorldChunkGenerator.java:324-337 | probing a cell's four neighbours adds exactly the unlabelled same-biome neighbours not yet found: the found set grows by exactly those cells, and they join the back of the open list in north, west, south, east order |
| Labelling.FloodFill | src/main/java/net/mango/worldgen/SmallWorldChunkGenerator.java:317-345 | the flood from an unlabelled start collects exactly the cells connected to it, all of them unlabelled |
| Labelling.ClosedContainsConnected | src/main/java/net/mango/worldgen/SmallWorldChunkGenerator.java:323-345 | a same-biome set closed under same-biome neighbours contains every cell connected to its start |
| Labelling.Relabel | src/main/java/net/mango/worldgen/SmallWorldChunkGenerator.java:347-350 | the component's cells get the new id and every other cell keeps its id |
| Labelling.Label | src/main/java/net/mango/worldgen/SmallWorldChunkGenerator.java:309-352 | every grid cell gets an id in 1..counts[biome]; two same-biome cells share an id iff connected; every id up to the count is used; counts[b] is the number of connected components of biome b |
| Labelling.NeighboursShareId | src/main/java/net/mango/worldgen/SmallWorldChunkGenerator.java:309-352 | same-biome 4-neighbours share an id |
| Labelling.IdsCountComponents | src/main/java/net/mango/worldgen/SmallWorldChunkGenerator.java:347 | ids 1..n that name components one to one mean exactly n components |
| Territory.ScanOrder | src/main/java/net/mango/worldgen/SmallWorldChunkGenerator.java:299-304 | the scan visits 64 x 64 cells, x outer and z inner, from -512 in steps of 16 |
| Territory.ScanOrderIsGrid | src/main/java/net/mango/worldgen/SmallWorldChunkGenerator.java:299-300 | the scan visits exactly the grid cells, each once |
| Territory.Classify | src/main/java/net/mango/worldgen/SmallWorldChunkGenerator.java:299-306 | the classified grid holds exactly the cells on the grid (offsets from -RADIUS in steps of 16), each with the biome of its position |
| Territory.AcceptMatchesComponents | src/main/java/net/mango/worldgen/SmallWorldChunkGenerator.java:355 | the count test accepts iff the grid has 1 or 2 snow components and at least one desert and one jungle component |
| Territory.Attempt | src/main/java/net/mango/worldgen/SmallWorldChunkGenerator.java:296-358 | one attempt labels the classified grid and accepts iff its samplers give an acceptable territory |
| Territory.Initialize | src/main/java/net/mango/worldgen/SmallWorldChunkGenerator.java:295-366 | the retry loop over successive samplers stops at the first acceptable attempt, with its labelling; it finds none iff no attempt is acceptable |
| LegacyTerrain.HillsOf | src/main/java/net/mango/worldgen/CustomBiome.java:4-9 | every biome's hill amplitudes are non-negative and sum to at most 31 |
| LegacyTerrain.SquaredDistance | src/main/java/net/mango/worldgen/SmallWorldChunkGenerator.java:196-200 | the squared climate distance is non-negative |
| LegacyTerrain.BlendWeights | src/main/java/net/mango/worldgen/SmallWorldChunkGenerator.java:175-212 | one positive weight per land biome, summing to 1 |
| LegacyTerrain.WarpedOceanBlend | src/main/java/net/mango/worldgen/SmallWorldChunkGenerator.java:168-173 | the warped blend lies in [0, 1] and, with a unit sampler, within 0.08 of the plain blend |
| LegacyTerrain.BiomeAt | src/main/java/net/mango/worldgen/SmallWorldChunkGenerator.java:135-166 | plains inside the disc; outside it ocean iff blend > 0.75, beach iff 0.4 < blend <= 0.75, and otherwise the land biome of the first heaviest weight |
| LegacyTerrain.LandBiome | src/main/java/net/mango/worldgen/SmallWorldChunkGenerator.java:151-165 | the argmax picks a land biome holding the first greatest weight |
| LegacyTerrain.BiomeAtNearestClimate | src/main/java/net/mango/worldgen/SmallWorldChunkGenerator.java:151-165 | outside the disc and below the beach band, the biome is the land biome with the first least climate distance |
| LegacyTerrain.CentreIsPlains | src/main/java/net/mango/worldgen/SmallWorldChunkGenerator.java:139-143 | the disc is plains, whatever its warped blend, and its plain blend is 0 |
| LegacyTerrain.ClampedHeight | src/main/java/net/mango/worldgen/SmallWorldChunkGenerator.java:374-378 | each biome's height is raised to at least the plains height |
| LegacyTerrain.UnblendedHeightRange | src/main/java/net/mango/worldgen/SmallWorldChunkGenerator.java:214-218 | with a unit sampler a biome's hill height lies within its two amplitudes of 63 |
| LegacyTerrain.AllWeightsSumToOne | src/main/java/net/mango/worldgen/SmallWorldChunkGenerator.java:380-383 | with ocean and beach weighing 0, the weights over all six biomes sum to 1 |
| LegacyTerrain.InlandBounds | src/main/java/net/mango/worldgen/SmallWorldChunkGenerator.java:372-383 | the inland height is at least the plains height and at most any bound on the clamped heights |
| LegacyTerrain.InlandRange | src/main/java/net/mango/worldgen/SmallWorldChunkGenerator.java:372-383 | with a unit sampler the inland height lies in [56, 94] |
| LegacyTerrain.CoastHeightEnds | src/main/java/net/mango/worldgen/SmallWorldChunkGenerator.java:399-403 | blend 0 gives the inland height and blend 1 the ocean target |
| LegacyTerrain.CoastHeightBeachCap | src/main/java/net/mango/worldgen/SmallWorldChunkGenerator.java:404-409 | strictly inside the beach band the height is at most SEA_LEVEL + BEACH_DRY_HEIGHT = 150 |
| LegacyTerrain.CoastHeightBetween | src/main/java/net/mango/worldgen/SmallWorldChunkGenerator.java:399-411 | the coastal height stays between the base surface, the inland height and the ocean target |
| LegacyTerrain.SurfaceHeight | src/main/java/net/mango/worldgen/SmallWorldChunkGenerator.java:394-396 | the surface height always lies in [-63, 318] |
| LegacyTerrain.SurfaceHeightInland | src/main/java/net/mango/worldgen/SmallWorldChunkGenerator.java:369-397 | within distance 256 the surface is the rounded inland height, in [56, 94] with a unit sampler |
| LegacyTerrain.SurfaceHeightDeepOcean | src/main/java/net/mango/worldgen/SmallWorldChunkGenerator.java:385-397 | from distance 522 outward the surface lies in [32, 36], the noisy deep ocean floor |
| LegacyTerrain.SurfaceHeightBeachCap | src/main/java/net/mango/worldgen/SmallWorldChunkGenerator.java:392-409 | with the blend strictly inside the beach band the surface is at most 150 |
| Columns.Set | src/main/java/net/mango/worldgen/SmallWorldChunkGenerator.java:486-487 | a write sets its own row and no other, and a write outside the world changes nothing |
| Columns.FillRows | src/main/java/net/mango/worldgen/SmallWorldChunkGenerator.java:491-494 | the fill loop sets exactly the rows in [lo, hi] and keeps the rest |
| Columns.SampleColumnLayered | src/main/java/net/mango/worldgen/SmallWorldChunkGenerator.java:641-670 | the sampled column runs bedrock, stone, dirt, grass, water, air bottom to top, with grass at topY above the lowest surface and stone there at the lowest; without water all is air above topY |
| Random.Draw | src/main/java/net/mango/worldgen/SmallWorldChunkGenerator.java:554 | `nextInt(n)` lies in [0, n) |
| LegacySurface.CapTable | src/main/java/net/mango/worldgen/SmallWorldChunkGenerator.java:503-544 | the cap is grass exactly for plains, snow and jungle and sand exactly for desert, ocean and beach |
| LegacySurface.FloodRows | src/main/java/net/mango/worldgen/SmallWorldChunkGenerator.java:513-518 | the water loop turns exactly the air rows of [lo, hi] into water and keeps the rest |
| LegacySurface.BuildTerrain | src/main/java/net/mango/worldgen/SmallWorldChunkGenerator.java:486-544 | the write sequence leaves bedrock, stone up to max(-63, topY - 4), dirt, the biome cap, and for ocean and beach water in air rows up to sea level |
| LegacySurface.SolidUpToSurface | src/main/java/net/mango/worldgen/SmallWorldChunkGenerator.java:486-506 | every row up to topY is bedrock, stone, dirt or the cap, and topY is the cap |
| LegacySurface.WaterOnlyIntoAir | src/main/java/net/mango/worldgen/SmallWorldChunkGenerator.java:508-534 | new water appears only in wet biomes, above topY, at or below sea level, where there was air |
| LegacySurface.FreshTerrainLayered | src/main/java/net/mango/worldgen/SmallWorldChunkGenerator.java:486-534 | a fresh column ends layered bedrock, stone, dirt, cap, water, air; above topY it is water iff the biome is wet and the row is at most sea level |
| LegacySurface.Decorate | src/main/java/net/mango/worldgen/SmallWorldChunkGenerator.java:546-582 | only plains columns with grass on top draw; on such a column exactly one draw is taken iff draw 0 >= 75, and exactly four iff it is < 75; tall grass needs both rows air and writes both halves; a short plant is short grass, else bush, else fern; only the two rows above topY can change |
| LegacySurface.BuildSurfaceColumn | src/main/java/net/mango/worldgen/SmallWorldChunkGenerator.java:479-583 | the column is the terrain of its surface height and biome outside the two rows above the surface; only plains columns draw, and a plains column has grass on top and takes one draw iff draw 0 >= 75 and four iff it is < 75; the two plant rows follow `PlantRows` over the terrain rows: when the tall draw fires, tall grass fills both rows if both are air and leaves them alone otherwise; when it does not, a short plant (short grass, bush or fern) goes into the air row above the grass; nothing changes unless the plains gate passes over air |
| LegacySurface.SurfaceColumn | src/main/java/net/mango/worldgen/SmallWorldChunkGenerator.java:486-582 | for a given surface height and biome, the terrain and plant passes leave the terrain rows outside the two rows above the surface; a plains column has grass on top and takes one draw iff draw 0 >= 75 and four iff it is < 75; other biomes take no draws; the two plant rows follow `PlantRows` over the terrain rows |
| LegacySurface.PlainsSurfaceIsGrass | src/main/java/net/mango/worldgen/SmallWorldChunkGenerator.java:546-549 | a fresh plains column has grass on top, so the plant gate is always reached there |
| SmallWorld.ParamOf | src/main/java/net/mango/worldgen/small_world/SmallWorldChunkGenerator.java:77-84 | every biome has its climate target in the parameter list |
| SmallWorld.ParamsOnePerBiome | src/main/java/net/mango/worldgen/small_world/SmallWorldChunkGenerator.java:77-84 | the list names each of the six biomes exactly once |
| SmallWorld.ClimateNoise | src/main/java/net/mango/worldgen/small_world/SmallWorldChunkGenerator.java:262-267 | the temperature and humidity noises can be sampled |
| SmallWorld.CoastNoise | src/main/java/net/mango/worldgen/small_world/SmallWorldChunkGenerator.java:270-271 | the coastline noise can be sampled |
| SmallWorld.AdjustedDistance | src/main/java/net/mango/worldgen/small_world/SmallWorldChunkGenerator.java:163-180 | the biased distance is clamped to be non-negative |
| SmallWorld.CoastBiasOnlyWet | src/main/java/net/mango/worldgen/small_world/SmallWorldChunkGenerator.java:166-178 | land biomes get the pure climate distance; ocean's bias is 6.5 - c1/64 and beach's is 2.0 - c2/192 |
| SmallWorld.BlendingWeights | src/main/java/net/mango/worldgen/small_world/SmallWorldChunkGenerator.java:149-192 | one positive weight per biome, summing to 1 |
| SmallWorld.BiomeAt | src/main/java/net/mango/worldgen/small_world/SmallWorldChunkGenerator.java:127-147 | plains inside the disc; otherwise the biome of the first greatest weight, ocean and beach included |
| SmallWorld.Heaviest | src/main/java/net/mango/worldgen/small_world/SmallWorldChunkGenerator.java:135-146 | the argmax picks the biome whose ordinal is the first maximum |
| SmallWorld.SelectBiome | src/main/java/net/mango/worldgen/small_world/SmallWorldChunkGenerator.java:127-147 | the disc test followed by the strict-greater scan over the weights in ordinal order gives the reference biome |
| SmallWorld.StrictWinnerChosen | src/main/java/net/mango/worldgen/small_world/SmallWorldChunkGenerator.java:139-144 | outside the disc, a biome strictly heavier than all others is chosen |
| SmallWorld.BiomeAtNearest | src/main/java/net/mango/worldgen/small_world/SmallWorldChunkGenerator.java:135-146 | outside the disc the chosen biome has the first least biased distance |
| SmallWorld.SurfaceDepths | src/main/java/net/mango/worldgen/small_world/SmallWorldChunkGenerator.java:368-382 | the per-biome depths blended are each between 1 and 8 |
| SmallWorld.CountedWeightNearOne | src/main/java/net/mango/worldgen/small_world/SmallWorldChunkGenerator.java:360 | the weight that survives the 0.01 cutoff lies in [0.94, 1] |
| SmallWorld.SurfaceHeightRange | src/main/java/net/mango/worldgen/small_world/SmallWorldChunkGenerator.java:352-366 | with unit base fields the unclamped truncated height lies in [29, 88], strictly inside the world |
| SmallWorld.SurfaceDepthRange | src/main/java/net/mango/worldgen/small_world/SmallWorldChunkGenerator.java:368-382 | the truncated depth lies in [0, 8] |
| SmallWorld.InitialGrid | src/main/java/net/mango/worldgen/small_world/SmallWorldChunkGenerator.java:275-290 | the one pass classifies exactly the grid cells, each by its own position |
| SmallWorld.WriteColumn | src/main/java/net/mango/worldgen/small_world/SmallWorldChunkGenerator.java:446-467 | the three write loops (terrain run, surface run, water) and the two single writes (the block at topY and bedrock) leave every row as their last write to it says |
| SmallWorld.BuildColumnAsWritten | src/main/java/net/mango/worldgen/small_world/SmallWorldChunkGenerator.java:446-449 | as written, the terrain run starts at row 0 |
| SmallWorld.AsWrittenLeavesGap | src/main/java/net/mango/worldgen/small_world/SmallWorldChunkGenerator.java:446-449 | as written, a fresh plains column with surface 64 and depth 1 keeps air at row -1, where its column sample has stone |
| SmallWorld.BuildColumn | src/main/java/net/mango/worldgen/small_world/SmallWorldChunkGenerator.java:446-467 | corrected, the terrain run starts just above bedrock |
| SmallWorld.ColumnSolidToSurface | src/main/java/net/mango/worldgen/small_world/SmallWorldChunkGenerator.java:446-454 | corrected, every row from above bedrock to topY is the terrain block, or the surface block in the top topDepth rows and at topY; no water below the surface |
| SmallWorld.ColumnAboveSurface | src/main/java/net/mango/worldgen/small_world/SmallWorldChunkGenerator.java:456-464 | above the surface of a fresh column there is water iff the biome is ocean or beach and the row is below sea level, and air otherwise, wherever the terrain run starts |
| SmallWorld.AsWrittenRowsToSurface | src/main/java/net/mango/worldgen/small_world/SmallWorldChunkGenerator.java:446-454 | as written, rows 0 to topY are solid: the terrain block, or the surface block in the top topDepth rows and at topY; rows between bedrock and 0 below the surface run keep what the column held |
| SmallWorld.BuildSurfaceColumn | src/main/java/net/mango/worldgen/small_world/SmallWorldChunkGenerator.java:436-467 | each column is built as written (terrain run from row 0) from its own blended height, depth and surface biome: every row is the last write to it, or the column's old content where nothing writes |
| PlainsBorder.InsideBorderChunks | src/main/java/net/mango/worldgen/PlainsBorderChunkGenerator.java:98-102 | a chunk is inside the border iff both chunk coordinates lie in [-16, 16): a 32 x 32 chunk square |
| PlainsBorder.OutsideBorderSymmetric | src/main/java/net/mango/worldgen/PlainsBorderChunkGenerator.java:98-102 | the border test is unchanged by mirroring either axis about the centre line and by swapping x and z |
| PlainsBorder.SurfaceY | src/main/java/net/mango/worldgen/PlainsBorderChunkGenerator.java:115-126 | the surface lies in [-63, 318] |
| PlainsBorder.SurfaceYUnclamped | src/main/java/net/mango/worldgen/PlainsBorderChunkGenerator.java:115-126 | with a unit sampler the clamp never acts, and the surface lies in [56, 70] |
| PlainsBorder.Terrain | src/main/java/net/mango/worldgen/PlainsBorderChunkGenerator.java:159-175 | the terrain is bedrock, stone up to max(-63, topY - 4), dirt, grass at topY, and the old content above |
| PlainsBorder.BuildTerrain | src/main/java/net/mango/worldgen/PlainsBorderChunkGenerator.java:159-175 | the four writes in source order build exactly that terrain |
| PlainsBorder.SampleMatchesTerrain | src/main/java/net/mango/worldgen/PlainsBorderChunkGenerator.java:284-311 | the column sample equals the generated fresh column for every surface above -63; at -63 the column has grass where the sample has stone |
| PlainsBorder.PlantObeysRules | src/main/java/net/mango/worldgen/PlainsBorderChunkGenerator.java:177-215 | only the two rows above topY change; a change needs grass, density draw < 75 and air; tall grass needs both rows air and writes both halves; a short plant is fern, else bush, else short grass; and a plant appears whenever the gates allow |
| PlainsBorder.Decorate | src/main/java/net/mango/worldgen/PlainsBorderChunkGenerator.java:177-188 | no draw without grass on top; one draw when the density draw is >= 75, otherwise exactly four |
| PlainsBorder.PopulateColumn | src/main/java/net/mango/worldgen/PlainsBorderChunkGenerator.java:157-215 | each in-range surface ends in grass, so the plant gate is always reached, and the draw count follows the density draw |
| PlainsBorder.PopulateNoise | src/main/java/net/mango/worldgen/PlainsBorderChunkGenerator.java:134-221 | a chunk outside the border is returned untouched; inside it, every column is the populated column of its own position |
| PlainsBorder.GenerateFeatures | src/main/java/net/mango/worldgen/PlainsBorderChunkGenerator.java:234-257 | nothing outside the border; otherwise 1 + nextInt(2) tree attempts, each at an x and z inside the chunk |
| BiomeSource.SurfaceY | src/main/java/net/mango/worldgen/SmallWorldBiomeSource.java:110-125 | the surface lies within half a row of the span between the inland and ocean-floor heights |
| BiomeSource.SurfaceYEnds | src/main/java/net/mango/worldgen/SmallWorldBiomeSource.java:116-124 | within distance 256 the surface is the rounded inland height; from 522 outward it is the rounded ocean floor |
| BiomeSource.QuartToBlock | src/main/java/net/mango/worldgen/SmallWorldBiomeSource.java:140-141 | the block coordinate is a 32-bit int |
| BiomeSource.QuartToBlockCentre | src/main/java/net/mango/worldgen/SmallWorldBiomeSource.java:140-141 | away from the int range ends the block is 4q + 2, inside the quart's 4-block cell |
| BiomeSource.ClassifyBands | src/main/java/net/mango/worldgen/SmallWorldBiomeSource.java:145-154 | ocean iff topY < 50; beach iff 50 <= topY <= 52 and blend > 0.10; plains iff neither |
| BiomeSource.GetBiome | src/main/java/net/mango/worldgen/SmallWorldBiomeSource.java:138-155 | the answer is one of the three declared biomes, chosen at the quart's centre block: ocean iff the surface row is below sea level, beach iff the surface is within two rows above sea level and the coast blend exceeds 0.10, plains otherwise |
| BiomeSource.GetBiomeIgnoresHeight | src/main/java/net/mango/worldgen/SmallWorldBiomeSource.java:138-155 | the quart's y never changes the answer |
| BiomeSource.FarIsOcean | src/main/java/net/mango/worldgen/SmallWorldBiomeSource.java:138-155 | with a unit sampler every cell centred at distance 522 or more is ocean, whatever its quart height |
| BiomeSource.IslandIsPlains | src/main/java/net/mango/worldgen/SmallWorldBiomeSource.java:138-155 | a cell centred within distance 256 is never beach, and is plains when the hills cannot drop 13 rows |
| CaveChest.Generate | src/main/java/net/mango/worldgen/CaveChestFeature.java:24-61 | a non-zero coin leaves the world alone; it places iff the coin is 0 and some depth 1..10 fits; then exactly one chest goes at the shallowest fitting depth and nothing else changes |
| CaveChest.SpotColumn | src/main/java/net/mango/worldgen/CaveChestFeature.java:30-34 | depth d is in the origin's column at y - 1 - d, from 2 down to 11 blocks below the origin |
| CaveChest.GenerateKeepsChestsApart | src/main/java/net/mango/worldgen/CaveChestFeature.java:36-47 | placing a chest into a world with no side-by-side chests leaves none, and the chest replaces air |

## Left out

- Simplex noise, `Random`, `RandomSplitter` and the salt arithmetic that seeds per-column and
  per-chunk streams are engine code. Noise is an uninterpreted `Field` and a random stream
  an uninterpreted `Stream`; no claim depends on their bit-exact output.
- Doubles are modelled as exact reals. Rounding error in `Math.pow`, the divisions and the
  octave sum is not modelled.
- `Math.sqrt` is a function parameter, assumed monotone only where a lemma says so.
- Concurrency is not modelled: the racy `initFinished` flag, the double-checked
  `ensureNoise`, and `CompletableFuture.supplyAsync` in `populateNoise`. Each operation is
  modelled as running once, sequentially.
- Territory.Initialize: the source retries forever. The model walks a finite sequence of
  attempts, each with fresh samplers, and reports whether one was accepted; termination
  of the source's loop is not claimed.
- Codecs, registry lookups, `populateBiomes`, `populateEntities`, logging, the debug
  `visualizePositions` and `appendDebugHudText` are engine plumbing.
- Tree placement (`PlacedFeature.generate`) and the `getTopY` height of a tree origin, in
  both the plains border generator and the first small-world generator, are engine calls.
  The first generator's `generateFeatures` (jungle or oak trees by biome) is not modelled
  for that reason.
- PlainsBorder.GenerateFeatures: returns the horizontal tree origins only. The tree
  stream is `Random.create` of a salted seed, given here as the stream itself.
- CaveChest.Generate: the chest's facing and loot-table seed are later draws of the same
  stream and are not modelled. The solid-top test of the floor is an engine property,
  given as a predicate.
- `getHeight` (surface + 1), `getWorldHeight`, `getSeaLevel` and `getMinimumY` return
  constants or one step of `surfaceY`.
- The second small-world generator's commented-out plant code and the unreachable
  labelling after `if (0 == 0) break;` are not modelled, because the source never runs
  them.
- BiomeSource.SurfaceY: the biome source reads its hill constants from a parameter class
  that is not part of this model, so they are a `Hills` parameter. The `(int)` narrowing
  of `Math.round`'s long result is not modelled, because the surface is always far
  inside the int range.
- BiomeSource.QuartToBlockCentre: proves the cell-centre reading only for quart
  coordinates below 2^29 in magnitude. Nearer the ends of the int range the shift
  wraps, and only the 32-bit bound is stated.
- PlainsBorder.StartX: `ChunkPos.getStartX` is `x << 4` in 32-bit arithmetic. The model
  multiplies without wrap-around, because chunk coordinates never come near 2^27.
- SmallWorld.SurfaceHeightRange: holds only for surface bases in [-1, 1]. The source
  does not clamp the height, so with an unbounded base nothing keeps it inside the world.

## Findings

| source | as written | input that shows it | evidently intended | confidence | as-written member | corrected member |
|---|---|---|---|---|---|---|
| src/main/java/net/mango/worldgen/small_world/SmallWorldChunkGenerator.java:446-449 | the terrain-block loop runs `i` from 0 to topY - topDepth, so the rows from BEDROCK_Y + 1 = -63 to -1 are never written | fresh plains column, surface 64, depth 1: row -1 stays air, while the column sample reports stone there | fill the terrain block from just above bedrock, as the column sample and the first generator both do | medium, not executed | SmallWorld.AsWrittenLeavesGap | SmallWorld.ColumnSolidToSurface |
