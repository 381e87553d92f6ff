/** The older generator's territory check: classify a 64 x 64 grid of
    16-block cells, label the 4-connected regions of each biome, count them,
    and accept the noise only when there are one or two snow regions and at
    least one desert and one jungle region; otherwise rebuild the height,
    temperature and humidity samplers and try again. */
module Territory {
  import opened Wrappers
  import opened WorldParams
  import opened Blend
  import opened Labelling
  import opened LegacyTerrain

  /** Grid spacing in blocks, and the number of cells along each side. */
  const STEP: int := 16
  const SIDE: nat := 64

  /** The i-th scanned coordinate along one axis: -RADIUS, -RADIUS + 16, ... */
  function GridCoord(i: nat): int
  {
    -RADIUS + STEP * i
  }

  /** The cells of the grid: both coordinates in [-RADIUS, RADIUS) on the
      16-block lattice that starts at -RADIUS. */
  predicate OnGrid(c: Cell)
  {
    && -RADIUS <= c.x < RADIUS && (c.x + RADIUS) % STEP == 0
    && -RADIUS <= c.z < RADIUS && (c.z + RADIUS) % STEP == 0
  }

  /** The scan order: x in the outer loop, z in the inner loop, each from
      -RADIUS upwards in steps of 16. */
  function ScanOrder(): (order: seq<Cell>)
    ensures |order| == SIDE * SIDE
    ensures forall i :: 0 <= i < |order| ==> order[i] == Cell(GridCoord(i / SIDE), GridCoord(i % SIDE))
  {
    seq(SIDE * SIDE, i requires 0 <= i < SIDE * SIDE => Cell(GridCoord(i / SIDE), GridCoord(i % SIDE)))
  }

  /** The scan visits exactly the grid cells, each once. */
  lemma ScanOrderIsGrid(c: Cell)
    ensures c in ScanOrder() <==> OnGrid(c)
    ensures forall i, j :: 0 <= i < j < |ScanOrder()| ==> ScanOrder()[i] != ScanOrder()[j]
  {
    var order := ScanOrder();
    if OnGrid(c) {
      var a, b := (c.x + RADIUS) / STEP, (c.z + RADIUS) / STEP;
      assert 0 <= a < SIDE && 0 <= b < SIDE;
      var i := a * SIDE + b;
      assert i / SIDE == a && i % SIDE == b;
      assert order[i] == c;
    }
    if c in order {
      var i :| 0 <= i < |order| && order[i] == c;
      ScanCellOnGrid(i);
    }
    forall i, j | 0 <= i < j < |order|
      ensures order[i] != order[j]
    {
      ScanIndexDistinct(i, j);
    }
  }

  lemma ScanCellOnGrid(i: nat)
    requires i < SIDE * SIDE
    ensures OnGrid(ScanOrder()[i])
  {
    var a, b := i / SIDE, i % SIDE;
    assert 0 <= a < SIDE && 0 <= b < SIDE;
    assert (GridCoord(a) + RADIUS) % STEP == 0 by {
      assert GridCoord(a) + RADIUS == STEP * a;
    }
    assert (GridCoord(b) + RADIUS) % STEP == 0 by {
      assert GridCoord(b) + RADIUS == STEP * b;
    }
  }

  lemma ScanIndexDistinct(i: nat, j: nat)
    requires i < j < SIDE * SIDE
    ensures ScanOrder()[i] != ScanOrder()[j]
  {
    if i / SIDE == j / SIDE {
      assert i % SIDE != j % SIDE;
    }
  }

  /** The biome of every grid cell. The queried height plays no part in the
      classification, so the surface height the source computes first is
      not needed here. */
  function Classify(s: Samplers, root: Root): (g: Grid<CustomBiome>)
    ensures forall c :: c in g <==> OnGrid(c)
    ensures forall c :: c in g ==> g[c] == BiomeAt(s, root, c.x, c.z)
  {
    forall c
      ensures c in ScanOrder() <==> OnGrid(c)
    {
      ScanOrderIsGrid(c);
    }
    map c | c in ScanOrder() :: BiomeAt(s, root, c.x, c.z)
  }

  /** The acceptance test on the counts: 1 <= snow <= 2, desert >= 1 and
      jungle >= 1, a missing biome counting as zero. */
  predicate Accept(counts: map<CustomBiome, nat>)
  {
    && Count(counts, SNOW) > 0 && Count(counts, SNOW) <= 2
    && Count(counts, DESERT) > 0
    && Count(counts, JUNGLE) > 0
  }

  /** The same test stated on the grid itself, through its connected
      components. */
  ghost predicate Acceptable(g: Grid<CustomBiome>)
  {
    && 1 <= |Components(g, SNOW)| <= 2
    && |Components(g, DESERT)| >= 1
    && |Components(g, JUNGLE)| >= 1
  }

  /** What labelling leaves behind: every cell has an id in 1..counts of its
      biome, same-biome cells share an id exactly when they are connected,
      every id in range is used, and each count is the number of components. */
  ghost predicate Labelled(g: Grid<CustomBiome>, ids: map<Cell, int>, counts: map<CustomBiome, nat>)
  {
    && ids.Keys == g.Keys
    && (forall c :: c in ids ==> 1 <= ids[c] <= Count(counts, g[c]))
    && (forall a, c :: a in ids && c in ids && g[a] == g[c] ==> (ids[a] == ids[c] <==> Connected(g, a, c)))
    && (forall b, k :: 1 <= k <= Count(counts, b) ==> HasId(g, ids, b, k))
    && (forall b :: Count(counts, b) == |Components(g, b)|)
  }

  /** The sampler set s passes the territory test. */
  ghost predicate AcceptableSamplers(s: Samplers, root: Root)
  {
    Acceptable(Classify(s, root))
  }

  /** Counting components decides acceptance exactly as the reference
      predicate on the grid does. */
  lemma AcceptMatchesComponents(g: Grid<CustomBiome>, ids: map<Cell, int>, counts: map<CustomBiome, nat>)
    requires Labelled(g, ids, counts)
    ensures Accept(counts) <==> Acceptable(g)
  {
    assert Count(counts, SNOW) == |Components(g, SNOW)|;
    assert Count(counts, DESERT) == |Components(g, DESERT)|;
    assert Count(counts, JUNGLE) == |Components(g, JUNGLE)|;
  }

  /** One attempt: classify the grid from fresh labels, label it in scan
      order and test the counts. */
  method Attempt(s: Samplers, root: Root) returns (ids: map<Cell, int>, counts: map<CustomBiome, nat>, accepted: bool)
    ensures Labelled(Classify(s, root), ids, counts)
    ensures forall c :: c in ids <==> OnGrid(c)
    ensures accepted <==> AcceptableSamplers(s, root)
  {
    var g := Classify(s, root);
    ids, counts := Label(g, ScanOrder());
    accepted := Accept(counts);
    AcceptMatchesComponents(g, ids, counts);
    forall c
      ensures c in ids <==> OnGrid(c)
    {
      ScanOrderIsGrid(c);
    }
  }

  /** The outcome of an accepted attempt: its position in the sequence of
      sampler sets, the labels and the counts. */
  datatype Outcome = Outcome(attempt: nat, ids: map<Cell, int>, counts: map<CustomBiome, nat>)

  /** The retry loop over the sampler sets the generator draws, the initial
      set first and each rejection's rebuilt set after it. The source loops
      until acceptance; here the sequence bounds the number of attempts. */
  method Initialize(attempts: seq<Samplers>, root: Root) returns (r: Option<Outcome>)
    ensures r.Some? ==> r.value.attempt < |attempts|
    ensures r.Some? ==> Labelled(Classify(attempts[r.value.attempt], root), r.value.ids, r.value.counts)
    ensures r.Some? ==> AcceptableSamplers(attempts[r.value.attempt], root)
    ensures r.Some? ==> forall j :: 0 <= j < r.value.attempt ==> !AcceptableSamplers(attempts[j], root)
    ensures r.None? <==> forall j :: 0 <= j < |attempts| ==> !AcceptableSamplers(attempts[j], root)
  {
    var i := 0;
    while i < |attempts|
      invariant 0 <= i <= |attempts|
      invariant AllRejected(attempts, root, i)
    {
      var ids, counts, accepted := Attempt(attempts[i], root);
      if accepted {
        return Some(Outcome(i, ids, counts));
      }
      RejectedStep(attempts, root, i);
      i := i + 1;
    }
    return None;
  }

  /** None of the first n sampler sets passes. */
  ghost predicate AllRejected(attempts: seq<Samplers>, root: Root, n: nat)
    requires n <= |attempts|
  {
    forall j :: 0 <= j < n ==> !AcceptableSamplers(attempts[j], root)
  }

  lemma RejectedStep(attempts: seq<Samplers>, root: Root, n: nat)
    requires n < |attempts| && AllRejected(attempts, root, n)
    requires !AcceptableSamplers(attempts[n], root)
    ensures AllRejected(attempts, root, n + 1)
  {
  }
}
