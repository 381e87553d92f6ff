/** Connected-component labelling of the territory grid. Cells are grid
    positions in block coordinates; two cells are neighbours when they differ
    by one grid step (16 blocks) along x or z. Each maximal 4-connected group
    of cells with the same biome receives an id, numbered per biome from 1;
    the per-biome count is the number of such groups. */
module Labelling {

  datatype Cell = Cell(x: int, z: int)

  /** The neighbour offsets, in the order the flood fill probes them. */
  const OFFSETS: seq<Cell> := [Cell(0, -16), Cell(-16, 0), Cell(0, 16), Cell(16, 0)]

  /** The id of a cell that has not been labelled yet. */
  const UNLABELLED: int := -1

  function Add(a: Cell, b: Cell): Cell
  {
    Cell(a.x + b.x, a.z + b.z)
  }

  function Neighbour(c: Cell, k: nat): Cell
    requires k < |OFFSETS|
  {
    Add(c, OFFSETS[k])
  }

  predicate Adjacent(a: Cell, b: Cell)
  {
    b == Neighbour(a, 0) || b == Neighbour(a, 1) || b == Neighbour(a, 2) || b == Neighbour(a, 3)
  }

  lemma AdjacentSymmetric(a: Cell, b: Cell)
    requires Adjacent(a, b)
    ensures Adjacent(b, a)
  {
  }

  /** A biome per grid cell; the map's keys are the grid. */
  type Grid<B> = map<Cell, B>

  /** A walk through grid cells of one biome, each step to a neighbour. */
  ghost predicate IsPath<B>(g: Grid<B>, p: seq<Cell>)
  {
    && |p| > 0
    && p[0] in g
    && (forall i :: 0 <= i < |p| ==> p[i] in g && g[p[i]] == g[p[0]])
    && (forall i :: 0 <= i < |p| - 1 ==> Adjacent(p[i], p[i + 1]))
  }

  ghost predicate Connected<B>(g: Grid<B>, a: Cell, b: Cell)
  {
    exists p :: IsPath(g, p) && p[0] == a && p[|p| - 1] == b
  }

  lemma ConnectedSameBiome<B>(g: Grid<B>, a: Cell, b: Cell)
    requires Connected(g, a, b)
    ensures a in g && b in g && g[a] == g[b]
  {
    var p :| IsPath(g, p) && p[0] == a && p[|p| - 1] == b;
    assert p[|p| - 1] in g;
  }

  lemma ConnectedReflexive<B>(g: Grid<B>, a: Cell)
    requires a in g
    ensures Connected(g, a, a)
  {
    assert IsPath(g, [a]);
  }

  lemma ConnectedStep<B>(g: Grid<B>, a: Cell, b: Cell, c: Cell)
    requires Connected(g, a, b) && Adjacent(b, c) && c in g && g[c] == g[b]
    ensures Connected(g, a, c)
  {
    var p :| IsPath(g, p) && p[0] == a && p[|p| - 1] == b;
    ConnectedSameBiome(g, a, b);
    var q := p + [c];
    assert q[|q| - 2] == b;
    assert IsPath(g, q);
  }

  lemma ConnectedSymmetric<B>(g: Grid<B>, a: Cell, b: Cell)
    requires Connected(g, a, b)
    ensures Connected(g, b, a)
  {
    var p :| IsPath(g, p) && p[0] == a && p[|p| - 1] == b;
    ConnectedSameBiome(g, a, b);
    var r := seq(|p|, i requires 0 <= i < |p| => p[|p| - 1 - i]);
    forall i | 0 <= i < |r| - 1
      ensures Adjacent(r[i], r[i + 1])
    {
      AdjacentSymmetric(p[|p| - 2 - i], p[|p| - 1 - i]);
    }
    assert IsPath(g, r);
  }

  lemma ConnectedTransitive<B>(g: Grid<B>, a: Cell, b: Cell, c: Cell)
    requires Connected(g, a, b) && Connected(g, b, c)
    ensures Connected(g, a, c)
  {
    var p :| IsPath(g, p) && p[0] == a && p[|p| - 1] == b;
    var q :| IsPath(g, q) && q[0] == b && q[|q| - 1] == c;
    ConnectedSameBiome(g, a, b);
    var r := p + q[1..];
    assert forall i :: |p| <= i < |r| ==> r[i] == q[i - |p| + 1];
    assert IsPath(g, r);
  }

  /** Labelled cells come in whole components: nothing connected to a
      labelled cell is unlabelled. */
  ghost predicate ClosedLabelled<B>(g: Grid<B>, ids: map<Cell, int>)
  {
    forall a, c :: a in ids && ids[a] != UNLABELLED && Connected(g, a, c) ==> c in ids && ids[c] != UNLABELLED
  }

  ghost predicate Distinct(s: seq<Cell>)
  {
    forall i, j :: 0 <= i < j < |s| ==> s[i] != s[j]
  }

  /** What the flood fill keeps true: the found set holds start, lies in the
      grid, and holds only unlabelled cells of start's biome connected to
      start; the open list is a duplicate-free part of it. */
  ghost predicate FillInvariant<B>(g: Grid<B>, ids: map<Cell, int>, start: Cell, comp: set<Cell>, open: seq<Cell>)
  {
    && ids.Keys == g.Keys
    && comp <= g.Keys && start in comp
    && (forall i :: 0 <= i < |open| ==> open[i] in comp)
    && Distinct(open)
    && (forall c :: c in comp ==> g[c] == g[start] && ids[c] == UNLABELLED && Connected(g, start, c))
  }

  /** Every found cell that has left the open list has all its same-biome
      neighbours found. */
  ghost predicate ClosedOutsideOpen<B>(g: Grid<B>, start: Cell, comp: set<Cell>, open: seq<Cell>)
    requires start in g
  {
    forall c, k :: c in comp && c !in open && 0 <= k < 4 && Neighbour(c, k) in g && g[Neighbour(c, k)] == g[start] ==> Neighbour(c, k) in comp
  }

  /** Every unlabelled cell reachable from start through cells of start's
      biome, found breadth first: the open list is worked from the front and
      newly found neighbours join at the back, which visits cells in the
      order of the source's level-by-level open/newOpen lists. */
  method FloodFill<B(==)>(g: Grid<B>, ids: map<Cell, int>, start: Cell) returns (comp: set<Cell>)
    requires ids.Keys == g.Keys && start in g && ids[start] == UNLABELLED
    requires ClosedLabelled(g, ids)
    ensures forall c :: c in comp <==> Connected(g, start, c)
    ensures forall c :: c in comp ==> c in g && ids[c] == UNLABELLED
  {
    comp := {start};
    var open := [start];
    ConnectedReflexive(g, start);
    while |open| > 0
      invariant FillInvariant(g, ids, start, comp, open)
      invariant ClosedOutsideOpen(g, start, comp, open)
      decreases |g.Keys - comp|, |open|
    {
      var cur := open[0];
      ghost var comp0, rest := comp, open[1..];
      assert open == [cur] + rest;
      comp, open := Probe(g, ids, start, cur, comp, open[1..]);
      ClosedAfterProbe(g, start, cur, comp0, rest, comp, open);
      if |open| == |rest| {
        assert open == rest;
      }
    }
    forall c | Connected(g, start, c)
      ensures c in comp
    {
      ClosedContainsConnected(g, start, comp, c);
    }
  }

  /** One round of the fill: probe the four neighbours of cur in order and
      add each unlabelled, not yet found cell of start's biome. */
  method Probe<B(==)>(g: Grid<B>, ids: map<Cell, int>, start: Cell, cur: Cell, comp0: set<Cell>, open0: seq<Cell>)
    returns (comp: set<Cell>, open: seq<Cell>)
    requires start in g && cur in comp0 && cur !in open0
    requires FillInvariant(g, ids, start, comp0, open0)
    requires ClosedLabelled(g, ids)
    ensures FillInvariant(g, ids, start, comp, open)
    ensures comp0 <= comp && |open| >= |open0| && open[..|open0|] == open0
    ensures forall c :: c in comp ==> c in comp0 || c in open
    ensures forall j :: 0 <= j < 4 && Neighbour(cur, j) in g && g[Neighbour(cur, j)] == g[start] ==> Neighbour(cur, j) in comp
    ensures |g.Keys - comp| + (|open| - |open0|) == |g.Keys - comp0|
    ensures open == open0 + Joining(g, ids, start, cur, comp0, 4)
    ensures forall c :: c in comp <==> c in comp0 || c in Joining(g, ids, start, cur, comp0, 4)
  {
    comp, open := comp0, open0;
    var k := 0;
    while k < 4
      invariant 0 <= k <= 4
      invariant ProbeInvariant(g, ids, start, cur, comp0, open0, comp, open, k)
      invariant ProbeExact(g, ids, start, cur, comp0, open0, comp, open, k)
    {
      var n := Neighbour(cur, k);
      if n in g && g[n] == g[start] && n !in comp && ids[n] == UNLABELLED {
        ProbeAdd(g, ids, start, cur, comp0, open0, comp, open, k);
        ExactAdd(g, ids, start, cur, comp0, open0, comp, open, k);
        comp := comp + {n};
        open := open + [n];
      } else {
        ProbeSkip(g, ids, start, cur, comp0, open0, comp, open, k);
        ExactSkip(g, ids, start, cur, comp0, open0, comp, open, k);
      }
      k := k + 1;
    }
  }

  /** A neighbour joins the fill when it is a grid cell of start's biome,
      unlabelled and not found yet. */
  predicate Joins<B(==)>(g: Grid<B>, ids: map<Cell, int>, start: Cell, comp0: set<Cell>, n: Cell)
  {
    n in g && start in g && g[n] == g[start] && n !in comp0 && n in ids && ids[n] == UNLABELLED
  }

  /** The first k neighbours of cur, in probe order, that join the fill. */
  function Joining<B(==)>(g: Grid<B>, ids: map<Cell, int>, start: Cell, cur: Cell, comp0: set<Cell>, k: nat): (js: seq<Cell>)
    requires k <= 4
    ensures forall i :: 0 <= i < |js| ==> Adjacent(cur, js[i]) && Joins(g, ids, start, comp0, js[i])
  {
    if k == 0 then []
    else
      var n := Neighbour(cur, k - 1);
      Joining(g, ids, start, cur, comp0, k - 1) + (if Joins(g, ids, start, comp0, n) then [n] else [])
  }

  /** The open list and the found set after the first k probes: exactly the
      joining neighbours, in probe order. */
  ghost predicate ProbeExact<B>(g: Grid<B>, ids: map<Cell, int>, start: Cell, cur: Cell, comp0: set<Cell>, open0: seq<Cell>,
                                    comp: set<Cell>, open: seq<Cell>, k: nat)
    requires k <= 4
  {
    && open == open0 + Joining(g, ids, start, cur, comp0, k)
    && (forall c :: c in comp <==> c in comp0 || c in Joining(g, ids, start, cur, comp0, k))
  }

  lemma ExactAdd<B>(g: Grid<B>, ids: map<Cell, int>, start: Cell, cur: Cell, comp0: set<Cell>, open0: seq<Cell>,
                        comp: set<Cell>, open: seq<Cell>, k: nat)
    requires k < 4 && ids.Keys == g.Keys && start in g
    requires ProbeExact(g, ids, start, cur, comp0, open0, comp, open, k)
    requires Neighbour(cur, k) in g && g[Neighbour(cur, k)] == g[start] && Neighbour(cur, k) !in comp
    requires ids[Neighbour(cur, k)] == UNLABELLED
    ensures ProbeExact(g, ids, start, cur, comp0, open0, comp + {Neighbour(cur, k)}, open + [Neighbour(cur, k)], k + 1)
  {
    var n := Neighbour(cur, k);
    assert Joins(g, ids, start, comp0, n);
    assert Joining(g, ids, start, cur, comp0, k + 1) == Joining(g, ids, start, cur, comp0, k) + [n];
  }

  lemma ExactSkip<B>(g: Grid<B>, ids: map<Cell, int>, start: Cell, cur: Cell, comp0: set<Cell>, open0: seq<Cell>,
                         comp: set<Cell>, open: seq<Cell>, k: nat)
    requires k < 4 && ids.Keys == g.Keys && start in g
    requires ProbeExact(g, ids, start, cur, comp0, open0, comp, open, k)
    requires !(Neighbour(cur, k) in g && g[Neighbour(cur, k)] == g[start] && Neighbour(cur, k) !in comp && ids[Neighbour(cur, k)] == UNLABELLED)
    ensures ProbeExact(g, ids, start, cur, comp0, open0, comp, open, k + 1)
  {
    var n := Neighbour(cur, k);
    NotJoinedYet(g, ids, start, cur, comp0, k, k);
    assert !Joins(g, ids, start, comp0, n);
    assert Joining(g, ids, start, cur, comp0, k + 1) == Joining(g, ids, start, cur, comp0, k);
  }

  /** Neighbour k of cur is not among the cells the first j <= k probes
      added, since the four offsets differ. */
  lemma {:induction false} NotJoinedYet<B>(g: Grid<B>, ids: map<Cell, int>, start: Cell, cur: Cell, comp0: set<Cell>, j: nat, k: nat)
    requires j <= k < 4
    ensures Neighbour(cur, k) !in Joining(g, ids, start, cur, comp0, j)
  {
    if j > 0 {
      NotJoinedYet(g, ids, start, cur, comp0, j - 1, k);
      assert Neighbour(cur, j - 1) != Neighbour(cur, k);
    }
  }

  /** The state of Probe after the first k neighbours. */
  ghost predicate ProbeInvariant<B>(g: Grid<B>, ids: map<Cell, int>, start: Cell, cur: Cell, comp0: set<Cell>, open0: seq<Cell>,
                                    comp: set<Cell>, open: seq<Cell>, k: nat)
    requires start in g && k <= 4
  {
    ProbeState(g, ids, start, cur, comp0, open0, comp, open) && NeighboursFound(g, start, cur, comp, k)
  }

  /** The fill state during Probe: cells only join, at the back of the open list. */
  ghost predicate ProbeState<B>(g: Grid<B>, ids: map<Cell, int>, start: Cell, cur: Cell, comp0: set<Cell>, open0: seq<Cell>,
                                comp: set<Cell>, open: seq<Cell>)
  {
    && FillInvariant(g, ids, start, comp, open)
    && cur in comp
    && comp0 <= comp
    && |open| >= |open0| && open[..|open0|] == open0
    && (forall c :: c in comp ==> c in comp0 || c in open)
    && |g.Keys - comp| + (|open| - |open0|) == |g.Keys - comp0|
  }

  /** The first k neighbours of cur that share start's biome are found. */
  ghost predicate NeighboursFound<B>(g: Grid<B>, start: Cell, cur: Cell, comp: set<Cell>, k: nat)
    requires start in g && k <= 4
  {
    forall j :: 0 <= j < k && Neighbour(cur, j) in g && g[Neighbour(cur, j)] == g[start] ==> Neighbour(cur, j) in comp
  }

  lemma ProbeAdd<B>(g: Grid<B>, ids: map<Cell, int>, start: Cell, cur: Cell, comp0: set<Cell>, open0: seq<Cell>,
                    comp: set<Cell>, open: seq<Cell>, k: nat)
    requires start in g && k < 4
    requires ProbeInvariant(g, ids, start, cur, comp0, open0, comp, open, k)
    requires Neighbour(cur, k) in g && g[Neighbour(cur, k)] == g[start] && Neighbour(cur, k) !in comp
    requires ids[Neighbour(cur, k)] == UNLABELLED
    ensures ProbeInvariant(g, ids, start, cur, comp0, open0, comp + {Neighbour(cur, k)}, open + [Neighbour(cur, k)], k + 1)
  {
    var n := Neighbour(cur, k);
    AddFound(g, ids, start, cur, n, comp, open);
    PrefixKept(open, n, |open0|);
    OneFewerLeft(g.Keys, comp, n);
  }

  lemma PrefixKept<T>(s: seq<T>, x: T, m: nat)
    requires m <= |s|
    ensures (s + [x])[..m] == s[..m]
  {
  }

  lemma OneFewerLeft<T>(all: set<T>, found: set<T>, x: T)
    requires x in all && x !in found
    ensures |all - (found + {x})| == |all - found| - 1
  {
    assert (all - found) - {x} == all - (found + {x});
  }

  lemma ProbeSkip<B>(g: Grid<B>, ids: map<Cell, int>, start: Cell, cur: Cell, comp0: set<Cell>, open0: seq<Cell>,
                     comp: set<Cell>, open: seq<Cell>, k: nat)
    requires start in g && k < 4
    requires ClosedLabelled(g, ids)
    requires ProbeInvariant(g, ids, start, cur, comp0, open0, comp, open, k)
    requires !(Neighbour(cur, k) in g && g[Neighbour(cur, k)] == g[start] && Neighbour(cur, k) !in comp && ids[Neighbour(cur, k)] == UNLABELLED)
    ensures ProbeInvariant(g, ids, start, cur, comp0, open0, comp, open, k + 1)
  {
    var n := Neighbour(cur, k);
    if n in g && g[n] == g[start] && n !in comp {
      NoLabelledNeighbour(g, ids, start, cur, n);
    }
    NeighboursFoundStep(g, start, cur, comp, k);
  }

  lemma NeighboursFoundStep<B>(g: Grid<B>, start: Cell, cur: Cell, comp: set<Cell>, k: nat)
    requires start in g && k < 4
    requires NeighboursFound(g, start, cur, comp, k)
    requires Neighbour(cur, k) in g && g[Neighbour(cur, k)] == g[start] ==> Neighbour(cur, k) in comp
    ensures NeighboursFound(g, start, cur, comp, k + 1)
  {
  }

  lemma AddFound<B>(g: Grid<B>, ids: map<Cell, int>, start: Cell, cur: Cell, n: Cell, comp: set<Cell>, open: seq<Cell>)
    requires FillInvariant(g, ids, start, comp, open) && cur in comp
    requires Adjacent(cur, n) && n in g && g[n] == g[start] && n !in comp && ids[n] == UNLABELLED
    ensures FillInvariant(g, ids, start, comp + {n}, open + [n])
  {
    ConnectedStep(g, start, cur, n);
    var o := open + [n];
    forall i, j | 0 <= i < j < |o|
      ensures o[i] != o[j]
    {
      if j == |open| {
        assert o[i] in comp;
      }
    }
  }

  /** A same-biome neighbour of a cell connected to an unlabelled cell is
      itself unlabelled, since labelled cells come in whole components. */
  lemma NoLabelledNeighbour<B>(g: Grid<B>, ids: map<Cell, int>, start: Cell, cur: Cell, n: Cell)
    requires ids.Keys == g.Keys && start in g && ids[start] == UNLABELLED
    requires ClosedLabelled(g, ids)
    requires Connected(g, start, cur) && Adjacent(cur, n) && n in g && g[n] == g[cur]
    ensures ids[n] == UNLABELLED
  {
    ConnectedStep(g, start, cur, n);
    ConnectedSymmetric(g, start, n);
  }

  lemma ClosedAfterProbe<B>(g: Grid<B>, start: Cell, cur: Cell, comp0: set<Cell>, rest: seq<Cell>, comp: set<Cell>, open: seq<Cell>)
    requires start in g && comp0 <= comp
    requires ClosedOutsideOpen(g, start, comp0, [cur] + rest)
    requires |open| >= |rest| && open[..|rest|] == rest
    requires forall c :: c in comp ==> c in comp0 || c in open
    requires forall j :: 0 <= j < 4 && Neighbour(cur, j) in g && g[Neighbour(cur, j)] == g[start] ==> Neighbour(cur, j) in comp
    ensures ClosedOutsideOpen(g, start, comp, open)
  {
    forall c, j | c in comp && c !in open && 0 <= j < 4 && Neighbour(c, j) in g && g[Neighbour(c, j)] == g[start]
      ensures Neighbour(c, j) in comp
    {
      if c != cur {
        assert c in comp0;
        assert forall i :: 0 <= i < |rest| ==> rest[i] == open[i];
        assert c !in rest;
        assert c !in [cur] + rest;
      }
    }
  }

  /** A set of unlabelled cells of one biome that is closed under stepping to
      neighbours of that biome contains everything connected to its members. */
  lemma ClosedContainsConnected<B>(g: Grid<B>, start: Cell, comp: set<Cell>, c: Cell)
    requires start in comp && comp <= g.Keys
    requires forall d :: d in comp ==> g[d] == g[start]
    requires forall d, k :: d in comp && 0 <= k < 4 && Neighbour(d, k) in g && g[Neighbour(d, k)] == g[start] ==> Neighbour(d, k) in comp
    requires Connected(g, start, c)
    ensures c in comp
  {
    var p :| IsPath(g, p) && p[0] == start && p[|p| - 1] == c;
    var i := 0;
    while i < |p| - 1
      invariant 0 <= i < |p| && p[i] in comp
    {
      var d := p[i];
      assert Adjacent(d, p[i + 1]);
      assert g[p[i + 1]] == g[start];
      if p[i + 1] == Neighbour(d, 0) {
      } else if p[i + 1] == Neighbour(d, 1) {
      } else if p[i + 1] == Neighbour(d, 2) {
      } else {
        assert p[i + 1] == Neighbour(d, 3);
      }
      i := i + 1;
    }
  }

  /** counts.getOrDefault(b, 0). */
  function Count<B(==)>(counts: map<B, nat>, b: B): nat
  {
    if b in counts then counts[b] else 0
  }

  /** Ids name components: two labelled cells of one biome share an id
      exactly when they are connected. */
  ghost predicate IdsNameComponents<B>(g: Grid<B>, ids: map<Cell, int>)
    requires ids.Keys == g.Keys
  {
    forall a, c :: a in ids && c in ids && ids[a] != UNLABELLED && ids[c] != UNLABELLED && g[a] == g[c] ==>
      (ids[a] == ids[c] <==> Connected(g, a, c))
  }

  /** Some cell of biome b carries id k. */
  ghost predicate HasId<B>(g: Grid<B>, ids: map<Cell, int>, b: B, k: int)
    requires ids.Keys == g.Keys
  {
    exists c :: c in ids && g[c] == b && ids[c] == k
  }

  /** Every label of a biome-b cell is in 1..counts[b], and every id in that
      range is carried by some cell of biome b. */
  ghost predicate IdsCounted<B>(g: Grid<B>, ids: map<Cell, int>, counts: map<B, nat>)
    requires ids.Keys == g.Keys
  {
    && (forall c :: c in ids && ids[c] != UNLABELLED ==> 1 <= ids[c] && g[c] in counts && ids[c] <= counts[g[c]])
    && (forall b, k :: b in counts && 1 <= k <= counts[b] ==> HasId(g, ids, b, k))
  }

  ghost predicate LabelInvariant<B>(g: Grid<B>, order: seq<Cell>, i: nat, ids: map<Cell, int>, counts: map<B, nat>)
  {
    && i <= |order|
    && ids.Keys == g.Keys
    && IdsCounted(g, ids, counts)
    && IdsNameComponents(g, ids)
    && ClosedLabelled(g, ids)
    && (forall j :: 0 <= j < i ==> order[j] in ids && ids[order[j]] != UNLABELLED)
  }

  /** The component comp takes id n; every other cell keeps its id. */
  function Relabel(ids: map<Cell, int>, comp: set<Cell>, n: int): (r: map<Cell, int>)
    ensures r.Keys == ids.Keys
    ensures forall d :: d in comp && d in ids ==> r[d] == n
    ensures forall d :: d !in comp && d in ids ==> r[d] == ids[d]
  {
    map d | d in ids :: if d in comp then n else ids[d]
  }

  /** Scans the grid in the given order; each cell still unlabelled starts a
      new component of its biome, which the flood fill collects and labels
      with that biome's next count. On return every cell is labelled, ids
      name the components of each biome, and the count of a biome is the
      number of its components (ids 1..count each label one component). */
  method Label<B(==)>(g: Grid<B>, order: seq<Cell>) returns (ids: map<Cell, int>, counts: map<B, nat>)
    requires forall c :: c in g <==> c in order
    ensures ids.Keys == g.Keys
    ensures forall c :: c in ids ==> 1 <= ids[c] <= Count(counts, g[c])
    ensures forall a, c :: a in ids && c in ids && g[a] == g[c] ==> (ids[a] == ids[c] <==> Connected(g, a, c))
    ensures forall b, k :: 1 <= k <= Count(counts, b) ==> HasId(g, ids, b, k)
    ensures forall b :: Count(counts, b) == |Components(g, b)|
  {
    ids := map c | c in g :: UNLABELLED;
    counts := map[];
    var i := 0;
    while i < |order|
      invariant LabelInvariant(g, order, i, ids, counts)
    {
      var s := order[i];
      if ids[s] == UNLABELLED {
        var comp := FloodFill(g, ids, s);
        var n := Count(counts, g[s]) + 1;
        LabelStep(g, order, i, ids, counts, s, comp, n);
        counts := counts[g[s] := n];
        ids := Relabel(ids, comp, n);
      }
      i := i + 1;
    }
    forall c | c in ids
      ensures ids[c] != UNLABELLED
    {
      var j :| 0 <= j < |order| && order[j] == c;
    }
    forall b
      ensures Count(counts, b) == |Components(g, b)|
    {
      IdsCountComponents(g, ids, b, Count(counts, b));
    }
  }

  /** Labelling one fresh component keeps the invariant. */
  lemma LabelStep<B>(g: Grid<B>, order: seq<Cell>, i: nat, ids: map<Cell, int>, counts: map<B, nat>, s: Cell, comp: set<Cell>, n: nat)
    requires i < |order| && s == order[i]
    requires LabelInvariant(g, order, i, ids, counts)
    requires s in ids && ids[s] == UNLABELLED
    requires n == (if g[s] in counts then counts[g[s]] else 0) + 1
    requires forall c :: c in comp <==> Connected(g, s, c)
    requires forall c :: c in comp ==> c in g && ids[c] == UNLABELLED
    ensures LabelInvariant(g, order, i + 1, Relabel(ids, comp, n), counts[g[s] := n])
  {
    ConnectedReflexive(g, s);
    forall c | c in comp
      ensures g[c] == g[s]
    {
      ConnectedSameBiome(g, s, c);
    }
    RelabelCounted(g, ids, counts, s, comp, n);
    RelabelComponents(g, ids, counts, s, comp, n);
    RelabelClosed(g, ids, s, comp, n);
  }

  lemma RelabelCounted<B>(g: Grid<B>, ids: map<Cell, int>, counts: map<B, nat>, s: Cell, comp: set<Cell>, n: nat)
    requires ids.Keys == g.Keys && IdsCounted(g, ids, counts)
    requires s in comp && comp <= g.Keys
    requires forall c :: c in comp ==> g[c] == g[s] && ids[c] == UNLABELLED
    requires n == (if g[s] in counts then counts[g[s]] else 0) + 1
    ensures IdsCounted(g, Relabel(ids, comp, n), counts[g[s] := n])
  {
    var ids', counts' := Relabel(ids, comp, n), counts[g[s] := n];
    forall b, k | b in counts' && 1 <= k <= counts'[b]
      ensures HasId(g, ids', b, k)
    {
      if b == g[s] && k == n {
        assert ids'[s] == k;
      } else {
        assert HasId(g, ids, b, k);
        var c :| c in ids && g[c] == b && ids[c] == k;
        assert ids'[c] == k;
      }
    }
  }

  lemma RelabelComponents<B>(g: Grid<B>, ids: map<Cell, int>, counts: map<B, nat>, s: Cell, comp: set<Cell>, n: nat)
    requires ids.Keys == g.Keys && IdsCounted(g, ids, counts) && IdsNameComponents(g, ids) && ClosedLabelled(g, ids)
    requires s in g
    requires forall c :: c in comp <==> Connected(g, s, c)
    requires forall c :: c in comp ==> c in g && g[c] == g[s] && ids[c] == UNLABELLED
    requires n == (if g[s] in counts then counts[g[s]] else 0) + 1
    ensures IdsNameComponents(g, Relabel(ids, comp, n))
  {
    var ids' := Relabel(ids, comp, n);
    forall a, c | a in ids' && c in ids' && ids'[a] != UNLABELLED && ids'[c] != UNLABELLED && g[a] == g[c]
      ensures ids'[a] == ids'[c] <==> Connected(g, a, c)
    {
      if a in comp && c !in comp {
        assert ids[c] < n;
      } else if c in comp && a !in comp {
        assert ids[a] < n;
      }
      LabelPair(g, ids, s, comp, n, a, c);
    }
  }

  /** Connectivity between a freshly labelled cell or a cell labelled before
      and any other labelled cell of its biome. */
  lemma LabelPair<B>(g: Grid<B>, ids: map<Cell, int>, s: Cell, comp: set<Cell>, n: int, a: Cell, c: Cell)
    requires ids.Keys == g.Keys && ClosedLabelled(g, ids) && IdsNameComponents(g, ids)
    requires forall c :: c in comp <==> Connected(g, s, c)
    requires forall c :: c in comp ==> c in g && ids[c] == UNLABELLED
    requires a in ids && c in ids && g[a] == g[c]
    requires (a in comp || ids[a] != UNLABELLED) && (c in comp || ids[c] != UNLABELLED)
    ensures a in comp && c in comp ==> Connected(g, a, c)
    ensures a in comp && c !in comp ==> !Connected(g, a, c)
    ensures a !in comp && c in comp ==> !Connected(g, a, c)
    ensures a !in comp && c !in comp ==> (ids[a] == ids[c] <==> Connected(g, a, c))
  {
    if a in comp && c in comp {
      ConnectedSymmetric(g, s, a);
      ConnectedTransitive(g, a, s, c);
    } else if a in comp {
      if Connected(g, a, c) {
        ConnectedSymmetric(g, a, c);
      }
    } else if c in comp {
      if Connected(g, a, c) {
        ConnectedTransitive(g, s, c, a) by {
          ConnectedSymmetric(g, a, c);
        }
      }
    }
  }

  lemma RelabelClosed<B>(g: Grid<B>, ids: map<Cell, int>, s: Cell, comp: set<Cell>, n: nat)
    requires ids.Keys == g.Keys && ClosedLabelled(g, ids) && n != UNLABELLED
    requires forall c :: c in comp <==> Connected(g, s, c)
    requires forall c :: c in comp ==> c in g
    ensures ClosedLabelled(g, Relabel(ids, comp, n))
  {
    var ids' := Relabel(ids, comp, n);
    forall a, c | a in ids' && ids'[a] != UNLABELLED && Connected(g, a, c)
      ensures c in ids' && ids'[c] != UNLABELLED
    {
      ConnectedSameBiome(g, a, c);
      if a in comp {
        ConnectedTransitive(g, s, a, c);
      }
    }
  }

  /** Same-biome neighbours end up with the same id. */
  lemma NeighboursShareId<B>(g: Grid<B>, ids: map<Cell, int>, a: Cell, k: nat)
    requires ids.Keys == g.Keys
    requires forall a, c :: a in ids && c in ids && g[a] == g[c] ==> (ids[a] == ids[c] <==> Connected(g, a, c))
    requires a in g && k < 4 && Neighbour(a, k) in g && g[Neighbour(a, k)] == g[a]
    ensures ids[a] == ids[Neighbour(a, k)]
  {
    ConnectedReflexive(g, a);
    ConnectedStep(g, a, a, Neighbour(a, k));
  }

  /** The cells connected to c. */
  ghost function ComponentOf<B>(g: Grid<B>, c: Cell): set<Cell>
  {
    set d | d in g.Keys && Connected(g, c, d)
  }

  /** The 4-connected components of biome b. */
  ghost function Components<B>(g: Grid<B>, b: B): set<set<Cell>>
  {
    set c | c in g.Keys && g[c] == b :: ComponentOf(g, c)
  }

  lemma SameComponent<B>(g: Grid<B>, a: Cell, c: Cell)
    requires Connected(g, a, c)
    ensures ComponentOf(g, a) == ComponentOf(g, c)
  {
    ConnectedSymmetric(g, a, c);
    forall d | d in g.Keys && Connected(g, a, d)
      ensures Connected(g, c, d)
    {
      ConnectedTransitive(g, c, a, d);
    }
    forall d | d in g.Keys && Connected(g, c, d)
      ensures Connected(g, a, d)
    {
      ConnectedTransitive(g, a, c, d);
    }
  }

  /** A cell of biome b that carries id k. */
  ghost function Witness<B>(g: Grid<B>, ids: map<Cell, int>, b: B, k: int): (c: Cell)
    requires ids.Keys == g.Keys && HasId(g, ids, b, k)
    ensures c in ids && g[c] == b && ids[c] == k
  {
    var c :| c in ids && g[c] == b && ids[c] == k; c
  }

  /** The ids 1..n. */
  ghost function IdRange(n: nat): (r: set<int>)
    ensures forall k :: k in r <==> 1 <= k <= n
    ensures |r| == n
  {
    if n == 0 then {} else IdRange(n - 1) + {n}
  }

  /** Id k of biome b sent to the component of a cell carrying it. */
  ghost function ComponentMap<B>(g: Grid<B>, ids: map<Cell, int>, b: B, n: nat): (m: map<int, set<Cell>>)
    requires ids.Keys == g.Keys
    requires forall k :: 1 <= k <= n ==> HasId(g, ids, b, k)
    ensures m.Keys == IdRange(n)
    ensures forall k :: k in m ==> m[k] == ComponentOf(g, Witness(g, ids, b, k))
  {
    map k | k in IdRange(n) :: ComponentOf(g, Witness(g, ids, b, k))
  }

  /** When the ids of biome b are exactly 1..n and name its components, b has
      n components: id k corresponds to the component of any cell carrying k. */
  lemma IdsCountComponents<B>(g: Grid<B>, ids: map<Cell, int>, b: B, n: nat)
    requires ids.Keys == g.Keys
    requires forall c :: c in ids && g[c] == b ==> 1 <= ids[c] <= n
    requires forall a, c :: a in ids && c in ids && g[a] == g[c] ==> (ids[a] == ids[c] <==> Connected(g, a, c))
    requires forall k :: 1 <= k <= n ==> HasId(g, ids, b, k)
    ensures n == |Components(g, b)|
  {
    var m := ComponentMap(g, ids, b, n);
    ComponentMapOnto(g, ids, b, n);
    ComponentMapInjective(g, ids, b, n);
    InjectiveMapSize(m);
  }

  lemma ComponentMapOnto<B>(g: Grid<B>, ids: map<Cell, int>, b: B, n: nat)
    requires ids.Keys == g.Keys
    requires forall c :: c in ids && g[c] == b ==> 1 <= ids[c] <= n
    requires forall a, c :: a in ids && c in ids && g[a] == g[c] ==> (ids[a] == ids[c] <==> Connected(g, a, c))
    requires forall k :: 1 <= k <= n ==> HasId(g, ids, b, k)
    ensures ComponentMap(g, ids, b, n).Values == Components(g, b)
  {
    var m := ComponentMap(g, ids, b, n);
    forall C | C in Components(g, b)
      ensures C in m.Values
    {
      var c :| c in g.Keys && g[c] == b && C == ComponentOf(g, c);
      var w := Witness(g, ids, b, ids[c]);
      SameComponent(g, w, c);
      assert m[ids[c]] == C;
    }
    forall C | C in m.Values
      ensures C in Components(g, b)
    {
      var k :| k in m && m[k] == C;
      var w := Witness(g, ids, b, k);
      assert w in g.Keys && g[w] == b;
    }
  }

  lemma ComponentMapInjective<B>(g: Grid<B>, ids: map<Cell, int>, b: B, n: nat)
    requires ids.Keys == g.Keys
    requires forall a, c :: a in ids && c in ids && g[a] == g[c] ==> (ids[a] == ids[c] <==> Connected(g, a, c))
    requires forall k :: 1 <= k <= n ==> HasId(g, ids, b, k)
    ensures var m := ComponentMap(g, ids, b, n);
      forall k1, k2 :: k1 in m && k2 in m && k1 != k2 ==> m[k1] != m[k2]
  {
    var m := ComponentMap(g, ids, b, n);
    forall k1, k2 | k1 in m && k2 in m && k1 != k2
      ensures m[k1] != m[k2]
    {
      var w1, w2 := Witness(g, ids, b, k1), Witness(g, ids, b, k2);
      ConnectedReflexive(g, w2);
      assert w2 in ComponentOf(g, w2);
      assert !Connected(g, w1, w2);
      assert w2 !in ComponentOf(g, w1);
    }
  }

  /** A map that sends different keys to different values has as many values
      as keys. */
  lemma {:induction false} InjectiveMapSize<K, V>(m: map<K, V>)
    requires forall a, b :: a in m && b in m && a != b ==> m[a] != m[b]
    ensures |m.Values| == |m.Keys|
  {
    if |m| > 0 {
      var k :| k in m;
      var m' := m - {k};
      InjectiveMapSize(m');
      forall v | v in m.Values - {m[k]}
        ensures v in m'.Values
      {
        var j :| j in m && m[j] == v;
        assert j in m';
      }
      forall v | v in m'.Values
        ensures v in m.Values - {m[k]}
      {
        var j :| j in m' && m'[j] == v;
        assert m[j] == v;
      }
      assert m'.Values == m.Values - {m[k]};
      assert m'.Keys == m.Keys - {k};
    }
  }
}
