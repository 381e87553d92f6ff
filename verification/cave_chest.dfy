/** The cave chest feature: on a coin flip, look straight down from just
    below a surface position for a pocket of air over a solid floor, and
    place a chest in the shallowest such pocket that does not touch another
    chest. */
module CaveChest {
  import opened Blocks
  import opened Random

  datatype Pos = Pos(x: int, y: int, z: int)

  /** The blocks of the world around the feature; positions not listed are
      air. */
  type World = map<Pos, Block>

  function BlockAt(w: World, p: Pos): Block
  {
    if p in w then w[p] else Air
  }

  function Below(p: Pos, n: int): Pos { Pos(p.x, p.y - n, p.z) }
  function Above(p: Pos, n: int): Pos { Pos(p.x, p.y + n, p.z) }

  /** The four horizontal neighbours: north is -z, south +z, east +x and
      west -x. */
  function North(p: Pos): Pos { Pos(p.x, p.y, p.z - 1) }
  function South(p: Pos): Pos { Pos(p.x, p.y, p.z + 1) }
  function East(p: Pos): Pos { Pos(p.x + 1, p.y, p.z) }
  function West(p: Pos): Pos { Pos(p.x - 1, p.y, p.z) }

  /** The deepest depth scanned below the block under the origin. */
  const MAX_DEPTH: int := 10

  /** The cell scanned at depth d: d blocks below the block under the origin. */
  function Spot(origin: Pos, d: int): Pos
  {
    Below(Below(origin, 1), d)
  }

  /** A chest fits at p when p and the cell above it are air, the floor under
      p has a solid full top face (an engine property of its block, given
      here as solidTop), and no horizontal neighbour of p is a chest. */
  predicate Fits(w: World, solidTop: Pos -> bool, p: Pos)
  {
    && BlockAt(w, p) == Air && BlockAt(w, Above(p, 1)) == Air
    && solidTop(Below(p, 1))
    && BlockAt(w, North(p)) != Chest && BlockAt(w, South(p)) != Chest
    && BlockAt(w, East(p)) != Chest && BlockAt(w, West(p)) != Chest
  }

  /** No depth in [1, d) fits. */
  predicate NoFitAbove(w: World, solidTop: Pos -> bool, origin: Pos, d: int)
  {
    forall k :: 1 <= k < d ==> !Fits(w, solidTop, Spot(origin, k))
  }

  /** The feature's attempt at origin with random stream s. The first draw
      is the coin: anything but 0 gives up at once. Otherwise depths 1 to 10
      are tried in order and the chest goes to the first that fits. The
      chest's facing and loot seed, later draws of the same stream, are left
      to the engine. */
  method Generate(w: World, solidTop: Pos -> bool, origin: Pos, s: Stream) returns (r: World, placed: bool)
    ensures Draw(s, 0, 2) != 0 ==> !placed
    ensures !placed ==> r == w
    ensures placed <==> Draw(s, 0, 2) == 0 && exists d :: 1 <= d <= MAX_DEPTH && Fits(w, solidTop, Spot(origin, d))
    ensures placed ==> exists d ::
              && 1 <= d <= MAX_DEPTH && Fits(w, solidTop, Spot(origin, d))
              && NoFitAbove(w, solidTop, origin, d)
              && r == w[Spot(origin, d) := Chest]
  {
    r, placed := w, false;
    if Draw(s, 0, 2) != 0 {
      return;
    }
    var depth := 1;
    while depth <= MAX_DEPTH
      invariant 1 <= depth <= MAX_DEPTH + 1
      invariant NoFitAbove(w, solidTop, origin, depth)
    {
      var pos := Spot(origin, depth);
      if BlockAt(w, pos) != Air || BlockAt(w, Above(pos, 1)) != Air {
        depth := depth + 1;
        continue;
      }
      if !solidTop(Below(pos, 1)) {
        depth := depth + 1;
        continue;
      }
      if BlockAt(w, North(pos)) == Chest || BlockAt(w, South(pos)) == Chest
        || BlockAt(w, East(pos)) == Chest || BlockAt(w, West(pos)) == Chest {
        depth := depth + 1;
        continue;
      }
      r := w[pos := Chest];
      placed := true;
      return;
    }
  }

  /** The scanned cells lie in the origin's column, from two blocks below it
      (depth 1) down to eleven blocks below it (depth 10). */
  lemma SpotColumn(origin: Pos, d: int)
    requires 1 <= d <= MAX_DEPTH
    ensures Spot(origin, d).x == origin.x && Spot(origin, d).z == origin.z
    ensures origin.y - 11 <= Spot(origin, d).y <= origin.y - 2
    ensures Spot(origin, d).y == origin.y - 1 - d
  {
  }

  /** Two cells side by side on the same level. */
  predicate Touching(p: Pos, q: Pos)
  {
    p.y == q.y && ((p.x == q.x && (p.z - q.z == 1 || q.z - p.z == 1)) || (p.z == q.z && (p.x - q.x == 1 || q.x - p.x == 1)))
  }

  /** No two chests of the world stand side by side. */
  predicate NoTouchingChests(w: World)
  {
    forall p, q :: p in w && q in w && w[p] == Chest && w[q] == Chest ==> !Touching(p, q)
  }

  /** The feature keeps chests apart: a world without side-by-side chests
      still has none after a placement, and the placed chest replaces air. */
  lemma GenerateKeepsChestsApart(w: World, solidTop: Pos -> bool, origin: Pos, d: int)
    requires 1 <= d <= MAX_DEPTH && Fits(w, solidTop, Spot(origin, d))
    requires NoTouchingChests(w)
    ensures NoTouchingChests(w[Spot(origin, d) := Chest])
    ensures BlockAt(w, Spot(origin, d)) == Air
  {
    var p := Spot(origin, d);
    var r := w[p := Chest];
    forall a, b | a in r && b in r && r[a] == Chest && r[b] == Chest
      ensures !Touching(a, b)
    {
      if a == p && b != p && Touching(a, b) {
        TouchingIsNeighbour(p, b);
      } else if b == p && a != p && Touching(a, b) {
        TouchingIsNeighbour(p, a);
      }
    }
  }

  lemma TouchingIsNeighbour(p: Pos, q: Pos)
    requires Touching(p, q) || Touching(q, p)
    ensures q == North(p) || q == South(p) || q == East(p) || q == West(p)
  {
  }
}
