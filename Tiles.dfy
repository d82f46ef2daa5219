/** Grid vocabulary of the tile-hunting overlay: tiles of the zoom-14 slippy-map
    grid, their adjacency, and the map position of their corners.

    Map positions are integers in units of 1e-6 degree. The projection of a tile
    index to longitude (latitude) is modelled as a strictly increasing
    (decreasing) linear map; the outline and grid-line code only ever compares
    such positions for equality and order, which a strictly monotone map keeps. */
module Tiles {

  /** One cell of the slippy-map grid (`Tile(x, y)`); y grows southwards. */
  datatype Tile = Tile(x: int, y: int)

  function Abs(n: int): nat { if n < 0 then -n else n }

  /** `Tile.isNeighbour`: the tiles agree on one axis and are one step apart on
      the other. */
  function IsNeighbour(a: Tile, b: Tile): (r: bool)
    ensures r <==> Abs(a.x - b.x) + Abs(a.y - b.y) == 1
  {
    (a.x == b.x && (a.y == b.y + 1 || a.y == b.y - 1)) ||
    (a.y == b.y && (a.x == b.x + 1 || a.x == b.x - 1))
  }

  lemma NeighbourSymmetric(a: Tile, b: Tile)
    ensures IsNeighbour(a, b) == IsNeighbour(b, a)
  {
  }

  /** The four sides of a tile, and the tile across each of them. */
  datatype Side = North | East | South | West

  function Across(t: Tile, side: Side): Tile
  {
    match side
    case North => Tile(t.x, t.y - 1)
    case East => Tile(t.x + 1, t.y)
    case South => Tile(t.x, t.y + 1)
    case West => Tile(t.x - 1, t.y)
  }

  /** The neighbours of a tile are exactly the tiles across its four sides. */
  lemma NeighbourIsAcross(t: Tile, u: Tile)
    ensures IsNeighbour(t, u) <==>
      u == Across(t, North) || u == Across(t, East) || u == Across(t, South) || u == Across(t, West)
  {
  }

  /** `Tile.isSurrounded`: all four 4-neighbours are in `tiles`; equivalently,
      every neighbour of `t` is in `tiles`. */
  function IsSurrounded(t: Tile, tiles: set<Tile>): (r: bool)
    ensures r <==> forall u :: IsNeighbour(t, u) ==> u in tiles
  {
    assert IsNeighbour(t, Tile(t.x + 1, t.y)) && IsNeighbour(t, Tile(t.x - 1, t.y));
    assert IsNeighbour(t, Tile(t.x, t.y + 1)) && IsNeighbour(t, Tile(t.x, t.y - 1));
    Tile(t.x + 1, t.y) in tiles &&
    Tile(t.x - 1, t.y) in tiles &&
    Tile(t.x, t.y + 1) in tiles &&
    Tile(t.x, t.y - 1) in tiles
  }

  // ---------------------------------------------------------------------------
  // Map positions

  /** A map position (longitude, latitude), both in units of 1e-6 degree. */
  datatype Point = Point(lon: int, lat: int)

  /** Width of one lattice step at zoom 14, in 1e-6 degree (360 / 2^14). */
  const Span: int := 21972

  /** Longitude of the western edge of tile column x. */
  function Lon(x: int): int { x * Span }

  /** Latitude of the northern edge of tile row y. */
  function Lat(y: int): int { -y * Span }

  lemma LonIncreasing(x1: int, x2: int)
    ensures x1 < x2 <==> Lon(x1) < Lon(x2)
  {
  }

  lemma LatDecreasing(y1: int, y2: int)
    ensures y1 < y2 <==> Lat(y1) > Lat(y2)
  {
  }

  datatype Corner = TopLeft | TopRight | BottomLeft | BottomRight

  /** `CurrentCorner.getCoords`: the unmodified map position of a tile corner.
      Right corners use column x + 1, bottom corners row y + 1. */
  function CornerCoords(c: Corner, t: Tile): Point
  {
    match c
    case TopLeft => Point(Lon(t.x), Lat(t.y))
    case TopRight => Point(Lon(t.x + 1), Lat(t.y))
    case BottomLeft => Point(Lon(t.x), Lat(t.y + 1))
    case BottomRight => Point(Lon(t.x + 1), Lat(t.y + 1))
  }

  /** The four corners span an axis-aligned rectangle: left corners lie west of
      right corners, top corners north of bottom corners; and neighbouring
      tiles share their common corners. */
  lemma CornersFormRectangle(t: Tile)
    ensures CornerCoords(TopLeft, t).lon == CornerCoords(BottomLeft, t).lon
              < CornerCoords(TopRight, t).lon == CornerCoords(BottomRight, t).lon
    ensures CornerCoords(BottomLeft, t).lat == CornerCoords(BottomRight, t).lat
              < CornerCoords(TopLeft, t).lat == CornerCoords(TopRight, t).lat
    ensures CornerCoords(TopRight, t) == CornerCoords(TopLeft, Across(t, East))
    ensures CornerCoords(BottomLeft, t) == CornerCoords(TopLeft, Across(t, South))
  {
  }

  /** Distinct tiles have distinct top-left corners (the projection is injective). */
  lemma CornerInjective(a: Tile, b: Tile)
    requires CornerCoords(TopLeft, a) == CornerCoords(TopLeft, b)
    ensures a == b
  {
  }

  /** `pointsEqual` with its default tolerance of 1e-6 degree, which is one unit
      here. On this lattice the tolerance test is exact equality. */
  function PointsEqual(p: Point, q: Point): (r: bool)
    ensures r <==> p == q
  {
    Abs(p.lon - q.lon) < 1 && Abs(p.lat - q.lat) < 1
  }

  // ---------------------------------------------------------------------------
  // 4-connectivity

  /** `p` is a walk of 4-adjacent steps through tiles of `s`. */
  ghost predicate IsWalk(p: seq<Tile>, s: set<Tile>)
  {
    && |p| > 0
    && (forall k :: 0 <= k < |p| ==> p[k] in s)
    && (forall k :: 0 <= k < |p| - 1 ==> IsNeighbour(p[k], p[k + 1]))
  }

  ghost predicate Joins(p: seq<Tile>, s: set<Tile>, a: Tile, b: Tile)
  {
    IsWalk(p, s) && p[0] == a && p[|p| - 1] == b
  }

  /** `a` and `b` are joined by a walk inside `s`. */
  ghost predicate Linked(s: set<Tile>, a: Tile, b: Tile)
  {
    exists p :: Joins(p, s, a, b)
  }

  /** Every two tiles of `s` are joined by a walk inside `s`. */
  ghost predicate Connected(s: set<Tile>)
  {
    forall a, b {:trigger Linked(s, a, b)} :: a in s && b in s ==> Linked(s, a, b)
  }

  /** Every tile of `s` is joined to `root` by a walk inside `s`. */
  ghost predicate ReachableFrom(s: set<Tile>, root: Tile)
  {
    forall t {:trigger Linked(s, root, t)} :: t in s ==> Linked(s, root, t)
  }

  function Reverse<T>(p: seq<T>): (r: seq<T>)
    ensures |r| == |p| && forall k :: 0 <= k < |p| ==> r[k] == p[|p| - 1 - k]
  {
    if p == [] then [] else Reverse(p[1..]) + [p[0]]
  }

  lemma WalkReverse(p: seq<Tile>, s: set<Tile>)
    requires IsWalk(p, s)
    ensures IsWalk(Reverse(p), s)
  {
    var r := Reverse(p);
    forall k | 0 <= k < |r| - 1 ensures IsNeighbour(r[k], r[k + 1]) {
      NeighbourSymmetric(p[|p| - 2 - k], p[|p| - 1 - k]);
    }
  }

  /** Two walks that meet can be glued. */
  lemma WalkGlue(p: seq<Tile>, q: seq<Tile>, s: set<Tile>)
    requires IsWalk(p, s) && IsWalk(q, s) && p[|p| - 1] == q[0]
    ensures IsWalk(p + q[1..], s)
  {
    var r := p + q[1..];
    forall k | 0 <= k < |r| - 1 ensures IsNeighbour(r[k], r[k + 1]) {
      if k < |p| - 1 {
      } else {
        assert r[k] == q[k - |p| + 1] && r[k + 1] == q[k - |p| + 2];
      }
    }
  }

  lemma WalkWiden(p: seq<Tile>, s: set<Tile>, s': set<Tile>)
    requires IsWalk(p, s) && s <= s'
    ensures IsWalk(p, s')
  {
  }

  /** A set in which every tile is joined to one root tile is connected. */
  lemma StarConnected(s: set<Tile>, root: Tile)
    requires ReachableFrom(s, root)
    ensures Connected(s)
  {
    forall a, b | a in s && b in s ensures Linked(s, a, b) {
      assert Linked(s, root, a) && Linked(s, root, b);
      var pa :| Joins(pa, s, root, a);
      var pb :| Joins(pb, s, root, b);
      WalkReverse(pa, s);
      var ra := Reverse(pa);
      WalkGlue(ra, pb, s);
      assert Joins(ra + pb[1..], s, a, b);
    }
  }

  /** A walk that starts inside `c` and ends outside it steps across the
      boundary of `c` somewhere. */
  lemma WalkLeaves(p: seq<Tile>, s: set<Tile>, c: set<Tile>) returns (k: nat)
    requires IsWalk(p, s) && p[0] in c && p[|p| - 1] !in c
    ensures k < |p| - 1 && p[k] in c && p[k + 1] !in c && IsNeighbour(p[k], p[k + 1])
  {
    k := 0;
    while p[k + 1] in c
      invariant k < |p| - 1 && p[k] in c
      decreases |p| - k
    {
      k := k + 1;
    }
  }
}
