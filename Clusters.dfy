/** The `Cluster` class: a mutable set of tiles, its outline (exposed tile
    sides, moved inward and chained) and its internal grid lines. */
module Clusters {
  import opened Tiles
  import opened Chaining
  import opened GridLines

  /** `hasNorthNeighbor` and its siblings: some tile of the set lies directly
      across the given side. */
  function HasNeighbor(tiles: set<Tile>, t: Tile, side: Side): (r: bool)
    ensures r <==> Across(t, side) in tiles
  {
    match side
    case North => exists u :: u in tiles && u.x == t.x && u.y == t.y - 1
    case East => exists u :: u in tiles && u.x == t.x + 1 && u.y == t.y
    case South => exists u :: u in tiles && u.x == t.x && u.y == t.y + 1
    case West => exists u :: u in tiles && u.x == t.x - 1 && u.y == t.y
  }

  /** A side of a tile of the set with no tile of the set across it. */
  predicate Exposed(tiles: set<Tile>, t: Tile, side: Side)
  {
    t in tiles && !HasNeighbor(tiles, t, side)
  }

  /** The side a corner lies on horizontally (west or east) and vertically
      (north or south). */
  function HorizontalSide(c: Corner): Side
  {
    match c
    case TopLeft => West
    case BottomLeft => West
    case TopRight => East
    case BottomRight => East
  }

  function VerticalSide(c: Corner): Side
  {
    match c
    case TopLeft => North
    case TopRight => North
    case BottomLeft => South
    case BottomRight => South
  }

  /** How the corners of the exposed sides are moved by the inset.
      `PerSide` is what `getPolyline` does: a corner moves inward only
      across its own tile's exposed sides. `Joined` moves it in the same way,
      and in addition outward along a side that has a neighbour when the
      tile's other side at that corner is exposed and the diagonal tile is
      present, i.e. at a concave corner of the cluster; there the moved sides
      of the two tiles meet. */
  datatype CornerRule = PerSide | Joined

  /** The tile diagonally across the corner between `side` and `other`. */
  function Diagonal(t: Tile, side: Side, other: Side): Tile
  {
    Across(Across(t, side), other)
  }

  /** How far a corner moves toward its tile's interior across `side`,
      `other` being the corner's other side. */
  function Shift(tiles: set<Tile>, t: Tile, side: Side, other: Side, inset: int, rule: CornerRule): int
  {
    if !HasNeighbor(tiles, t, side) then inset
    else if rule == Joined && !HasNeighbor(tiles, t, other) && Diagonal(t, side, other) in tiles then -inset
    else 0
  }

  /** The inset corner of `getPolyline`: the lattice corner, moved toward
      the tile interior along each axis by that axis' shift (under `PerSide`:
      by `inset` when the side it lies on along that axis is exposed). */
  function InsetCorner(tiles: set<Tile>, t: Tile, c: Corner, inset: int, rule: CornerRule): Point
  {
    var p := CornerCoords(c, t);
    var dx := Shift(tiles, t, HorizontalSide(c), VerticalSide(c), inset, rule);
    var dy := Shift(tiles, t, VerticalSide(c), HorizontalSide(c), inset, rule);
    match c
    case TopLeft => Point(p.lon + dx, p.lat - dy)
    case TopRight => Point(p.lon - dx, p.lat - dy)
    case BottomLeft => Point(p.lon + dx, p.lat + dy)
    case BottomRight => Point(p.lon - dx, p.lat + dy)
  }

  /** The segment emitted for one side: north runs top-left to top-right,
      east top-right to bottom-right, south bottom-left to bottom-right, west
      top-left to bottom-left. */
  function SideSegment(tiles: set<Tile>, t: Tile, side: Side, inset: int, rule: CornerRule): Segment
  {
    Segment(InsetCorner(tiles, t, FirstCorner(side), inset, rule), InsetCorner(tiles, t, SecondCorner(side), inset, rule))
  }

  /** The corners a side runs between, in the order `SideSegment` draws them. */
  function FirstCorner(side: Side): Corner
  {
    match side
    case North => TopLeft
    case East => TopRight
    case South => BottomLeft
    case West => TopLeft
  }

  function SecondCorner(side: Side): Corner
  {
    match side
    case North => TopRight
    case East => BottomRight
    case South => BottomRight
    case West => BottomLeft
  }

  /** With no inset, every corner is the tile's own lattice corner. */
  lemma InsetZero(tiles: set<Tile>, t: Tile, c: Corner, rule: CornerRule)
    ensures InsetCorner(tiles, t, c, 0, rule) == CornerCoords(c, t)
  {
  }

  /** A corner moves by exactly `inset` along an axis when the side it lies on
      along that axis is exposed, and not at all otherwise; for an inset of at
      most half a tile it stays within the tile's rectangle, so every move is
      toward the interior. */
  lemma InsetMovesInward(tiles: set<Tile>, t: Tile, c: Corner, inset: int)
    requires 0 <= inset && 2 * inset <= Span
    ensures var p := CornerCoords(c, t);
      var q := InsetCorner(tiles, t, c, inset, PerSide);
      && Abs(q.lon - p.lon) == (if HasNeighbor(tiles, t, HorizontalSide(c)) then 0 else inset)
      && Abs(q.lat - p.lat) == (if HasNeighbor(tiles, t, VerticalSide(c)) then 0 else inset)
      && Lon(t.x) <= q.lon <= Lon(t.x + 1)
      && Lat(t.y + 1) <= q.lat <= Lat(t.y)
  {
  }

  /** An exposed side with no inset is drawn along the tile's own edge, between
      the two lattice corners of that side. */
  lemma SideSegmentOnEdge(tiles: set<Tile>, t: Tile, side: Side)
    ensures var s := SideSegment(tiles, t, side, 0, PerSide);
      match side
      case North => s == Segment(CornerCoords(TopLeft, t), CornerCoords(TopRight, t))
      case East => s == Segment(CornerCoords(TopRight, t), CornerCoords(BottomRight, t))
      case South => s == Segment(CornerCoords(BottomLeft, t), CornerCoords(BottomRight, t))
      case West => s == Segment(CornerCoords(TopLeft, t), CornerCoords(BottomLeft, t))
  {
  }

  ghost function EastOf(tiles: set<Tile>, x: int): set<Tile>
  {
    set v | v in tiles && v.x > x
  }

  /** Every non-empty tile set has an exposed side: walking east from any tile
      leaves the set. */
  lemma {:induction false} EastmostExposed(tiles: set<Tile>, t: Tile) returns (u: Tile)
    requires t in tiles
    ensures Exposed(tiles, u, East)
    decreases |EastOf(tiles, t.x)|
  {
    if HasNeighbor(tiles, t, East) {
      var e := Across(t, East);
      assert e in tiles && e.x == t.x + 1;
      assert e in EastOf(tiles, t.x) && e !in EastOf(tiles, e.x);
      var near, far := EastOf(tiles, t.x), EastOf(tiles, e.x);
      assert far <= near;
      assert near == far + (near - far) && far !! (near - far);
      assert |near - far| >= 1 by { assert e in near - far; }
      u := EastmostExposed(tiles, e);
    } else {
      u := t;
    }
  }

  // ---------------------------------------------------------------------------
  // Shared edges for the grid lines

  /** The edge between a tile and its east neighbour: on the longitude of the
      tile's right corners, between the latitudes of its top and bottom. */
  function VerticalEdge(t: Tile): GridSegment
  {
    var top := CornerCoords(TopRight, t).lat;
    var bottom := CornerCoords(BottomRight, t).lat;
    GridSegment(CornerCoords(TopRight, t).lon, Min(top, bottom), Max(top, bottom))
  }

  /** The edge between a tile and its south neighbour: on the latitude of the
      tile's bottom corners, between the longitudes of its left and right. */
  function HorizontalEdge(t: Tile): GridSegment
  {
    var left := CornerCoords(BottomLeft, t).lon;
    var right := CornerCoords(BottomRight, t).lon;
    GridSegment(CornerCoords(BottomLeft, t).lat, Min(left, right), Max(left, right))
  }

  /** The edge segments are well-formed and run exactly along the corners that
      the two neighbouring tiles have in common. */
  lemma EdgesAreShared(t: Tile)
    ensures var v := VerticalEdge(t); var e := Across(t, East);
      && v.start < v.end
      && Point(v.fixed, v.start) == CornerCoords(BottomRight, t) == CornerCoords(BottomLeft, e)
      && Point(v.fixed, v.end) == CornerCoords(TopRight, t) == CornerCoords(TopLeft, e)
    ensures var h := HorizontalEdge(t); var s := Across(t, South);
      && h.start < h.end
      && Point(h.start, h.fixed) == CornerCoords(BottomLeft, t) == CornerCoords(TopLeft, s)
      && Point(h.end, h.fixed) == CornerCoords(BottomRight, t) == CornerCoords(TopRight, s)
  {
  }

  lemma EdgesWellFormed(owners: seq<Tile>)
    ensures WellFormed(seq(|owners|, k requires 0 <= k < |owners| => VerticalEdge(owners[k])))
    ensures WellFormed(seq(|owners|, k requires 0 <= k < |owners| => HorizontalEdge(owners[k])))
  {
  }

  /** A list of grid runs on an empty input stays empty. */
  lemma MergedOfNothing(merged: seq<GridSegment>)
    requires forall f :: Group(merged, f) == MergeAll(SortByStart(Group([], f)))
    ensures merged == []
  {
    if merged != [] {
      GroupMembers(merged, merged[0].fixed, merged[0]);
    }
  }

  /** A list of grid runs merged from a non-empty input is non-empty. */
  lemma MergedOfSomething(merged: seq<GridSegment>, segs: seq<GridSegment>)
    requires forall f :: Group(merged, f) == MergeAll(SortByStart(Group(segs, f)))
    requires WellFormed(segs) && segs != []
    ensures merged != []
  {
    var f := segs[0].fixed;
    GroupMembers(segs, f, segs[0]);
    MergedLineSpec(segs, f);
    var m := MergeAll(SortByStart(Group(segs, f)));
    var v := segs[0].start as real;
    assert Covers(m, v);
    assert Group(merged, f) != [];
  }

  /** The position of a side in the order `getPolyline` considers them. */
  function SideRank(side: Side): int
  {
    match side
    case North => 0
    case East => 1
    case South => 2
    case West => 3
  }

  /** What `ExposedSegments` has emitted once the tiles outside `todo` are
      done: the inset segments of their exposed sides, each once. */
  ghost predicate EmittedOutside(tiles: set<Tile>, todo: set<Tile>, inset: int, rule: CornerRule,
                                 segments: seq<Segment>, sides: seq<(Tile, Side)>)
  {
    && |sides| == |segments|
    && (forall k :: 0 <= k < |sides| ==>
          sides[k].0 !in todo && Exposed(tiles, sides[k].0, sides[k].1) &&
          segments[k] == SideSegment(tiles, sides[k].0, sides[k].1, inset, rule))
    && (forall t, side :: t !in todo && Exposed(tiles, t, side) ==> (t, side) in sides)
    && (forall i, j :: 0 <= i < j < |sides| ==> sides[i] != sides[j])
  }

  /** Appending the sides of one more tile `t` of `todo` keeps
      `EmittedOutside`, with `t` now done. */
  lemma AppendTile(tiles: set<Tile>, todo: set<Tile>, t: Tile, inset: int, rule: CornerRule,
                   segments: seq<Segment>, sides: seq<(Tile, Side)>,
                   more: seq<Segment>, moreSides: seq<(Tile, Side)>)
    requires t in todo && EmittedOutside(tiles, todo, inset, rule, segments, sides)
    requires |moreSides| == |more|
    requires forall k :: 0 <= k < |moreSides| ==>
      moreSides[k].0 == t && Exposed(tiles, t, moreSides[k].1) && more[k] == SideSegment(tiles, t, moreSides[k].1, inset, rule)
    requires forall side :: Exposed(tiles, t, side) ==> (t, side) in moreSides
    requires forall i, j :: 0 <= i < j < |moreSides| ==> moreSides[i] != moreSides[j]
    ensures EmittedOutside(tiles, todo - {t}, inset, rule, segments + more, sides + moreSides)
  {
    var rest := todo - {t};
    forall k | 0 <= k < |sides + moreSides|
      ensures (sides + moreSides)[k].0 !in rest && Exposed(tiles, (sides + moreSides)[k].0, (sides + moreSides)[k].1)
      ensures (segments + more)[k] == SideSegment(tiles, (sides + moreSides)[k].0, (sides + moreSides)[k].1, inset, rule)
    {
      AppendedAt(segments, more, sides, moreSides, k);
    }
    forall u, side | u !in rest && Exposed(tiles, u, side)
      ensures (u, side) in sides + moreSides
    {
      if u != t {
        assert (u, side) in sides;
      }
    }
    forall i, j | 0 <= i < |sides| && 0 <= j < |moreSides|
      ensures sides[i] != moreSides[j]
    {
      assert sides[i].0 != t;
    }
    ConcatDistinct(sides, moreSides);
  }

  /** Element k of two pairs of concatenated sequences comes from the same
      half in both. */
  lemma AppendedAt<S, T>(a: seq<S>, b: seq<S>, c: seq<T>, d: seq<T>, k: int)
    requires |a| == |c| && |b| == |d| && 0 <= k < |a| + |b|
    ensures k < |a| ==> (a + b)[k] == a[k] && (c + d)[k] == c[k]
    ensures k >= |a| ==> (a + b)[k] == b[k - |a|] && (c + d)[k] == d[k - |c|]
  {
  }

  /** Two sequences without repeats and without a common element
      concatenate to one without repeats. */
  lemma ConcatDistinct<T>(a: seq<T>, b: seq<T>)
    requires forall i, j :: 0 <= i < j < |a| ==> a[i] != a[j]
    requires forall i, j :: 0 <= i < j < |b| ==> b[i] != b[j]
    requires forall i, j :: 0 <= i < |a| && 0 <= j < |b| ==> a[i] != b[j]
    ensures forall i, j :: 0 <= i < j < |a + b| ==> (a + b)[i] != (a + b)[j]
  {
    forall i, j | 0 <= i < j < |a + b|
      ensures (a + b)[i] != (a + b)[j]
    {
      if j < |a| {
        assert (a + b)[i] == a[i] && (a + b)[j] == a[j];
      } else if i >= |a| {
        assert (a + b)[i] == b[i - |a|] && (a + b)[j] == b[j - |a|];
      } else {
        assert (a + b)[i] == a[i] && (a + b)[j] == b[j - |a|];
      }
    }
  }

  /** The segments emitted for tile `t` after the first `done` sides were
      considered: one per exposed side among them, none twice. */
  ghost predicate EmitsFor(tiles: set<Tile>, t: Tile, inset: int, rule: CornerRule,
                           segments: seq<Segment>, sides: seq<(Tile, Side)>, done: int)
  {
    && |sides| == |segments|
    && (forall k :: 0 <= k < |sides| ==>
          sides[k].0 == t && SideRank(sides[k].1) < done && Exposed(tiles, t, sides[k].1) &&
          segments[k] == SideSegment(tiles, t, sides[k].1, inset, rule))
    && (forall side :: SideRank(side) < done && Exposed(tiles, t, side) ==> (t, side) in sides)
    && (forall i, j :: 0 <= i < j < |sides| ==> sides[i] != sides[j])
  }

  lemma EmitSide(tiles: set<Tile>, t: Tile, inset: int, rule: CornerRule,
                 segments: seq<Segment>, sides: seq<(Tile, Side)>, done: int, side: Side)
    requires t in tiles && !HasNeighbor(tiles, t, side) && SideRank(side) == done
    requires EmitsFor(tiles, t, inset, rule, segments, sides, done)
    ensures EmitsFor(tiles, t, inset, rule, segments + [SideSegment(tiles, t, side, inset, rule)],
                     sides + [(t, side)], done + 1)
  {
    var sides' := sides + [(t, side)];
    forall i, j | 0 <= i < j < |sides'| ensures sides'[i] != sides'[j] {
      if j == |sides| {
        assert SideRank(sides[i].1) < done;
      }
    }
  }

  lemma SkipSide(tiles: set<Tile>, t: Tile, inset: int, rule: CornerRule,
                 segments: seq<Segment>, sides: seq<(Tile, Side)>, done: int, side: Side)
    requires HasNeighbor(tiles, t, side) && SideRank(side) == done
    requires EmitsFor(tiles, t, inset, rule, segments, sides, done)
    ensures EmitsFor(tiles, t, inset, rule, segments, sides, done + 1)
  {
  }

  lemma EmittedAll(tiles: set<Tile>, t: Tile, inset: int, rule: CornerRule, segments: seq<Segment>, sides: seq<(Tile, Side)>)
    requires EmitsFor(tiles, t, inset, rule, segments, sides, 4)
    ensures |sides| == |segments|
    ensures forall k :: 0 <= k < |sides| ==>
      sides[k].0 == t && Exposed(tiles, t, sides[k].1) && segments[k] == SideSegment(tiles, t, sides[k].1, inset, rule)
    ensures forall side :: Exposed(tiles, t, side) ==> (t, side) in sides
    ensures forall i, j :: 0 <= i < j < |sides| ==> sides[i] != sides[j]
  {
  }

  class Cluster {
    var tiles: set<Tile>

    constructor()
      ensures tiles == {}
    {
      tiles := {};
    }

    /** `tiles.add(tile)`: reports whether the tile was new. */
    method Add(t: Tile) returns (added: bool)
      modifies this
      ensures tiles == old(tiles) + {t}
      ensures added <==> t !in old(tiles)
    {
      added := t !in tiles;
      tiles := tiles + {t};
    }

    /** The body of the loop of `getPolyline` for one tile: the inset corners,
        then one segment per exposed side in the order north, east, south,
        west. `sides` names the side each segment was emitted for. */
    method TileSegments(t: Tile, inset: int, rule: CornerRule) returns (segments: seq<Segment>, ghost sides: seq<(Tile, Side)>)
      requires t in tiles
      ensures |sides| == |segments|
      ensures forall k :: 0 <= k < |sides| ==>
        sides[k].0 == t && Exposed(tiles, t, sides[k].1) && segments[k] == SideSegment(tiles, t, sides[k].1, inset, rule)
      ensures forall side :: Exposed(tiles, t, side) ==> (t, side) in sides
      ensures forall i, j :: 0 <= i < j < |sides| ==> sides[i] != sides[j]
    {
      var inTopLeft := InsetCorner(tiles, t, TopLeft, inset, rule);
      var inTopRight := InsetCorner(tiles, t, TopRight, inset, rule);
      var inBottomLeft := InsetCorner(tiles, t, BottomLeft, inset, rule);
      var inBottomRight := InsetCorner(tiles, t, BottomRight, inset, rule);
      segments, sides := AddIfExposed(t, North, inTopLeft, inTopRight, inset, rule, [], []);
      segments, sides := AddIfExposed(t, East, inTopRight, inBottomRight, inset, rule, segments, sides);
      segments, sides := AddIfExposed(t, South, inBottomLeft, inBottomRight, inset, rule, segments, sides);
      segments, sides := AddIfExposed(t, West, inTopLeft, inBottomLeft, inset, rule, segments, sides);
      EmittedAll(tiles, t, inset, rule, segments, sides);
    }

    /** One `if (no<Side>) segments.add(a to b)` of `getPolyline`: the
        segment from `a` to `b` is added when the side is exposed. */
    method AddIfExposed(t: Tile, side: Side, a: Point, b: Point, inset: int, rule: CornerRule,
                        segments: seq<Segment>, ghost sides: seq<(Tile, Side)>)
      returns (segments': seq<Segment>, ghost sides': seq<(Tile, Side)>)
      requires t in tiles && Segment(a, b) == SideSegment(tiles, t, side, inset, rule)
      requires EmitsFor(tiles, t, inset, rule, segments, sides, SideRank(side))
      ensures EmitsFor(tiles, t, inset, rule, segments', sides', SideRank(side) + 1)
      ensures segments' == if HasNeighbor(tiles, t, side) then segments else segments + [Segment(a, b)]
    {
      if !HasNeighbor(tiles, t, side) {
        EmitSide(tiles, t, inset, rule, segments, sides, SideRank(side), side);
        segments', sides' := segments + [Segment(a, b)], sides + [(t, side)];
      } else {
        SkipSide(tiles, t, inset, rule, segments, sides, SideRank(side), side);
        segments', sides' := segments, sides;
      }
    }

    /** The loop of `getPolyline` over all tiles: every segment is the inset
        segment of an exposed side, every exposed side is emitted, and none
        twice. */
    method ExposedSegments(inset: int, rule: CornerRule) returns (segments: seq<Segment>, ghost sides: seq<(Tile, Side)>)
      ensures |sides| == |segments|
      ensures forall k :: 0 <= k < |sides| ==>
        Exposed(tiles, sides[k].0, sides[k].1) && segments[k] == SideSegment(tiles, sides[k].0, sides[k].1, inset, rule)
      ensures forall t, side :: Exposed(tiles, t, side) ==> (t, side) in sides
      ensures forall i, j :: 0 <= i < j < |sides| ==> sides[i] != sides[j]
    {
      segments := [];
      sides := [];
      var todo := tiles;
      while todo != {}
        invariant todo <= tiles
        invariant EmittedOutside(tiles, todo, inset, rule, segments, sides)
      {
        var t :| t in todo;
        var tileSegments, tileSides := TileSegments(t, inset, rule);
        AppendTile(tiles, todo, t, inset, rule, segments, sides, tileSegments, tileSides);
        segments, sides := segments + tileSegments, sides + tileSides;
        todo := todo - {t};
      }
    }

    /** `getPolyline`: no outline for an empty cluster; otherwise the exposed
        segments (as `ExposedSegments` describes them) chained into polylines
        that use each of them exactly once. */
    method GetPolyline(inset: int, rule: CornerRule)
      returns (polylines: seq<seq<Point>>,
               ghost segments: seq<Segment>, ghost sides: seq<(Tile, Side)>, ghost used: seq<seq<Segment>>)
      ensures tiles == {} <==> polylines == []
      ensures |sides| == |segments|
      ensures forall k :: 0 <= k < |sides| ==>
        Exposed(tiles, sides[k].0, sides[k].1) && segments[k] == SideSegment(tiles, sides[k].0, sides[k].1, inset, rule)
      ensures forall t, side :: Exposed(tiles, t, side) ==> (t, side) in sides
      ensures forall i, j :: 0 <= i < j < |sides| ==> sides[i] != sides[j]
      ensures forall j :: 0 <= j < |polylines| ==> |polylines[j]| >= 2
      ensures StepCount(polylines) == |segments|
      ensures Decomposes(polylines, used, segments)
      ensures MaximalChains(polylines, used)
      ensures (rule == Joined && 0 <= inset && 2 * inset < Span) || inset == 0 ==>
        forall j :: 0 <= j < |polylines| ==> Closed(polylines[j])
    {
      if tiles == {} {
        polylines, segments, sides, used := [], [], [], [];
        return;
      }
      var exposed;
      exposed, sides := ExposedSegments(inset, rule);
      segments := exposed;
      var t :| t in tiles;
      ghost var u := EastmostExposed(tiles, t);
      assert (u, East) in sides;
      polylines, used := ChainSegments(exposed);
      if (rule == Joined && 0 <= inset && 2 * inset < Span) || inset == 0 {
        OutlineEvenDegrees(tiles, inset, rule, segments, sides);
        EvenDegreesClose(polylines, used, segments);
      }
    }

    /** The emitting loop of `getGridPolylines`: one vertical edge per tile
        whose east neighbour is in the cluster and one horizontal edge per tile
        whose south neighbour is; `east` and `south` name the owning tiles. */
    method SharedEdges()
      returns (vertical: seq<GridSegment>, horizontal: seq<GridSegment>,
               ghost east: seq<Tile>, ghost south: seq<Tile>)
      ensures |east| == |vertical| && |south| == |horizontal|
      ensures forall k :: 0 <= k < |east| ==>
        east[k] in tiles && Across(east[k], East) in tiles && vertical[k] == VerticalEdge(east[k])
      ensures forall k :: 0 <= k < |south| ==>
        south[k] in tiles && Across(south[k], South) in tiles && horizontal[k] == HorizontalEdge(south[k])
      ensures forall t :: t in tiles && Across(t, East) in tiles ==> t in east
      ensures forall t :: t in tiles && Across(t, South) in tiles ==> t in south
    {
      vertical, horizontal, east, south := [], [], [], [];
      var todo := tiles;
      while todo != {}
        invariant todo <= tiles
        invariant |east| == |vertical| && |south| == |horizontal|
        invariant forall k :: 0 <= k < |east| ==>
          east[k] in tiles && Across(east[k], East) in tiles && vertical[k] == VerticalEdge(east[k])
        invariant forall k :: 0 <= k < |south| ==>
          south[k] in tiles && Across(south[k], South) in tiles && horizontal[k] == HorizontalEdge(south[k])
        invariant forall t :: t in tiles - todo && Across(t, East) in tiles ==> t in east
        invariant forall t :: t in tiles - todo && Across(t, South) in tiles ==> t in south
      {
        var t :| t in todo;
        if Tile(t.x + 1, t.y) in tiles {
          var top := CornerCoords(TopRight, t).lat;
          var bottom := CornerCoords(BottomRight, t).lat;
          var lng := CornerCoords(TopRight, t).lon;
          vertical, east := vertical + [GridSegment(lng, Min(top, bottom), Max(top, bottom))], east + [t];
        }
        if Tile(t.x, t.y + 1) in tiles {
          var left := CornerCoords(BottomLeft, t).lon;
          var right := CornerCoords(BottomRight, t).lon;
          var lat := CornerCoords(BottomLeft, t).lat;
          horizontal, south := horizontal + [GridSegment(lat, Min(left, right), Max(left, right))], south + [t];
        }
        todo := todo - {t};
      }
    }

    /** `getGridPolylines`: the shared edges merged per line into maximal runs
        (see `GridLines.MergedLineSpec`), vertical runs first, each drawn as a
        two-point line. A cluster with no two neighbouring tiles, such as a
        single tile, has no grid lines, and any other cluster has some. */
    method GetGridPolylines()
      returns (gridLines: seq<seq<Point>>,
               ghost vertical: seq<GridSegment>, ghost horizontal: seq<GridSegment>,
               ghost mergedVertical: seq<GridSegment>, ghost mergedHorizontal: seq<GridSegment>)
      ensures MergedGrid(tiles, gridLines, vertical, horizontal, mergedVertical, mergedHorizontal)
      ensures gridLines == [] <==> forall a, b :: a in tiles && b in tiles ==> !IsNeighbour(a, b)
    {
      ghost var east, south;
      var verticalEdges, horizontalEdges;
      verticalEdges, horizontalEdges, east, south := SharedEdges();
      vertical, horizontal := verticalEdges, horizontalEdges;
      OwnedEdges(tiles, vertical, horizontal, east, south);
      var mergedV := MergeGroups(verticalEdges);
      var mergedH := MergeGroups(horizontalEdges);
      mergedVertical, mergedHorizontal := mergedV, mergedH;
      gridLines := DrawRuns(mergedV, mergedH);
      NoGridLines(tiles, vertical, horizontal, mergedV, mergedH);
    }
  }

  /** The promise of `getPolyline` for a cluster holding `tiles`: no outline
      for no tiles; `segments` are the inset segments of the exposed sides
      listed in `sides`, each exposed side once; the polylines have at least
      two points each and chain every segment exactly once, each one closed
      or stuck. */
  ghost predicate ChainedOutline(tiles: set<Tile>, inset: int, rule: CornerRule, polylines: seq<seq<Point>>,
                                 segments: seq<Segment>, sides: seq<(Tile, Side)>, used: seq<seq<Segment>>)
  {
    && (tiles == {} <==> polylines == [])
    && |sides| == |segments|
    && (forall k :: 0 <= k < |sides| ==>
          Exposed(tiles, sides[k].0, sides[k].1) && segments[k] == SideSegment(tiles, sides[k].0, sides[k].1, inset, rule))
    && (forall t, side :: Exposed(tiles, t, side) ==> (t, side) in sides)
    && (forall i, j :: 0 <= i < j < |sides| ==> sides[i] != sides[j])
    && (forall j :: 0 <= j < |polylines| ==> |polylines[j]| >= 2)
    && StepCount(polylines) == |segments|
    && Decomposes(polylines, used, segments)
    && MaximalChains(polylines, used)
  }

  /** `polylines` is an outline `getPolyline` can return for `tiles`. */
  ghost predicate IsOutline(tiles: set<Tile>, inset: int, rule: CornerRule, polylines: seq<seq<Point>>)
  {
    exists segments, sides, used :: ChainedOutline(tiles, inset, rule, polylines, segments, sides, used)
  }

  /** Three tiles in an L: a tile, its eastern and its southern neighbour. */
  function LShape(): set<Tile>
  {
    {Tile(0, 0), Tile(1, 0), Tile(0, 1)}
  }

  /** With an inset, the south side of the L's eastern tile starts at a
      point (the inner corner, moved down by the inset) that no other
      exposed side's segment touches: at the concave corner the moved sides
      do not meet. */
  lemma LShapeDangling(d: int)
    requires 0 < d && 2 * d < Span
    ensures Exposed(LShape(), Tile(1, 0), South)
    ensures SideSegment(LShape(), Tile(1, 0), South, d, PerSide) == Segment(Point(Span, d - Span), Point(2 * Span - d, d - Span))
    ensures forall t, side :: Exposed(LShape(), t, side) && (t, side) != (Tile(1, 0), South) ==>
      !Touches(SideSegment(LShape(), t, side, d, PerSide), Point(Span, d - Span))
  {
    var tiles := LShape();
    forall t, side | Exposed(tiles, t, side) && (t, side) != (Tile(1, 0), South)
      ensures !Touches(SideSegment(tiles, t, side, d, PerSide), Point(Span, d - Span))
    {
      assert t == Tile(0, 0) || t == Tile(1, 0) || t == Tile(0, 1);
    }
  }

  /** Hence every outline `getPolyline` can return for the L with an inset
      has a polyline that does not close. */
  lemma LShapeOutlineOpen(d: int, polylines: seq<seq<Point>>)
    requires 0 < d && 2 * d < Span
    requires IsOutline(LShape(), d, PerSide, polylines)
    ensures exists j :: 0 <= j < |polylines| && !Closed(polylines[j])
  {
    var tiles := LShape();
    var segments, sides, used :| ChainedOutline(tiles, d, PerSide, polylines, segments, sides, used);
    LShapeDangling(d);
    var s := SideSegment(tiles, Tile(1, 0), South, d, PerSide);
    var p := Point(Span, d - Span);
    assert (Tile(1, 0), South) in sides;
    var k0 :| 0 <= k0 < |sides| && sides[k0] == (Tile(1, 0), South);
    assert segments[k0] == s;
    // Only the south side of the eastern tile touches `p`, and only at one
    // end, so `p` has degree 1.
    assert forall k :: 0 <= k < |segments| && Touches(segments[k], p) ==> sides[k] == sides[k0];
    DegreeOfOnlyToucher(p, segments, k0);
    assert Degree(p, segments) == 1;
    if forall j :: 0 <= j < |polylines| ==> Closed(polylines[j]) {
      ClosedEvenDegrees(polylines, used, segments);
      assert false;
    }
  }

  /** The promise of `getGridPolylines` for a cluster holding `tiles`: the
      shared edges merged per line, vertical runs first, each run drawn as a
      two-point line. */
  ghost predicate MergedGrid(tiles: set<Tile>, gridLines: seq<seq<Point>>,
                             vertical: seq<GridSegment>, horizontal: seq<GridSegment>,
                             mergedVertical: seq<GridSegment>, mergedHorizontal: seq<GridSegment>)
  {
    && EdgesOf(tiles, vertical, horizontal)
    && (forall f :: Group(mergedVertical, f) == MergeAll(SortByStart(Group(vertical, f))))
    && (forall f :: Group(mergedHorizontal, f) == MergeAll(SortByStart(Group(horizontal, f))))
    && |gridLines| == |mergedVertical| + |mergedHorizontal|
    && (forall k :: 0 <= k < |mergedVertical| ==>
          var m := mergedVertical[k];
          gridLines[k] == [Point(m.fixed, m.start), Point(m.fixed, m.end)])
    && (forall k :: 0 <= k < |mergedHorizontal| ==>
          var m := mergedHorizontal[k];
          gridLines[|mergedVertical| + k] == [Point(m.start, m.fixed), Point(m.end, m.fixed)])
  }

  /** `gridLines` are grid lines `getGridPolylines` can return for `tiles`. */
  ghost predicate IsGrid(tiles: set<Tile>, gridLines: seq<seq<Point>>)
  {
    exists vertical, horizontal, mergedVertical, mergedHorizontal ::
      MergedGrid(tiles, gridLines, vertical, horizontal, mergedVertical, mergedHorizontal)
  }

  /** `vertical` and `horizontal` are well-formed and hold exactly the edges
      between neighbouring tiles of the set. */
  ghost predicate EdgesOf(tiles: set<Tile>, vertical: seq<GridSegment>, horizontal: seq<GridSegment>)
  {
    && WellFormed(vertical) && WellFormed(horizontal)
    && (forall t :: t in tiles && Across(t, East) in tiles ==> VerticalEdge(t) in vertical)
    && (forall s :: s in vertical ==> exists t :: t in tiles && Across(t, East) in tiles && s == VerticalEdge(t))
    && (forall t :: t in tiles && Across(t, South) in tiles ==> HorizontalEdge(t) in horizontal)
    && (forall s :: s in horizontal ==> exists t :: t in tiles && Across(t, South) in tiles && s == HorizontalEdge(t))
  }

  lemma OwnedEdges(tiles: set<Tile>, vertical: seq<GridSegment>, horizontal: seq<GridSegment>,
                   east: seq<Tile>, south: seq<Tile>)
    requires |east| == |vertical| && |south| == |horizontal|
    requires forall k :: 0 <= k < |east| ==>
      east[k] in tiles && Across(east[k], East) in tiles && vertical[k] == VerticalEdge(east[k])
    requires forall k :: 0 <= k < |south| ==>
      south[k] in tiles && Across(south[k], South) in tiles && horizontal[k] == HorizontalEdge(south[k])
    requires forall t :: t in tiles && Across(t, East) in tiles ==> t in east
    requires forall t :: t in tiles && Across(t, South) in tiles ==> t in south
    ensures EdgesOf(tiles, vertical, horizontal)
  {
    EdgesWellFormed(east);
    EdgesWellFormed(south);
    assert vertical == seq(|east|, k requires 0 <= k < |east| => VerticalEdge(east[k]));
    assert horizontal == seq(|south|, k requires 0 <= k < |south| => HorizontalEdge(south[k]));
    forall s | s in vertical
      ensures exists t :: t in tiles && Across(t, East) in tiles && s == VerticalEdge(t)
    {
      var k :| 0 <= k < |vertical| && vertical[k] == s;
      assert east[k] in tiles && Across(east[k], East) in tiles && s == VerticalEdge(east[k]);
    }
    forall s | s in horizontal
      ensures exists t :: t in tiles && Across(t, South) in tiles && s == HorizontalEdge(t)
    {
      var k :| 0 <= k < |horizontal| && horizontal[k] == s;
      assert south[k] in tiles && Across(south[k], South) in tiles && s == HorizontalEdge(south[k]);
    }
    forall t | t in tiles && Across(t, East) in tiles ensures VerticalEdge(t) in vertical {
      var k :| 0 <= k < |east| && east[k] == t;
      assert vertical[k] == VerticalEdge(t);
    }
    forall t | t in tiles && Across(t, South) in tiles ensures HorizontalEdge(t) in horizontal {
      var k :| 0 <= k < |south| && south[k] == t;
      assert horizontal[k] == HorizontalEdge(t);
    }
  }

  /** Grid lines exist exactly when two tiles of the set are neighbours. */
  lemma NoGridLines(tiles: set<Tile>, vertical: seq<GridSegment>, horizontal: seq<GridSegment>,
                    mergedV: seq<GridSegment>, mergedH: seq<GridSegment>)
    requires EdgesOf(tiles, vertical, horizontal)
    requires forall f :: Group(mergedV, f) == MergeAll(SortByStart(Group(vertical, f)))
    requires forall f :: Group(mergedH, f) == MergeAll(SortByStart(Group(horizontal, f)))
    ensures (mergedV == [] && mergedH == []) <==> forall a, b :: a in tiles && b in tiles ==> !IsNeighbour(a, b)
  {
    if forall a, b :: a in tiles && b in tiles ==> !IsNeighbour(a, b) {
      assert vertical == [] by {
        if vertical != [] {
          assert vertical[0] in vertical;
          var t :| t in tiles && Across(t, East) in tiles && vertical[0] == VerticalEdge(t);
          assert IsNeighbour(t, Across(t, East));
        }
      }
      assert horizontal == [] by {
        if horizontal != [] {
          assert horizontal[0] in horizontal;
          var t :| t in tiles && Across(t, South) in tiles && horizontal[0] == HorizontalEdge(t);
          assert IsNeighbour(t, Across(t, South));
        }
      }
      MergedOfNothing(mergedV);
      MergedOfNothing(mergedH);
    } else {
      var a, b :| a in tiles && b in tiles && IsNeighbour(a, b);
      NeighbourIsAcross(a, b);
      if b == Across(a, East) {
        assert VerticalEdge(a) in vertical;
        MergedOfSomething(mergedV, vertical);
      } else if b == Across(a, West) {
        assert a == Across(b, East);
        assert VerticalEdge(b) in vertical;
        MergedOfSomething(mergedV, vertical);
      } else if b == Across(a, South) {
        assert HorizontalEdge(a) in horizontal;
        MergedOfSomething(mergedH, horizontal);
      } else {
        assert a == Across(b, South);
        assert HorizontalEdge(b) in horizontal;
        MergedOfSomething(mergedH, horizontal);
      }
    }
  }

  /** The output loops of `getGridPolylines`: each vertical run becomes the
      line from its start to its end on its longitude, then each horizontal
      run the line from its start to its end on its latitude. */
  method DrawRuns(mergedV: seq<GridSegment>, mergedH: seq<GridSegment>) returns (gridLines: seq<seq<Point>>)
    ensures |gridLines| == |mergedV| + |mergedH|
    ensures forall k :: 0 <= k < |mergedV| ==>
      gridLines[k] == [Point(mergedV[k].fixed, mergedV[k].start), Point(mergedV[k].fixed, mergedV[k].end)]
    ensures forall k :: 0 <= k < |mergedH| ==>
      gridLines[|mergedV| + k] == [Point(mergedH[k].start, mergedH[k].fixed), Point(mergedH[k].end, mergedH[k].fixed)]
  {
    gridLines := [];
    for k := 0 to |mergedV|
      invariant |gridLines| == k
      invariant forall i :: 0 <= i < k ==>
        gridLines[i] == [Point(mergedV[i].fixed, mergedV[i].start), Point(mergedV[i].fixed, mergedV[i].end)]
    {
      var seg := mergedV[k];
      gridLines := gridLines + [[Point(seg.fixed, seg.start), Point(seg.fixed, seg.end)]];
    }
    for k := 0 to |mergedH|
      invariant |gridLines| == |mergedV| + k
      invariant forall i :: 0 <= i < |mergedV| ==>
        gridLines[i] == [Point(mergedV[i].fixed, mergedV[i].start), Point(mergedV[i].fixed, mergedV[i].end)]
      invariant forall i :: 0 <= i < k ==>
        gridLines[|mergedV| + i] == [Point(mergedH[i].start, mergedH[i].fixed), Point(mergedH[i].end, mergedH[i].fixed)]
    {
      var seg := mergedH[k];
      gridLines := gridLines + [[Point(seg.start, seg.fixed), Point(seg.end, seg.fixed)]];
    }
  }

  // ---------------------------------------------------------------------------
  // Closed outlines

  /** The lattice column nearest a longitude, and the lattice row nearest a
      latitude. */
  function NearColumn(lon: int): int { (lon + Span / 2) / Span }

  function NearRow(lat: int): int { (Span / 2 - lat) / Span }

  lemma NearestLattice(x: int, y: int, dx: int, dy: int)
    requires 2 * Abs(dx) < Span && 2 * Abs(dy) < Span
    ensures NearColumn(Lon(x) + dx) == x && NearRow(Lat(y) + dy) == y
  {
    var c := NearColumn(Lon(x) + dx);
    assert c * Span <= Lon(x) + dx + Span / 2 < c * Span + Span;
    var r := NearRow(Lat(y) + dy);
    assert r * Span <= Span / 2 - Lat(y) - dy < r * Span + Span;
  }

  /** The lattice column and row of a tile corner. */
  function CornerColumn(c: Corner, t: Tile): int
  {
    if c == TopLeft || c == BottomLeft then t.x else t.x + 1
  }

  function CornerRow(c: Corner, t: Tile): int
  {
    if c == TopLeft || c == TopRight then t.y else t.y + 1
  }

  /** With an inset below half a tile, a moved corner stays nearest to its own
      lattice corner, so the lattice corner can be read off the moved one. */
  lemma CornerNearVertex(tiles: set<Tile>, t: Tile, c: Corner, inset: int, rule: CornerRule, q: Point)
    requires 0 <= inset && 2 * inset < Span
    requires InsetCorner(tiles, t, c, inset, rule) == q
    ensures CornerColumn(c, t) == NearColumn(q.lon) && CornerRow(c, t) == NearRow(q.lat)
  {
    var p := CornerCoords(c, t);
    assert p == Point(Lon(CornerColumn(c, t)), Lat(CornerRow(c, t)));
    NearestLattice(CornerColumn(c, t), CornerRow(c, t), q.lon - p.lon, q.lat - p.lat);
  }

  /** The number of ends at `q` of the sides counted by `m` that meet at the
      lattice point (x, y): the eight sides of the four tiles around it, each
      ending there at the corner it has at that point. */
  function VertexCount(tiles: set<Tile>, inset: int, q: Point, x: int, y: int, m: multiset<(Tile, Side)>): int
  {
    CountAround(q, x, y, CornersAround(tiles, inset, x, y), m)
  }

  /** The moved corners at the lattice point (x, y) of the four tiles around
      it: north-west, north-east, south-east and south-west of it. */
  datatype Around = Around(nw: Point, ne: Point, se: Point, sw: Point)

  function CornersAround(tiles: set<Tile>, inset: int, x: int, y: int): Around
  {
    Around(InsetCorner(tiles, Tile(x - 1, y - 1), BottomRight, inset, Joined),
           InsetCorner(tiles, Tile(x, y - 1), BottomLeft, inset, Joined),
           InsetCorner(tiles, Tile(x, y), TopLeft, inset, Joined),
           InsetCorner(tiles, Tile(x - 1, y), TopRight, inset, Joined))
  }

  /** `VertexCount` for given corners `a` of the tiles around (x, y). */
  function CountAround(q: Point, x: int, y: int, a: Around, m: multiset<(Tile, Side)>): int
  {
    var nw, ne, se, sw := Tile(x - 1, y - 1), Tile(x, y - 1), Tile(x, y), Tile(x - 1, y);
    (if a.nw == q then m[(nw, East)] + m[(nw, South)] else 0)
    + (if a.ne == q then m[(ne, West)] + m[(ne, South)] else 0)
    + (if a.se == q then m[(se, West)] + m[(se, North)] else 0)
    + (if a.sw == q then m[(sw, East)] + m[(sw, North)] else 0)
  }

  /** 1 when corner `c` of `t` lies at the lattice point (x, y) and is moved
      onto `q`. */
  function HitAt(tiles: set<Tile>, inset: int, q: Point, x: int, y: int, t: Tile, c: Corner): int
  {
    if CornerColumn(c, t) == x && CornerRow(c, t) == y && InsetCorner(tiles, t, c, inset, Joined) == q then 1 else 0
  }

  /** `CountAround` of a single side: 1 for each tile around (x, y) that the
      side belongs to, meets (x, y) with and has its corner there at `q`. */
  lemma CountSingle(q: Point, x: int, y: int, a: Around, t: Tile, side: Side)
    ensures CountAround(q, x, y, a, multiset{(t, side)})
      == (if t == Tile(x - 1, y - 1) && (side == East || side == South) && a.nw == q then 1 else 0)
       + (if t == Tile(x, y - 1) && (side == West || side == South) && a.ne == q then 1 else 0)
       + (if t == Tile(x, y) && (side == West || side == North) && a.se == q then 1 else 0)
       + (if t == Tile(x - 1, y) && (side == East || side == North) && a.sw == q then 1 else 0)
  {
  }

  /** A single side is counted at (x, y) by whichever of its two corners lies
      there. */
  lemma VertexCountSingle(tiles: set<Tile>, inset: int, q: Point, x: int, y: int, t: Tile, side: Side)
    ensures VertexCount(tiles, inset, q, x, y, multiset{(t, side)})
      == HitAt(tiles, inset, q, x, y, t, FirstCorner(side)) + HitAt(tiles, inset, q, x, y, t, SecondCorner(side))
  {
    CountSingle(q, x, y, CornersAround(tiles, inset, x, y), t, side);
    HitAtOwner(tiles, inset, q, x, y, t, FirstCorner(side));
    HitAtOwner(tiles, inset, q, x, y, t, SecondCorner(side));
  }

  /** The tile whose corner `c` is the lattice point (x, y). */
  function CornerOwner(c: Corner, x: int, y: int): Tile
  {
    Tile(if c == TopLeft || c == BottomLeft then x else x - 1, if c == TopLeft || c == TopRight then y else y - 1)
  }

  /** Corner `c` of `t` is at (x, y) exactly when `t` is its owner. */
  lemma HitAtOwner(tiles: set<Tile>, inset: int, q: Point, x: int, y: int, t: Tile, c: Corner)
    ensures HitAt(tiles, inset, q, x, y, t, c)
      == if t == CornerOwner(c, x, y) && InsetCorner(tiles, t, c, inset, Joined) == q then 1 else 0
  {
  }

  /** Only the sides meeting at the lattice point nearest `q` can end at `q`. */
  lemma EndsAtVertex(tiles: set<Tile>, t: Tile, side: Side, inset: int, q: Point, x: int, y: int)
    requires 0 <= inset && 2 * inset < Span
    requires x == NearColumn(q.lon) && y == NearRow(q.lat)
    ensures Ends(SideSegment(tiles, t, side, inset, Joined), q) == VertexCount(tiles, inset, q, x, y, multiset{(t, side)})
  {
    var s := SideSegment(tiles, t, side, inset, Joined);
    var c1, c2 := FirstCorner(side), SecondCorner(side);
    if s.first == q {
      CornerNearVertex(tiles, t, c1, inset, Joined, q);
    }
    if s.second == q {
      CornerNearVertex(tiles, t, c2, inset, Joined, q);
    }
    assert Ends(s, q) == HitAt(tiles, inset, q, x, y, t, c1) + HitAt(tiles, inset, q, x, y, t, c2);
    VertexCountSingle(tiles, inset, q, x, y, t, side);
  }

  /** The degree of `q` in the exposed-side segments, counted at the lattice
      point nearest `q`. */
  lemma {:induction false} DegreeOfSides(q: Point, x: int, y: int, a: Around,
                                         segments: seq<Segment>, sides: seq<(Tile, Side)>)
    requires |sides| == |segments|
    requires forall k :: 0 <= k < |sides| ==>
      Ends(segments[k], q) == CountAround(q, x, y, a, multiset{sides[k]})
    ensures Degree(q, segments) == CountAround(q, x, y, a, multiset(sides))
    decreases |sides|
  {
    if sides != [] {
      var n := |sides| - 1;
      var before, last := multiset(sides[..n]), multiset{sides[n]};
      assert sides == sides[..n] + [sides[n]];
      calc {
        Degree(q, segments);
        Degree(q, segments[..n]) + Ends(segments[n], q);
        { DegreeOfSides(q, x, y, a, segments[..n], sides[..n]); }
        CountAround(q, x, y, a, before) + CountAround(q, x, y, a, last);
        { CountAroundAdd(q, x, y, a, before, last); }
        CountAround(q, x, y, a, before + last);
        { assert multiset(sides) == before + last; }
        CountAround(q, x, y, a, multiset(sides));
      }
    }
  }

  /** Counting the sides of two multisets together counts each separately. */
  lemma CountAroundAdd(q: Point, x: int, y: int, a: Around,
                       m1: multiset<(Tile, Side)>, m2: multiset<(Tile, Side)>)
    ensures CountAround(q, x, y, a, m1 + m2)
      == CountAround(q, x, y, a, m1) + CountAround(q, x, y, a, m2)
  {
  }

  /** The moved corners of the four tiles around the lattice point (x, y) at
      that point: straight stretches of the boundary join the two tiles on
      one side of it. */
  lemma StraightCornersMeet(tiles: set<Tile>, inset: int, x: int, y: int)
    ensures var nw, ne, se, sw := Tile(x - 1, y - 1), Tile(x, y - 1), Tile(x, y), Tile(x - 1, y);
      var p1, p2 := InsetCorner(tiles, nw, BottomRight, inset, Joined), InsetCorner(tiles, ne, BottomLeft, inset, Joined);
      var p3, p4 := InsetCorner(tiles, se, TopLeft, inset, Joined), InsetCorner(tiles, sw, TopRight, inset, Joined);
      && (nw in tiles && ne in tiles && se !in tiles && sw !in tiles ==> p1 == p2)
      && (ne in tiles && se in tiles && sw !in tiles && nw !in tiles ==> p2 == p3)
      && (se in tiles && sw in tiles && nw !in tiles && ne !in tiles ==> p3 == p4)
      && (sw in tiles && nw in tiles && ne !in tiles && se !in tiles ==> p4 == p1)
  {
    var nw, ne, se, sw := Tile(x - 1, y - 1), Tile(x, y - 1), Tile(x, y), Tile(x - 1, y);
    assert Across(nw, East) == ne && Across(nw, South) == sw && Diagonal(nw, East, South) == se;
    assert Across(ne, West) == nw && Across(ne, South) == se && Diagonal(ne, West, South) == sw;
    assert Across(se, West) == sw && Across(se, North) == ne && Diagonal(se, North, West) == nw;
    assert Across(sw, East) == se && Across(sw, North) == nw && Diagonal(sw, North, East) == ne;
  }

  /** At a concave corner (three of the four tiles present) the joined rule
      moves the two tiles' corners next to the gap onto one point. */
  lemma ConcaveCornersMeet(tiles: set<Tile>, inset: int, x: int, y: int)
    ensures var nw, ne, se, sw := Tile(x - 1, y - 1), Tile(x, y - 1), Tile(x, y), Tile(x - 1, y);
      var p1, p2 := InsetCorner(tiles, nw, BottomRight, inset, Joined), InsetCorner(tiles, ne, BottomLeft, inset, Joined);
      var p3, p4 := InsetCorner(tiles, se, TopLeft, inset, Joined), InsetCorner(tiles, sw, TopRight, inset, Joined);
      && (nw in tiles && ne in tiles && se in tiles && sw !in tiles ==> p1 == p3)
      && (ne in tiles && se in tiles && sw in tiles && nw !in tiles ==> p2 == p4)
      && (se in tiles && sw in tiles && nw in tiles && ne !in tiles ==> p3 == p1)
      && (sw in tiles && nw in tiles && ne in tiles && se !in tiles ==> p4 == p2)
  {
    var nw, ne, se, sw := Tile(x - 1, y - 1), Tile(x, y - 1), Tile(x, y), Tile(x - 1, y);
    assert Across(nw, East) == ne && Across(nw, South) == sw && Diagonal(nw, East, South) == se;
    assert Diagonal(nw, South, East) == se;
    assert Across(ne, West) == nw && Across(ne, South) == se && Diagonal(ne, West, South) == sw;
    assert Diagonal(ne, South, West) == sw;
    assert Across(se, West) == sw && Across(se, North) == ne && Diagonal(se, North, West) == nw;
    assert Diagonal(se, West, North) == nw;
    assert Across(sw, East) == se && Across(sw, North) == nw && Diagonal(sw, North, East) == ne;
    assert Diagonal(sw, East, North) == ne;
  }

  /** The counting core of the parity argument. The four tiles around a
      lattice point are present as `a` (north-west), `b` (north-east), `c`
      (south-east), `d` (south-west); `h1` to `h4` say whether their corners
      there were moved onto the point. Whenever the boundary pairs two tiles'
      sides, their corners agree, and the count of side ends is even. */
  lemma PairedCountEven(a: bool, b: bool, c: bool, d: bool, h1: bool, h2: bool, h3: bool, h4: bool)
    requires a && b && !c && !d ==> h1 == h2
    requires b && c && !d && !a ==> h2 == h3
    requires c && d && !a && !b ==> h3 == h4
    requires d && a && !b && !c ==> h4 == h1
    requires a && b && c && !d ==> h1 == h3
    requires b && c && d && !a ==> h2 == h4
    requires c && d && a && !b ==> h3 == h1
    requires d && a && b && !c ==> h4 == h2
    ensures ((if h1 then (if a && !b then 1 else 0) + (if a && !d then 1 else 0) else 0)
           + (if h2 then (if b && !a then 1 else 0) + (if b && !c then 1 else 0) else 0)
           + (if h3 then (if c && !d then 1 else 0) + (if c && !b then 1 else 0) else 0)
           + (if h4 then (if d && !c then 1 else 0) + (if d && !a then 1 else 0) else 0)) % 2 == 0
  {
  }

  /** Around any lattice point the exposed sides pair up on equal moved
      corners: two sides of one tile at a convex corner or a pinch, the
      sides of two tiles along a straight stretch, and under `Joined` also
      the sides of two tiles at a concave corner. */
  lemma VertexEven(tiles: set<Tile>, inset: int, q: Point, x: int, y: int, m: multiset<(Tile, Side)>)
    requires forall t, side :: m[(t, side)] == (if Exposed(tiles, t, side) then 1 else 0)
    ensures VertexCount(tiles, inset, q, x, y, m) % 2 == 0
  {
    var nw, ne, se, sw := Tile(x - 1, y - 1), Tile(x, y - 1), Tile(x, y), Tile(x - 1, y);
    var p1, p2 := InsetCorner(tiles, nw, BottomRight, inset, Joined), InsetCorner(tiles, ne, BottomLeft, inset, Joined);
    var p3, p4 := InsetCorner(tiles, se, TopLeft, inset, Joined), InsetCorner(tiles, sw, TopRight, inset, Joined);
    var a, b, c, d := nw in tiles, ne in tiles, se in tiles, sw in tiles;
    assert Across(nw, East) == ne && Across(nw, South) == sw;
    assert Across(se, West) == sw && Across(se, North) == ne;
    assert Across(ne, West) == nw && Across(ne, South) == se;
    assert Across(sw, East) == se && Across(sw, North) == nw;
    assert m[(nw, East)] == (if a && !b then 1 else 0) && m[(nw, South)] == (if a && !d then 1 else 0);
    assert m[(ne, West)] == (if b && !a then 1 else 0) && m[(ne, South)] == (if b && !c then 1 else 0);
    assert m[(se, West)] == (if c && !d then 1 else 0) && m[(se, North)] == (if c && !b then 1 else 0);
    assert m[(sw, East)] == (if d && !c then 1 else 0) && m[(sw, North)] == (if d && !a then 1 else 0);
    StraightCornersMeet(tiles, inset, x, y);
    ConcaveCornersMeet(tiles, inset, x, y);
    PairedCountEven(a, b, c, d, p1 == q, p2 == q, p3 == q, p4 == q);
  }

  /** An exposed-side list that holds every exposed side exactly once counts
      each side by whether it is exposed. */
  lemma SidesCount(tiles: set<Tile>, sides: seq<(Tile, Side)>)
    requires forall k :: 0 <= k < |sides| ==> Exposed(tiles, sides[k].0, sides[k].1)
    requires forall t, side :: Exposed(tiles, t, side) ==> (t, side) in sides
    requires forall i, j :: 0 <= i < j < |sides| ==> sides[i] != sides[j]
    ensures forall t, side :: multiset(sides)[(t, side)] == (if Exposed(tiles, t, side) then 1 else 0)
  {
    forall t, side ensures multiset(sides)[(t, side)] == (if Exposed(tiles, t, side) then 1 else 0) {
      if Exposed(tiles, t, side) {
        var i :| 0 <= i < |sides| && sides[i] == (t, side);
        CountOnce(sides, i);
      }
    }
  }

  /** At inset 0 the two rules draw the same sides. */
  lemma RulesAgreeAtZero(tiles: set<Tile>, t: Tile, side: Side)
    ensures SideSegment(tiles, t, side, 0, PerSide) == SideSegment(tiles, t, side, 0, Joined)
  {
  }

  /** The exposed sides, moved by the joined rule with an inset below half a
      tile (or by either rule with no inset), meet every point an even number
      of times. */
  lemma OutlineEvenDegrees(tiles: set<Tile>, inset: int, rule: CornerRule,
                           segments: seq<Segment>, sides: seq<(Tile, Side)>)
    requires (rule == Joined && 0 <= inset && 2 * inset < Span) || inset == 0
    requires |sides| == |segments|
    requires forall k :: 0 <= k < |sides| ==>
      Exposed(tiles, sides[k].0, sides[k].1) && segments[k] == SideSegment(tiles, sides[k].0, sides[k].1, inset, rule)
    requires forall t, side :: Exposed(tiles, t, side) ==> (t, side) in sides
    requires forall i, j :: 0 <= i < j < |sides| ==> sides[i] != sides[j]
    ensures EvenDegrees(segments)
  {
    forall k | 0 <= k < |sides|
      ensures segments[k] == SideSegment(tiles, sides[k].0, sides[k].1, inset, Joined)
    {
      if inset == 0 {
        RulesAgreeAtZero(tiles, sides[k].0, sides[k].1);
      }
    }
    SidesCount(tiles, sides);
    forall q ensures Degree(q, segments) % 2 == 0 {
      var x, y := NearColumn(q.lon), NearRow(q.lat);
      forall k | 0 <= k < |sides|
        ensures Ends(segments[k], q) == VertexCount(tiles, inset, q, x, y, multiset{sides[k]})
      {
        EndsAtVertex(tiles, sides[k].0, sides[k].1, inset, q, x, y);
      }
      DegreeOfSides(q, x, y, CornersAround(tiles, inset, x, y), segments, sides);
      VertexEven(tiles, inset, q, x, y, multiset(sides));
    }
  }

  /** Every polyline of an outline drawn by the joined rule with an inset
      below half a tile, or by the rule of `getPolyline` with no inset, is a
      closed ring. */
  lemma OutlineClosed(tiles: set<Tile>, inset: int, rule: CornerRule, polylines: seq<seq<Point>>)
    requires (rule == Joined && 0 <= inset && 2 * inset < Span) || inset == 0
    requires IsOutline(tiles, inset, rule, polylines)
    ensures forall j :: 0 <= j < |polylines| ==> Closed(polylines[j])
  {
    var segments, sides, used :| ChainedOutline(tiles, inset, rule, polylines, segments, sides, used);
    OutlineEvenDegrees(tiles, inset, rule, segments, sides);
    EvenDegreesClose(polylines, used, segments);
  }
}
