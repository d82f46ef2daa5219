/** The per-update decisions of the cluster draw service: the draw radius,
    the view square and the tile load range, the zoom-dependent outline
    inset, the tile categories, the decoding of the stored biggest square and
    the clipping of activity tracks to the view square. */
module ClusterDraw {
  import opened Tiles
  import opened Squares
  import opened Chaining

  // ---------------------------------------------------------------------
  // Radius, zoom and inset

  /** The draw range asked for: the setting when positive, 3 otherwise. */
  function EffectiveRange(tileDrawRange: int): int
  {
    if tileDrawRange > 0 then tileDrawRange else 3
  }

  function Distance(a: int, b: int): nat
  {
    Abs(a - b)
  }

  /** `tileLoadRadius`: the effective range coerced into 2..5. It is left
      unchanged when it lies in 2..5 and is otherwise the value of 2..5
      nearest to it. */
  function TileLoadRadius(tileDrawRange: int): (r: int)
    ensures 2 <= r <= 5
    ensures 2 <= EffectiveRange(tileDrawRange) <= 5 ==> r == EffectiveRange(tileDrawRange)
    ensures forall v :: 2 <= v <= 5 ==>
      Distance(r, EffectiveRange(tileDrawRange)) <= Distance(v, EffectiveRange(tileDrawRange))
  {
    var d := EffectiveRange(tileDrawRange);
    if d < 2 then 2 else if d > 5 then 5 else d
  }

  /** Kotlin's `roundToInt`: the nearest integer, halves rounded upwards. */
  function RoundToInt(x: real): (r: int)
    ensures x - 0.5 < r as real <= x + 0.5
  {
    (x + 0.5).Floor
  }

  /** The zoom the service works with: the reported zoom level halved,
      rounded and doubled, that is the nearest even integer (halves upwards). */
  function MapZoom(zoomLevel: real): (r: int)
    ensures r % 2 == 0
    ensures zoomLevel - 1.0 < r as real <= zoomLevel + 1.0
  {
    RoundToInt(zoomLevel / 2.0) * 2
  }

  /** An even zoom level is kept as it is. */
  lemma MapZoomOfEven(z: int)
    requires z % 2 == 0
    ensures MapZoom(z as real) == z
  {
  }

  /** `insetOffset`, in metres: 175 up to zoom 10, then 125, 75, 37.5, 25,
      15 and 10 for zooms 11 to 16, and 5 for any other zoom (negative ones
      included). */
  function InsetOffset(mapZoom: int): (r: real)
    ensures 5.0 <= r <= 175.0
    ensures 0 <= mapZoom <= 10 ==> r == 175.0
    ensures (mapZoom < 0 || mapZoom > 16) ==> r == 5.0
  {
    if 0 <= mapZoom <= 10 then 175.0
    else if mapZoom == 11 then 125.0
    else if mapZoom == 12 then 75.0
    else if mapZoom == 13 then 37.5
    else if mapZoom == 14 then 25.0
    else if mapZoom == 15 then 15.0
    else if mapZoom == 16 then 10.0
    else 5.0
  }

  /** Zooming in never widens the inset. */
  lemma InsetShrinksWithZoom(z1: int, z2: int)
    requires 0 <= z1 <= z2
    ensures InsetOffset(z1) >= InsetOffset(z2)
  {
  }

  /** The zoom handed to the table is always even, so the arms for zooms 11,
      13 and 15 are never taken. */
  lemma OddZoomArmsUnused(zoomLevel: real)
    ensures InsetOffset(MapZoom(zoomLevel)) in {175.0, 75.0, 25.0, 10.0, 5.0}
  {
    var z := MapZoom(zoomLevel);
    assert z != 11 && z != 13 && z != 15 by {
      assert z % 2 == 0;
    }
  }

  // ---------------------------------------------------------------------
  // View square and load range

  /** The tile load range: both coordinates within the radius of the
      centre tile, bounds included. */
  predicate InLoadRange(center: Tile, radius: int, t: Tile)
  {
    center.x - radius <= t.x <= center.x + radius && center.y - radius <= t.y <= center.y + radius
  }

  /** `viewSquare`: side twice the radius, top-left at the centre minus the
      radius. It holds the load range minus its last column and last row. */
  function ViewSquare(center: Tile, radius: int): (v: Square)
    ensures forall t :: v.IsInside(t) <==>
      InLoadRange(center, radius, t) && t.x < center.x + radius && t.y < center.y + radius
  {
    Square(center.x - radius, center.y - radius, radius * 2)
  }

  /** The view square centred on the centre tile: side 2 × radius + 1. It is
      exactly the load range. */
  function CenteredViewSquare(center: Tile, radius: int): (v: Square)
    ensures forall t :: v.IsInside(t) <==> InLoadRange(center, radius, t)
  {
    Square(center.x - radius, center.y - radius, radius * 2 + 1)
  }

  // ---------------------------------------------------------------------
  // Tile categories

  datatype Categories = Categories(
    square: set<Tile>,
    withNeighbours: set<Tile>,
    other: set<Tile>,
    unexplored: set<Tile>,
    recent: set<Tile>)

  /** The tiles of a set that lie in the load range. */
  function InRange(tiles: set<Tile>, center: Tile, radius: int): set<Tile>
  {
    set t | t in tiles && InLoadRange(center, radius, t)
  }

  /** `square?.getAllTiles() ?: emptySet()`. */
  function SquareTiles(square: Option<Square>): set<Tile>
  {
    if square.Some? then square.value.Footprint() else {}
  }

  /** The explored tiles in range that are not recently explored. */
  function ExploredInRange(explored: set<Tile>, recentlyExplored: set<Tile>, center: Tile, radius: int): set<Tile>
  {
    InRange(explored, center, radius) - InRange(recentlyExplored, center, radius)
  }

  /** The categorisation of one update: recent tiles in range; the explored
      tiles in range (recent ones removed) split into those of the biggest
      square, those surrounded within the whole explored set, and the rest;
      and the tiles of the view square that are in neither group. */
  function Categorize(explored: set<Tile>, recentlyExplored: set<Tile>, square: Option<Square>,
                      center: Tile, radius: int, view: Square): Categories
  {
    var recent := InRange(recentlyExplored, center, radius);
    var exploredInRange := ExploredInRange(explored, recentlyExplored, center, radius);
    var squareTiles := exploredInRange * SquareTiles(square);
    var withNeighbours := set t | t in exploredInRange - squareTiles && IsSurrounded(t, explored);
    var other := exploredInRange - squareTiles - recent - withNeighbours;
    var unexplored := view.Footprint() - exploredInRange - recent;
    Categories(squareTiles, withNeighbours, other, unexplored, recent)
  }

  /** The square, surrounded and other tiles are pairwise disjoint and make up
      the explored tiles in range, which exclude the recent ones; the
      unexplored tiles are disjoint from both groups. */
  lemma CategoriesPartition(explored: set<Tile>, recentlyExplored: set<Tile>, square: Option<Square>,
                            center: Tile, radius: int, view: Square)
    ensures var c := Categorize(explored, recentlyExplored, square, center, radius, view);
      var e := ExploredInRange(explored, recentlyExplored, center, radius);
      && c.square !! c.withNeighbours && c.square !! c.other && c.withNeighbours !! c.other
      && c.square + c.withNeighbours + c.other == e
      && e !! c.recent
      && c.unexplored !! e && c.unexplored !! c.recent
  {
  }

  /** Which category a tile falls in, in terms of the inputs of the update. */
  lemma CategoryMembership(explored: set<Tile>, recentlyExplored: set<Tile>, square: Option<Square>,
                           center: Tile, radius: int, view: Square, t: Tile)
    ensures var c := Categorize(explored, recentlyExplored, square, center, radius, view);
      var inRange := InLoadRange(center, radius, t);
      var exploredHere := t in explored && inRange && t !in recentlyExplored;
      var inSquare := square.Some? && square.value.IsInside(t);
      && (t in c.recent <==> t in recentlyExplored && inRange)
      && (t in c.square <==> exploredHere && inSquare)
      && (t in c.withNeighbours <==> exploredHere && !inSquare && IsSurrounded(t, explored))
      && (t in c.other <==> exploredHere && !inSquare && !IsSurrounded(t, explored))
      && (t in c.unexplored <==>
            view.IsInside(t) && !exploredHere && !(t in recentlyExplored && inRange))
  {
    FootprintSpec(view);
    if square.Some? {
      FootprintSpec(square.value);
    }
  }

  /** With the centred view square, every tile of the load range falls in
      exactly one of the five categories. */
  lemma CategoriesCoverLoadRange(explored: set<Tile>, recentlyExplored: set<Tile>, square: Option<Square>,
                                 center: Tile, radius: int, t: Tile)
    requires InLoadRange(center, radius, t)
    ensures var c := Categorize(explored, recentlyExplored, square, center, radius, CenteredViewSquare(center, radius));
      (if t in c.square then 1 else 0) + (if t in c.withNeighbours then 1 else 0) +
      (if t in c.other then 1 else 0) + (if t in c.unexplored then 1 else 0) +
      (if t in c.recent then 1 else 0) == 1
  {
    CategoryMembership(explored, recentlyExplored, square, center, radius, CenteredViewSquare(center, radius), t);
  }

  /** With the view square as written, an unexplored tile of the last column
      of the load range, level with the centre, falls in no category: it is
      in range, but neither explored nor inside the view square. */
  lemma EdgeTileUncategorised(explored: set<Tile>, recentlyExplored: set<Tile>, square: Option<Square>,
                              center: Tile, radius: int)
    requires radius >= 0
    requires Tile(center.x + radius, center.y) !in explored
    requires Tile(center.x + radius, center.y) !in recentlyExplored
    ensures var t := Tile(center.x + radius, center.y);
      var c := Categorize(explored, recentlyExplored, square, center, radius, ViewSquare(center, radius));
      InLoadRange(center, radius, t) &&
      t !in c.square && t !in c.withNeighbours && t !in c.other && t !in c.unexplored && t !in c.recent
  {
    var t := Tile(center.x + radius, center.y);
    CategoryMembership(explored, recentlyExplored, square, center, radius, ViewSquare(center, radius), t);
  }

  // ---------------------------------------------------------------------
  // Stored biggest square

  /** The stored square: none when any of x, y or size is 0 (the value a
      stored "no square" has), the square otherwise. */
  function DecodeSquare(x: int, y: int, size: int): (r: Option<Square>)
    ensures r.Some? <==> x != 0 && y != 0 && size != 0
    ensures r.Some? ==> r.value == Square(x, y, size)
  {
    if x != 0 && y != 0 && size != 0 then Some(Square(x, y, size)) else None
  }

  /** How a square is stored: its fields, or 0 for each when there is none. */
  function EncodeSquare(s: Option<Square>): (int, int, int)
  {
    if s.Some? then (s.value.x, s.value.y, s.value.size) else (0, 0, 0)
  }

  /** A stored square reads back as itself exactly when it is none or has
      no zero field: a square at x = 0 or y = 0 reads back as none. */
  lemma DecodeEncode(s: Option<Square>)
    ensures var e := EncodeSquare(s);
      DecodeSquare(e.0, e.1, e.2) == s <==>
      s.None? || (s.value.x != 0 && s.value.y != 0 && s.value.size != 0)
  {
  }

  // ---------------------------------------------------------------------
  // Activity tracks clipped to the view square

  /** A decoded track point, in degrees. */
  datatype Coords = Coords(lat: real, lon: real)

  /** `viewSquare.isInside(lat, lon)`, with the projection to tiles given. */
  predicate Inside(view: Square, coordsToTile: (real, real) -> Tile, p: Coords)
  {
    view.IsInside(coordsToTile(p.lat, p.lon))
  }

  /** The stretches of a track between its outside points, empty ones
      included: k outside points cut the track into k + 1 pieces. */
  function Pieces(points: seq<Coords>, view: Square, coordsToTile: (real, real) -> Tile): (r: seq<seq<Coords>>)
    ensures |r| >= 1
  {
    if points == [] then [[]]
    else
      var pieces := Pieces(points[..|points| - 1], view, coordsToTile);
      var p := points[|points| - 1];
      if Inside(view, coordsToTile, p) then pieces[..|pieces| - 1] + [pieces[|pieces| - 1] + [p]]
      else pieces + [[]]
  }

  /** The non-empty lists of a list of lists, in order. */
  function NonEmpty<T>(xs: seq<seq<T>>): (r: seq<seq<T>>)
    ensures forall i :: 0 <= i < |r| ==> r[i] != []
  {
    if xs == [] then []
    else NonEmpty(xs[..|xs| - 1]) + (if xs[|xs| - 1] == [] then [] else [xs[|xs| - 1]])
  }

  /** The maximal runs of consecutive inside points of a track. */
  function Runs(points: seq<Coords>, view: Square, coordsToTile: (real, real) -> Tile): seq<seq<Coords>>
  {
    NonEmpty(Pieces(points, view, coordsToTile))
  }

  function InsidePoints(points: seq<Coords>, view: Square, coordsToTile: (real, real) -> Tile): seq<Coords>
  {
    if points == [] then []
    else
      var p := points[|points| - 1];
      InsidePoints(points[..|points| - 1], view, coordsToTile) + (if Inside(view, coordsToTile, p) then [p] else [])
  }

  function OutsidePoints(points: seq<Coords>, view: Square, coordsToTile: (real, real) -> Tile): seq<Coords>
  {
    if points == [] then []
    else
      var p := points[|points| - 1];
      OutsidePoints(points[..|points| - 1], view, coordsToTile) + (if Inside(view, coordsToTile, p) then [] else [p])
  }

  /** The pieces put back together with one separator between each two. */
  function Rebuild<T>(pieces: seq<seq<T>>, seps: seq<T>): seq<T>
    requires |pieces| == |seps| + 1
  {
    if seps == [] then pieces[0]
    else Rebuild(pieces[..|pieces| - 1], seps[..|seps| - 1]) + [seps[|seps| - 1]] + pieces[|pieces| - 1]
  }

  lemma RebuildExtend<T>(pieces: seq<seq<T>>, seps: seq<T>, q: seq<T>)
    requires |pieces| == |seps| + 1
    ensures var n := |pieces|;
      Rebuild(pieces[..n - 1] + [pieces[n - 1] + q], seps) == Rebuild(pieces, seps) + q
  {
    var n := |pieces|;
    var pieces' := pieces[..n - 1] + [pieces[n - 1] + q];
    if seps != [] {
      assert pieces'[..n - 1] == pieces[..n - 1];
    }
  }

  /** The pieces are made of inside points only, and putting them back
      together with the outside points between them gives the track: so the
      runs are maximal, each bounded by outside points or the track's ends. */
  lemma {:induction false} PiecesRebuild(points: seq<Coords>, view: Square, coordsToTile: (real, real) -> Tile)
    ensures PiecesFit(points, view, coordsToTile)
  {
    if points != [] {
      var init := points[..|points| - 1];
      PiecesRebuild(init, view, coordsToTile);
      if Inside(view, coordsToTile, points[|points| - 1]) {
        PiecesFitInside(points, view, coordsToTile);
      } else {
        PiecesFitOutside(points, view, coordsToTile);
      }
    }
  }

  /** What `PiecesRebuild` states about a track. */
  predicate PiecesFit(points: seq<Coords>, view: Square, coordsToTile: (real, real) -> Tile)
  {
    var pieces := Pieces(points, view, coordsToTile);
    var seps := OutsidePoints(points, view, coordsToTile);
    && |pieces| == |seps| + 1
    && Rebuild(pieces, seps) == points
    && (forall i, j :: 0 <= i < |pieces| && 0 <= j < |pieces[i]| ==> Inside(view, coordsToTile, pieces[i][j]))
    && (forall j :: 0 <= j < |seps| ==> !Inside(view, coordsToTile, seps[j]))
  }

  lemma PiecesFitInside(points: seq<Coords>, view: Square, coordsToTile: (real, real) -> Tile)
    requires points != [] && Inside(view, coordsToTile, points[|points| - 1])
    requires PiecesFit(points[..|points| - 1], view, coordsToTile)
    ensures PiecesFit(points, view, coordsToTile)
  {
    var init := points[..|points| - 1];
    var p := points[|points| - 1];
    var pieces := Pieces(init, view, coordsToTile);
    var seps := OutsidePoints(init, view, coordsToTile);
    assert init + [p] == points;
    var n := |pieces|;
    var pieces' := pieces[..n - 1] + [pieces[n - 1] + [p]];
    assert Pieces(points, view, coordsToTile) == pieces';
    assert OutsidePoints(points, view, coordsToTile) == seps;
    RebuildExtend(pieces, seps, [p]);
    forall i, j | 0 <= i < |pieces'| && 0 <= j < |pieces'[i]| ensures Inside(view, coordsToTile, pieces'[i][j]) {
      if i < n - 1 {
        assert pieces'[i] == pieces[i];
      } else if j < |pieces[n - 1]| {
        assert pieces'[i][j] == pieces[n - 1][j];
      }
    }
  }

  lemma PiecesFitOutside(points: seq<Coords>, view: Square, coordsToTile: (real, real) -> Tile)
    requires points != [] && !Inside(view, coordsToTile, points[|points| - 1])
    requires PiecesFit(points[..|points| - 1], view, coordsToTile)
    ensures PiecesFit(points, view, coordsToTile)
  {
    var init := points[..|points| - 1];
    var p := points[|points| - 1];
    var pieces := Pieces(init, view, coordsToTile);
    var seps := OutsidePoints(init, view, coordsToTile);
    assert init + [p] == points;
    var pieces' := pieces + [[]];
    var seps' := seps + [p];
    assert pieces'[..|pieces'| - 1] == pieces;
    assert seps'[..|seps'| - 1] == seps;
  }

  lemma {:induction false} FlattenNonEmpty<T>(xs: seq<seq<T>>)
    ensures Flatten(NonEmpty(xs)) == Flatten(xs)
  {
    if xs != [] {
      var init, last := xs[..|xs| - 1], xs[|xs| - 1];
      FlattenNonEmpty(init);
      assert Flatten(xs) == Flatten(init) + last;
      if last != [] {
        assert NonEmpty(xs) == NonEmpty(init) + [last];
        FlattenAppend(NonEmpty(init), last);
      } else {
        assert NonEmpty(xs) == NonEmpty(init);
        assert Flatten(init) + last == Flatten(init);
      }
    }
  }

  lemma {:induction false} FlattenPieces(points: seq<Coords>, view: Square, coordsToTile: (real, real) -> Tile)
    ensures Flatten(Pieces(points, view, coordsToTile)) == InsidePoints(points, view, coordsToTile)
  {
    if points != [] {
      var init := points[..|points| - 1];
      var p := points[|points| - 1];
      FlattenPieces(init, view, coordsToTile);
      var pieces := Pieces(init, view, coordsToTile);
      var n := |pieces|;
      if Inside(view, coordsToTile, p) {
        assert pieces[..n - 1] + [pieces[n - 1]] == pieces;
        FlattenAppend(pieces[..n - 1], pieces[n - 1]);
        FlattenAppend(pieces[..n - 1], pieces[n - 1] + [p]);
      } else {
        FlattenAppend(pieces, []);
      }
    }
  }

  /** Concatenating the runs gives the inside points in their original
      order. */
  lemma RunsAreInsidePoints(points: seq<Coords>, view: Square, coordsToTile: (real, real) -> Tile)
    ensures Flatten(Runs(points, view, coordsToTile)) == InsidePoints(points, view, coordsToTile)
  {
    FlattenNonEmpty(Pieces(points, view, coordsToTile));
    FlattenPieces(points, view, coordsToTile);
  }

  /** The splitting loop for one activity: inside points are appended to the
      current run, an outside point closes a non-empty current run, and a
      non-empty run left at the end is closed too. The result is `Runs`. */
  method SplitRuns(points: seq<Coords>, view: Square, coordsToTile: (real, real) -> Tile)
    returns (segments: seq<seq<Coords>>)
    ensures segments == Runs(points, view, coordsToTile)
  {
    segments := [];
    var currentSegment: seq<Coords> := [];
    for i := 0 to |points|
      invariant var pieces := Pieces(points[..i], view, coordsToTile);
        segments == NonEmpty(pieces[..|pieces| - 1]) && currentSegment == pieces[|pieces| - 1]
    {
      ghost var pieces := Pieces(points[..i], view, coordsToTile);
      assert points[..i + 1][..i] == points[..i];
      var coords := points[i];
      if Inside(view, coordsToTile, coords) {
        currentSegment := currentSegment + [coords];
        assert (pieces[..|pieces| - 1] + [currentSegment])[..|pieces| - 1] == pieces[..|pieces| - 1];
      } else {
        assert (pieces + [[]])[..|pieces|] == pieces;
        assert pieces[..|pieces| - 1] + [pieces[|pieces| - 1]] == pieces;
        if currentSegment != [] {
          segments := segments + [currentSegment];
          currentSegment := [];
        }
      }
    }
    assert points[..|points|] == points;
    ghost var pieces := Pieces(points, view, coordsToTile);
    assert pieces[..|pieces| - 1] + [pieces[|pieces| - 1]] == pieces;
    if currentSegment != [] {
      segments := segments + [currentSegment];
    }
  }

  /** A past activity: its id and its decoded track. */
  datatype Activity = Activity(id: int, coordinates: seq<Coords>)

  /** The lines kept for a list of activities: for each activity with at
      least one run, its last run under its id, later activities overwriting
      earlier ones. */
  function LinesOf(activities: seq<Activity>, view: Square, coordsToTile: (real, real) -> Tile): map<int, seq<Coords>>
  {
    if activities == [] then map[]
    else
      var lines := LinesOf(activities[..|activities| - 1], view, coordsToTile);
      var a := activities[|activities| - 1];
      var runs := Runs(a.coordinates, view, coordsToTile);
      if runs == [] then lines else lines[a.id := runs[|runs| - 1]]
  }

  lemma LinesOfGrowsByOne(activities: seq<Activity>, view: Square, coordsToTile: (real, real) -> Tile)
    requires activities != []
    ensures |LinesOf(activities, view, coordsToTile)| <= |LinesOf(activities[..|activities| - 1], view, coordsToTile)| + 1
  {
    var lines := LinesOf(activities[..|activities| - 1], view, coordsToTile);
    var lines' := LinesOf(activities, view, coordsToTile);
    var id := activities[|activities| - 1].id;
    if lines' != lines {
      if id in lines {
        assert lines'.Keys == lines.Keys;
      } else {
        assert lines'.Keys == lines.Keys + {id};
      }
    }
  }

  /** The activity has at least one run inside the view square. */
  predicate HasRun(a: Activity, view: Square, coordsToTile: (real, real) -> Tile)
  {
    Runs(a.coordinates, view, coordsToTile) != []
  }

  function LastRun(a: Activity, view: Square, coordsToTile: (real, real) -> Tile): seq<Coords>
    requires HasRun(a, view, coordsToTile)
  {
    var runs := Runs(a.coordinates, view, coordsToTile);
    runs[|runs| - 1]
  }

  /** An id has a line exactly when some activity with that id has a run. */
  lemma {:induction false} LinesOfKeys(activities: seq<Activity>, view: Square, coordsToTile: (real, real) -> Tile, id: int)
    ensures id in LinesOf(activities, view, coordsToTile) <==>
      exists k :: 0 <= k < |activities| && activities[k].id == id && HasRun(activities[k], view, coordsToTile)
  {
    if activities != [] {
      var n := |activities|;
      var init := activities[..n - 1];
      LinesOfKeys(init, view, coordsToTile, id);
      if id in LinesOf(init, view, coordsToTile) {
        var k :| 0 <= k < n - 1 && init[k].id == id && HasRun(init[k], view, coordsToTile);
        assert activities[k] == init[k];
      }
      if exists k :: 0 <= k < n && activities[k].id == id && HasRun(activities[k], view, coordsToTile) {
        var k :| 0 <= k < n && activities[k].id == id && HasRun(activities[k], view, coordsToTile);
        if k < n - 1 {
          assert init[k] == activities[k];
        }
      }
    }
  }

  /** Activity k is the last one with id `id` that has a run. */
  predicate LastWithRun(activities: seq<Activity>, view: Square, coordsToTile: (real, real) -> Tile, id: int, k: int)
  {
    && 0 <= k < |activities| && activities[k].id == id && HasRun(activities[k], view, coordsToTile)
    && forall k' :: k < k' < |activities| && activities[k'].id == id ==> !HasRun(activities[k'], view, coordsToTile)
  }

  /** The line kept under an id is the last run of the last activity with
      that id that has a run. */
  lemma {:induction false} LinesOfLast(activities: seq<Activity>, view: Square, coordsToTile: (real, real) -> Tile, id: int)
    requires id in LinesOf(activities, view, coordsToTile)
    ensures exists k :: (LastWithRun(activities, view, coordsToTile, id, k) &&
      LinesOf(activities, view, coordsToTile)[id] == LastRun(activities[k], view, coordsToTile))
  {
    var n := |activities|;
    var init := activities[..n - 1];
    var a := activities[n - 1];
    if a.id == id && HasRun(a, view, coordsToTile) {
      assert LastWithRun(activities, view, coordsToTile, id, n - 1);
    } else {
      assert LinesOf(activities, view, coordsToTile)[id] == LinesOf(init, view, coordsToTile)[id];
      LinesOfLast(init, view, coordsToTile, id);
      var k :| LastWithRun(init, view, coordsToTile, id, k) &&
        LinesOf(init, view, coordsToTile)[id] == LastRun(init[k], view, coordsToTile);
      assert activities[k] == init[k];
      forall k' | k < k' < n && activities[k'].id == id ensures !HasRun(activities[k'], view, coordsToTile) {
        if k' < n - 1 {
          assert activities[k'] == init[k'];
        }
      }
      assert LastWithRun(activities, view, coordsToTile, id, k);
    }
  }

  /** One more activity: its runs are stored, and the count of lines grows
      by at most one. */
  lemma LinesOfStep(activities: seq<Activity>, i: int, view: Square, coordsToTile: (real, real) -> Tile)
    requires 0 <= i < |activities|
    ensures var runs := Runs(activities[i].coordinates, view, coordsToTile);
      var lines := LinesOf(activities[..i], view, coordsToTile);
      LinesOf(activities[..i + 1], view, coordsToTile) ==
        if runs == [] then lines else lines[activities[i].id := runs[|runs| - 1]]
    ensures |LinesOf(activities[..i + 1], view, coordsToTile)| <= |LinesOf(activities[..i], view, coordsToTile)| + 1
  {
    assert activities[..i + 1][..i] == activities[..i];
    LinesOfGrowsByOne(activities[..i + 1], view, coordsToTile);
  }

  /** `segments.forEach { linesInViewSquare[id] = it }`: each run in turn is
      stored under the id, so the last one stays. */
  method StoreRuns(lines: map<int, seq<Coords>>, id: int, segments: seq<seq<Coords>>)
    returns (lines': map<int, seq<Coords>>)
    ensures segments == [] ==> lines' == lines
    ensures segments != [] ==> lines' == lines[id := segments[|segments| - 1]]
  {
    lines' := lines;
    for j := 0 to |segments|
      invariant lines' == if j == 0 then lines else lines[id := segments[j - 1]]
    {
      lines' := lines'[id := segments[j]];
    }
  }

  /** The activity loop: each activity's runs are stored one after the other
      under its id, so the last run stays, and the loop stops as soon as more
      than 50 lines are held. `n` is the number of activities processed: all
      of them, or the first n when the n-th took the count over 50. */
  method CollectLines(activities: seq<Activity>, view: Square, coordsToTile: (real, real) -> Tile)
    returns (lines: map<int, seq<Coords>>, ghost n: nat)
    ensures n <= |activities| && lines == LinesOf(activities[..n], view, coordsToTile)
    ensures n < |activities| ==> |lines| > 50
    ensures forall k :: 0 <= k < n ==> |LinesOf(activities[..k], view, coordsToTile)| <= 50
    ensures |lines| <= 51
  {
    lines := map[];
    var i := 0;
    while i < |activities|
      invariant 0 <= i <= |activities|
      invariant lines == LinesOf(activities[..i], view, coordsToTile)
      invariant forall k :: 0 <= k <= i ==> |LinesOf(activities[..k], view, coordsToTile)| <= 50
    {
      var activity := activities[i];
      var segments := SplitRuns(activity.coordinates, view, coordsToTile);
      lines := StoreRuns(lines, activity.id, segments);
      LinesOfStep(activities, i, view, coordsToTile);
      i := i + 1;
      if |lines| > 50 {
        n := i;
        return;
      }
    }
    n := i;
    assert activities[..i] == activities;
  }
}
