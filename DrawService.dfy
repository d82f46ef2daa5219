/** The cluster draw service: the draw commands of one update, built from
    the tile categories and the activity lines, and the diff against the
    previously drawn commands kept in `lastDrawnPolylines`. */
module DrawService {
  import opened Tiles
  import opened Squares
  import opened Clusters
  import opened Clustering
  import opened GridLines
  import opened Chaining
  import opened ClusterDraw

  // ---------------------------------------------------------------------
  // Draw commands

  /** The five tile layers, each with its own colour and id prefix. */
  datatype Layer = SquareCluster | ClusteredExplored | ClusteredUnexplored | ClusteredRecent | ClusteredExploredNeighbours

  datatype Colour = Blue | Red | Gray | Lime | Green | FadedGray

  function LayerColour(layer: Layer): Colour
  {
    match layer
    case SquareCluster => Blue
    case ClusteredExplored => Red
    case ClusteredUnexplored => Gray
    case ClusteredRecent => Lime
    case ClusteredExploredNeighbours => Green
  }

  /** The line a command draws, before polyline encoding. */
  datatype Line = Lattice(points: seq<Point>) | Track(coords: seq<Coords>)

  /** Command ids. An outline or grid id is its layer's prefix and a hash of
      the line, here the line itself; an activity id is the activity's id and
      the view square's size. */
  datatype PolylineId =
    | OutlineId(layer: Layer, line: seq<Point>)
    | GridId(layer: Layer, line: seq<Point>)
    | ActivityId(activity: int, viewSize: int)

  /** `ShowPolyline`: compared by id, line, colour and width. */
  datatype ShowPolyline = ShowPolyline(id: PolylineId, line: Line, color: Colour, width: int)

  function OutlineCommand(layer: Layer, line: seq<Point>): ShowPolyline
  {
    ShowPolyline(OutlineId(layer, line), Lattice(line), LayerColour(layer), 10)
  }

  function GridCommand(layer: Layer, line: seq<Point>): ShowPolyline
  {
    ShowPolyline(GridId(layer, line), Lattice(line), LayerColour(layer), 5)
  }

  function ActivityCommand(activity: int, viewSize: int, line: seq<Coords>): ShowPolyline
  {
    ShowPolyline(ActivityId(activity, viewSize), Track(line), FadedGray, 4)
  }

  /** A command is an outline, grid or activity command built from its id,
      an activity command drawing the line kept for its activity. */
  predicate WellFormedCommand(p: ShowPolyline, lines: map<int, seq<Coords>>, viewSize: int)
  {
    match p.id
    case OutlineId(layer, line) => p == OutlineCommand(layer, line)
    case GridId(layer, line) => p == GridCommand(layer, line)
    case ActivityId(activity, size) =>
      activity in lines && p == ActivityCommand(activity, viewSize, lines[activity])
  }

  /** No two commands of the set share an id. */
  predicate UniqueIds(s: set<ShowPolyline>)
  {
    forall p, q :: p in s && q in s && p.id == q.id ==> p == q
  }

  lemma WellFormedUnique(s: set<ShowPolyline>, lines: map<int, seq<Coords>>, viewSize: int)
    requires forall p :: p in s ==> WellFormedCommand(p, lines, viewSize)
    ensures UniqueIds(s)
  {
    forall p, q | p in s && q in s && p.id == q.id ensures p == q {
      assert WellFormedCommand(p, lines, viewSize) && WellFormedCommand(q, lines, viewSize);
    }
  }

  /** Every command of the set is an outline command of the layer. */
  predicate OutlinesOf(s: set<ShowPolyline>, layer: Layer)
  {
    forall p :: p in s ==> p.id.OutlineId? && p == OutlineCommand(layer, p.id.line)
  }

  /** Every command of the set is a grid command of the layer. */
  predicate GridOf(s: set<ShowPolyline>, layer: Layer)
  {
    forall p :: p in s ==> p.id.GridId? && p == GridCommand(layer, p.id.line)
  }

  /** The layers that have outline commands in the set. */
  ghost function OutlineLayers(s: set<ShowPolyline>): set<Layer>
  {
    set p | p in s && p.id.OutlineId? :: p.id.layer
  }

  /** The layers that have grid commands in the set. */
  ghost function GridLayers(s: set<ShowPolyline>): set<Layer>
  {
    set p | p in s && p.id.GridId? :: p.id.layer
  }

  /** The layer of a command set that is empty or drawn for one layer. */
  ghost function LayerIf(s: set<ShowPolyline>, layer: Layer): set<Layer>
  {
    if s == {} then {} else {layer}
  }

  lemma LayersOfUnion(a: set<ShowPolyline>, b: set<ShowPolyline>)
    ensures OutlineLayers(a + b) == OutlineLayers(a) + OutlineLayers(b)
    ensures GridLayers(a + b) == GridLayers(a) + GridLayers(b)
  {
  }

  lemma LayersOfOutlines(s: set<ShowPolyline>, layer: Layer)
    requires OutlinesOf(s, layer)
    ensures OutlineLayers(s) == LayerIf(s, layer)
    ensures GridLayers(s) == {}
  {
    if s != {} {
      var p :| p in s;
      assert p.id.layer in OutlineLayers(s);
    }
  }

  lemma LayersOfGrid(s: set<ShowPolyline>, layer: Layer)
    requires GridOf(s, layer)
    ensures GridLayers(s) == LayerIf(s, layer)
    ensures OutlineLayers(s) == {}
  {
    if s != {} {
      var p :| p in s;
      assert p.id.layer in GridLayers(s);
    }
  }

  /** The outline commands of a layer drawing the given lines. */
  function OutlineCommands(layer: Layer, lines: set<seq<Point>>): set<ShowPolyline>
  {
    set l | l in lines :: OutlineCommand(layer, l)
  }

  /** The grid commands of a layer drawing the given lines. */
  function GridCommands(layer: Layer, lines: set<seq<Point>>): set<ShowPolyline>
  {
    set l | l in lines :: GridCommand(layer, l)
  }

  /** The lines of all the clusters of a layer, one list per cluster. */
  ghost function AllLines(perCluster: seq<seq<seq<Point>>>): set<seq<Point>>
  {
    set i, l | 0 <= i < |perCluster| && l in perCluster[i] :: l
  }

  lemma AllLinesAppend(perCluster: seq<seq<seq<Point>>>, lines: seq<seq<Point>>)
    ensures AllLines(perCluster + [lines]) == AllLines(perCluster) + (set l | l in lines)
  {
    var n := |perCluster|;
    forall l | l in AllLines(perCluster + [lines]) ensures l in AllLines(perCluster) || l in lines {
      var i :| 0 <= i <= n && l in (perCluster + [lines])[i];
      if i < n {
        assert l in perCluster[i];
      }
    }
    forall l | l in AllLines(perCluster) ensures l in AllLines(perCluster + [lines]) {
      var i :| 0 <= i < n && l in perCluster[i];
      assert (perCluster + [lines])[i] == perCluster[i];
    }
    forall l | l in lines ensures l in AllLines(perCluster + [lines]) {
      assert (perCluster + [lines])[n] == lines;
    }
  }

  /** The commands of one cluster (`getPolylineCommands`): its outline,
      `getPolyline(insetOffset)`, drawn at width 10 and its grid lines,
      `getGridPolylines()`, at width 5, both in the layer's colour. There
      are outlines iff it has tiles and grid lines iff two of its tiles are
      neighbours. */
  method ClusterCommands(cluster: Cluster, layer: Layer, inset: int)
    returns (outlines: set<ShowPolyline>, grid: set<ShowPolyline>,
             ghost polylines: seq<seq<Point>>, ghost gridLines: seq<seq<Point>>)
    ensures IsOutline(cluster.tiles, inset, Joined, polylines) && IsGrid(cluster.tiles, gridLines)
    ensures 0 <= inset && 2 * inset < Span ==> forall j :: 0 <= j < |polylines| ==> Closed(polylines[j])
    ensures outlines == OutlineCommands(layer, set l | l in polylines)
    ensures grid == GridCommands(layer, set l | l in gridLines)
    ensures OutlinesOf(outlines, layer) && GridOf(grid, layer)
    ensures forall p :: p in outlines ==> |p.id.line| >= 2
    ensures forall p :: p in grid ==> |p.id.line| == 2
    ensures outlines == {} <==> cluster.tiles == {}
    ensures grid == {} <==> NoNeighbours(cluster.tiles)
  {
    outlines, polylines := OutlineOfCluster(cluster, layer, inset);
    grid, gridLines := GridOfCluster(cluster, layer);
  }

  /** The outline half of `getPolylineCommands`. */
  method OutlineOfCluster(cluster: Cluster, layer: Layer, inset: int)
    returns (outlines: set<ShowPolyline>, ghost polylines: seq<seq<Point>>)
    ensures IsOutline(cluster.tiles, inset, Joined, polylines)
    ensures 0 <= inset && 2 * inset < Span ==> forall j :: 0 <= j < |polylines| ==> Closed(polylines[j])
    ensures outlines == OutlineCommands(layer, set l | l in polylines)
    ensures OutlinesOf(outlines, layer)
    ensures forall p :: p in outlines ==> |p.id.line| >= 2
    ensures outlines == {} <==> cluster.tiles == {}
  {
    var outline, segments, sides, used := cluster.GetPolyline(inset, Joined);
    assert ChainedOutline(cluster.tiles, inset, Joined, outline, segments, sides, used);
    polylines := outline;
    outlines := set line | line in outline :: OutlineCommand(layer, line);
    OutlineCommandsOfLines(layer, outline);
  }

  /** The grid half of `getPolylineCommands`. */
  method GridOfCluster(cluster: Cluster, layer: Layer)
    returns (grid: set<ShowPolyline>, ghost gridLines: seq<seq<Point>>)
    ensures IsGrid(cluster.tiles, gridLines)
    ensures grid == GridCommands(layer, set l | l in gridLines)
    ensures GridOf(grid, layer)
    ensures forall p :: p in grid ==> |p.id.line| == 2
    ensures grid == {} <==> NoNeighbours(cluster.tiles)
  {
    var lines, vertical, horizontal, mergedVertical, mergedHorizontal := cluster.GetGridPolylines();
    gridLines := lines;
    grid := GridCommands(layer, set line | line in lines);
    GridOfMerged(cluster.tiles, layer, lines, vertical, horizontal, mergedVertical, mergedHorizontal);
  }

  /** The grid commands of merged grid lines: grid lines of the tiles, two
      points each, in the layer, and none iff no two tiles are neighbours. */
  lemma GridOfMerged(tiles: set<Tile>, layer: Layer, lines: seq<seq<Point>>,
                     vertical: seq<GridSegment>, horizontal: seq<GridSegment>,
                     mergedVertical: seq<GridSegment>, mergedHorizontal: seq<GridSegment>)
    requires MergedGrid(tiles, lines, vertical, horizontal, mergedVertical, mergedHorizontal)
    requires lines == [] <==> forall a, b :: a in tiles && b in tiles ==> !IsNeighbour(a, b)
    ensures IsGrid(tiles, lines)
    ensures GridOf(GridCommands(layer, set l | l in lines), layer)
    ensures forall p :: p in GridCommands(layer, set l | l in lines) ==> |p.id.line| == 2
    ensures GridCommands(layer, set l | l in lines) == {} <==> NoNeighbours(tiles)
  {
    GridLinesOfMerged(tiles, lines, vertical, horizontal, mergedVertical, mergedHorizontal);
    GridCommandsOfLines(layer, lines);
  }

  /** The outline commands of a list of lines belong to the layer, draw
      those lines, and there are none iff there are no lines. */
  lemma OutlineCommandsOfLines(layer: Layer, lines: seq<seq<Point>>)
    ensures OutlinesOf(OutlineCommands(layer, set l | l in lines), layer)
    ensures forall p :: p in OutlineCommands(layer, set l | l in lines) ==> p.id.line in lines
    ensures OutlineCommands(layer, set l | l in lines) == {} <==> lines == []
  {
    if lines != [] {
      assert OutlineCommand(layer, lines[0]) in OutlineCommands(layer, set l | l in lines);
    }
  }

  /** The grid commands of a list of lines belong to the layer, draw
      those lines, and there are none iff there are no lines. */
  lemma GridCommandsOfLines(layer: Layer, lines: seq<seq<Point>>)
    ensures GridOf(GridCommands(layer, set l | l in lines), layer)
    ensures forall p :: p in GridCommands(layer, set l | l in lines) ==> p.id.line in lines
    ensures GridCommands(layer, set l | l in lines) == {} <==> lines == []
  {
    if lines != [] {
      assert GridCommand(layer, lines[0]) in GridCommands(layer, set l | l in lines);
    }
  }

  /** Grid lines built from merged segments are grid lines of the tiles,
      with two points each. */
  lemma GridLinesOfMerged(tiles: set<Tile>, gridLines: seq<seq<Point>>,
                          vertical: seq<GridSegment>, horizontal: seq<GridSegment>,
                          mergedVertical: seq<GridSegment>, mergedHorizontal: seq<GridSegment>)
    requires MergedGrid(tiles, gridLines, vertical, horizontal, mergedVertical, mergedHorizontal)
    ensures IsGrid(tiles, gridLines)
    ensures forall line :: line in gridLines ==> |line| == 2
  {
    forall line | line in gridLines ensures |line| == 2 {
      var k :| 0 <= k < |gridLines| && gridLines[k] == line;
      if k < |mergedVertical| {
        var m := mergedVertical[k];
        assert line == [Point(m.fixed, m.start), Point(m.fixed, m.end)];
      } else {
        var k' := k - |mergedVertical|;
        var m := mergedHorizontal[k'];
        assert gridLines[|mergedVertical| + k'] == line;
        assert line == [Point(m.start, m.fixed), Point(m.end, m.fixed)];
      }
    }
  }

  /** Cluster i of `parts` is drawn with the outline `outlinesPer[i]` and
      the grid lines `gridsPer[i]`. */
  ghost predicate DrawsEach(parts: seq<set<Tile>>, inset: int,
                            outlinesPer: seq<seq<seq<Point>>>, gridsPer: seq<seq<seq<Point>>>)
  {
    && |outlinesPer| == |parts| && |gridsPer| == |parts|
    && forall i :: 0 <= i < |parts| ==> IsOutline(parts[i], inset, Joined, outlinesPer[i]) && IsGrid(parts[i], gridsPer[i])
  }

  lemma DrawsEachAppend(parts: seq<set<Tile>>, inset: int,
                        outlinesPer: seq<seq<seq<Point>>>, gridsPer: seq<seq<seq<Point>>>,
                        tiles: set<Tile>, polylines: seq<seq<Point>>, gridLines: seq<seq<Point>>)
    requires DrawsEach(parts, inset, outlinesPer, gridsPer)
    requires IsOutline(tiles, inset, Joined, polylines) && IsGrid(tiles, gridLines)
    ensures DrawsEach(parts + [tiles], inset, outlinesPer + [polylines], gridsPer + [gridLines])
  {
    var n := |parts|;
    forall i | 0 <= i <= n
      ensures IsOutline((parts + [tiles])[i], inset, Joined, (outlinesPer + [polylines])[i])
      ensures IsGrid((parts + [tiles])[i], (gridsPer + [gridLines])[i])
    {
      if i < n {
        assert (parts + [tiles])[i] == parts[i];
        assert (outlinesPer + [polylines])[i] == outlinesPer[i];
        assert (gridsPer + [gridLines])[i] == gridsPer[i];
      }
    }
  }

  /** The commands of the clusters of one layer (`parts[i]` names the tiles
      of cluster i): the outline and grid lines of each cluster,
      `outlinesPer[i]` and `gridsPer[i]` for cluster i, as `CommandsOfParts`
      states. */
  method LayerCommands(clusters: seq<Cluster>, ghost parts: seq<set<Tile>>, layer: Layer, inset: int)
    returns (outlines: set<ShowPolyline>, grid: set<ShowPolyline>,
             ghost outlinesPer: seq<seq<seq<Point>>>, ghost gridsPer: seq<seq<seq<Point>>>)
    requires |parts| == |clusters| && forall i :: 0 <= i < |clusters| ==> clusters[i].tiles == parts[i]
    ensures CommandsOfParts(parts, layer, inset, outlines, grid, outlinesPer, gridsPer)
    decreases |clusters|
  {
    if clusters == [] {
      outlines, grid, outlinesPer, gridsPer := {}, {}, [], [];
      NoCommandsOfNoParts(parts, layer, inset);
    } else {
      var n := |clusters| - 1;
      outlines, grid, outlinesPer, gridsPer := LayerCommands(clusters[..n], parts[..n], layer, inset);
      TakeAll(parts);
      outlines, grid, outlinesPer, gridsPer :=
        AddClusterCommands(clusters[n], parts, n, layer, inset, outlines, grid, outlinesPer, gridsPer);
    }
  }

  lemma NoCommandsOfNoParts(parts: seq<set<Tile>>, layer: Layer, inset: int)
    requires parts == []
    ensures CommandsOfParts(parts, layer, inset, {}, {}, [], [])
  {
  }

  /** One iteration of `flatMap`: the commands of cluster i added to those
      of the clusters before it. */
  method AddClusterCommands(cluster: Cluster, ghost parts: seq<set<Tile>>, ghost i: int, layer: Layer, inset: int,
                            outlines: set<ShowPolyline>, grid: set<ShowPolyline>,
                            ghost outlinesPer: seq<seq<seq<Point>>>, ghost gridsPer: seq<seq<seq<Point>>>)
    returns (outlines': set<ShowPolyline>, grid': set<ShowPolyline>,
             ghost outlinesPer': seq<seq<seq<Point>>>, ghost gridsPer': seq<seq<seq<Point>>>)
    requires 0 <= i < |parts| && cluster.tiles == parts[i]
    requires CommandsOfParts(parts[..i], layer, inset, outlines, grid, outlinesPer, gridsPer)
    ensures CommandsOfParts(parts[..i + 1], layer, inset, outlines', grid', outlinesPer', gridsPer')
  {
    TakeOneMore(parts, i);
    var clusterOutlines, clusterGrid, polylines, gridLines := ClusterCommands(cluster, layer, inset);
    LayerStep(parts[..i], layer, inset, outlines, grid, outlinesPer, gridsPer,
              parts[i], clusterOutlines, clusterGrid, polylines, gridLines);
    outlines', grid' := outlines + clusterOutlines, grid + clusterGrid;
    outlinesPer', gridsPer' := outlinesPer + [polylines], gridsPer + [gridLines];
  }

  lemma TakeOneMore(parts: seq<set<Tile>>, i: int)
    requires 0 <= i < |parts|
    ensures parts[..i + 1] == parts[..i] + [parts[i]]
  {
  }

  lemma TakeAll(parts: seq<set<Tile>>)
    ensures parts[..|parts|] == parts
  {
  }

  /** The commands of the clusters `parts` of one layer: cluster i is drawn
      with the outline `outlinesPer[i]` and the grid lines `gridsPer[i]`,
      the outline commands are exactly those of the outlines' lines and the
      grid commands exactly those of the grid lines; there are outlines iff
      some cluster has tiles, grid lines iff some cluster has two
      neighbouring tiles. */
  ghost predicate CommandsOfParts(parts: seq<set<Tile>>, layer: Layer, inset: int,
                             outlines: set<ShowPolyline>, grid: set<ShowPolyline>,
                             outlinesPer: seq<seq<seq<Point>>>, gridsPer: seq<seq<seq<Point>>>)
  {
    && DrawsEach(parts, inset, outlinesPer, gridsPer)
    && outlines == OutlineCommands(layer, AllLines(outlinesPer))
    && grid == GridCommands(layer, AllLines(gridsPer))
    && OutlinesOf(outlines, layer) && GridOf(grid, layer)
    && (outlines == {} <==> AllEmpty(parts))
    && (grid == {} <==> AllApart(parts))
  }

  /** Every cluster of `parts` is empty. */
  ghost predicate AllEmpty(parts: seq<set<Tile>>)
  {
    forall k :: 0 <= k < |parts| ==> parts[k] == {}
  }

  /** No cluster of `parts` has two neighbouring tiles. */
  ghost predicate AllApart(parts: seq<set<Tile>>)
  {
    forall k :: 0 <= k < |parts| ==> NoNeighbours(parts[k])
  }

  lemma AllAppend(parts: seq<set<Tile>>, tiles: set<Tile>)
    ensures AllEmpty(parts + [tiles]) <==> AllEmpty(parts) && tiles == {}
    ensures AllApart(parts + [tiles]) <==> AllApart(parts) && NoNeighbours(tiles)
  {
    var parts' := parts + [tiles];
    assert forall k :: 0 <= k < |parts| ==> parts'[k] == parts[k];
    assert parts'[|parts|] == tiles;
  }

  /** The commands of the lines of one more cluster are added to those of
      the clusters before it. */
  lemma CommandsAppend(layer: Layer, outlinesPer: seq<seq<seq<Point>>>, polylines: seq<seq<Point>>,
                       gridsPer: seq<seq<seq<Point>>>, gridLines: seq<seq<Point>>)
    ensures OutlineCommands(layer, AllLines(outlinesPer + [polylines]))
         == OutlineCommands(layer, AllLines(outlinesPer)) + OutlineCommands(layer, set l | l in polylines)
    ensures GridCommands(layer, AllLines(gridsPer + [gridLines]))
         == GridCommands(layer, AllLines(gridsPer)) + GridCommands(layer, set l | l in gridLines)
  {
    AllLinesAppend(outlinesPer, polylines);
    AllLinesAppend(gridsPer, gridLines);
  }

  /** Adding the commands of one more cluster keeps `CommandsOfParts`. */
  lemma LayerStep(parts: seq<set<Tile>>, layer: Layer, inset: int,
                  outlines: set<ShowPolyline>, grid: set<ShowPolyline>,
                  outlinesPer: seq<seq<seq<Point>>>, gridsPer: seq<seq<seq<Point>>>,
                  tiles: set<Tile>, clusterOutlines: set<ShowPolyline>, clusterGrid: set<ShowPolyline>,
                  polylines: seq<seq<Point>>, gridLines: seq<seq<Point>>)
    requires CommandsOfParts(parts, layer, inset, outlines, grid, outlinesPer, gridsPer)
    requires IsOutline(tiles, inset, Joined, polylines) && IsGrid(tiles, gridLines)
    requires clusterOutlines == OutlineCommands(layer, set l | l in polylines)
    requires clusterGrid == GridCommands(layer, set l | l in gridLines)
    requires OutlinesOf(clusterOutlines, layer) && GridOf(clusterGrid, layer)
    requires clusterOutlines == {} <==> tiles == {}
    requires clusterGrid == {} <==> NoNeighbours(tiles)
    ensures CommandsOfParts(parts + [tiles], layer, inset, outlines + clusterOutlines, grid + clusterGrid,
                       outlinesPer + [polylines], gridsPer + [gridLines])
  {
    DrawsEachAppend(parts, inset, outlinesPer, gridsPer, tiles, polylines, gridLines);
    CommandsAppend(layer, outlinesPer, polylines, gridsPer, gridLines);
    AllAppend(parts, tiles);
  }

  /** What a layer draws: the clusters of its tiles (`parts`), and for
      cluster i an outline `outlines[i]` and grid lines `grids[i]`. */
  datatype LayerDrawing = LayerDrawing(parts: seq<set<Tile>>, outlines: seq<seq<seq<Point>>>,
                                       grids: seq<seq<seq<Point>>>)

  /** `d` splits `tiles` into its clusters and draws each with an outline
      and grid lines that `getPolyline` and `getGridPolylines` can return. */
  ghost predicate DrawsClusters(d: LayerDrawing, tiles: set<Tile>, inset: int)
  {
    IsClustering(d.parts, tiles) && DrawsEach(d.parts, inset, d.outlines, d.grids)
  }

  /** The commands of a category of tiles: its clusters (`clusterTiles`)
      drawn as one layer. The outline commands are exactly the outlines of
      the clusters and the grid commands exactly their grid lines; there are
      outlines iff the category has tiles and grid lines iff it has two
      neighbouring tiles. */
  method CategoryCommands(tiles: set<Tile>, layer: Layer, inset: int)
    returns (outlines: set<ShowPolyline>, grid: set<ShowPolyline>, ghost drawing: LayerDrawing)
    ensures DrawsClusters(drawing, tiles, inset)
    ensures outlines == OutlineCommands(layer, AllLines(drawing.outlines))
    ensures grid == GridCommands(layer, AllLines(drawing.grids))
    ensures OutlinesOf(outlines, layer) && GridOf(grid, layer)
    ensures outlines == {} <==> tiles == {}
    ensures grid == {} <==> NoNeighbours(tiles)
  {
    var clusters;
    ghost var parts, outlinesPer, gridsPer;
    clusters, parts := ClusterTiles(tiles);
    outlines, grid, outlinesPer, gridsPer := LayerCommands(clusters, parts, layer, inset);
    drawing := LayerDrawing(parts, outlinesPer, gridsPer);
    ClusteredCommands(parts, tiles, layer, inset, outlines, grid, outlinesPer, gridsPer);
  }

  /** Drawing the clusters of a set of tiles gives outlines iff the set has
      tiles and grid lines iff two of its tiles are neighbours. */
  lemma ClusteredCommands(parts: seq<set<Tile>>, tiles: set<Tile>, layer: Layer, inset: int,
                          outlines: set<ShowPolyline>, grid: set<ShowPolyline>,
                          outlinesPer: seq<seq<seq<Point>>>, gridsPer: seq<seq<seq<Point>>>)
    requires IsClustering(parts, tiles)
    requires CommandsOfParts(parts, layer, inset, outlines, grid, outlinesPer, gridsPer)
    ensures outlines == {} <==> tiles == {}
    ensures grid == {} <==> NoNeighbours(tiles)
  {
    NeighboursWithinClusters(parts, tiles);
    if parts != [] {
      PartInUnion(parts, 0);
    }
  }

  /** `clusterTiles(squareTiles).singleOrNull()`: a cluster exactly when the
      square tiles are non-empty and connected, holding all of them. */
  method SquareClusterOf(squareTiles: set<Tile>) returns (squareCluster: Option<Cluster>)
    ensures squareCluster.Some? <==> squareTiles != {} && Connected(squareTiles)
    ensures squareCluster.Some? ==> squareCluster.value.tiles == squareTiles
  {
    var clusters;
    ghost var parts;
    clusters, parts := ClusterTiles(squareTiles);
    SingleCluster(parts, squareTiles);
    if |clusters| == 1 {
      assert parts[..0] == [];
      assert Union(parts) == Union(parts[..0]) + parts[0];
      squareCluster := Some(clusters[0]);
    } else {
      squareCluster := None;
    }
  }

  /** The tiles the square layer draws: the square tiles when they form one
      cluster, none otherwise. */
  ghost function SquareDrawn(squareTiles: set<Tile>): set<Tile>
  {
    if squareTiles != {} && Connected(squareTiles) then squareTiles else {}
  }

  /** The square layer: the square tiles drawn as one cluster when they form
      one, nothing otherwise; outlines iff they form one cluster, grid lines
      iff moreover two of them are neighbours. */
  method SquareCommands(squareTiles: set<Tile>, inset: int)
    returns (outlines: set<ShowPolyline>, grid: set<ShowPolyline>, ghost drawing: LayerDrawing)
    ensures DrawsClusters(drawing, SquareDrawn(squareTiles), inset)
    ensures outlines == OutlineCommands(SquareCluster, AllLines(drawing.outlines))
    ensures grid == GridCommands(SquareCluster, AllLines(drawing.grids))
    ensures OutlinesOf(outlines, SquareCluster) && GridOf(grid, SquareCluster)
    ensures outlines != {} <==> squareTiles != {} && Connected(squareTiles)
    ensures grid != {} <==> squareTiles != {} && Connected(squareTiles) && !NoNeighbours(squareTiles)
  {
    var squareCluster := SquareClusterOf(squareTiles);
    var clusters := if squareCluster.Some? then [squareCluster.value] else [];
    ghost var parts := if squareCluster.Some? then [squareTiles] else [];
    ghost var outlinesPer, gridsPer;
    assert IsClustering(parts, SquareDrawn(squareTiles)) by {
      if squareCluster.Some? {
        assert parts[..0] == [];
        assert Union(parts) == Union(parts[..0]) + parts[0];
      }
    }
    outlines, grid, outlinesPer, gridsPer := LayerCommands(clusters, parts, SquareCluster, inset);
    drawing := LayerDrawing(parts, outlinesPer, gridsPer);
    ClusteredCommands(parts, SquareDrawn(squareTiles), SquareCluster, inset, outlines, grid, outlinesPer, gridsPer);
  }

  /** The activity commands: one per kept line, id from the activity id and
      the view square's size. */
  function ActivityCommands(lines: map<int, seq<Coords>>, viewSize: int): (r: set<ShowPolyline>)
    ensures forall id :: id in lines ==> ActivityCommand(id, viewSize, lines[id]) in r
    ensures forall p :: p in r ==> p.id.ActivityId? && WellFormedCommand(p, lines, viewSize)
  {
    set id | id in lines :: ActivityCommand(id, viewSize, lines[id])
  }

  lemma OutlinesWellFormed(s: set<ShowPolyline>, layer: Layer, lines: map<int, seq<Coords>>, viewSize: int)
    requires OutlinesOf(s, layer)
    ensures forall p :: p in s ==> WellFormedCommand(p, lines, viewSize)
  {
  }

  lemma GridWellFormed(s: set<ShowPolyline>, layer: Layer, lines: map<int, seq<Coords>>, viewSize: int)
    requires GridOf(s, layer)
    ensures forall p :: p in s ==> WellFormedCommand(p, lines, viewSize)
  {
  }

  /** The union a render draws is well formed and has distinct ids when
      each layer's outline and grid commands are. */
  lemma RenderCommandsWellFormed(showGridLines: bool, gridLines: set<ShowPolyline>,
                                 exploredOutlines: set<ShowPolyline>, squareOutlines: set<ShowPolyline>,
                                 unexploredOutlines: set<ShowPolyline>, recentOutlines: set<ShowPolyline>,
                                 neighboursOutlines: set<ShowPolyline>, activityPolylines: set<ShowPolyline>,
                                 exploredGrid: set<ShowPolyline>, unexploredGrid: set<ShowPolyline>,
                                 squareGrid: set<ShowPolyline>, recentGrid: set<ShowPolyline>,
                                 neighboursGrid: set<ShowPolyline>,
                                 lines: map<int, seq<Coords>>, viewSize: int)
    requires OutlinesOf(exploredOutlines, ClusteredExplored) && GridOf(exploredGrid, ClusteredExplored)
    requires OutlinesOf(squareOutlines, SquareCluster) && GridOf(squareGrid, SquareCluster)
    requires OutlinesOf(unexploredOutlines, ClusteredUnexplored) && GridOf(unexploredGrid, ClusteredUnexplored)
    requires OutlinesOf(recentOutlines, ClusteredRecent) && GridOf(recentGrid, ClusteredRecent)
    requires OutlinesOf(neighboursOutlines, ClusteredExploredNeighbours)
    requires GridOf(neighboursGrid, ClusteredExploredNeighbours)
    requires forall p :: p in activityPolylines ==> WellFormedCommand(p, lines, viewSize)
    requires gridLines == if showGridLines then
      exploredGrid + unexploredGrid + squareGrid + recentGrid + neighboursGrid else {}
    ensures var all := gridLines + exploredOutlines + squareOutlines + unexploredOutlines +
                       recentOutlines + neighboursOutlines + activityPolylines;
      (forall p :: p in all ==> WellFormedCommand(p, lines, viewSize)) && UniqueIds(all)
  {
    OutlinesWellFormed(exploredOutlines, ClusteredExplored, lines, viewSize);
    OutlinesWellFormed(squareOutlines, SquareCluster, lines, viewSize);
    OutlinesWellFormed(unexploredOutlines, ClusteredUnexplored, lines, viewSize);
    OutlinesWellFormed(recentOutlines, ClusteredRecent, lines, viewSize);
    OutlinesWellFormed(neighboursOutlines, ClusteredExploredNeighbours, lines, viewSize);
    GridWellFormed(exploredGrid, ClusteredExplored, lines, viewSize);
    GridWellFormed(squareGrid, SquareCluster, lines, viewSize);
    GridWellFormed(unexploredGrid, ClusteredUnexplored, lines, viewSize);
    GridWellFormed(recentGrid, ClusteredRecent, lines, viewSize);
    GridWellFormed(neighboursGrid, ClusteredExploredNeighbours, lines, viewSize);
    RenderWellFormed(gridLines, exploredOutlines, squareOutlines, unexploredOutlines,
                     recentOutlines, neighboursOutlines, activityPolylines, lines, viewSize);
  }

  lemma RenderWellFormed(gridLines: set<ShowPolyline>,
                         exploredOutlines: set<ShowPolyline>, squareOutlines: set<ShowPolyline>,
                         unexploredOutlines: set<ShowPolyline>, recentOutlines: set<ShowPolyline>,
                         neighboursOutlines: set<ShowPolyline>, activityPolylines: set<ShowPolyline>,
                         lines: map<int, seq<Coords>>, viewSize: int)
    requires forall p :: p in gridLines ==> WellFormedCommand(p, lines, viewSize)
    requires forall p :: p in exploredOutlines ==> WellFormedCommand(p, lines, viewSize)
    requires forall p :: p in squareOutlines ==> WellFormedCommand(p, lines, viewSize)
    requires forall p :: p in unexploredOutlines ==> WellFormedCommand(p, lines, viewSize)
    requires forall p :: p in recentOutlines ==> WellFormedCommand(p, lines, viewSize)
    requires forall p :: p in neighboursOutlines ==> WellFormedCommand(p, lines, viewSize)
    requires forall p :: p in activityPolylines ==> WellFormedCommand(p, lines, viewSize)
    ensures var all := gridLines + exploredOutlines + squareOutlines + unexploredOutlines +
                       recentOutlines + neighboursOutlines + activityPolylines;
      (forall p :: p in all ==> WellFormedCommand(p, lines, viewSize)) && UniqueIds(all)
  {
    var all := gridLines + exploredOutlines + squareOutlines + unexploredOutlines +
               recentOutlines + neighboursOutlines + activityPolylines;
    WellFormedUnique(all, lines, viewSize);
  }

  lemma LayersOfActivities(s: set<ShowPolyline>)
    requires forall p :: p in s ==> p.id.ActivityId?
    ensures OutlineLayers(s) == {} && GridLayers(s) == {}
  {
  }

  /** The command set of one enabled update. Every command is well formed
      and no two share an id; grid commands appear only when grid lines are
      shown, and then for a layer iff its tiles (for the square layer: one
      connected cluster) have two neighbours; every layer has outlines iff it
      has tiles (the square layer: iff its tiles form one cluster); every kept
      activity line is drawn. */
  method Render(c: Categories, inset: int, showGridLines: bool, lines: map<int, seq<Coords>>, viewSize: int)
    returns (polylines: set<ShowPolyline>, ghost drawings: LayerDrawings)
    ensures DrawsLayers(polylines, c, inset, showGridLines, drawings)
    ensures forall p :: p in polylines ==> WellFormedCommand(p, lines, viewSize)
    ensures UniqueIds(polylines)
    ensures forall id :: id in lines ==> ActivityCommand(id, viewSize, lines[id]) in polylines
    ensures OutlineLayers(polylines) == LayersWithOutlines(c)
    ensures GridLayers(polylines) == if showGridLines then LayersWithGrid(c) else {}
  {
    var squareOutlines, squareGrid, squareDrawing := SquareCommands(c.square, inset);
    var neighboursOutlines, neighboursGrid, neighboursDrawing :=
      CategoryCommands(c.withNeighbours, ClusteredExploredNeighbours, inset);
    var exploredOutlines, exploredGrid, exploredDrawing := CategoryCommands(c.other, ClusteredExplored, inset);
    var unexploredOutlines, unexploredGrid, unexploredDrawing :=
      CategoryCommands(c.unexplored, ClusteredUnexplored, inset);
    var recentOutlines, recentGrid, recentDrawing := CategoryCommands(c.recent, ClusteredRecent, inset);
    drawings := LayerDrawings(squareDrawing, exploredDrawing, unexploredDrawing, recentDrawing, neighboursDrawing);
    var activityPolylines := ActivityCommands(lines, viewSize);
    var gridLines := if showGridLines then
      exploredGrid + unexploredGrid + squareGrid + recentGrid + neighboursGrid
    else {};
    polylines := gridLines + exploredOutlines + squareOutlines +
      unexploredOutlines + recentOutlines + neighboursOutlines + activityPolylines;
    RenderCommandsWellFormed(showGridLines, gridLines, exploredOutlines, squareOutlines, unexploredOutlines,
                             recentOutlines, neighboursOutlines, activityPolylines,
                             exploredGrid, unexploredGrid, squareGrid, recentGrid, neighboursGrid, lines, viewSize);
    LayersOfActivities(activityPolylines);
    RenderLayers(c, showGridLines, gridLines, exploredOutlines, squareOutlines, unexploredOutlines,
                 recentOutlines, neighboursOutlines, activityPolylines,
                 exploredGrid, unexploredGrid, squareGrid, recentGrid, neighboursGrid);
    RenderDrawings(showGridLines,
                   squareDrawing, exploredDrawing, unexploredDrawing, recentDrawing, neighboursDrawing,
                   gridLines, exploredOutlines, squareOutlines, unexploredOutlines, recentOutlines,
                   neighboursOutlines, activityPolylines,
                   exploredGrid, unexploredGrid, squareGrid, recentGrid, neighboursGrid);
  }

  /** The tiles a layer draws: its category, and for the square layer the
      square tiles only when they form one cluster. */
  ghost function LayerTiles(c: Categories, layer: Layer): set<Tile>
  {
    match layer
    case SquareCluster => SquareDrawn(c.square)
    case ClusteredExplored => c.other
    case ClusteredUnexplored => c.unexplored
    case ClusteredRecent => c.recent
    case ClusteredExploredNeighbours => c.withNeighbours
  }

  /** A tile of the biggest square is drawn in some layer exactly when the
      square tiles in range form one cluster: the square category is
      disjoint from the other four, so a square split by the load range or
      by recent tiles is drawn in no layer at all. */
  lemma SquareTileDrawnIffConnected(explored: set<Tile>, recentlyExplored: set<Tile>, square: Option<Square>,
                                    center: Tile, radius: int, view: Square, t: Tile)
    requires t in Categorize(explored, recentlyExplored, square, center, radius, view).square
    ensures var c := Categorize(explored, recentlyExplored, square, center, radius, view);
      (exists layer :: t in LayerTiles(c, layer)) <==> Connected(c.square)
  {
    var c := Categorize(explored, recentlyExplored, square, center, radius, view);
    CategoriesPartition(explored, recentlyExplored, square, center, radius, view);
    if Connected(c.square) {
      assert t in LayerTiles(c, SquareCluster);
    }
  }

  /** The lines of a layer's outline commands in a command set. */
  ghost function OutlinesIn(s: set<ShowPolyline>, layer: Layer): set<seq<Point>>
  {
    set p | p in s && p.id.OutlineId? && p.id.layer == layer :: p.id.line
  }

  /** The lines of a layer's grid commands in a command set. */
  ghost function GridIn(s: set<ShowPolyline>, layer: Layer): set<seq<Point>>
  {
    set p | p in s && p.id.GridId? && p.id.layer == layer :: p.id.line
  }

  /** What a render draws, layer by layer. */
  datatype LayerDrawings = LayerDrawings(square: LayerDrawing, explored: LayerDrawing, unexplored: LayerDrawing,
                                         recent: LayerDrawing, neighbours: LayerDrawing)

  /** `polylines` draws in `layer` exactly the outlines of the clusters of
      `d`, and exactly their grid lines when grid lines are shown (none
      otherwise). */
  ghost predicate DrawsLines(polylines: set<ShowPolyline>, layer: Layer, showGridLines: bool, d: LayerDrawing)
  {
    && OutlinesIn(polylines, layer) == AllLines(d.outlines)
    && GridIn(polylines, layer) == (if showGridLines then AllLines(d.grids) else {})
  }

  /** `d` splits `tiles` into clusters with an outline and grid lines each,
      and `polylines` draws exactly those in `layer`. */
  ghost predicate DrawsLayer(polylines: set<ShowPolyline>, layer: Layer, tiles: set<Tile>, inset: int,
                             showGridLines: bool, d: LayerDrawing)
  {
    DrawsClusters(d, tiles, inset) && DrawsLines(polylines, layer, showGridLines, d)
  }

  /** Every layer draws its tiles as `drawings` says: the square layer the
      square tiles when they form one cluster, the others their category. */
  ghost predicate DrawsLayers(polylines: set<ShowPolyline>, c: Categories, inset: int, showGridLines: bool,
                              drawings: LayerDrawings)
  {
    && DrawsLayer(polylines, SquareCluster, SquareDrawn(c.square), inset, showGridLines, drawings.square)
    && DrawsLayer(polylines, ClusteredExplored, c.other, inset, showGridLines, drawings.explored)
    && DrawsLayer(polylines, ClusteredUnexplored, c.unexplored, inset, showGridLines, drawings.unexplored)
    && DrawsLayer(polylines, ClusteredRecent, c.recent, inset, showGridLines, drawings.recent)
    && DrawsLayer(polylines, ClusteredExploredNeighbours, c.withNeighbours, inset, showGridLines, drawings.neighbours)
  }

  /** One of five values, by layer. */
  ghost function PickLines(layer: Layer, square: set<seq<Point>>, explored: set<seq<Point>>,
                           unexplored: set<seq<Point>>, recent: set<seq<Point>>,
                           neighbours: set<seq<Point>>): set<seq<Point>>
  {
    match layer
    case SquareCluster => square
    case ClusteredExplored => explored
    case ClusteredUnexplored => unexplored
    case ClusteredRecent => recent
    case ClusteredExploredNeighbours => neighbours
  }

  lemma LinesOfUnion(a: set<ShowPolyline>, b: set<ShowPolyline>, layer: Layer)
    ensures OutlinesIn(a + b, layer) == OutlinesIn(a, layer) + OutlinesIn(b, layer)
    ensures GridIn(a + b, layer) == GridIn(a, layer) + GridIn(b, layer)
  {
  }

  lemma LinesOfOutlineCommands(drawn: Layer, lines: set<seq<Point>>, layer: Layer)
    ensures OutlinesIn(OutlineCommands(drawn, lines), layer) == if layer == drawn then lines else {}
    ensures GridIn(OutlineCommands(drawn, lines), layer) == {}
  {
    if layer == drawn {
      forall l | l in lines ensures l in OutlinesIn(OutlineCommands(drawn, lines), layer) {
        assert OutlineCommand(drawn, l) in OutlineCommands(drawn, lines);
      }
    }
  }

  lemma LinesOfGridCommands(drawn: Layer, lines: set<seq<Point>>, layer: Layer)
    ensures GridIn(GridCommands(drawn, lines), layer) == if layer == drawn then lines else {}
    ensures OutlinesIn(GridCommands(drawn, lines), layer) == {}
  {
    if layer == drawn {
      forall l | l in lines ensures l in GridIn(GridCommands(drawn, lines), layer) {
        assert GridCommand(drawn, l) in GridCommands(drawn, lines);
      }
    }
  }

  /** The grid commands of a render, layer by layer. */
  lemma RenderGridLines(layer: Layer, exploredGrid: set<ShowPolyline>, unexploredGrid: set<ShowPolyline>,
                        squareGrid: set<ShowPolyline>, recentGrid: set<ShowPolyline>,
                        neighboursGrid: set<ShowPolyline>,
                        square: set<seq<Point>>, explored: set<seq<Point>>, unexplored: set<seq<Point>>,
                        recent: set<seq<Point>>, neighbours: set<seq<Point>>)
    requires exploredGrid == GridCommands(ClusteredExplored, explored)
    requires unexploredGrid == GridCommands(ClusteredUnexplored, unexplored)
    requires squareGrid == GridCommands(SquareCluster, square)
    requires recentGrid == GridCommands(ClusteredRecent, recent)
    requires neighboursGrid == GridCommands(ClusteredExploredNeighbours, neighbours)
    ensures GridIn(exploredGrid + unexploredGrid + squareGrid + recentGrid + neighboursGrid, layer) ==
      PickLines(layer, square, explored, unexplored, recent, neighbours)
    ensures OutlinesIn(exploredGrid + unexploredGrid + squareGrid + recentGrid + neighboursGrid, layer) == {}
  {
    LinesOfGridCommands(ClusteredExplored, explored, layer);
    LinesOfGridCommands(ClusteredUnexplored, unexplored, layer);
    LinesOfGridCommands(SquareCluster, square, layer);
    LinesOfGridCommands(ClusteredRecent, recent, layer);
    LinesOfGridCommands(ClusteredExploredNeighbours, neighbours, layer);
    var g1 := exploredGrid + unexploredGrid;
    var g2 := g1 + squareGrid;
    var g3 := g2 + recentGrid;
    LinesOfUnion(exploredGrid, unexploredGrid, layer);
    LinesOfUnion(g1, squareGrid, layer);
    LinesOfUnion(g2, recentGrid, layer);
    LinesOfUnion(g3, neighboursGrid, layer);
    match layer
    case SquareCluster =>
    case ClusteredExplored =>
    case ClusteredUnexplored =>
    case ClusteredRecent =>
    case ClusteredExploredNeighbours =>
  }

  /** The outline commands of a render, layer by layer. */
  lemma RenderOutlineLines(layer: Layer, gridLines: set<ShowPolyline>,
                           exploredOutlines: set<ShowPolyline>, squareOutlines: set<ShowPolyline>,
                           unexploredOutlines: set<ShowPolyline>, recentOutlines: set<ShowPolyline>,
                           neighboursOutlines: set<ShowPolyline>, activityPolylines: set<ShowPolyline>,
                           square: set<seq<Point>>, explored: set<seq<Point>>, unexplored: set<seq<Point>>,
                           recent: set<seq<Point>>, neighbours: set<seq<Point>>)
    requires exploredOutlines == OutlineCommands(ClusteredExplored, explored)
    requires squareOutlines == OutlineCommands(SquareCluster, square)
    requires unexploredOutlines == OutlineCommands(ClusteredUnexplored, unexplored)
    requires recentOutlines == OutlineCommands(ClusteredRecent, recent)
    requires neighboursOutlines == OutlineCommands(ClusteredExploredNeighbours, neighbours)
    requires OutlinesIn(gridLines, layer) == {}
    requires forall p :: p in activityPolylines ==> p.id.ActivityId?
    ensures OutlinesIn(gridLines + exploredOutlines + squareOutlines + unexploredOutlines +
                       recentOutlines + neighboursOutlines + activityPolylines, layer) ==
      PickLines(layer, square, explored, unexplored, recent, neighbours)
    ensures GridIn(gridLines + exploredOutlines + squareOutlines + unexploredOutlines +
                   recentOutlines + neighboursOutlines + activityPolylines, layer) == GridIn(gridLines, layer)
  {
    var outlines := exploredOutlines + squareOutlines + unexploredOutlines + recentOutlines + neighboursOutlines;
    CategoryOutlineLines(layer, exploredOutlines, squareOutlines, unexploredOutlines, recentOutlines,
                         neighboursOutlines, square, explored, unexplored, recent, neighbours);
    assert OutlinesIn(activityPolylines, layer) == {} && GridIn(activityPolylines, layer) == {};
    assert gridLines + exploredOutlines + squareOutlines + unexploredOutlines +
           recentOutlines + neighboursOutlines + activityPolylines == gridLines + outlines + activityPolylines;
    LinesOfUnion(gridLines, outlines, layer);
    LinesOfUnion(gridLines + outlines, activityPolylines, layer);
  }

  /** The outline commands of the five categories, layer by layer. */
  lemma CategoryOutlineLines(layer: Layer, exploredOutlines: set<ShowPolyline>, squareOutlines: set<ShowPolyline>,
                             unexploredOutlines: set<ShowPolyline>, recentOutlines: set<ShowPolyline>,
                             neighboursOutlines: set<ShowPolyline>,
                             square: set<seq<Point>>, explored: set<seq<Point>>, unexplored: set<seq<Point>>,
                             recent: set<seq<Point>>, neighbours: set<seq<Point>>)
    requires exploredOutlines == OutlineCommands(ClusteredExplored, explored)
    requires squareOutlines == OutlineCommands(SquareCluster, square)
    requires unexploredOutlines == OutlineCommands(ClusteredUnexplored, unexplored)
    requires recentOutlines == OutlineCommands(ClusteredRecent, recent)
    requires neighboursOutlines == OutlineCommands(ClusteredExploredNeighbours, neighbours)
    ensures OutlinesIn(exploredOutlines + squareOutlines + unexploredOutlines + recentOutlines + neighboursOutlines,
                       layer) == PickLines(layer, square, explored, unexplored, recent, neighbours)
    ensures GridIn(exploredOutlines + squareOutlines + unexploredOutlines + recentOutlines + neighboursOutlines,
                   layer) == {}
  {
    LinesOfOutlineCommands(ClusteredExplored, explored, layer);
    LinesOfOutlineCommands(SquareCluster, square, layer);
    LinesOfOutlineCommands(ClusteredUnexplored, unexplored, layer);
    LinesOfOutlineCommands(ClusteredRecent, recent, layer);
    LinesOfOutlineCommands(ClusteredExploredNeighbours, neighbours, layer);
    var o1 := exploredOutlines + squareOutlines;
    var o2 := o1 + unexploredOutlines;
    var o3 := o2 + recentOutlines;
    LinesOfUnion(exploredOutlines, squareOutlines, layer);
    LinesOfUnion(o1, unexploredOutlines, layer);
    LinesOfUnion(o2, recentOutlines, layer);
    LinesOfUnion(o3, neighboursOutlines, layer);
    match layer
    case SquareCluster =>
    case ClusteredExplored =>
    case ClusteredUnexplored =>
    case ClusteredRecent =>
    case ClusteredExploredNeighbours =>
  }

  /** A render draws, layer by layer, exactly the outlines and grid lines of
      the clusters its category commands drew. */
  lemma RenderDrawings(showGridLines: bool,
                       square: LayerDrawing, explored: LayerDrawing, unexplored: LayerDrawing,
                       recent: LayerDrawing, neighbours: LayerDrawing,
                       gridLines: set<ShowPolyline>,
                       exploredOutlines: set<ShowPolyline>, squareOutlines: set<ShowPolyline>,
                       unexploredOutlines: set<ShowPolyline>, recentOutlines: set<ShowPolyline>,
                       neighboursOutlines: set<ShowPolyline>, activityPolylines: set<ShowPolyline>,
                       exploredGrid: set<ShowPolyline>, unexploredGrid: set<ShowPolyline>,
                       squareGrid: set<ShowPolyline>, recentGrid: set<ShowPolyline>,
                       neighboursGrid: set<ShowPolyline>)
    requires exploredOutlines == OutlineCommands(ClusteredExplored, AllLines(explored.outlines))
    requires squareOutlines == OutlineCommands(SquareCluster, AllLines(square.outlines))
    requires unexploredOutlines == OutlineCommands(ClusteredUnexplored, AllLines(unexplored.outlines))
    requires recentOutlines == OutlineCommands(ClusteredRecent, AllLines(recent.outlines))
    requires neighboursOutlines == OutlineCommands(ClusteredExploredNeighbours, AllLines(neighbours.outlines))
    requires exploredGrid == GridCommands(ClusteredExplored, AllLines(explored.grids))
    requires squareGrid == GridCommands(SquareCluster, AllLines(square.grids))
    requires unexploredGrid == GridCommands(ClusteredUnexplored, AllLines(unexplored.grids))
    requires recentGrid == GridCommands(ClusteredRecent, AllLines(recent.grids))
    requires neighboursGrid == GridCommands(ClusteredExploredNeighbours, AllLines(neighbours.grids))
    requires forall p :: p in activityPolylines ==> p.id.ActivityId?
    requires gridLines == if showGridLines then
      exploredGrid + unexploredGrid + squareGrid + recentGrid + neighboursGrid else {}
    ensures var all := gridLines + exploredOutlines + squareOutlines + unexploredOutlines +
                       recentOutlines + neighboursOutlines + activityPolylines;
      && DrawsLines(all, SquareCluster, showGridLines, square)
      && DrawsLines(all, ClusteredExplored, showGridLines, explored)
      && DrawsLines(all, ClusteredUnexplored, showGridLines, unexplored)
      && DrawsLines(all, ClusteredRecent, showGridLines, recent)
      && DrawsLines(all, ClusteredExploredNeighbours, showGridLines, neighbours)
  {
    var all := gridLines + exploredOutlines + squareOutlines + unexploredOutlines +
               recentOutlines + neighboursOutlines + activityPolylines;
    forall layer
      ensures OutlinesIn(all, layer) == PickLines(layer, AllLines(square.outlines), AllLines(explored.outlines),
                                                  AllLines(unexplored.outlines), AllLines(recent.outlines),
                                                  AllLines(neighbours.outlines))
      ensures GridIn(all, layer) == if showGridLines then
                PickLines(layer, AllLines(square.grids), AllLines(explored.grids), AllLines(unexplored.grids),
                          AllLines(recent.grids), AllLines(neighbours.grids))
              else {}
    {
      RenderGridLines(layer, exploredGrid, unexploredGrid, squareGrid, recentGrid, neighboursGrid,
                      AllLines(square.grids), AllLines(explored.grids), AllLines(unexplored.grids),
                      AllLines(recent.grids), AllLines(neighbours.grids));
      RenderOutlineLines(layer, gridLines, exploredOutlines, squareOutlines, unexploredOutlines,
                         recentOutlines, neighboursOutlines, activityPolylines,
                         AllLines(square.outlines), AllLines(explored.outlines), AllLines(unexplored.outlines),
                         AllLines(recent.outlines), AllLines(neighbours.outlines));
    }
    assert OutlinesIn(all, SquareCluster) == AllLines(square.outlines);
    assert OutlinesIn(all, ClusteredExplored) == AllLines(explored.outlines);
    assert OutlinesIn(all, ClusteredUnexplored) == AllLines(unexplored.outlines);
    assert OutlinesIn(all, ClusteredRecent) == AllLines(recent.outlines);
    assert OutlinesIn(all, ClusteredExploredNeighbours) == AllLines(neighbours.outlines);
    assert GridIn(all, SquareCluster) == if showGridLines then AllLines(square.grids) else {};
    assert GridIn(all, ClusteredExplored) == if showGridLines then AllLines(explored.grids) else {};
    assert GridIn(all, ClusteredUnexplored) == if showGridLines then AllLines(unexplored.grids) else {};
    assert GridIn(all, ClusteredRecent) == if showGridLines then AllLines(recent.grids) else {};
    assert GridIn(all, ClusteredExploredNeighbours) == if showGridLines then AllLines(neighbours.grids) else {};
  }

  /** The layers of a render's result, from what the category commands promise. */
  lemma RenderLayers(c: Categories, showGridLines: bool, gridLines: set<ShowPolyline>,
                     exploredOutlines: set<ShowPolyline>, squareOutlines: set<ShowPolyline>,
                     unexploredOutlines: set<ShowPolyline>, recentOutlines: set<ShowPolyline>,
                     neighboursOutlines: set<ShowPolyline>, activityPolylines: set<ShowPolyline>,
                     exploredGrid: set<ShowPolyline>, unexploredGrid: set<ShowPolyline>,
                     squareGrid: set<ShowPolyline>, recentGrid: set<ShowPolyline>,
                     neighboursGrid: set<ShowPolyline>)
    requires OutlinesOf(exploredOutlines, ClusteredExplored) && GridOf(exploredGrid, ClusteredExplored)
    requires OutlinesOf(squareOutlines, SquareCluster) && GridOf(squareGrid, SquareCluster)
    requires OutlinesOf(unexploredOutlines, ClusteredUnexplored) && GridOf(unexploredGrid, ClusteredUnexplored)
    requires OutlinesOf(recentOutlines, ClusteredRecent) && GridOf(recentGrid, ClusteredRecent)
    requires OutlinesOf(neighboursOutlines, ClusteredExploredNeighbours)
    requires GridOf(neighboursGrid, ClusteredExploredNeighbours)
    requires OutlineLayers(activityPolylines) == {} && GridLayers(activityPolylines) == {}
    requires exploredOutlines == {} <==> c.other == {}
    requires squareOutlines != {} <==> c.square != {} && Connected(c.square)
    requires unexploredOutlines == {} <==> c.unexplored == {}
    requires recentOutlines == {} <==> c.recent == {}
    requires neighboursOutlines == {} <==> c.withNeighbours == {}
    requires exploredGrid == {} <==> NoNeighbours(c.other)
    requires squareGrid != {} <==> c.square != {} && Connected(c.square) && !NoNeighbours(c.square)
    requires unexploredGrid == {} <==> NoNeighbours(c.unexplored)
    requires recentGrid == {} <==> NoNeighbours(c.recent)
    requires neighboursGrid == {} <==> NoNeighbours(c.withNeighbours)
    requires gridLines == if showGridLines then
      exploredGrid + unexploredGrid + squareGrid + recentGrid + neighboursGrid else {}
    ensures OutlineLayers(gridLines + exploredOutlines + squareOutlines + unexploredOutlines +
                          recentOutlines + neighboursOutlines + activityPolylines) == LayersWithOutlines(c)
    ensures GridLayers(gridLines + exploredOutlines + squareOutlines + unexploredOutlines +
                       recentOutlines + neighboursOutlines + activityPolylines) ==
      if showGridLines then LayersWithGrid(c) else {}
  {
    RenderGridLayers(exploredGrid, unexploredGrid, squareGrid, recentGrid, neighboursGrid);
    if !showGridLines {
      assert OutlineLayers(gridLines) == {} && GridLayers(gridLines) == {};
    } else {
      GridLayersOfCategories(c, exploredGrid, unexploredGrid, squareGrid, recentGrid, neighboursGrid);
    }
    RenderOutlineLayers(gridLines, exploredOutlines, squareOutlines, unexploredOutlines,
                        recentOutlines, neighboursOutlines, activityPolylines);
    OutlineLayersOfCategories(c, exploredOutlines, squareOutlines, unexploredOutlines,
                              recentOutlines, neighboursOutlines);
  }

  lemma OutlineLayersOfCategories(c: Categories,
                                  exploredOutlines: set<ShowPolyline>, squareOutlines: set<ShowPolyline>,
                                  unexploredOutlines: set<ShowPolyline>, recentOutlines: set<ShowPolyline>,
                                  neighboursOutlines: set<ShowPolyline>)
    requires exploredOutlines == {} <==> c.other == {}
    requires squareOutlines != {} <==> c.square != {} && Connected(c.square)
    requires unexploredOutlines == {} <==> c.unexplored == {}
    requires recentOutlines == {} <==> c.recent == {}
    requires neighboursOutlines == {} <==> c.withNeighbours == {}
    ensures LayerIf(exploredOutlines, ClusteredExplored) + LayerIf(squareOutlines, SquareCluster) +
      LayerIf(unexploredOutlines, ClusteredUnexplored) + LayerIf(recentOutlines, ClusteredRecent) +
      LayerIf(neighboursOutlines, ClusteredExploredNeighbours) == LayersWithOutlines(c)
  {
    assert LayerIf(exploredOutlines, ClusteredExplored) == (if c.other != {} then {ClusteredExplored} else {});
    assert LayerIf(squareOutlines, SquareCluster) ==
      (if c.square != {} && Connected(c.square) then {SquareCluster} else {});
    assert LayerIf(unexploredOutlines, ClusteredUnexplored) ==
      (if c.unexplored != {} then {ClusteredUnexplored} else {});
    assert LayerIf(recentOutlines, ClusteredRecent) == (if c.recent != {} then {ClusteredRecent} else {});
    assert LayerIf(neighboursOutlines, ClusteredExploredNeighbours) ==
      (if c.withNeighbours != {} then {ClusteredExploredNeighbours} else {});
  }

  lemma GridLayersOfCategories(c: Categories,
                               exploredGrid: set<ShowPolyline>, unexploredGrid: set<ShowPolyline>,
                               squareGrid: set<ShowPolyline>, recentGrid: set<ShowPolyline>,
                               neighboursGrid: set<ShowPolyline>)
    requires exploredGrid == {} <==> NoNeighbours(c.other)
    requires squareGrid != {} <==> c.square != {} && Connected(c.square) && !NoNeighbours(c.square)
    requires unexploredGrid == {} <==> NoNeighbours(c.unexplored)
    requires recentGrid == {} <==> NoNeighbours(c.recent)
    requires neighboursGrid == {} <==> NoNeighbours(c.withNeighbours)
    ensures LayerIf(exploredGrid, ClusteredExplored) + LayerIf(unexploredGrid, ClusteredUnexplored) +
      LayerIf(squareGrid, SquareCluster) + LayerIf(recentGrid, ClusteredRecent) +
      LayerIf(neighboursGrid, ClusteredExploredNeighbours) == LayersWithGrid(c)
  {
    assert LayerIf(exploredGrid, ClusteredExplored) ==
      (if !NoNeighbours(c.other) then {ClusteredExplored} else {});
    assert LayerIf(unexploredGrid, ClusteredUnexplored) ==
      (if !NoNeighbours(c.unexplored) then {ClusteredUnexplored} else {});
    assert LayerIf(squareGrid, SquareCluster) ==
      (if c.square != {} && Connected(c.square) && !NoNeighbours(c.square) then {SquareCluster} else {});
    assert LayerIf(recentGrid, ClusteredRecent) ==
      (if !NoNeighbours(c.recent) then {ClusteredRecent} else {});
    assert LayerIf(neighboursGrid, ClusteredExploredNeighbours) ==
      (if !NoNeighbours(c.withNeighbours) then {ClusteredExploredNeighbours} else {});
  }

  /** The layers whose category calls for an outline: the square layer when
      its tiles form one cluster, any other when its category has tiles. */
  ghost function LayersWithOutlines(c: Categories): set<Layer>
  {
    (if c.other != {} then {ClusteredExplored} else {}) +
    (if c.square != {} && Connected(c.square) then {SquareCluster} else {}) +
    (if c.unexplored != {} then {ClusteredUnexplored} else {}) +
    (if c.recent != {} then {ClusteredRecent} else {}) +
    (if c.withNeighbours != {} then {ClusteredExploredNeighbours} else {})
  }

  /** The layers whose category has two neighbouring tiles (the square
      layer: within its one cluster). */
  ghost function LayersWithGrid(c: Categories): set<Layer>
  {
    (if !NoNeighbours(c.other) then {ClusteredExplored} else {}) +
    (if !NoNeighbours(c.unexplored) then {ClusteredUnexplored} else {}) +
    (if c.square != {} && Connected(c.square) && !NoNeighbours(c.square) then {SquareCluster} else {}) +
    (if !NoNeighbours(c.recent) then {ClusteredRecent} else {}) +
    (if !NoNeighbours(c.withNeighbours) then {ClusteredExploredNeighbours} else {})
  }

  lemma RenderOutlineLayers(gridLines: set<ShowPolyline>,
                            exploredOutlines: set<ShowPolyline>, squareOutlines: set<ShowPolyline>,
                            unexploredOutlines: set<ShowPolyline>, recentOutlines: set<ShowPolyline>,
                            neighboursOutlines: set<ShowPolyline>, activityPolylines: set<ShowPolyline>)
    requires OutlineLayers(gridLines) == {}
    requires OutlineLayers(activityPolylines) == {} && GridLayers(activityPolylines) == {}
    requires OutlinesOf(exploredOutlines, ClusteredExplored)
    requires OutlinesOf(squareOutlines, SquareCluster)
    requires OutlinesOf(unexploredOutlines, ClusteredUnexplored)
    requires OutlinesOf(recentOutlines, ClusteredRecent)
    requires OutlinesOf(neighboursOutlines, ClusteredExploredNeighbours)
    ensures OutlineLayers(gridLines + exploredOutlines + squareOutlines + unexploredOutlines +
                          recentOutlines + neighboursOutlines + activityPolylines) ==
      LayerIf(exploredOutlines, ClusteredExplored) + LayerIf(squareOutlines, SquareCluster) +
      LayerIf(unexploredOutlines, ClusteredUnexplored) + LayerIf(recentOutlines, ClusteredRecent) +
      LayerIf(neighboursOutlines, ClusteredExploredNeighbours)
    ensures GridLayers(gridLines + exploredOutlines + squareOutlines + unexploredOutlines +
                       recentOutlines + neighboursOutlines + activityPolylines) == GridLayers(gridLines)
  {
    LayersOfOutlines(squareOutlines, SquareCluster);
    LayersOfOutlines(neighboursOutlines, ClusteredExploredNeighbours);
    LayersOfOutlines(exploredOutlines, ClusteredExplored);
    LayersOfOutlines(unexploredOutlines, ClusteredUnexplored);
    LayersOfOutlines(recentOutlines, ClusteredRecent);
    var p1 := gridLines + exploredOutlines;
    var p2 := p1 + squareOutlines;
    var p3 := p2 + unexploredOutlines;
    var p4 := p3 + recentOutlines;
    var p5 := p4 + neighboursOutlines;
    LayersOfUnion(gridLines, exploredOutlines);
    LayersOfUnion(p1, squareOutlines);
    LayersOfUnion(p2, unexploredOutlines);
    LayersOfUnion(p3, recentOutlines);
    LayersOfUnion(p4, neighboursOutlines);
    LayersOfUnion(p5, activityPolylines);
  }

  lemma RenderGridLayers(exploredGrid: set<ShowPolyline>, unexploredGrid: set<ShowPolyline>,
                         squareGrid: set<ShowPolyline>, recentGrid: set<ShowPolyline>,
                         neighboursGrid: set<ShowPolyline>)
    requires GridOf(exploredGrid, ClusteredExplored)
    requires GridOf(squareGrid, SquareCluster)
    requires GridOf(unexploredGrid, ClusteredUnexplored)
    requires GridOf(recentGrid, ClusteredRecent)
    requires GridOf(neighboursGrid, ClusteredExploredNeighbours)
    ensures GridLayers(exploredGrid + unexploredGrid + squareGrid + recentGrid + neighboursGrid) ==
      LayerIf(exploredGrid, ClusteredExplored) + LayerIf(unexploredGrid, ClusteredUnexplored) +
      LayerIf(squareGrid, SquareCluster) + LayerIf(recentGrid, ClusteredRecent) +
      LayerIf(neighboursGrid, ClusteredExploredNeighbours)
    ensures OutlineLayers(exploredGrid + unexploredGrid + squareGrid + recentGrid + neighboursGrid) == {}
  {
    LayersOfGrid(squareGrid, SquareCluster);
    LayersOfGrid(neighboursGrid, ClusteredExploredNeighbours);
    LayersOfGrid(exploredGrid, ClusteredExplored);
    LayersOfGrid(unexploredGrid, ClusteredUnexplored);
    LayersOfGrid(recentGrid, ClusteredRecent);
    var g1 := exploredGrid + unexploredGrid;
    var g2 := g1 + squareGrid;
    var g3 := g2 + recentGrid;
    LayersOfUnion(exploredGrid, unexploredGrid);
    LayersOfUnion(g1, squareGrid);
    LayersOfUnion(g2, recentGrid);
    LayersOfUnion(g3, neighboursGrid);
  }

  // ---------------------------------------------------------------------
  // Map effects and the diff

  datatype MapEffect = Show(polyline: ShowPolyline) | Hide(id: PolylineId)

  /** `order` lists the elements of `s`, each once. */
  ghost predicate Enumerates(order: seq<ShowPolyline>, s: set<ShowPolyline>)
  {
    && (forall x :: x in order <==> x in s)
    && (forall i, j :: 0 <= i < j < |order| ==> order[i] != order[j])
  }

  function Shows(order: seq<ShowPolyline>): seq<MapEffect>
  {
    if order == [] then [] else Shows(order[..|order| - 1]) + [Show(order[|order| - 1])]
  }

  function Hides(order: seq<ShowPolyline>): seq<MapEffect>
  {
    if order == [] then [] else Hides(order[..|order| - 1]) + [Hide(order[|order| - 1].id)]
  }

  /** `s.forEach { emitter.onNext(it) }`, in the set's iteration order. */
  method ShowAll(s: set<ShowPolyline>) returns (effects: seq<MapEffect>, ghost order: seq<ShowPolyline>)
    ensures Enumerates(order, s) && effects == Shows(order)
  {
    effects, order := [], [];
    var todo := s;
    while todo != {}
      invariant todo <= s
      invariant forall x :: x in order <==> x in s - todo
      invariant forall i, j :: 0 <= i < j < |order| ==> order[i] != order[j]
      invariant effects == Shows(order)
      decreases |todo|
    {
      var p :| p in todo;
      assert p !in order;
      assert (order + [p])[..|order|] == order;
      effects, order := effects + [Show(p)], order + [p];
      todo := todo - {p};
    }
  }

  /** `s.forEach { emitter.onNext(HidePolyline(it.id)) }`. */
  method HideAll(s: set<ShowPolyline>) returns (effects: seq<MapEffect>, ghost order: seq<ShowPolyline>)
    ensures Enumerates(order, s) && effects == Hides(order)
  {
    effects, order := [], [];
    var todo := s;
    while todo != {}
      invariant todo <= s
      invariant forall x :: x in order <==> x in s - todo
      invariant forall i, j :: 0 <= i < j < |order| ==> order[i] != order[j]
      invariant effects == Hides(order)
      decreases |todo|
    {
      var p :| p in todo;
      assert p !in order;
      assert (order + [p])[..|order|] == order;
      effects, order := effects + [Hide(p.id)], order + [p];
      todo := todo - {p};
    }
  }

  /** The inputs of one update. */
  datatype Settings = Settings(isDisabled: bool, tileDrawRange: int, hideGridLines: bool)

  datatype StreamData = StreamData(
    explored: set<Tile>,
    recentlyExplored: set<Tile>,
    square: Option<Square>,
    activities: Option<seq<Activity>>,
    settings: Settings,
    centerTile: Tile,
    mapZoom: int)

  class ClusterDrawService {
    var lastDrawnPolylines: set<ShowPolyline>

    /** No two remembered commands share an id. */
    predicate Valid()
      reads this
    {
      UniqueIds(lastDrawnPolylines)
    }

    constructor()
      ensures Valid() && lastDrawnPolylines == {}
    {
      lastDrawnPolylines := {};
    }

    /** Start of the job: everything drawn before is shown again. */
    method Redraw() returns (effects: seq<MapEffect>, ghost order: seq<ShowPolyline>)
      ensures Enumerates(order, lastDrawnPolylines) && effects == Shows(order)
    {
      effects, order := ShowAll(lastDrawnPolylines);
    }

    /** The end of an enabled update: the new commands are shown, then the
        dropped ones hidden by id, and the current set is remembered. */
    method Diff(polylines: set<ShowPolyline>)
      returns (effects: seq<MapEffect>, ghost newOrder: seq<ShowPolyline>, ghost droppedOrder: seq<ShowPolyline>)
      modifies this
      ensures Enumerates(newOrder, polylines - old(lastDrawnPolylines))
      ensures Enumerates(droppedOrder, old(lastDrawnPolylines) - polylines)
      ensures effects == Shows(newOrder) + Hides(droppedOrder)
      ensures lastDrawnPolylines == polylines
    {
      var newPolylines := polylines - lastDrawnPolylines;
      var droppedPolylines := lastDrawnPolylines - polylines;
      var shown, hidden;
      shown, newOrder := ShowAll(newPolylines);
      hidden, droppedOrder := HideAll(droppedPolylines);
      effects := shown + hidden;
      lastDrawnPolylines := polylines;
    }

    /** The same diff with the dropped commands hidden before the new ones
        are shown. */
    method DiffHidingFirst(polylines: set<ShowPolyline>)
      returns (effects: seq<MapEffect>, ghost newOrder: seq<ShowPolyline>, ghost droppedOrder: seq<ShowPolyline>)
      modifies this
      ensures Enumerates(newOrder, polylines - old(lastDrawnPolylines))
      ensures Enumerates(droppedOrder, old(lastDrawnPolylines) - polylines)
      ensures effects == Hides(droppedOrder) + Shows(newOrder)
      ensures lastDrawnPolylines == polylines
    {
      var newPolylines := polylines - lastDrawnPolylines;
      var droppedPolylines := lastDrawnPolylines - polylines;
      var shown, hidden;
      hidden, droppedOrder := HideAll(droppedPolylines);
      shown, newOrder := ShowAll(newPolylines);
      effects := hidden + shown;
      lastDrawnPolylines := polylines;
    }

    /** A disabled update: everything drawn is hidden and forgotten. */
    method Disable() returns (effects: seq<MapEffect>, ghost order: seq<ShowPolyline>)
      modifies this
      ensures Enumerates(order, old(lastDrawnPolylines)) && effects == Hides(order)
      ensures lastDrawnPolylines == {}
    {
      effects, order := HideAll(lastDrawnPolylines);
      lastDrawnPolylines := {};
    }

    /** One update of the collected stream. Enabled: radius, view square,
        activity lines, inset, categories and commands as above, then the
        diff; `polylines` is the command set drawn. Disabled: everything
        hidden. The projection of track points to tiles and the conversion
        of the inset from metres to map units are given. The view square is
        the corrected, centred one, and the diff hides before it shows: with
        both, every tile of the load range is drawn in exactly one category
        and the map afterwards shows exactly the current commands. */
    method Update(data: StreamData, coordsToTile: (real, real) -> Tile, metresToUnits: real -> int)
      returns (effects: seq<MapEffect>, ghost polylines: set<ShowPolyline>,
               ghost newOrder: seq<ShowPolyline>, ghost droppedOrder: seq<ShowPolyline>,
               ghost lines: map<int, seq<Coords>>, ghost processed: nat,
               ghost drawings: LayerDrawings)
      requires Valid()
      modifies this
      ensures Valid() && lastDrawnPolylines == polylines
      ensures Apply(Keyed(old(lastDrawnPolylines)), effects) == Keyed(polylines)
      ensures data.settings.isDisabled ==>
        polylines == {} && newOrder == [] &&
        Enumerates(droppedOrder, old(lastDrawnPolylines)) && effects == Hides(droppedOrder)
      ensures !data.settings.isDisabled ==>
        var radius := TileLoadRadius(data.settings.tileDrawRange);
        var view := CenteredViewSquare(data.centerTile, radius);
        var c := Categorize(data.explored, data.recentlyExplored, data.square, data.centerTile, radius, view);
        var activities := if data.activities.Some? then data.activities.value else [];
        && (forall t :: InLoadRange(data.centerTile, radius, t) ==>
              t in c.square + c.withNeighbours + c.other + c.unexplored + c.recent)
        && processed <= |activities| && lines == LinesOf(activities[..processed], view, coordsToTile)
        && (processed < |activities| ==> |lines| > 50)
        && (forall k :: 0 <= k < processed ==> |LinesOf(activities[..k], view, coordsToTile)| <= 50)
        && |lines| <= 51
        && DrawsLayers(polylines, c, metresToUnits(InsetOffset(data.mapZoom)), !data.settings.hideGridLines, drawings)
        && (forall p :: p in polylines ==> WellFormedCommand(p, lines, view.size))
        && (forall id :: id in lines ==> ActivityCommand(id, view.size, lines[id]) in polylines)
        && UniqueIds(polylines)
        && OutlineLayers(polylines) == LayersWithOutlines(c)
        && GridLayers(polylines) == (if data.settings.hideGridLines then {} else LayersWithGrid(c))
        && Enumerates(newOrder, polylines - old(lastDrawnPolylines))
        && Enumerates(droppedOrder, old(lastDrawnPolylines) - polylines)
        && effects == Hides(droppedOrder) + Shows(newOrder)
    {
      ghost var last := lastDrawnPolylines;
      if !data.settings.isDisabled {
        var tileLoadRadius := TileLoadRadius(data.settings.tileDrawRange);
        var showGridLines := !data.settings.hideGridLines;
        var viewSquare := CenteredViewSquare(data.centerTile, tileLoadRadius);
        var activities := if data.activities.Some? then data.activities.value else [];
        var linesInViewSquare;
        linesInViewSquare, processed := CollectLines(activities, viewSquare, coordsToTile);
        lines := linesInViewSquare;
        var insetOffset := InsetOffset(data.mapZoom);
        var c := Categorize(data.explored, data.recentlyExplored, data.square, data.centerTile, tileLoadRadius, viewSquare);
        forall t | InLoadRange(data.centerTile, tileLoadRadius, t)
          ensures t in c.square + c.withNeighbours + c.other + c.unexplored + c.recent
        {
          CategoriesCoverLoadRange(data.explored, data.recentlyExplored, data.square, data.centerTile, tileLoadRadius, t);
        }
        var rendered;
        rendered, drawings := Render(c, metresToUnits(insetOffset), showGridLines, linesInViewSquare, viewSquare.size);
        polylines := rendered;
        effects, newOrder, droppedOrder := DiffHidingFirst(rendered);
        HidingFirstDisplaysCurrent(last, polylines, newOrder, droppedOrder);
      } else {
        ghost var none := LayerDrawing([], [], []);
        polylines, newOrder, lines, processed := {}, [], map[], 0;
        drawings := LayerDrawings(none, none, none, none, none);
        effects, droppedOrder := Disable();
        HidingAllClears(last, droppedOrder);
        assert Keyed(polylines) == map[];
      }
    }
  }

  // ---------------------------------------------------------------------
  // What the map shows

  /** The map's handling of the effects (behaviour of the host, outside this
      code): showing a command draws it under its id, replacing whatever the
      id showed; hiding an id removes it. */
  function Apply(display: map<PolylineId, ShowPolyline>, effects: seq<MapEffect>): map<PolylineId, ShowPolyline>
  {
    if effects == [] then display
    else
      var before := Apply(display, effects[..|effects| - 1]);
      match effects[|effects| - 1]
      case Show(p) => before[p.id := p]
      case Hide(id) => before - {id}
  }

  /** The display of a set of commands with distinct ids. */
  function Keyed(s: set<ShowPolyline>): map<PolylineId, ShowPolyline>
    requires UniqueIds(s)
  {
    map p | p in s :: p.id := p
  }

  lemma {:induction false} ApplyAppend(display: map<PolylineId, ShowPolyline>, e1: seq<MapEffect>, e2: seq<MapEffect>)
    ensures Apply(display, e1 + e2) == Apply(Apply(display, e1), e2)
    decreases |e2|
  {
    if e2 == [] {
      assert e1 + e2 == e1;
    } else {
      var n := |e2|;
      assert (e1 + e2)[..|e1 + e2| - 1] == e1 + e2[..n - 1];
      assert (e1 + e2)[|e1 + e2| - 1] == e2[n - 1];
      ApplyAppend(display, e1, e2[..n - 1]);
    }
  }

  /** The ids of the commands listed. */
  ghost function IdsOf(order: seq<ShowPolyline>): set<PolylineId>
  {
    set p | p in order :: p.id
  }

  lemma {:induction false} ApplyHides(display: map<PolylineId, ShowPolyline>, order: seq<ShowPolyline>)
    ensures Apply(display, Hides(order)) == display - IdsOf(order)
  {
    if order != [] {
      var init, p := order[..|order| - 1], order[|order| - 1];
      ApplyHides(display, init);
      assert Hides(order)[..|Hides(order)| - 1] == Hides(init);
      assert IdsOf(order) == IdsOf(init) + {p.id} by {
        assert order == init + [p];
      }
    }
  }

  /** Showing the commands of a list with distinct ids puts each under its
      id and leaves the other ids alone. */
  lemma {:induction false} ApplyShows(display: map<PolylineId, ShowPolyline>, order: seq<ShowPolyline>)
    ensures var after := Apply(display, Shows(order));
      && (forall id :: id in after <==> id in display || id in IdsOf(order))
      && (forall id :: id in display && id !in IdsOf(order) ==> after[id] == display[id])
      && (forall p :: p in order && (forall q :: q in order && q.id == p.id ==> q == p) ==> p.id in after && after[p.id] == p)
  {
    if order != [] {
      var init, p := order[..|order| - 1], order[|order| - 1];
      ApplyShows(display, init);
      assert Shows(order)[..|Shows(order)| - 1] == Shows(init);
      assert order == init + [p];
      assert IdsOf(order) == IdsOf(init) + {p.id};
    }
  }

  /** Hiding every displayed command clears the map. */
  lemma HidingAllClears(last: set<ShowPolyline>, order: seq<ShowPolyline>)
    requires UniqueIds(last) && Enumerates(order, last)
    ensures Apply(Keyed(last), Hides(order)) == map[]
  {
    ApplyHides(Keyed(last), order);
    forall id | id in Keyed(last) ensures id in IdsOf(order) {
      var p :| p in last && p.id == id;
      assert p in order;
    }
  }

  /** Hiding the dropped commands first and then showing the new ones turns
      the display of the previous commands into exactly the display of the
      current ones. */
  lemma HidingFirstDisplaysCurrent(last: set<ShowPolyline>, polylines: set<ShowPolyline>,
                                   newOrder: seq<ShowPolyline>, droppedOrder: seq<ShowPolyline>)
    requires UniqueIds(last) && UniqueIds(polylines)
    requires Enumerates(newOrder, polylines - last) && Enumerates(droppedOrder, last - polylines)
    ensures Apply(Keyed(last), Hides(droppedOrder) + Shows(newOrder)) == Keyed(polylines)
  {
    var hidden := Apply(Keyed(last), Hides(droppedOrder));
    ApplyAppend(Keyed(last), Hides(droppedOrder), Shows(newOrder));
    ApplyHides(Keyed(last), droppedOrder);
    ApplyShows(hidden, newOrder);
    var after := Apply(hidden, Shows(newOrder));
    forall id | id in after ensures id in Keyed(polylines) && after[id] == Keyed(polylines)[id] {
      if id in IdsOf(newOrder) {
        var p :| p in newOrder && p.id == id;
        assert after[p.id] == p;
      } else {
        var p :| p in last && p.id == id;
        assert p !in droppedOrder;
        assert p in polylines;
      }
    }
    forall id | id in Keyed(polylines) ensures id in after {
      var p :| p in polylines && p.id == id;
      if p !in last {
        assert p in newOrder;
      } else {
        assert p.id in Keyed(last);
      }
    }
  }

  /** With the diff as written, an activity line that changes while keeping
      its id (the view moved, the radius did not) is shown and then hidden by
      the same id: the map ends up without it, though it is in the current
      set. */
  lemma MovedActivityLineHidden(activity: int, viewSize: int, line1: seq<Coords>, line2: seq<Coords>,
                                newOrder: seq<ShowPolyline>, droppedOrder: seq<ShowPolyline>)
    requires line1 != line2
    requires var last := {ActivityCommand(activity, viewSize, line1)};
      var polylines := {ActivityCommand(activity, viewSize, line2)};
      Enumerates(newOrder, polylines - last) && Enumerates(droppedOrder, last - polylines)
    ensures var last := {ActivityCommand(activity, viewSize, line1)};
      var current := ActivityCommand(activity, viewSize, line2);
      current.id !in Apply(Keyed(last), Shows(newOrder) + Hides(droppedOrder))
  {
    var p1 := ActivityCommand(activity, viewSize, line1);
    var p2 := ActivityCommand(activity, viewSize, line2);
    assert p1 != p2 by {
      assert p1.line.coords != p2.line.coords;
    }
    assert {p2} - {p1} == {p2};
    assert {p1} - {p2} == {p1};
    assert p1 in droppedOrder;
    ApplyAppend(Keyed({p1}), Shows(newOrder), Hides(droppedOrder));
    ApplyHides(Apply(Keyed({p1}), Shows(newOrder)), droppedOrder);
    assert p2.id in IdsOf(droppedOrder);
  }
}
