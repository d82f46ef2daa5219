# Tile-hunting cluster overlay, modelled in Dafny

This project models the map overlay of the Karoo tile-hunting extension. The
map is divided into zoom-14 slippy-map tiles. Around the rider's current tile,
each tile in the load range is put into one of five categories:

- explored tiles inside the stored biggest square;
- explored tiles whose four neighbours are all explored;
- other explored tiles;
- recently explored tiles;
- unexplored tiles.

Each category is split into clusters of 4-connected tiles. Every cluster is
drawn as inset outlines (chained from the exposed tile edges) and as grid lines
(the merged shared edges between neighbouring tiles). Clipped tracks of past
activities are drawn as well. The resulting set of draw commands is diffed
against the previously drawn set and sent to the map as show/hide effects.

Modules, by source file:

- `Tiles` — tiles, adjacency, `isSurrounded`, the corner positions of a tile
  and `pointsEqual` (`Cluster.kt`), and 4-connectivity.
- `Clusters` — the class `Cluster`: `getPolyline` (exposed, inset edge
  segments) and `getGridPolylines` (shared edges, merged per line).
- `Chaining` — `chainSegments`, the greedy endpoint matching that links
  segments into polylines.
- `GridLines` — the `groupBy`/`sortedBy`/`fold` merge of collinear grid
  segments.
- `Clustering` — `clusterTiles`, the flood fill that splits a tile set into
  clusters.
- `Squares` — `Square`, `getAllTiles`, `isInside` and `getBiggestSquare`.
- `ClusterDraw` — the per-update decisions of `ClusterDrawService`:
  - the draw radius, the map-zoom rounding and the inset table;
  - the view square, the load range and the tile categories;
  - decoding of the stored square;
  - clipping of activity tracks to the view square, with at most 51
    lines kept: the loop stops once more than 50 are held, one more than
    the "at most 50" its comment states.
- `DrawService` — the draw commands (ids, colours, widths), the class
  `ClusterDrawService` with its `lastDrawnPolylines` state, and the
  redraw/diff/disable effects. It also contains a model of the map applying
  the effects.

Modelling choices:

- Map positions are integers in units of 1e-6 degree. Tile column x has
  longitude `x * Span` and row y has latitude `-y * Span`. This keeps the
  properties the outline and grid code uses: the projection is strictly
  monotone and injective, neighbours share corners, and `pointsEqual` with
  its 1e-6 tolerance is exact equality.
- Iteration over Kotlin sets is an arbitrary choice (`:|`). Where the order
  shows in a result, it is returned as a ghost sequence: the tie-break of
  `getBiggestSquare`, and the order of the emitted effects.
- The integer fields of a stored square come from a protobuf. A square stored
  with x = 0 or y = 0 reads back as "no square" (`ClusterDraw.DecodeEncode`).

## Model

Source paths are relative to the repository root.

| member | source | states |
|---|---|---|
| Tiles.IsNeighbour | app/src/main/kotlin/de/timklge/karootilehunting/Cluster.kt:18-21 | two tiles are neighbours iff their Manhattan distance is exactly 1 |
| Tiles.NeighbourSymmetric | app/src/main/kotlin/de/timklge/karootilehunting/Cluster.kt:18-21 | `isNeighbour` is symmetric |
| Tiles.NeighbourIsAcross | app/src/main/kotlin/de/timklge/karootilehunting/Cluster.kt:18-21 | the neighbours of a tile are exactly the four tiles across its north, east, south and west sides |
| Tiles.IsSurrounded | app/src/main/kotlin/de/timklge/karootilehunting/Cluster.kt:23-28 | a tile is surrounded iff every one of its neighbours is in the set |
| Tiles.LonIncreasing | app/src/main/kotlin/de/timklge/karootilehunting/Cluster.kt:30-33 | tile longitude is strictly increasing in x |
| Tiles.LatDecreasing | app/src/main/kotlin/de/timklge/karootilehunting/Cluster.kt:35-39 | tile latitude is strictly decreasing in y |
| Tiles.CornersFormRectangle | app/src/main/kotlin/de/timklge/karootilehunting/Cluster.kt:70-82 | the four corners of `getCoords` span an axis-aligned rectangle (left west of right, top north of bottom), and a tile shares its right and bottom corners with its east and south neighbours |
| Tiles.CornerInjective | app/src/main/kotlin/de/timklge/karootilehunting/Cluster.kt:74-80 | distinct tiles have distinct top-left corners |
| Tiles.PointsEqual | app/src/main/kotlin/de/timklge/karootilehunting/Cluster.kt:209-212 | the tolerance comparison holds iff the two positions are equal |
| Clusters.HasNeighbor | app/src/main/kotlin/de/timklge/karootilehunting/Cluster.kt:146-149 | `has…Neighbor` holds iff the tile across that side is in the cluster |
| Clusters.InsetZero | app/src/main/kotlin/de/timklge/karootilehunting/Cluster.kt:117-132 | with inset 0 every inset corner is the unmodified corner, under either corner rule |
| Clusters.InsetMovesInward | app/src/main/kotlin/de/timklge/karootilehunting/Cluster.kt:110-132 | under the rule of the code, for an inset of at most half a tile, each inset corner moves by exactly the inset along an axis whose side is exposed, and not at all along an axis whose side has a neighbour; it stays inside the tile |
| Clusters.SideSegmentOnEdge | app/src/main/kotlin/de/timklge/karootilehunting/Cluster.kt:134-138 | with inset 0 the segment of each side runs between that side's two corners |
| Clusters.EastmostExposed | app/src/main/kotlin/de/timklge/karootilehunting/Cluster.kt:134-138 | a non-empty cluster has a tile whose east side is exposed, so its outline has a segment |
| Clusters.EdgesAreShared | app/src/main/kotlin/de/timklge/karootilehunting/Cluster.kt:226-240 | the vertical (horizontal) grid segment of a tile is non-degenerate and runs exactly between the corners it shares with its east (south) neighbour |
| Clusters.Cluster.constructor | app/src/main/kotlin/de/timklge/karootilehunting/Cluster.kt:90-91 | a new cluster has no tiles |
| Clusters.Cluster.Add | app/src/main/kotlin/de/timklge/karootilehunting/Cluster.kt:314 | `tiles.add` adds the tile and reports whether it was new |
| Clusters.Cluster.TileSegments | app/src/main/kotlin/de/timklge/karootilehunting/Cluster.kt:104-138 | for one tile, one inset segment per exposed side, every exposed side covered, none twice |
| Clusters.Cluster.ExposedSegments | app/src/main/kotlin/de/timklge/karootilehunting/Cluster.kt:102-139 | over all tiles, the segments are exactly the inset segments of the exposed sides, each once |
| Clusters.Cluster.GetPolyline | app/src/main/kotlin/de/timklge/karootilehunting/Cluster.kt:98-143 | no outline iff the cluster is empty; otherwise the exposed-side segments chained into polylines of at least 2 points that use every segment exactly once, each polyline closed or stuck; every polyline is closed when the inset is 0, or when the joined corner rule is used with an inset below half a tile |
| Clusters.Cluster.SharedEdges | app/src/main/kotlin/de/timklge/karootilehunting/Cluster.kt:222-241 | the vertical (horizontal) segments are exactly the edges of the tiles whose east (south) neighbour is in the cluster |
| Clusters.Cluster.GetGridPolylines | app/src/main/kotlin/de/timklge/karootilehunting/Cluster.kt:218-293 | the merged vertical lines, then the merged horizontal lines, as two-point lines; on every fixed coordinate the runs are the merge of that line's shared edges; no grid lines iff no two tiles are neighbours |
| Clusters.NoGridLines | app/src/main/kotlin/de/timklge/karootilehunting/Cluster.kt:218-293 | there are no merged runs iff the cluster has no two neighbouring tiles |
| Clusters.DrawRuns | app/src/main/kotlin/de/timklge/karootilehunting/Cluster.kt:277-292 | one two-point line per merged run, vertical runs first, with endpoints on the run's fixed coordinate |
| Clusters.LShapeDangling | app/src/main/kotlin/de/timklge/karootilehunting/Cluster.kt:110-138 | for the L of tiles (0,0), (1,0), (0,1) and an inset 0 < d < half a tile, the south side of (1,0) is exposed and its segment starts at the inner corner moved up by d, a point no other exposed segment touches |
| Clusters.LShapeOutlineOpen | app/src/main/kotlin/de/timklge/karootilehunting/Cluster.kt:84-143 | hence every outline `getPolyline` can return for that L with such an inset has a polyline that is not closed, although the class documentation promises closed outlines |
| Clusters.RulesAgreeAtZero | app/src/main/kotlin/de/timklge/karootilehunting/Cluster.kt:117-138 | with inset 0 the rule of the code and the joined rule draw every side identically |
| Clusters.CornerNearVertex | app/src/main/kotlin/de/timklge/karootilehunting/Cluster.kt:117-132 | with an inset below half a tile, a moved corner is nearer its own lattice corner than any other, so distinct lattice corners never meet |
| Clusters.EndsAtVertex | app/src/main/kotlin/de/timklge/karootilehunting/Cluster.kt:134-138 | a moved side ends at a point only through its corner at the lattice point nearest that point |
| Clusters.VertexEven | app/src/main/kotlin/de/timklge/karootilehunting/Cluster.kt:110-138 | around every lattice point the exposed sides pair up on equal moved corners under the joined rule (one tile at a convex corner or pinch, two tiles along a straight stretch or at a concave corner), so their ends there are even in number |
| Clusters.OutlineEvenDegrees | app/src/main/kotlin/de/timklge/karootilehunting/Cluster.kt:102-139 | with the joined rule and an inset below half a tile, or with no inset, every point is an end of an even number of the exposed-side segments |
| Clusters.OutlineClosed | app/src/main/kotlin/de/timklge/karootilehunting/Cluster.kt:84-143 | under the same conditions every polyline of the outline is closed, as the class documentation promises |
| Chaining.EvenDegreesClose | app/src/main/kotlin/de/timklge/karootilehunting/Cluster.kt:151-206 | when every point is an end of an even number of the segments, every polyline `chainSegments` returns is closed: an open one would leave an odd degree at its stuck start |
| Chaining.DegreeSameElements | app/src/main/kotlin/de/timklge/karootilehunting/Cluster.kt:151-206 | the degree of a point depends only on the multiset of segments, so reordering segments while chaining keeps every degree |
| Chaining.ClosedEvenDegrees | app/src/main/kotlin/de/timklge/karootilehunting/Cluster.kt:151-206 | conversely, when every polyline `chainSegments` returns is closed, every point is an end of an even number of the segments; with `EvenDegreesClose` the outline is closed exactly when all degrees are even |
| Chaining.Extend | app/src/main/kotlin/de/timklge/karootilehunting/Cluster.kt:168-193 | a segment touching the tail is appended there (the tail is tried first), else one touching the head is prepended there; the rest of the polyline is kept, its new end is the segment's other endpoint, and it walks its segments with this one added; a segment touching neither end changes nothing |
| Chaining.ScanPass | app/src/main/kotlin/de/timklge/karootilehunting/Cluster.kt:166-198 | one backward pass keeps the polyline a walk along its segments and conserves the multiset of segments; without a change and without closing, no remaining segment touches either end |
| Chaining.GrowChain | app/src/main/kotlin/de/timklge/karootilehunting/Cluster.kt:158-199 | the grown polyline walks along its segments, conserves the segments and ends closed or stuck |
| Chaining.ChainSegments | app/src/main/kotlin/de/timklge/karootilehunting/Cluster.kt:151-206 | no polylines iff no segments; every polyline has at least 2 points; the polylines decompose the segments (each used exactly once, step count = segment count); each polyline stopped closed or stuck on what was left |
| Chaining.StepsAreSegments | app/src/main/kotlin/de/timklge/karootilehunting/Cluster.kt:151-206 | every step of every chained polyline is one of the input segments |
| GridLines.GroupMembers | app/src/main/kotlin/de/timklge/karootilehunting/Cluster.kt:244 | `groupBy` keeps in a group exactly the segments on that fixed coordinate |
| GridLines.Keys | app/src/main/kotlin/de/timklge/karootilehunting/Cluster.kt:244 | the group keys are exactly the fixed coordinates present, without repeats |
| GridLines.SortByStartSpec | app/src/main/kotlin/de/timklge/karootilehunting/Cluster.kt:245 | `sortedBy { it.start }` returns a sorted permutation |
| GridLines.MergeRuns | app/src/main/kotlin/de/timklge/karootilehunting/Cluster.kt:245-257 | the in-place fold computes the merge of the sorted segments |
| GridLines.MergeAllShape | app/src/main/kotlin/de/timklge/karootilehunting/Cluster.kt:245-257 | merging sorted well-formed segments gives well-formed, strictly separated runs on the same line, empty iff the input is |
| GridLines.MergeAllCovers | app/src/main/kotlin/de/timklge/karootilehunting/Cluster.kt:245-257 | the merged runs cover exactly the positions the input segments cover |
| GridLines.MergeAllIdempotent | app/src/main/kotlin/de/timklge/karootilehunting/Cluster.kt:245-257 | folding runs that are already separated returns them unchanged |
| GridLines.MergeOfMergedIsIdentity | app/src/main/kotlin/de/timklge/karootilehunting/Cluster.kt:244-258 | sorting and merging already merged runs is the identity |
| GridLines.MergeGroups | app/src/main/kotlin/de/timklge/karootilehunting/Cluster.kt:244-258 | `groupBy`/`flatMap`: on every fixed coordinate the output runs are the merge of that coordinate's sorted segments |
| GridLines.MergedLineSpec | app/src/main/kotlin/de/timklge/karootilehunting/Cluster.kt:244-258 | the runs of one line are sorted, separated, well formed and cover exactly what the input segments on that line cover |
| Clustering.AddToCluster | app/src/main/kotlin/de/timklge/karootilehunting/Cluster.kt:313-317 | adds the tiles to the cluster and returns exactly the ones that were new |
| Clustering.PullNeighbours | app/src/main/kotlin/de/timklge/karootilehunting/Cluster.kt:319-326 | moves the remaining neighbours of the newly added tiles into the tiles to add, keeping the two sets disjoint with the same union and all of it reachable from the seed; when nothing moved, no remaining tile neighbours a new one |
| Clustering.GrowCluster | app/src/main/kotlin/de/timklge/karootilehunting/Cluster.kt:302-327 | the grown cluster contains the seed, is drawn from the remaining tiles, is connected to the seed, and no tile left over neighbours it |
| Clustering.ClusterTiles | app/src/main/kotlin/de/timklge/karootilehunting/Cluster.kt:297-331 | the clusters are non-empty, pairwise disjoint, connected, cover the input exactly, and no two tiles of different clusters are neighbours; no clusters iff no tiles |
| Clustering.ClusterIsComponent | app/src/main/kotlin/de/timklge/karootilehunting/Cluster.kt:297-331 | each cluster is the full connected component of any of its tiles |
| Clustering.SingleCluster | app/src/main/kotlin/de/timklge/karootilehunting/services/ClusterDrawService.kt:176 | there is exactly one cluster iff the tiles are non-empty and connected |
| Clustering.NeighboursWithinClusters | app/src/main/kotlin/de/timklge/karootilehunting/services/ClusterDrawService.kt:183-186 | a tile set has no two neighbours iff none of its clusters has |
| Squares.Square.GetAllTiles | app/src/main/kotlin/de/timklge/karootilehunting/Square.kt:10-16 | the built set is exactly the tiles `isInside` accepts: size² of them, none when size ≤ 0 |
| Squares.FootprintSpec | app/src/main/kotlin/de/timklge/karootilehunting/Square.kt:6-16 | `getAllTiles` and `isInside` agree, and the square has size² tiles |
| Squares.SquareComplete | app/src/main/kotlin/de/timklge/karootilehunting/Square.kt:41-47 | the nested `all` check holds iff the candidate square's tiles are all in the set |
| Squares.CompleteDownward | app/src/main/kotlin/de/timklge/karootilehunting/Square.kt:39-57 | a complete square stays complete at every smaller size |
| Squares.CompleteBound | app/src/main/kotlin/de/timklge/karootilehunting/Square.kt:39-57 | a complete square of side s has s² ≤ \|tiles\|, so the growth loop ends |
| Squares.GrowFrom | app/src/main/kotlin/de/timklge/karootilehunting/Square.kt:37-57 | the growth loop stops at the largest complete size m ≥ 1 at that corner and replaces the best only when m is strictly larger |
| Squares.BestStep | app/src/main/kotlin/de/timklge/karootilehunting/Square.kt:48-52 | after each corner the best is the biggest complete square at any visited corner, the first found among equals |
| Squares.BestFinal | app/src/main/kotlin/de/timklge/karootilehunting/Square.kt:30-60 | after all corners the best square lies in the set and no larger complete square exists anywhere |
| Squares.GetBiggestSquare | app/src/main/kotlin/de/timklge/karootilehunting/Square.kt:30-60 | null iff the set is empty; otherwise a square of size ≥ 1 inside the set with no larger complete square at any tile, at the first corner in visiting order that reaches that size |
| ClusterDraw.TileLoadRadius | app/src/main/kotlin/de/timklge/karootilehunting/services/ClusterDrawService.kt:105 | the radius is in 2..5; it is the setting (3 when not positive) when that lies in 2..5, otherwise the nearest value of 2..5 |
| ClusterDraw.RoundToInt | app/src/main/kotlin/de/timklge/karootilehunting/services/ClusterDrawService.kt:65 | `roundToInt` is within one half of its argument, halves rounded up |
| ClusterDraw.MapZoom | app/src/main/kotlin/de/timklge/karootilehunting/services/ClusterDrawService.kt:65 | the map zoom is even and within 1 of the zoom level |
| ClusterDraw.MapZoomOfEven | app/src/main/kotlin/de/timklge/karootilehunting/services/ClusterDrawService.kt:65 | an even integer zoom level is kept as it is |
| ClusterDraw.InsetOffset | app/src/main/kotlin/de/timklge/karootilehunting/services/ClusterDrawService.kt:145-154 | the inset is between 5 and 175 metres; 175 at zooms 0..10, 5 below 0 and above 16 |
| ClusterDraw.InsetShrinksWithZoom | app/src/main/kotlin/de/timklge/karootilehunting/services/ClusterDrawService.kt:145-154 | zooming in never increases the inset |
| ClusterDraw.OddZoomArmsUnused | app/src/main/kotlin/de/timklge/karootilehunting/services/ClusterDrawService.kt:145-154 | since the map zoom is always even, only the insets 175, 75, 25, 10 and 5 are ever used |
| ClusterDraw.ViewSquare | app/src/main/kotlin/de/timklge/karootilehunting/services/ClusterDrawService.kt:107 | a tile is inside the view square as written iff it is in the load range and not on its last column or last row |
| ClusterDraw.CenteredViewSquare | app/src/main/kotlin/de/timklge/karootilehunting/services/ClusterDrawService.kt:142-143 | a tile is inside the square of side 2·radius + 1 iff it is in the load range |
| ClusterDraw.CategoriesPartition | app/src/main/kotlin/de/timklge/karootilehunting/services/ClusterDrawService.kt:156-173 | the square, surrounded and other tiles partition the explored tiles in range, which exclude the recent ones; the unexplored tiles are disjoint from both |
| ClusterDraw.CategoryMembership | app/src/main/kotlin/de/timklge/karootilehunting/services/ClusterDrawService.kt:156-173 | for every tile, the exact condition under which it is in each of the five categories |
| ClusterDraw.CategoriesCoverLoadRange | app/src/main/kotlin/de/timklge/karootilehunting/services/ClusterDrawService.kt:142-173 | with the centred view square, every tile of the load range is in exactly one category |
| ClusterDraw.EdgeTileUncategorised | app/src/main/kotlin/de/timklge/karootilehunting/services/ClusterDrawService.kt:142-173 | with the view square as written, an unexplored tile on the load range's east column is in the load range but in no category |
| ClusterDraw.DecodeSquare | app/src/main/kotlin/de/timklge/karootilehunting/services/ClusterDrawService.kt:72 | a square is read iff x, y and size are all non-zero, and then has those fields |
| ClusterDraw.DecodeEncode | app/src/main/kotlin/de/timklge/karootilehunting/services/ExploreTilesService.kt:124-126 | a stored square reads back as itself iff it is none or has no zero field |
| ClusterDraw.PiecesRebuild | app/src/main/kotlin/de/timklge/karootilehunting/services/ClusterDrawService.kt:113-131 | a track is its inside stretches joined by its outside points, with one more stretch than outside points |
| ClusterDraw.RunsAreInsidePoints | app/src/main/kotlin/de/timklge/karootilehunting/services/ClusterDrawService.kt:113-131 | the runs, concatenated, are exactly the track's inside points in order |
| ClusterDraw.SplitRuns | app/src/main/kotlin/de/timklge/karootilehunting/services/ClusterDrawService.kt:113-131 | the loop returns the maximal non-empty runs of consecutive inside points |
| ClusterDraw.LinesOfKeys | app/src/main/kotlin/de/timklge/karootilehunting/services/ClusterDrawService.kt:110-138 | an id has a line iff some processed activity with that id has a run inside the view square |
| ClusterDraw.LinesOfLast | app/src/main/kotlin/de/timklge/karootilehunting/services/ClusterDrawService.kt:133 | the line kept for an id is the last run of the last processed activity with that id that has a run |
| ClusterDraw.LinesOfStep | app/src/main/kotlin/de/timklge/karootilehunting/services/ClusterDrawService.kt:133 | one activity stores its last run under its id, or changes nothing when it has no run, adding at most one line |
| ClusterDraw.StoreRuns | app/src/main/kotlin/de/timklge/karootilehunting/services/ClusterDrawService.kt:133 | `segments.forEach` leaves the last run under the activity's id |
| ClusterDraw.CollectLines | app/src/main/kotlin/de/timklge/karootilehunting/services/ClusterDrawService.kt:109-138 | the lines are those of a prefix of the activities; the loop stops early only once more than 50 lines are kept, never kept more than 50 before that, and ends with at most 51 |
| DrawService.WellFormedUnique | app/src/main/kotlin/de/timklge/karootilehunting/services/ClusterDrawService.kt:188-212 | commands whose ids are built from their layer and line (or activity) never share an id unless they are equal |
| DrawService.ClusterCommands | app/src/main/kotlin/de/timklge/karootilehunting/services/ClusterDrawService.kt:188-198 | the outline commands draw exactly the polylines `getPolyline(insetOffset)` returns for the cluster, and the grid commands exactly the lines `getGridPolylines()` returns, in its layer, with the corrected corner rule (see Findings) so that every outline is closed for an inset below half a tile; outlines iff it has tiles, grid lines iff two of its tiles are neighbours |
| DrawService.LayerCommands | app/src/main/kotlin/de/timklge/karootilehunting/services/ClusterDrawService.kt:214-228 | cluster i is drawn with an outline and grid lines that `getPolyline`/`getGridPolylines` return for it, with the corrected (joined) corner rule as in `ClusterCommands`, and the layer's outline and grid commands are exactly the union of those lines; outlines iff some cluster has tiles, grid lines iff some cluster has neighbouring tiles |
| DrawService.CategoryCommands | app/src/main/kotlin/de/timklge/karootilehunting/services/ClusterDrawService.kt:177-186 | the category is split into its clusters, each drawn with its outline and grid lines, and the commands are exactly those lines; outlines iff the category has tiles, grid lines iff it has two neighbouring tiles |
| DrawService.SquareClusterOf | app/src/main/kotlin/de/timklge/karootilehunting/services/ClusterDrawService.kt:176 | `singleOrNull` gives a cluster iff the square tiles are non-empty and connected, and then it holds exactly them |
| DrawService.SquareTileDrawnIffConnected | app/src/main/kotlin/de/timklge/karootilehunting/services/ClusterDrawService.kt:164-176 | a tile of the square category is drawn in some layer iff the square tiles in range are connected: the square tiles are removed from every other category, so a square whose tiles in range are split, by recently explored tiles or by footprint tiles missing from the explored set, is drawn nowhere |
| DrawService.SquareCommands | app/src/main/kotlin/de/timklge/karootilehunting/services/ClusterDrawService.kt:176-202 | when the square tiles form one cluster, the commands are exactly its outline and grid lines; otherwise nothing is drawn; outlines iff they form one cluster, grid lines iff moreover two of them are neighbours |
| DrawService.ActivityCommands | app/src/main/kotlin/de/timklge/karootilehunting/services/ClusterDrawService.kt:204-212 | one faded-gray width-4 command per kept line, under the activity's id and the view size, and nothing else |
| DrawService.Render | app/src/main/kotlin/de/timklge/karootilehunting/services/ClusterDrawService.kt:263-272 | in every layer the outline commands are exactly the outlines of the clusters of its category (the square layer: of the square tiles when they form one cluster) and the grid commands exactly their grid lines when shown, none when hidden; all commands well formed with distinct ids; every kept activity line drawn; which layers have outlines and grid lines |
| DrawService.RenderLayers | app/src/main/kotlin/de/timklge/karootilehunting/services/ClusterDrawService.kt:263-272 | the layers of the command union are the layers each category contributes |
| DrawService.ShowAll | app/src/main/kotlin/de/timklge/karootilehunting/services/ClusterDrawService.kt:279 | one show effect per command, each command once, in the set's iteration order |
| DrawService.HideAll | app/src/main/kotlin/de/timklge/karootilehunting/services/ClusterDrawService.kt:280 | one hide-by-id effect per command, each command once |
| DrawService.ClusterDrawService.constructor | app/src/main/kotlin/de/timklge/karootilehunting/services/ClusterDrawService.kt:58 | nothing is drawn at first |
| DrawService.ClusterDrawService.Redraw | app/src/main/kotlin/de/timklge/karootilehunting/services/ClusterDrawService.kt:63 | a restart shows every remembered command once |
| DrawService.ClusterDrawService.Diff | app/src/main/kotlin/de/timklge/karootilehunting/services/ClusterDrawService.kt:274-282 | as written: show the commands not drawn before, then hide by id the ones no longer drawn, and remember the new set |
| DrawService.ClusterDrawService.DiffHidingFirst | app/src/main/kotlin/de/timklge/karootilehunting/services/ClusterDrawService.kt:274-282 | the same diff with the hides emitted before the shows |
| DrawService.ClusterDrawService.Disable | app/src/main/kotlin/de/timklge/karootilehunting/services/ClusterDrawService.kt:283-288 | hide every remembered command once and forget them |
| DrawService.ClusterDrawService.Update | app/src/main/kotlin/de/timklge/karootilehunting/services/ClusterDrawService.kt:99-289 | one update, with the three corrections under Findings: every tile of the load range in a category; kept lines from a prefix of the activities that stops early only once more than 50 lines are kept, at most 51, all drawn; every layer drawing exactly its clusters' outlines and (unless hidden) grid lines, as in `Render`; commands well formed with distinct ids; the effects turn the previous display into exactly the display of the current commands; when disabled, everything is hidden and the map is cleared |
| DrawService.HidingAllClears | app/src/main/kotlin/de/timklge/karootilehunting/services/ClusterDrawService.kt:286-287 | hiding every drawn command leaves the map empty |
| DrawService.HidingFirstDisplaysCurrent | app/src/main/kotlin/de/timklge/karootilehunting/services/ClusterDrawService.kt:274-282 | with hides first, the display of the previous commands becomes exactly the display of the current ones |
| DrawService.MovedActivityLineHidden | app/src/main/kotlin/de/timklge/karootilehunting/services/ClusterDrawService.kt:207 | with the diff as written, an activity line that changes under the same id is shown and then hidden, so the map does not show it |

## Left out

- Map projection: the Web-Mercator formulas of `getLon`/`getLat` and
  `coordsToTile` are floating point. Tile corners are a strictly monotone
  integer lattice instead. Track points are mapped to tiles by a function
  given as a parameter (`coordsToTile`).
- Turf's metres-to-degrees conversion of the inset is a parameter
  (`metresToUnits`). `getPolyline`'s default inset of 50 m is not used by the
  service and is not modelled.
- Polyline encoding (`toPolyline(5)`, `LineString.fromPolyline`) and string
  hash codes are left out. An outline or grid id holds the line itself, so the
  model assumes that the ids of different lines do not collide.
- `Tile.isInbounds`, `getCorners` and the longitude normalisation are not
  used by the core and are not modelled.
- Clusters.Cluster.GetPolyline: with the rule of the code and a positive
  inset, outlines are only proved to use every exposed segment once, each
  polyline stopped closed or stuck; they are not closed at concave corners
  (see Findings). The commented-out closing step of `chainSegments` is not
  modelled.
- Coroutines, flows, `combine`, `throttle`, `distinctUntilChanged`, the data
  stores, the GPS stream, logging and timing are left out. `Update` models one
  collected element; its inputs arrive as a `StreamData` value.
- A null activities list is treated as the empty list. Decoding of the
  protobuf activity records is not modelled.
- `roundToInt` on NaN and on values outside the `Int` range is not modelled.
  Zoom levels are reals and results are unbounded integers.
- The map's handling of the effects (`Apply`) is an assumption about the
  host: showing a command draws it under its id and replaces what the id
  showed; hiding an id removes it. The host's code is not part of this model.
- Aliasing of the `Segment` objects that the Kotlin fold mutates (`last.end =
  …`) is not modelled; the merge works on values.
- DrawService.ClusterDrawService.Update: uses the centred view square, the
  joined corner rule and the hide-first diff (see Findings) instead of the
  code as written. All three are kept as written: `ClusterDraw.ViewSquare`,
  the `PerSide` rule of `Clusters.InsetCorner` and
  `DrawService.ClusterDrawService.Diff`.

## Findings

| source | as written | input that shows it | evidently intended | confidence | as-written member | corrected member |
|---|---|---|---|---|---|---|
| app/src/main/kotlin/de/timklge/karootilehunting/services/ClusterDrawService.kt:107 | the view square starts at center − radius with side 2·radius, so it misses the last column and row of the inclusive load range center ± radius (lines 142-143) | center (0, 0), radius 3, tile (3, 0) neither explored nor recently explored: it is in the load range but is not drawn as unexplored | a view square of side 2·radius + 1, so that every tile of the load range is in exactly one category | not executed; medium | ClusterDraw.EdgeTileUncategorised | ClusterDraw.CategoriesCoverLoadRange |
| app/src/main/kotlin/de/timklge/karootilehunting/services/ClusterDrawService.kt:279-280 | new commands are shown before dropped ones are hidden by id; an activity id (`activity-<id>-<view size>`, line 207) stays the same when the view moves but the clipped line changes | previous set {activity 1, view size 6, line A}, current set {activity 1, view size 6, line B}, A ≠ B: the map shows B and then hides id `activity-1-6`, so B is not displayed | hide the dropped commands first, then show the new ones, so that the map shows exactly the current commands | not executed; medium (depends on the host replacing and hiding by id) | DrawService.MovedActivityLineHidden | DrawService.HidingFirstDisplaysCurrent |
| app/src/main/kotlin/de/timklge/karootilehunting/Cluster.kt:117-132 | each inset corner is moved only along its own tile's exposed sides, so at a concave corner the moved sides of the two tiles meeting there end at different points, and `chainSegments` (which joins only equal points) cannot close the outline that the class documentation promises (lines 88 and 94) | tiles (0,0), (1,0), (0,1) and a positive inset below half a tile: the south side of (1,0) starts at the inner corner moved up by the inset, which no other segment touches, so some polyline is open | move such a corner also outward by the inset along the side that has a neighbour when the diagonal tile is present, so that the moved sides meet; every outline is then closed | not executed; high | Clusters.LShapeOutlineOpen | Clusters.OutlineClosed |
