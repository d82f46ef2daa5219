/** `clusterTiles`: splitting a tile set into its 4-connected components by
    repeated neighbour absorption. */
module Clustering {
  import opened Tiles
  import opened Clusters

  /** All tiles of all clusters. */
  ghost function Union(parts: seq<set<Tile>>): set<Tile>
  {
    if parts == [] then {} else Union(parts[..|parts| - 1]) + parts[|parts| - 1]
  }

  lemma {:induction false} UnionMember(parts: seq<set<Tile>>, t: Tile)
    ensures t in Union(parts) <==> exists i :: 0 <= i < |parts| && t in parts[i]
  {
    if parts != [] {
      var n := |parts| - 1;
      UnionMember(parts[..n], t);
      if exists i :: 0 <= i < |parts| && t in parts[i] {
        var i :| 0 <= i < |parts| && t in parts[i];
        if i < n {
          assert parts[..n][i] == parts[i];
        }
      }
    }
  }

  lemma UnionAppend(parts: seq<set<Tile>>, c: set<Tile>)
    ensures Union(parts + [c]) == Union(parts) + c
  {
    assert (parts + [c])[..|parts|] == parts;
  }

  /** `parts` split `tiles` into non-empty, connected, pairwise disjoint
      clusters whose union is `tiles`, no tile of one cluster being a
      neighbour of a tile of another. */
  ghost predicate IsClustering(parts: seq<set<Tile>>, tiles: set<Tile>)
  {
    && (forall i :: 0 <= i < |parts| ==> parts[i] != {} && Connected(parts[i]))
    && (forall i, j :: 0 <= i < j < |parts| ==> parts[i] !! parts[j])
    && Union(parts) == tiles
    && (forall i, j, a, b :: 0 <= i < |parts| && 0 <= j < |parts| && i != j && a in parts[i] && b in parts[j] ==>
          !IsNeighbour(a, b))
  }

  /** No tile of any cluster has a neighbour in `rest`. */
  ghost predicate ClosedAgainst(parts: seq<set<Tile>>, rest: set<Tile>)
  {
    forall i, a, b :: 0 <= i < |parts| && a in parts[i] && b in rest ==> !IsNeighbour(a, b)
  }

  /** The tiles joined to `t` by a walk inside `tiles`: its 4-connected
      component. */
  ghost function Component(tiles: set<Tile>, t: Tile): set<Tile>
  {
    set u | u in tiles && Linked(tiles, t, u)
  }

  lemma ReachableGrow(c: set<Tile>, root: Tile, a: Tile, added: set<Tile>)
    requires ReachableFrom(c, root) && a in c
    requires forall n :: n in added ==> IsNeighbour(a, n)
    ensures ReachableFrom(c + added, root)
  {
    var c' := c + added;
    forall t | t in c' ensures Linked(c', root, t) {
      if t in c {
        assert Linked(c, root, t);
        var p :| Joins(p, c, root, t);
        WalkWiden(p, c, c');
        assert Joins(p, c', root, t);
      } else {
        assert Linked(c, root, a);
        var p :| Joins(p, c, root, a);
        WalkWiden(p, c, c');
        var q := [a, t];
        assert IsWalk(q, c');
        WalkGlue(p, q, c');
        assert Joins(p + q[1..], c', root, t);
      }
    }
  }

  lemma RemoveShrinks(a: set<Tile>, b: set<Tile>)
    requires b <= a && b != {}
    ensures |a - b| < |a|
  {
    assert a == (a - b) + b && (a - b) !! b;
  }

  /** The first loop of a round: every tile to add goes into the cluster
      (`tiles.add`), and those that were not already there are the newly added
      tiles. */
  method AddToCluster(cluster: Cluster, tilesToAdd: set<Tile>) returns (newlyAddedTiles: set<Tile>)
    modifies cluster
    ensures cluster.tiles == old(cluster.tiles) + tilesToAdd
    ensures newlyAddedTiles == tilesToAdd - old(cluster.tiles)
  {
    newlyAddedTiles := {};
    var todo := tilesToAdd;
    while todo != {}
      invariant todo <= tilesToAdd
      invariant cluster.tiles == old(cluster.tiles) + (tilesToAdd - todo)
      invariant newlyAddedTiles == (tilesToAdd - todo) - old(cluster.tiles)
    {
      var tile :| tile in todo;
      var added := cluster.Add(tile);
      if added {
        newlyAddedTiles := newlyAddedTiles + {tile};
      }
      todo := todo - {tile};
    }
  }

  /** The second loop of a round: each newly added tile moves its remaining
      neighbours into the tiles to add. Afterwards no newly added tile has a
      neighbour left among the remaining tiles, the tiles to add stay
      reachable from the seed, and `tilesAdded` reports whether anything
      moved. */
  method PullNeighbours(newlyAddedTiles: set<Tile>, tilesToAdd: set<Tile>, remainingTiles: set<Tile>, ghost seed: Tile)
    returns (toAdd: set<Tile>, rest: set<Tile>, tilesAdded: bool)
    requires newlyAddedTiles <= tilesToAdd && tilesToAdd !! remainingTiles
    requires ReachableFrom(tilesToAdd, seed)
    ensures toAdd !! rest && toAdd + rest == tilesToAdd + remainingTiles
    ensures tilesToAdd <= toAdd && rest <= remainingTiles
    ensures ReachableFrom(toAdd, seed)
    ensures forall a, b :: a in newlyAddedTiles && b in rest ==> !IsNeighbour(a, b)
    ensures tilesAdded ==> |rest| < |remainingTiles|
    ensures !tilesAdded ==> rest == remainingTiles && toAdd == tilesToAdd
  {
    toAdd, rest, tilesAdded := tilesToAdd, remainingTiles, false;
    var pending := newlyAddedTiles;
    while pending != {}
      invariant pending <= newlyAddedTiles
      invariant toAdd !! rest && toAdd + rest == tilesToAdd + remainingTiles
      invariant tilesToAdd <= toAdd && rest <= remainingTiles
      invariant ReachableFrom(toAdd, seed)
      invariant forall a, b :: a in newlyAddedTiles - pending && b in rest ==> !IsNeighbour(a, b)
      invariant tilesAdded ==> |rest| < |remainingTiles|
      invariant !tilesAdded ==> rest == remainingTiles && toAdd == tilesToAdd
    {
      var tile :| tile in pending;
      var neighbours := set n | n in rest && IsNeighbour(n, tile);
      forall n | n in neighbours ensures IsNeighbour(tile, n) {
        NeighbourSymmetric(n, tile);
      }
      ReachableGrow(toAdd, seed, tile, neighbours);
      toAdd := toAdd + neighbours;
      if neighbours != {} {
        RemoveShrinks(rest, neighbours);
      }
      rest := rest - neighbours;
      if neighbours != {} {
        tilesAdded := true;
      }
      pending := pending - {tile};
    }
  }

  /** One pass of the outer loop of `clusterTiles`: a fresh cluster grown from
      `seed` by absorbing, round after round, the remaining neighbours of the
      tiles added in the previous round, until a round absorbs nothing. The
      cluster holds the seed, every tile of it is reachable from the seed, and
      none of them has a neighbour among the tiles that remain. */
  method GrowCluster(seed: Tile, remaining: set<Tile>) returns (cluster: Cluster, rest: set<Tile>)
    requires seed in remaining
    ensures fresh(cluster)
    ensures seed in cluster.tiles && cluster.tiles <= remaining
    ensures rest == remaining - cluster.tiles
    ensures ReachableFrom(cluster.tiles, seed)
    ensures forall a, b :: a in cluster.tiles && b in rest ==> !IsNeighbour(a, b)
  {
    cluster := new Cluster();
    var tilesToAdd := {seed};
    rest := remaining - {seed};
    assert Joins([seed], {seed}, seed, seed) && Linked({seed}, seed, seed);
    var tilesAdded := true;
    while tilesAdded
      invariant tilesToAdd !! rest && tilesToAdd + rest == remaining
      invariant seed in tilesToAdd && cluster.tiles <= tilesToAdd
      invariant !tilesAdded ==> cluster.tiles == tilesToAdd
      invariant ReachableFrom(tilesToAdd, seed)
      invariant forall a, b :: a in cluster.tiles && b in rest ==> !IsNeighbour(a, b)
      decreases |rest| + (if tilesAdded then 1 else 0)
    {
      tilesToAdd, rest, tilesAdded := GrowRound(cluster, tilesToAdd, rest, seed);
    }
  }

  /** One round of the `while (tilesAdded)` loop: add the pending tiles to
      the cluster, then pull the remaining neighbours of the new ones. */
  method GrowRound(cluster: Cluster, tilesToAdd: set<Tile>, rest: set<Tile>, ghost seed: Tile)
    returns (toAdd: set<Tile>, rest': set<Tile>, tilesAdded: bool)
    modifies cluster
    requires tilesToAdd !! rest && cluster.tiles <= tilesToAdd
    requires ReachableFrom(tilesToAdd, seed)
    requires forall a, b :: a in cluster.tiles && b in rest ==> !IsNeighbour(a, b)
    ensures cluster.tiles == tilesToAdd
    ensures toAdd !! rest' && toAdd + rest' == tilesToAdd + rest
    ensures tilesToAdd <= toAdd && rest' <= rest
    ensures ReachableFrom(toAdd, seed)
    ensures forall a, b :: a in cluster.tiles && b in rest' ==> !IsNeighbour(a, b)
    ensures tilesAdded ==> |rest'| < |rest|
    ensures !tilesAdded ==> rest' == rest && toAdd == tilesToAdd
  {
    ghost var before := cluster.tiles;
    var newlyAddedTiles := AddToCluster(cluster, tilesToAdd);
    toAdd, rest', tilesAdded := PullNeighbours(newlyAddedTiles, tilesToAdd, rest, seed);
    assert cluster.tiles == before + newlyAddedTiles;
    ApartStep(before, newlyAddedTiles, rest, rest');
  }

  /** The tiles added before had no neighbour left, and the new ones have
      none in what is left now: together they have none. */
  lemma ApartStep(before: set<Tile>, added: set<Tile>, rest: set<Tile>, rest': set<Tile>)
    requires forall a, b :: a in before && b in rest ==> !IsNeighbour(a, b)
    requires forall a, b :: a in added && b in rest' ==> !IsNeighbour(a, b)
    requires rest' <= rest
    ensures forall a, b :: a in before + added && b in rest' ==> !IsNeighbour(a, b)
  {
  }

  /** Adding a grown cluster keeps the clusters found so far a clustering of
      the tiles taken so far, closed against what remains. */
  lemma ClusteringStep(parts: seq<set<Tile>>, tiles: set<Tile>, remaining: set<Tile>,
                       c: set<Tile>, seed: Tile, rest: set<Tile>)
    requires remaining <= tiles
    requires IsClustering(parts, tiles - remaining) && ClosedAgainst(parts, remaining)
    requires seed in c && c <= remaining && rest == remaining - c
    requires ReachableFrom(c, seed)
    requires forall a, b :: a in c && b in rest ==> !IsNeighbour(a, b)
    ensures IsClustering(parts + [c], tiles - rest) && ClosedAgainst(parts + [c], rest)
  {
    StarConnected(c, seed);
    var parts' := parts + [c];
    var n := |parts|;
    UnionAppend(parts, c);
    assert Union(parts') == tiles - rest;
    forall i | 0 <= i < n ensures parts'[i] !! c {
      forall t | t in parts'[i] ensures t !in c {
        UnionMember(parts, t);
      }
    }
    forall i, j, a, b | 0 <= i < |parts'| && 0 <= j < |parts'| && i != j && a in parts'[i] && b in parts'[j]
      ensures !IsNeighbour(a, b)
    {
      if i == n {
        NeighbourSymmetric(a, b);
      }
    }
  }

  /** `clusterTiles`: while tiles remain, grow a cluster from one of them (the
      first in the set's iteration order, an arbitrary choice here). The
      clusters partition the input into non-empty connected clusters with no
      neighbours across clusters; no input gives no clusters. */
  method ClusterTiles(tiles: set<Tile>) returns (clusters: seq<Cluster>, ghost parts: seq<set<Tile>>)
    ensures |parts| == |clusters| && forall i :: 0 <= i < |clusters| ==> clusters[i].tiles == parts[i]
    ensures IsClustering(parts, tiles)
    ensures tiles == {} <==> clusters == []
  {
    clusters, parts := [], [];
    var remainingTiles := tiles;
    while remainingTiles != {}
      invariant remainingTiles <= tiles
      invariant |parts| == |clusters| && forall i :: 0 <= i < |clusters| ==> clusters[i].tiles == parts[i]
      invariant IsClustering(parts, tiles - remainingTiles) && ClosedAgainst(parts, remainingTiles)
      invariant remainingTiles == tiles <==> clusters == []
      decreases |remainingTiles|
    {
      var seedTile :| seedTile in remainingTiles;
      var newCluster, rest := GrowCluster(seedTile, remainingTiles);
      ClusteringStep(parts, tiles, remainingTiles, newCluster.tiles, seedTile, rest);
      RemoveShrinks(remainingTiles, newCluster.tiles);
      clusters, parts := clusters + [newCluster], parts + [newCluster.tiles];
      remainingTiles := rest;
    }
    assert tiles - remainingTiles == tiles;
  }

  lemma PartInUnion(parts: seq<set<Tile>>, i: int)
    requires 0 <= i < |parts|
    ensures parts[i] <= Union(parts)
  {
    forall t | t in parts[i] ensures t in Union(parts) {
      UnionMember(parts, t);
    }
  }

  /** Each cluster is exactly the connected component, within the input, of
      any of its tiles. */
  lemma ClusterIsComponent(parts: seq<set<Tile>>, tiles: set<Tile>, i: int, t: Tile)
    requires IsClustering(parts, tiles) && 0 <= i < |parts| && t in parts[i]
    ensures parts[i] == Component(tiles, t)
  {
    forall u | u in parts[i] ensures u in Component(tiles, t) {
      assert Linked(parts[i], t, u);
      var p :| Joins(p, parts[i], t, u);
      PartInUnion(parts, i);
      WalkWiden(p, parts[i], tiles);
      assert Joins(p, tiles, t, u);
    }
    forall u | u in Component(tiles, t) ensures u in parts[i] {
      var p :| Joins(p, tiles, t, u);
      if u !in parts[i] {
        var k := WalkLeaves(p, tiles, parts[i]);
        UnionMember(parts, p[k + 1]);
        assert false;
      }
    }
  }

  /** `clusterTiles` returns exactly one cluster iff its input is non-empty
      and connected. */
  lemma SingleCluster(parts: seq<set<Tile>>, tiles: set<Tile>)
    requires IsClustering(parts, tiles)
    ensures |parts| == 1 <==> tiles != {} && Connected(tiles)
  {
    if |parts| == 1 {
      assert parts[..0] == [];
      assert Union(parts) == Union(parts[..0]) + parts[0];
      assert parts[0] == tiles;
    }
    if tiles != {} && Connected(tiles) {
      var a :| a in tiles;
      UnionMember(parts, a);
      var i :| 0 <= i < |parts| && a in parts[i];
      if |parts| != 1 {
        var j := if i == 0 then 1 else 0;
        assert parts[j] != {};
        var b :| b in parts[j];
        PartInUnion(parts, j);
        assert Linked(tiles, a, b);
        ClusterIsComponent(parts, tiles, i, a);
        assert false;
      }
    }
  }

  /** No two tiles of the set are neighbours. */
  ghost predicate NoNeighbours(tiles: set<Tile>)
  {
    forall a, b :: a in tiles && b in tiles ==> !IsNeighbour(a, b)
  }

  /** Two neighbouring tiles of the input always land in the same cluster:
      the input has neighbouring tiles iff some cluster has. */
  lemma NeighboursWithinClusters(parts: seq<set<Tile>>, tiles: set<Tile>)
    requires IsClustering(parts, tiles)
    ensures NoNeighbours(tiles) <==> forall i :: 0 <= i < |parts| ==> NoNeighbours(parts[i])
  {
    if !NoNeighbours(tiles) {
      var a, b :| a in tiles && b in tiles && IsNeighbour(a, b);
      UnionMember(parts, a);
      UnionMember(parts, b);
      var i :| 0 <= i < |parts| && a in parts[i];
      var j :| 0 <= j < |parts| && b in parts[j];
      assert i == j;
      assert !NoNeighbours(parts[i]);
    } else {
      forall i | 0 <= i < |parts| ensures NoNeighbours(parts[i]) {
        PartInUnion(parts, i);
      }
    }
  }
}
