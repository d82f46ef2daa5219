/** `Square`: an axis-aligned block of tiles given by its top-left tile and its
    side length, and the search for the biggest block inside a tile set. */
module Squares {
  import opened Tiles

  datatype Option<T> = None | Some(value: T)

  /** The tiles of one row: x, x + 1, ..., x + w - 1 on row y. */
  function Row(x: int, y: int, w: int): set<Tile>
    decreases w
  {
    if w <= 0 then {} else Row(x, y, w - 1) + {Tile(x + w - 1, y)}
  }

  /** The tiles of h rows of width w, starting at (x, y). */
  function Block(x: int, y: int, w: int, h: int): set<Tile>
    decreases h
  {
    if h <= 0 then {} else Block(x, y, w, h - 1) + Row(x, y + h - 1, w)
  }

  lemma {:induction false} RowMembers(x: int, y: int, w: int, t: Tile)
    ensures t in Row(x, y, w) <==> x <= t.x < x + w && t.y == y
    decreases w
  {
    if w > 0 {
      RowMembers(x, y, w - 1, t);
    }
  }

  lemma {:induction false} BlockMembers(x: int, y: int, w: int, h: int, t: Tile)
    ensures t in Block(x, y, w, h) <==> x <= t.x < x + w && y <= t.y < y + h
    decreases h
  {
    if h > 0 {
      BlockMembers(x, y, w, h - 1, t);
      RowMembers(x, y + h - 1, w, t);
    }
  }

  lemma {:induction false} RowSize(x: int, y: int, w: int)
    requires w >= 0
    ensures |Row(x, y, w)| == w
    decreases w
  {
    if w > 0 {
      RowSize(x, y, w - 1);
      RowMembers(x, y, w - 1, Tile(x + w - 1, y));
    }
  }

  lemma {:induction false} BlockSize(x: int, y: int, w: int, h: int)
    requires w >= 0 && h >= 0
    ensures |Block(x, y, w, h)| == w * h
    decreases h
  {
    if h > 0 {
      BlockSize(x, y, w, h - 1);
      RowSize(x, y + h - 1, w);
      BlockRowDisjoint(x, y, w, h);
      MulStep(w, h);
    }
  }

  lemma BlockRowDisjoint(x: int, y: int, w: int, h: int)
    ensures Block(x, y, w, h - 1) !! Row(x, y + h - 1, w)
  {
    var row, upper := Row(x, y + h - 1, w), Block(x, y, w, h - 1);
    forall t | t in row ensures t !in upper {
      RowMembers(x, y + h - 1, w, t);
      BlockMembers(x, y, w, h - 1, t);
    }
  }

  lemma MulStep(w: int, h: int)
    ensures w * (h - 1) + w == w * h
  {
  }

  datatype Square = Square(x: int, y: int, size: int)
  {
    /** `isInside(tile)`. */
    predicate IsInside(t: Tile)
    {
      t.x >= x && t.x < x + size && t.y >= y && t.y < y + size
    }

    /** The size × size tiles of the square. */
    function Footprint(): set<Tile>
    {
      Block(x, y, size, size)
    }

    /** `getAllTiles`: fills the set column by column, x + i outer and
        y + j inner. The result holds exactly the tiles `isInside` accepts,
        size² of them (none when the size is not positive). */
    method GetAllTiles() returns (r: set<Tile>)
      ensures forall t :: t in r <==> IsInside(t)
      ensures |r| == if size > 0 then size * size else 0
    {
      r := {};
      var i := 0;
      while i < size
        invariant 0 <= i <= if size > 0 then size else 0
        invariant forall t :: t in r <==> x <= t.x < x + i && y <= t.y < y + size
        invariant |r| == i * size
      {
        var j := 0;
        while j < size
          invariant 0 <= j <= size
          invariant forall t :: t in r <==>
            (x <= t.x < x + i && y <= t.y < y + size) || (t.x == x + i && y <= t.y < y + j)
          invariant |r| == i * size + j
        {
          assert Tile(x + i, y + j) !in r;
          r := r + {Tile(x + i, y + j)};
          j := j + 1;
        }
        assert (i + 1) * size == i * size + size;
        i := i + 1;
      }
    }
  }

  /** The square's footprint is exactly what `isInside` accepts, and it holds
      size² tiles. */
  lemma FootprintSpec(sq: Square)
    ensures forall t :: t in sq.Footprint() <==> sq.IsInside(t)
    ensures sq.size >= 0 ==> |sq.Footprint()| == sq.size * sq.size
  {
    forall t ensures t in sq.Footprint() <==> sq.IsInside(t) {
      BlockMembers(sq.x, sq.y, sq.size, sq.size, t);
    }
    if sq.size >= 0 {
      BlockSize(sq.x, sq.y, sq.size, sq.size);
    }
  }

  /** Tile (t.x + i, t.y + j) is in the set. */
  predicate Has(tiles: set<Tile>, t: Tile, i: int, j: int)
  {
    Tile(t.x + i, t.y + j) in tiles
  }

  /** The completeness check of `getBiggestSquare`: every tile of the s × s
      square with top-left tile t is in the set. */
  function SquareComplete(tiles: set<Tile>, t: Tile, s: int): (r: bool)
    ensures r <==> Square(t.x, t.y, s).Footprint() <= tiles
  {
    CompleteIffFootprint(tiles, t, s);
    forall i, j | 0 <= i < s && 0 <= j < s :: Has(tiles, t, i, j)
  }

  lemma CompleteIffFootprint(tiles: set<Tile>, t: Tile, s: int)
    ensures (forall i, j | 0 <= i < s && 0 <= j < s :: Has(tiles, t, i, j)) <==>
      Square(t.x, t.y, s).Footprint() <= tiles
  {
    var sq := Square(t.x, t.y, s);
    FootprintSpec(sq);
    if forall i, j | 0 <= i < s && 0 <= j < s :: Has(tiles, t, i, j) {
      forall u | u in sq.Footprint() ensures u in tiles {
        assert Has(tiles, t, u.x - t.x, u.y - t.y);
      }
    }
    if sq.Footprint() <= tiles {
      forall i, j | 0 <= i < s && 0 <= j < s ensures Has(tiles, t, i, j) {
        assert sq.IsInside(Tile(t.x + i, t.y + j));
      }
    }
  }

  /** Completeness is downward closed: a complete square contains complete
      smaller squares with the same top-left tile. */
  lemma CompleteDownward(tiles: set<Tile>, t: Tile, s1: int, s2: int)
    requires s1 <= s2 && SquareComplete(tiles, t, s2)
    ensures SquareComplete(tiles, t, s1)
  {
    FootprintSpec(Square(t.x, t.y, s1));
    FootprintSpec(Square(t.x, t.y, s2));
  }

  /** A complete s × s square needs s² distinct tiles of the set, which bounds
      the growth loop of `getBiggestSquare`. */
  lemma CompleteBound(tiles: set<Tile>, t: Tile, s: int)
    requires s >= 0 && SquareComplete(tiles, t, s)
    ensures s * s <= |tiles|
  {
    var fp := Square(t.x, t.y, s).Footprint();
    FootprintSpec(Square(t.x, t.y, s));
    assert tiles == fp + (tiles - fp);
    assert |tiles| == |fp| + |tiles - fp|;
  }

  lemma SquareAtMostArea(s: int, n: int)
    requires s >= 1 && s * s <= n
    ensures s <= n
  {
    assert s <= s * s;
  }

  /** The search state after the corners `done` (in visiting order): the best
      square is the biggest complete square at any of them, the first found
      among equals, and none exactly when nothing was visited. */
  ghost predicate BestSoFar(tiles: set<Tile>, done: seq<Tile>, best: Option<Square>, bestIndex: int)
  {
    && (best.None? <==> done == [])
    && (best.Some? ==>
          var b := best.value;
          && b.size >= 1
          && 0 <= bestIndex < |done| && done[bestIndex] == Tile(b.x, b.y)
          && SquareComplete(tiles, Tile(b.x, b.y), b.size)
          && (forall k, s :: 0 <= k < |done| && s > b.size ==> !SquareComplete(tiles, done[k], s))
          && (forall k :: 0 <= k < bestIndex ==> !SquareComplete(tiles, done[k], b.size)))
  }

  /** Visiting one more corner whose biggest complete square has side m
      (complete at m, not at m + 1) keeps `BestSoFar`, when the best is
      replaced exactly if there was none or m is strictly bigger. */
  lemma BestStep(tiles: set<Tile>, done: seq<Tile>, best: Option<Square>, bestIndex: int,
                 tile: Tile, m: int, best': Option<Square>, bestIndex': int)
    requires BestSoFar(tiles, done, best, bestIndex)
    requires m >= 1 && SquareComplete(tiles, tile, m) && !SquareComplete(tiles, tile, m + 1)
    requires best' == (if best.None? || m > best.value.size then Some(Square(tile.x, tile.y, m)) else best)
    requires bestIndex' == (if best.None? || m > best.value.size then |done| else bestIndex)
    ensures BestSoFar(tiles, done + [tile], best', bestIndex')
  {
    var done' := done + [tile];
    var b := best'.value;
    forall k, s | 0 <= k < |done'| && s > b.size ensures !SquareComplete(tiles, done'[k], s) {
      if k == |done| {
        if SquareComplete(tiles, tile, s) {
          CompleteDownward(tiles, tile, m + 1, s);
        }
      } else {
        assert done'[k] == done[k];
      }
    }
    forall k | 0 <= k < bestIndex' ensures !SquareComplete(tiles, done'[k], b.size) {
      assert done'[k] == done[k];
    }
  }

  /** The growth loop of `getBiggestSquare` for one top-left tile of the set:
      s grows from 1 while the s × s square is complete, and each complete
      square replaces the best one when there is none or it is strictly
      bigger. It stops at the first incomplete size: `m` is the biggest
      complete size, at least 1, and the best square is updated exactly as
      if only the m × m square had been offered. */
  method GrowFrom(tiles: set<Tile>, tile: Tile, before: Option<Square>) returns (bestSquare: Option<Square>, m: int)
    requires tile in tiles
    ensures m >= 1 && SquareComplete(tiles, tile, m) && !SquareComplete(tiles, tile, m + 1)
    ensures bestSquare == if before.None? || m > before.value.size then Some(Square(tile.x, tile.y, m)) else before
  {
    bestSquare := before;
    var s := 1;
    assert SquareComplete(tiles, tile, 0) by {
      FootprintSpec(Square(tile.x, tile.y, 0));
    }
    assert SquareComplete(tiles, tile, 1) by {
      FootprintSpec(Square(tile.x, tile.y, 1));
      assert Tile(tile.x, tile.y) == tile;
    }
    while true
      invariant s >= 1 && SquareComplete(tiles, tile, s - 1)
      invariant SquareComplete(tiles, tile, 1)
      invariant (s - 1) * (s - 1) <= |tiles|
      invariant bestSquare == if s - 1 >= 1 && (before.None? || s - 1 > before.value.size)
        then Some(Square(tile.x, tile.y, s - 1)) else before
      decreases |tiles| + 1 - s
    {
      var squareComplete := SquareComplete(tiles, tile, s);
      if squareComplete {
        if bestSquare.None? || s > bestSquare.value.size {
          bestSquare := Some(Square(tile.x, tile.y, s));
        }
        CompleteBound(tiles, tile, s);
        SquareAtMostArea(s, |tiles|);
        s := s + 1;
      } else {
        break;
      }
    }
    m := s - 1;
  }

  /** Once every tile was visited, `BestSoFar` is the promise of
      `getBiggestSquare` about a non-empty set. */
  lemma BestFinal(tiles: set<Tile>, order: seq<Tile>, best: Option<Square>, bestIndex: int)
    requires forall t :: t in order <==> t in tiles
    requires tiles != {} && BestSoFar(tiles, order, best, bestIndex)
    ensures best.Some?
    ensures Tile(best.value.x, best.value.y) in tiles && best.value.Footprint() <= tiles
    ensures forall t, s :: t in tiles && s > best.value.size ==> !SquareComplete(tiles, t, s)
  {
    assert order != [] by {
      var t :| t in tiles;
      assert t in order;
    }
    var b := best.value;
    FootprintSpec(b);
    assert Tile(b.x, b.y) in tiles by {
      assert order[bestIndex] in order;
    }
    forall t, s | t in tiles && s > b.size ensures !SquareComplete(tiles, t, s) {
      assert t in order;
      var k :| 0 <= k < |order| && order[k] == t;
    }
  }

  /** `getBiggestSquare`: none for an empty set; otherwise every tile in turn
      (`order` records the set's iteration order) is the top-left corner of a
      square grown from side 1 while it stays complete, and a square replaces
      the best one only when strictly bigger. The result is a complete square
      of side at least 1 at a tile of the set, no complete square at any tile
      is bigger, and it is the first in visiting order with its size. */
  method GetBiggestSquare(tiles: set<Tile>) returns (bestSquare: Option<Square>, ghost order: seq<Tile>)
    ensures bestSquare.None? <==> tiles == {}
    ensures forall t :: t in order <==> t in tiles
    ensures forall i, j :: 0 <= i < j < |order| ==> order[i] != order[j]
    ensures bestSquare.Some? ==>
      var b := bestSquare.value;
      b.size >= 1 && Tile(b.x, b.y) in tiles && b.Footprint() <= tiles
    ensures bestSquare.Some? ==>
      forall t, s :: t in tiles && s > bestSquare.value.size ==> !SquareComplete(tiles, t, s)
    ensures bestSquare.Some? ==>
      var b := bestSquare.value;
      exists k :: 0 <= k < |order| && order[k] == Tile(b.x, b.y) &&
        forall k' :: 0 <= k' < k ==> !SquareComplete(tiles, order[k'], b.size)
  {
    order := [];
    if tiles == {} {
      return None, order;
    }
    bestSquare := None;
    ghost var bestIndex := 0;
    var todo := tiles;
    while todo != {}
      invariant todo <= tiles
      invariant forall t :: t in order <==> t in tiles - todo
      invariant forall i, j :: 0 <= i < j < |order| ==> order[i] != order[j]
      invariant BestSoFar(tiles, order, bestSquare, bestIndex)
      decreases |todo|
    {
      var tile :| tile in todo;
      ghost var before, beforeIndex := bestSquare, bestIndex;
      var m;
      bestSquare, m := GrowFrom(tiles, tile, bestSquare);
      bestIndex := if before.None? || m > before.value.size then |order| else beforeIndex;
      BestStep(tiles, order, before, beforeIndex, tile, m, bestSquare, bestIndex);
      VisitStep(tiles, todo, order, tile);
      order := order + [tile];
      todo := todo - {tile};
    }
    assert tiles - todo == tiles;
    BestFinal(tiles, order, bestSquare, bestIndex);
  }

  /** Visiting one more tile of `todo` keeps `order` a repetition-free
      listing of the visited tiles. */
  lemma VisitStep(tiles: set<Tile>, todo: set<Tile>, order: seq<Tile>, tile: Tile)
    requires tile in todo && todo <= tiles
    requires forall t :: t in order <==> t in tiles - todo
    requires forall i, j :: 0 <= i < j < |order| ==> order[i] != order[j]
    ensures forall t :: t in order + [tile] <==> t in tiles - (todo - {tile})
    ensures forall i, j :: 0 <= i < j < |order + [tile]| ==> (order + [tile])[i] != (order + [tile])[j]
  {
    assert tile !in order;
  }
}
