/** Tile identifiers and the set of tiles one viewport needs. Columns wrap
    around the world horizontally; rows outside the world are never requested. */
module Tiles {
  import opened MapMath

  /** `${zoom}-${wrappedX}-${y}`, the key a tile element is found by. */
  datatype TileKey = TileKey(zoom: int, x: int, y: int)

  /** A tile element of the tile layer: `id` stands for the element's identity
      (an image that has been created and is loading or loaded), `left`/`top`
      for its `translate(...)` offset. Its image source is determined by its key. */
  datatype Tile = Tile(id: nat, left: real, top: real)

  /** `Math.floor(coord / TILE_SIZE)`: the index of the tile containing `coord`. */
  function TileIndexOf(coord: real): (i: int)
    ensures (i * TILE_SIZE) as real <= coord < ((i + 1) * TILE_SIZE) as real
  {
    (coord / TILE_SIZE as real).Floor
  }

  /** The keys of one column `wx` over the rows `[startY, endY]` that lie inside the world. */
  function RowKeys(zoom: nat, wx: int, startY: int, endY: int): (keys: set<TileKey>)
    ensures forall k :: k in keys <==> k.zoom == zoom && k.x == wx && startY <= k.y <= endY && 0 <= k.y < Pow2(zoom)
  {
    set y | startY <= y <= endY && 0 <= y < Pow2(zoom) :: TileKey(zoom, wx, y)
  }

  /** The keys needed for columns `[startX, endX]` and rows `[startY, endY]`:
      every column wrapped, rows outside the world dropped. */
  function NeededKeys(zoom: nat, startX: int, endX: int, startY: int, endY: int): (keys: set<TileKey>)
    ensures forall k :: k in keys ==>
      k.zoom == zoom && 0 <= k.x < Pow2(zoom) && startY <= k.y <= endY && 0 <= k.y < Pow2(zoom)
  {
    set x, y | startX <= x <= endX && startY <= y <= endY && 0 <= y < Pow2(zoom)
      :: TileKey(zoom, WrapTileIndex(x, zoom), y)
  }

  /** The last column of `(.., endX]` that wraps to `wx`. */
  function LastColumn(endX: int, wx: int, zoom: nat): (c: int)
    ensures endX - Pow2(zoom) < c <= endX
  {
    endX - (endX - wx) % Pow2(zoom)
  }

  /** `LastColumn(endX, wx, zoom)` is the largest column up to `endX` whose
      wrapped index is `wx`: the column whose offset a tile keeps when several
      columns of a wide viewport share its key. */
  lemma LastColumnIsLast(endX: int, wx: int, zoom: nat, x: int)
    requires 0 <= wx < Pow2(zoom)
    ensures LastColumn(endX, wx, zoom) <= endX
    ensures WrapTileIndex(LastColumn(endX, wx, zoom), zoom) == wx
    ensures x <= endX && WrapTileIndex(x, zoom) == wx ==> x <= LastColumn(endX, wx, zoom)
  {
    LastBelow(endX, wx, Pow2(zoom), x);
  }

  /** `e - (e - w) % m` is the largest number up to `e` congruent to `w`. */
  lemma LastBelow(e: int, w: int, m: int, x: int)
    requires 0 <= w < m
    ensures (e - (e - w) % m) % m == w
    ensures x <= e && x % m == w ==> x <= e - (e - w) % m
  {
    var q, r := (e - w) / m, (e - w) % m;
    assert e - w == q * m + r;
    assert e - r == q * m + w;
    ModUnique(q * m + w, m, q, w);
    if x <= e && x % m == w {
      var p := x / m;
      assert x == p * m + w;
      ModUnique(x - w, m, p, 0);
      ColumnBelowLast(e - w, x - w, m);
    }
  }

  /** With `e = q*m + r` and `d` a multiple of `m` that is at most `e`,
      `d <= e - r`. */
  lemma ColumnBelowLast(e: int, d: int, m: int)
    requires m > 0 && d <= e && d % m == 0
    ensures d <= e - e % m
  {
    var q, r := e / m, e % m;
    var p := d / m;
    assert e == q * m + r;
    assert d == p * m;
    if p > q {
      MultipleAtLeast(p - q, m);
      assert false;
    }
    assert q * m - p * m == (q - p) * m;
    assert (q - p) * m >= 0;
  }

  /** Moving the last column one step right: column `c` wraps to `wx` and is
      then the last one, or it does not and the last one stays where it was. */
  lemma LastColumnStep(c: int, wx: int, zoom: nat)
    requires 0 <= wx < Pow2(zoom)
    ensures WrapTileIndex(c, zoom) == wx ==> LastColumn(c, wx, zoom) == c
    ensures WrapTileIndex(c, zoom) != wx ==> LastColumn(c, wx, zoom) == LastColumn(c - 1, wx, zoom)
  {
    var l1 := LastColumn(c, wx, zoom);
    LastColumnIsLast(c, wx, zoom, c);
    if WrapTileIndex(c, zoom) != wx {
      assert l1 != c;
      var l0 := LastColumn(c - 1, wx, zoom);
      LastColumnIsLast(c - 1, wx, zoom, l1);
      assert l1 <= l0;
      LastColumnIsLast(c, wx, zoom, l0);
      assert l0 <= l1;
    }
  }

  /** A key is needed exactly when its zoom is the current one, its row lies in
      the row range and the world, its column is a wrapped index, and some column
      of the range, the last one before `endX`, wraps to it. */
  lemma {:induction false} NeededKeysMembers(k: TileKey, zoom: nat, startX: int, endX: int, startY: int, endY: int)
    ensures k in NeededKeys(zoom, startX, endX, startY, endY) <==>
      k.zoom == zoom && 0 <= k.x < Pow2(zoom) && startX <= LastColumn(endX, k.x, zoom)
      && startY <= k.y <= endY && 0 <= k.y < Pow2(zoom)
  {
    if k in NeededKeys(zoom, startX, endX, startY, endY) {
      var x, y :| startX <= x <= endX && startY <= y <= endY && 0 <= y < Pow2(zoom)
        && k == TileKey(zoom, WrapTileIndex(x, zoom), y);
      LastColumnIsLast(endX, k.x, zoom, x);
    }
    if k.zoom == zoom && 0 <= k.x < Pow2(zoom) && startX <= LastColumn(endX, k.x, zoom)
      && startY <= k.y <= endY && 0 <= k.y < Pow2(zoom) {
      var x := LastColumn(endX, k.x, zoom);
      LastColumnIsLast(endX, k.x, zoom, x);
      assert k == TileKey(zoom, WrapTileIndex(x, zoom), k.y);
    }
  }

  /** Adding column `x` to the range adds that column's row keys. */
  lemma NeededKeysStep(zoom: nat, startX: int, x: int, startY: int, endY: int)
    requires startX <= x
    ensures NeededKeys(zoom, startX, x, startY, endY)
         == NeededKeys(zoom, startX, x - 1, startY, endY) + RowKeys(zoom, WrapTileIndex(x, zoom), startY, endY)
  {
    NeededKeysStepCovered(zoom, startX, x, startY, endY);
    NeededKeysStepKept(zoom, startX, x, startY, endY);
  }

  /** Every key of the longer range is old or in the new column. */
  lemma NeededKeysStepCovered(zoom: nat, startX: int, x: int, startY: int, endY: int)
    ensures NeededKeys(zoom, startX, x, startY, endY)
         <= NeededKeys(zoom, startX, x - 1, startY, endY) + RowKeys(zoom, WrapTileIndex(x, zoom), startY, endY)
  {
    forall k | k in NeededKeys(zoom, startX, x, startY, endY)
      ensures k in NeededKeys(zoom, startX, x - 1, startY, endY) + RowKeys(zoom, WrapTileIndex(x, zoom), startY, endY)
    {
      var x', y :| startX <= x' <= x && startY <= y <= endY && 0 <= y < Pow2(zoom)
        && k == TileKey(zoom, WrapTileIndex(x', zoom), y);
      if x' < x {
        assert k in NeededKeys(zoom, startX, x - 1, startY, endY);
      }
    }
  }

  /** The old keys and the new column's keys are all in the longer range. */
  lemma NeededKeysStepKept(zoom: nat, startX: int, x: int, startY: int, endY: int)
    requires startX <= x
    ensures NeededKeys(zoom, startX, x - 1, startY, endY) + RowKeys(zoom, WrapTileIndex(x, zoom), startY, endY)
         <= NeededKeys(zoom, startX, x, startY, endY)
  {
    forall k | k in RowKeys(zoom, WrapTileIndex(x, zoom), startY, endY)
      ensures k in NeededKeys(zoom, startX, x, startY, endY)
    {
      assert k == TileKey(zoom, WrapTileIndex(x, zoom), k.y);
    }
    forall k | k in NeededKeys(zoom, startX, x - 1, startY, endY)
      ensures k in NeededKeys(zoom, startX, x, startY, endY)
    {
      var x', y :| startX <= x' <= x - 1 && startY <= y <= endY && 0 <= y < Pow2(zoom)
        && k == TileKey(zoom, WrapTileIndex(x', zoom), y);
      assert startX <= x' <= x;
    }
  }

  /** An empty column range needs no tiles. */
  lemma NeededKeysEmpty(zoom: nat, startX: int, endX: int, startY: int, endY: int)
    requires endX < startX
    ensures NeededKeys(zoom, startX, endX, startY, endY) == {}
  {
    forall k | k in NeededKeys(zoom, startX, endX, startY, endY) ensures false {
      NeededKeysMembers(k, zoom, startX, endX, startY, endY);
      LastColumnIsLast(endX, k.x, zoom, endX);
    }
  }

  /** A viewport at least one world wide needs every column of the world on
      each visible row. */
  lemma WideViewportNeedsEveryColumn(zoom: nat, startX: int, endX: int, startY: int, endY: int, wx: int, y: int)
    requires endX - startX + 1 >= Pow2(zoom)
    requires 0 <= wx < Pow2(zoom) && startY <= y <= endY && 0 <= y < Pow2(zoom)
    ensures TileKey(zoom, wx, y) in NeededKeys(zoom, startX, endX, startY, endY)
  {
    NeededKeysMembers(TileKey(zoom, wx, y), zoom, startX, endX, startY, endY);
  }
}
