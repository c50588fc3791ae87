/** The tiles of a rectangle of coordinates: all pairs, sorted, with duplicates erased. */
module QuadTileArea {
  import opened QuadTile
  import opened Sorting

  /** A rectangle of 16-bit tile coordinates, bounds included. */
  datatype Area = Area(minx: nat, maxx: nat, miny: nat, maxy: nat) {
    predicate Valid() { minx <= maxx < 0x1_0000 && miny <= maxy < 0x1_0000 }

    /** Read off the tile number alone: its two coordinates lie within the bounds. */
    predicate Has(t: nat) {
      t < TILES && minx <= TileX(t) <= maxx && miny <= TileY(t) <= maxy
    }
  }

  predicate AtMost(a: nat, b: nat) { a <= b }

  predicate StrictlyIncreasing(s: seq<nat>) { forall i, j :: 0 <= i < j < |s| ==> s[i] < s[j] }

  lemma {:induction false} SameCoordinates(x: nat, y: nat, t: nat)
    requires t < TILES && TileX(t) == x && TileY(t) == y
    ensures t == Tile(x, y)
  {
    TileIsBijective(0, 0, t);
  }

  /** An area of one point has one tile. */
  lemma {:induction false} OnePoint(x: nat, y: nat, t: nat)
    requires Area(x, x, y, y).Has(t)
    ensures t == Tile(x, y)
  {
    SameCoordinates(x, y, t);
  }

  // ---------- The nested loops ----------

  /** The tile `t` comes before the pair `(x, y)` in the order of the loops. */
  predicate Done(a: Area, x: nat, y: nat, t: nat) {
    t < TILES && a.miny <= TileY(t) <= a.maxy
    && (a.minx <= TileX(t) < x || (TileX(t) == x && TileY(t) < y))
  }

  ghost predicate ExactlyDone(tiles: seq<nat>, a: Area, x: nat, y: nat) {
    && (forall i :: 0 <= i < |tiles| ==> Done(a, x, y, tiles[i]))
    && (forall t: nat :: Done(a, x, y, t) ==> t in tiles)
    && NoDuplicates(tiles)
  }

  lemma {:induction false} DoneNext(a: Area, x: nat, y: nat, t: nat)
    requires a.Valid() && a.minx <= x <= a.maxx && a.miny <= y <= a.maxy
    ensures Done(a, x, y + 1, t) <==> Done(a, x, y, t) || t == Tile(x, y)
    ensures !Done(a, x, y, Tile(x, y))
  {
    TileIsBijective(x, y, t);
  }

  lemma {:induction false} NextDone(tiles: seq<nat>, a: Area, x: nat, y: nat)
    requires a.Valid() && a.minx <= x <= a.maxx && a.miny <= y <= a.maxy
    requires ExactlyDone(tiles, a, x, y)
    ensures ExactlyDone(tiles + [Tile(x, y)], a, x, y + 1)
  {
    var more := tiles + [Tile(x, y)];
    DoneNext(a, x, y, Tile(x, y));
    forall i | 0 <= i < |more|
      ensures Done(a, x, y + 1, more[i])
    {
      DoneNext(a, x, y, more[i]);
    }
    forall t: nat | Done(a, x, y + 1, t)
      ensures t in more
    {
      DoneNext(a, x, y, t);
    }
    assert NoDuplicates(more);
  }

  lemma {:induction false} NextProduct(n: int, width: int)
    ensures (n + 1) * width == n * width + width
  {
  }

  method Generate(a: Area) returns (tiles: seq<nat>)
    requires a.Valid()
    ensures |tiles| == (a.maxx - a.minx + 1) * (a.maxy - a.miny + 1)
    ensures NoDuplicates(tiles) && forall t: nat :: t in tiles <==> a.Has(t)
  {
    tiles := [];
    var x := a.minx;
    while x <= a.maxx
      invariant a.minx <= x <= a.maxx + 1
      invariant |tiles| == (x - a.minx) * (a.maxy - a.miny + 1)
      invariant ExactlyDone(tiles, a, x, a.miny)
    {
      ghost var before := |tiles|;
      NextProduct(x - a.minx, a.maxy - a.miny + 1);
      var y := a.miny;
      while y <= a.maxy
        invariant a.miny <= y <= a.maxy + 1
        invariant |tiles| == before + (y - a.miny)
        invariant ExactlyDone(tiles, a, x, y)
      {
        NextDone(tiles, a, x, y);
        var tile := Xy2Tile(x, y);
        tiles := tiles + [tile];
        y := y + 1;
      }
      NextColumn(tiles, a, x);
      x := x + 1;
    }
    AllDone(tiles, a);
  }

  lemma {:induction false} NextColumn(tiles: seq<nat>, a: Area, x: nat)
    requires a.Valid() && x >= a.minx && ExactlyDone(tiles, a, x, a.maxy + 1)
    ensures ExactlyDone(tiles, a, x + 1, a.miny)
  {
    forall t: nat | Done(a, x + 1, a.miny, t)
      ensures t in tiles
    {
      assert Done(a, x, a.maxy + 1, t);
    }
  }

  lemma {:induction false} AllDone(tiles: seq<nat>, a: Area)
    requires a.Valid() && ExactlyDone(tiles, a, a.maxx + 1, a.miny)
    ensures forall t: nat :: t in tiles <==> a.Has(t)
  {
    forall t: nat
      ensures t in tiles <==> a.Has(t)
    {
      assert Done(a, a.maxx + 1, a.miny, t) <==> a.Has(t);
    }
  }

  /** Strictly increasing, exactly the tiles whose coordinates lie in the area, and as many as the area has points. */
  method TilesOfArea(a: Area) returns (tiles: seq<nat>)
    requires a.Valid()
    ensures StrictlyIncreasing(tiles)
    ensures forall t: nat :: t in tiles <==> a.Has(t)
    ensures |tiles| == (a.maxx - a.minx + 1) * (a.maxy - a.miny + 1)
  {
    var all := Generate(a);
    var sorted := Sort(AtMost, all);
    PermutedNoDuplicates(all, sorted);
    tiles := Unique(AtMost, sorted);
    SortedIncreases(tiles);
    forall t: nat
      ensures t in tiles <==> a.Has(t)
    {
      assert t in multiset(sorted) <==> t in multiset(all);
    }
  }

  lemma {:induction false} SortedIncreases(s: seq<nat>)
    requires Sorted(AtMost, s) && NoDuplicates(s)
    ensures StrictlyIncreasing(s)
  {
    forall i, j | 0 <= i < j < |s|
      ensures s[i] < s[j]
    {
      assert AtMost(s[i], s[j]);
    }
  }
}
