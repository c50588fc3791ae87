/**
 The box query on current nodes: a plain comparison of stored coordinates, with `tile = ANY(tiles)` added so that the
 tile index can be used. The index must not change the answer.
 */
module QuadTileIndex {
  import opened QuadTile
  import opened QuadTileArea

  // ---------- Coordinates ----------

  /** `round` on non-negative values. */
  function RoundHalfUp(r: real): int { (r + 0.5).Floor }

  /** `round` on all values: halves away from zero. */
  function RoundAway(r: real): int { if r >= 0.0 then RoundHalfUp(r) else -RoundHalfUp(-r) }

  /** Conversion to an integer type: towards zero. */
  function Truncate(r: real): int { if r >= 0.0 then r.Floor else -(-r).Floor }

  predicate InWorld(lat: real, lon: real) { -90.0 <= lat <= 90.0 && -180.0 <= lon <= 180.0 }

  function Lon2x(lon: real): (x: nat)
    requires -180.0 <= lon <= 180.0
    ensures x < 0x1_0000
    ensures -180.0 <= (lon + 180.0) * 65535.0 - x as real * 360.0 < 180.0
  {
    RoundHalfUp((lon + 180.0) * 65535.0 / 360.0)
  }

  function Lat2y(lat: real): (y: nat)
    requires -90.0 <= lat <= 90.0
    ensures y < 0x1_0000
    ensures -90.0 <= (lat + 90.0) * 65535.0 - y as real * 180.0 < 90.0
  {
    RoundHalfUp((lat + 90.0) * 65535.0 / 180.0)
  }

  /** Rounding to the nearest whole number, upwards and away from zero in the middle, and cutting off. */
  lemma {:induction false} Rounding(r: real)
    ensures r >= 0.0 ==> -0.5 < RoundHalfUp(r) as real - r <= 0.5
    ensures -0.5 <= RoundAway(r) as real - r <= 0.5
    ensures RoundAway(r) as real - r == 0.5 ==> r >= 0.0
    ensures RoundAway(r) as real - r == -0.5 ==> r < 0.0
    ensures r >= 0.0 ==> 0.0 <= r - Truncate(r) as real < 1.0
    ensures r <= 0.0 ==> -1.0 < r - Truncate(r) as real <= 0.0
  {
  }

  /** Half the height of a tile in degrees; the first and the last row are centred on the poles. */
  const HALF_ROW: real := 90.0 / 65535.0

  const HALF_COLUMN: real := 180.0 / 65535.0

  function RowCentre(y: int): real { -90.0 + y as real * 180.0 / 65535.0 }

  function ColumnCentre(x: int): real { -180.0 + x as real * 360.0 / 65535.0 }

  /** The row of a latitude is the one whose centre is within half a row of it. */
  lemma {:induction false} RowExactly(lat: real, y: int)
    requires -90.0 <= lat <= 90.0
    ensures Lat2y(lat) == y <==> -HALF_ROW <= lat - RowCentre(y) < HALF_ROW
  {
    var r := (lat + 90.0) * 65535.0 / 180.0;
    assert lat - RowCentre(y) == (r - y as real) * 180.0 / 65535.0;
    NearestHalfUp(r, y);
  }

  lemma {:induction false} ColumnExactly(lon: real, x: int)
    requires -180.0 <= lon <= 180.0
    ensures Lon2x(lon) == x <==> -HALF_COLUMN <= lon - ColumnCentre(x) < HALF_COLUMN
  {
    var r := (lon + 180.0) * 65535.0 / 360.0;
    assert lon - ColumnCentre(x) == (r - x as real) * 360.0 / 65535.0;
    NearestHalfUp(r, x);
  }

  lemma {:induction false} NearestHalfUp(r: real, n: int)
    requires r >= 0.0
    ensures RoundHalfUp(r) == n <==> -0.5 <= r - n as real < 0.5
  {
  }

  /** Rows run from the south pole to the north pole, columns from the antimeridian eastward to it. */
  lemma {:induction false} WorldCorners()
    ensures Lat2y(-90.0) == 0 && Lat2y(90.0) == 65535
    ensures Lon2x(-180.0) == 0 && Lon2x(180.0) == 65535
  {
  }

  /** Rounding to tiles keeps the order. */
  lemma {:induction false} CoordinatesMonotone(lat0: real, lon0: real, lat1: real, lon1: real)
    requires InWorld(lat0, lon0) && InWorld(lat1, lon1)
    ensures lon0 <= lon1 ==> Lon2x(lon0) <= Lon2x(lon1)
    ensures lat0 <= lat1 ==> Lat2y(lat0) <= Lat2y(lat1)
  {
  }

  function TileAt(lat: real, lon: real): nat
    requires InWorld(lat, lon)
  {
    Tile(Lon2x(lon), Lat2y(lat))
  }

  // ---------- Boxes ----------

  datatype Bounds = Bounds(minlat: real, minlon: real, maxlat: real, maxlon: real) {
    predicate Valid() {
      && -180.0 <= minlon <= 180.0 && -180.0 <= maxlon <= 180.0
      && -90.0 <= minlat <= 90.0 && -90.0 <= maxlat <= 90.0
      && minlon <= maxlon && minlat <= maxlat
    }

    predicate Contains(lat: real, lon: real) { minlat <= lat <= maxlat && minlon <= lon <= maxlon }
  }

  function AreaOf(b: Bounds): (a: Area)
    requires b.Valid()
    ensures a.Valid()
  {
    CoordinatesMonotone(b.minlat, b.minlon, b.maxlat, b.maxlon);
    Area(Lon2x(b.minlon), Lon2x(b.maxlon), Lat2y(b.minlat), Lat2y(b.maxlat))
  }

  /** The list of tiles of a valid box contains the tile of every point of the box. */
  lemma {:induction false} AreaCoversBox(b: Bounds, lat: real, lon: real)
    requires b.Valid() && b.Contains(lat, lon)
    ensures AreaOf(b).Has(TileAt(lat, lon))
  {
    CoordinatesMonotone(b.minlat, b.minlon, lat, lon);
    CoordinatesMonotone(lat, lon, b.maxlat, b.maxlon);
    TileIsBijective(Lon2x(lon), Lat2y(lat), 0);
  }

  /** A longitude of the box in a column between those of its bounds. */
  lemma {:induction false} ColumnHasPoint(b: Bounds, x: nat) returns (lon: real)
    requires b.Valid() && Lon2x(b.minlon) <= x <= Lon2x(b.maxlon)
    ensures b.minlon <= lon <= b.maxlon && Lon2x(lon) == x
  {
    lon := if x == Lon2x(b.minlon) then b.minlon else if x == Lon2x(b.maxlon) then b.maxlon else ColumnCentre(x);
    if lon == ColumnCentre(x) {
      ColumnExactly(lon, x);
      CoordinatesMonotone(0.0, b.minlon, 0.0, lon);
      CoordinatesMonotone(0.0, lon, 0.0, b.minlon);
      CoordinatesMonotone(0.0, b.maxlon, 0.0, lon);
      CoordinatesMonotone(0.0, lon, 0.0, b.maxlon);
    }
  }

  lemma {:induction false} RowHasPoint(b: Bounds, y: nat) returns (lat: real)
    requires b.Valid() && Lat2y(b.minlat) <= y <= Lat2y(b.maxlat)
    ensures b.minlat <= lat <= b.maxlat && Lat2y(lat) == y
  {
    lat := if y == Lat2y(b.minlat) then b.minlat else if y == Lat2y(b.maxlat) then b.maxlat else RowCentre(y);
    if lat == RowCentre(y) {
      RowExactly(lat, y);
      CoordinatesMonotone(b.minlat, 0.0, lat, 0.0);
      CoordinatesMonotone(lat, 0.0, b.minlat, 0.0);
      CoordinatesMonotone(b.maxlat, 0.0, lat, 0.0);
      CoordinatesMonotone(lat, 0.0, b.maxlat, 0.0);
    }
  }

  /** Some point of the box has the tile. */
  ghost predicate HasPointOf(b: Bounds, t: nat)
    requires b.Valid()
  {
    exists lat: real, lon: real :: b.Contains(lat, lon) && TileAt(lat, lon) == t
  }

  /** The area of a box has exactly the tiles of its points. */
  lemma {:induction false} AreaIsPointTiles(b: Bounds, t: nat)
    requires b.Valid()
    ensures AreaOf(b).Has(t) <==> HasPointOf(b, t)
  {
    if AreaOf(b).Has(t) {
      var lon := ColumnHasPoint(b, TileX(t));
      var lat := RowHasPoint(b, TileY(t));
      SameCoordinates(Lon2x(lon), Lat2y(lat), t);
      assert b.Contains(lat, lon) && TileAt(lat, lon) == t;
    }
    if HasPointOf(b, t) {
      var lat: real, lon: real :| b.Contains(lat, lon) && TileAt(lat, lon) == t;
      AreaCoversBox(b, lat, lon);
    }
  }

  /** Exactly the tiles that the points of a valid box have, in increasing order, and how many they are. */
  method TilesForArea(b: Bounds) returns (tiles: seq<nat>)
    requires b.Valid()
    ensures StrictlyIncreasing(tiles)
    ensures forall t: nat :: t in tiles <==> HasPointOf(b, t)
    ensures |tiles| == (Lon2x(b.maxlon) - Lon2x(b.minlon) + 1) * (Lat2y(b.maxlat) - Lat2y(b.minlat) + 1)
  {
    tiles := TilesOfArea(AreaOf(b));
    forall t: nat
      ensures t in tiles <==> HasPointOf(b, t)
    {
      AreaIsPointTiles(b, t);
    }
  }

  /** The whole world has every tile number. */
  lemma {:induction false} WholeWorld(b: Bounds, t: nat)
    requires b == Bounds(-90.0, -180.0, 90.0, 180.0)
    ensures b.Valid() && (AreaOf(b).Has(t) <==> t < 0x1_0000_0000)
  {
    WorldCorners();
    TileIsBijective(0, 0, t);
    if t < 0x1_0000_0000 {
      TileIsBijective(TileX(t), TileY(t), t);
    }
  }

  lemma {:induction false} WholeWorldSize()
    ensures (Lon2x(180.0) - Lon2x(-180.0) + 1) * (Lat2y(90.0) - Lat2y(-90.0) + 1) == 65536 * 65536
  {
    WorldCorners();
  }

  // ---------- The query ----------

  /** A row of current_nodes: coordinates as integers in units of 1/scale degrees. */
  datatype Row = Row(id: nat, tile: nat, lat: int, lon: int, visible: bool)

  function Degrees(scale: real, n: int): real
    requires scale > 0.0
  {
    n as real / scale
  }

  lemma {:induction false} SignOfProduct(d: real, s: real)
    requires s > 0.0
    ensures d * s >= 0.0 <==> d >= 0.0
  {
  }

  /** A bound and a stored coordinate compare in degrees as they do scaled up. */
  lemma {:induction false} ScaledOrder(scale: real, bound: real, n: int)
    requires scale > 0.0
    ensures bound <= Degrees(scale, n) <==> bound * scale <= n as real
    ensures Degrees(scale, n) <= bound <==> n as real <= bound * scale
    ensures Degrees(scale, n) * scale == n as real
  {
    var d := Degrees(scale, n);
    assert d * scale == n as real;
    SignOfProduct(d - bound, scale);
    SignOfProduct(bound - d, scale);
    assert (d - bound) * scale == d * scale - bound * scale;
    assert (bound - d) * scale == bound * scale - d * scale;
  }

  /** The row's own point lies in the world. */
  predicate RowInWorld(scale: real, row: Row)
    requires scale > 0.0
  {
    InWorld(Degrees(scale, row.lat), Degrees(scale, row.lon))
  }

  /** The tile stored with the row is the tile of its stored coordinates. */
  predicate TileConsistent(scale: real, row: Row)
    requires scale > 0.0 && RowInWorld(scale, row)
  {
    row.tile == TileAt(Degrees(scale, row.lat), Degrees(scale, row.lon))
  }

  /** One `BETWEEN` of the query; the bounds are scaled and converted to integers by the caller. */
  predicate Between(scale: real, lo: real, hi: real, n: int) { Truncate(lo * scale) <= n <= Truncate(hi * scale) }

  /** The query without its tile condition. */
  predicate PlainMatch(scale: real, b: Bounds, row: Row) {
    row.visible && Between(scale, b.minlat, b.maxlat, row.lat) && Between(scale, b.minlon, b.maxlon, row.lon)
  }

  predicate TileMatch(scale: real, b: Bounds, row: Row)
    requires b.Valid()
  {
    AreaOf(b).Has(row.tile) && PlainMatch(scale, b, row)
  }

  lemma {:induction false} TruncateBounds(r: real, n: int)
    ensures r <= n as real ==> Truncate(r) <= n
    ensures n as real <= r ==> n <= Truncate(r)
  {
  }

  lemma {:induction false} InsideIsBetween(scale: real, lo: real, hi: real, n: int)
    requires scale > 0.0 && lo <= Degrees(scale, n) <= hi
    ensures Between(scale, lo, hi, n)
  {
    ScaledOrder(scale, lo, n);
    ScaledOrder(scale, hi, n);
    TruncateBounds(lo * scale, n);
    TruncateBounds(hi * scale, n);
  }

  lemma {:induction false} GridIsExact(scale: real, n: int)
    requires scale > 0.0
    ensures Truncate(Degrees(scale, n) * scale) == n && RoundAway(Degrees(scale, n) * scale) == n
  {
    ScaledOrder(scale, 0.0, n);
  }

  lemma {:induction false} DegreesOrder(scale: real, a: int, b: int)
    requires scale > 0.0
    ensures a <= b <==> Degrees(scale, a) <= Degrees(scale, b)
  {
    ScaledOrder(scale, 0.0, a);
    ScaledOrder(scale, Degrees(scale, a), b);
  }

  /** For bounds on the grid the comparison is exact. */
  lemma {:induction false} BetweenOnGrid(scale: real, lo: int, hi: int, n: int)
    requires scale > 0.0
    ensures Between(scale, Degrees(scale, lo), Degrees(scale, hi), n) <==> lo <= n <= hi
  {
    GridIsExact(scale, lo);
    GridIsExact(scale, hi);
  }

  lemma {:induction false} DegreesBetween(scale: real, lo: int, hi: int, n: int)
    requires scale > 0.0
    ensures lo <= n <= hi <==> Degrees(scale, lo) <= Degrees(scale, n) <= Degrees(scale, hi)
  {
    DegreesOrder(scale, lo, n);
    DegreesOrder(scale, n, hi);
  }

  /** Nothing that lies in the box is lost, for any valid box, on rows with a consistent tile. */
  lemma {:induction false} InsideIsSelected(scale: real, b: Bounds, row: Row)
    requires scale > 0.0 && b.Valid() && row.visible
    requires b.Contains(Degrees(scale, row.lat), Degrees(scale, row.lon))
    ensures RowInWorld(scale, row)
    ensures TileConsistent(scale, row) ==> TileMatch(scale, b, row)
  {
    InsideIsBetween(scale, b.minlat, b.maxlat, row.lat);
    InsideIsBetween(scale, b.minlon, b.maxlon, row.lon);
    AreaCoversBox(b, Degrees(scale, row.lat), Degrees(scale, row.lon));
  }

  /** A box whose bounds are multiples of 1/scale. */
  datatype Grid = Grid(minlat: int, minlon: int, maxlat: int, maxlon: int)

  function GridBounds(scale: real, g: Grid): Bounds
    requires scale > 0.0
  {
    Bounds(Degrees(scale, g.minlat), Degrees(scale, g.minlon), Degrees(scale, g.maxlat), Degrees(scale, g.maxlon))
  }

  /** On such boxes the plain query selects exactly the rows whose stored point lies in the box. */
  lemma {:induction false} PlainOnGrid(scale: real, g: Grid, row: Row)
    requires scale > 0.0
    ensures PlainMatch(scale, GridBounds(scale, g), row) <==>
      row.visible && g.minlat <= row.lat <= g.maxlat && g.minlon <= row.lon <= g.maxlon
    ensures PlainMatch(scale, GridBounds(scale, g), row) ==>
      GridBounds(scale, g).Contains(Degrees(scale, row.lat), Degrees(scale, row.lon))
  {
    BetweenOnGrid(scale, g.minlat, g.maxlat, row.lat);
    BetweenOnGrid(scale, g.minlon, g.maxlon, row.lon);
    DegreesBetween(scale, g.minlat, g.maxlat, row.lat);
    DegreesBetween(scale, g.minlon, g.maxlon, row.lon);
  }

  ghost predicate FilterAgrees(scale: real, row: Row)
    requires scale > 0.0
  {
    forall g: Grid :: GridBounds(scale, g).Valid() ==>
      (TileMatch(scale, GridBounds(scale, g), row) <==> PlainMatch(scale, GridBounds(scale, g), row))
  }

  lemma {:induction false} ConsistentAgrees(scale: real, row: Row)
    requires scale > 0.0 && RowInWorld(scale, row) && TileConsistent(scale, row)
    ensures FilterAgrees(scale, row)
  {
    forall g: Grid | GridBounds(scale, g).Valid() && PlainMatch(scale, GridBounds(scale, g), row)
      ensures TileMatch(scale, GridBounds(scale, g), row)
    {
      PlainOnGrid(scale, g, row);
      InsideIsSelected(scale, GridBounds(scale, g), row);
    }
  }

  /** The box that is a single point has a single tile. */
  lemma {:induction false} PointHasOneTile(lat: real, lon: real, t: nat)
    requires InWorld(lat, lon) && AreaOf(Bounds(lat, lon, lat, lon)).Has(t)
    ensures t == TileAt(lat, lon)
  {
    OnePoint(Lon2x(lon), Lat2y(lat), t);
    assert AreaOf(Bounds(lat, lon, lat, lon)) == Area(Lon2x(lon), Lon2x(lon), Lat2y(lat), Lat2y(lat));
  }

  /** The box that is the row's own point already tells. */
  lemma {:induction false} AgreeingIsConsistent(scale: real, row: Row)
    requires scale > 0.0 && RowInWorld(scale, row) && row.visible && FilterAgrees(scale, row)
    ensures TileConsistent(scale, row)
  {
    var point := Grid(row.lat, row.lon, row.lat, row.lon);
    assert PlainMatch(scale, GridBounds(scale, point), row) by {
      PlainOnGrid(scale, point, row);
    }
    assert TileMatch(scale, GridBounds(scale, point), row);
    PointHasOneTile(Degrees(scale, row.lat), Degrees(scale, row.lon), row.tile);
  }

  /**
   The tile condition never changes the answer of a box on the 1/scale grid exactly for the rows whose stored tile is
   the tile of their stored coordinates.
   */
  lemma {:induction false} FilterAgreesExactly(scale: real, row: Row)
    requires scale > 0.0 && RowInWorld(scale, row) && row.visible
    ensures FilterAgrees(scale, row) <==> TileConsistent(scale, row)
  {
    if TileConsistent(scale, row) {
      ConsistentAgrees(scale, row);
    } else if FilterAgrees(scale, row) {
      AgreeingIsConsistent(scale, row);
    }
  }

  // ---------- Boxes off the grid ----------

  /** A positive lower bound between two grid points: truncation takes it down to `n`, which lies below it. */
  predicate CutBelow(scale: real, lo: real, n: int) { 0 <= n && n as real < lo * scale < n as real + 1.0 }

  /** A negative upper bound between two grid points: truncation takes it up to `n`, which lies above it. */
  predicate CutAbove(scale: real, hi: real, n: int) { n <= 0 && n as real - 1.0 < hi * scale < n as real }

  lemma {:induction false} TruncateDown(r: real, n: int)
    requires Truncate(r) <= n && n as real < r
    ensures 0 <= n && r < n as real + 1.0
  {
  }

  lemma {:induction false} TruncateUp(r: real, n: int)
    requires n <= Truncate(r) && r < n as real
    ensures n <= 0 && n as real - 1.0 < r
  {
  }

  /** A coordinate that the comparison takes in lies beyond a bound exactly when that bound was cut to it. */
  lemma {:induction false} BetweenExactly(scale: real, lo: real, hi: real, n: int)
    requires scale > 0.0 && Between(scale, lo, hi, n)
    ensures Degrees(scale, n) < lo <==> CutBelow(scale, lo, n)
    ensures Degrees(scale, n) > hi <==> CutAbove(scale, hi, n)
  {
    ScaledOrder(scale, lo, n);
    ScaledOrder(scale, hi, n);
    if n as real < lo * scale {
      TruncateDown(lo * scale, n);
    }
    if hi * scale < n as real {
      TruncateUp(hi * scale, n);
    }
  }

  /** Only a bound that was cut can separate a coordinate that is taken in from the bound's own tile. */
  lemma {:induction false} BeyondIsCut(scale: real, lo: real, hi: real, n: int)
    requires scale > 0.0 && Between(scale, lo, hi, n)
    ensures -180.0 <= Degrees(scale, n) <= 180.0 && -180.0 <= lo <= 180.0 && Lon2x(Degrees(scale, n)) < Lon2x(lo)
            ==> CutBelow(scale, lo, n)
    ensures -180.0 <= Degrees(scale, n) <= 180.0 && -180.0 <= hi <= 180.0 && Lon2x(Degrees(scale, n)) > Lon2x(hi)
            ==> CutAbove(scale, hi, n)
    ensures -90.0 <= Degrees(scale, n) <= 90.0 && -90.0 <= lo <= 90.0 && Lat2y(Degrees(scale, n)) < Lat2y(lo)
            ==> CutBelow(scale, lo, n)
    ensures -90.0 <= Degrees(scale, n) <= 90.0 && -90.0 <= hi <= 90.0 && Lat2y(Degrees(scale, n)) > Lat2y(hi)
            ==> CutAbove(scale, hi, n)
  {
    BetweenExactly(scale, lo, hi, n);
  }

  /** The stored point lies in another tile column than a bound that was cut to it. */
  predicate ColumnCut(scale: real, b: Bounds, n: int)
    requires scale > 0.0 && b.Valid() && -180.0 <= Degrees(scale, n) <= 180.0
  {
    || (CutBelow(scale, b.minlon, n) && Lon2x(Degrees(scale, n)) < Lon2x(b.minlon))
    || (CutAbove(scale, b.maxlon, n) && Lon2x(Degrees(scale, n)) > Lon2x(b.maxlon))
  }

  /** The same for tile rows. */
  predicate RowCut(scale: real, b: Bounds, n: int)
    requires scale > 0.0 && b.Valid() && -90.0 <= Degrees(scale, n) <= 90.0
  {
    || (CutBelow(scale, b.minlat, n) && Lat2y(Degrees(scale, n)) < Lat2y(b.minlat))
    || (CutAbove(scale, b.maxlat, n) && Lat2y(Degrees(scale, n)) > Lat2y(b.maxlat))
  }

  lemma {:induction false} AreaHasTile(b: Bounds, lat: real, lon: real)
    requires b.Valid() && InWorld(lat, lon)
    ensures AreaOf(b).Has(TileAt(lat, lon)) <==>
      Lon2x(b.minlon) <= Lon2x(lon) <= Lon2x(b.maxlon) && Lat2y(b.minlat) <= Lat2y(lat) <= Lat2y(b.maxlat)
  {
    TileIsBijective(Lon2x(lon), Lat2y(lat), 0);
  }

  /**
   For any valid box: the tile condition drops a row with a consistent tile that the comparison takes in exactly when
   one of the bounds was cut to the row's coordinate across a tile border. Such a row lies outside the box.
   */
  lemma {:induction false} FilterDiffersExactly(scale: real, b: Bounds, row: Row)
    requires scale > 0.0 && b.Valid() && RowInWorld(scale, row) && TileConsistent(scale, row)
      && PlainMatch(scale, b, row)
    ensures !TileMatch(scale, b, row) <==> ColumnCut(scale, b, row.lon) || RowCut(scale, b, row.lat)
    ensures !TileMatch(scale, b, row) ==> !b.Contains(Degrees(scale, row.lat), Degrees(scale, row.lon))
  {
    AreaHasTile(b, Degrees(scale, row.lat), Degrees(scale, row.lon));
    BeyondIsCut(scale, b.minlon, b.maxlon, row.lon);
    BeyondIsCut(scale, b.minlat, b.maxlat, row.lat);
    if b.Contains(Degrees(scale, row.lat), Degrees(scale, row.lon)) {
      InsideIsSelected(scale, b, row);
    }
  }

  /** A box whose western bound is half a unit east of a row, with a tile border in between. */
  lemma {:induction false} FilterDiffersOffGrid()
    ensures var b := Bounds(0.0, 0.00549325, 1.0, 1.0);
      var row := Row(1, TileAt(0.0, 0.0054932), 0, 54932, true);
      && b.Valid() && Degrees(10000000.0, 54932) == 0.0054932
      && RowInWorld(10000000.0, row) && TileConsistent(10000000.0, row)
      && PlainMatch(10000000.0, b, row) && !TileMatch(10000000.0, b, row)
  {
    var b := Bounds(0.0, 0.00549325, 1.0, 1.0);
    assert Lon2x(0.0054932) == 32768 && Lon2x(b.minlon) == 32769;
    AreaHasTile(b, 0.0, 0.0054932);
  }

  // ---------- Rows as the upload writes them ----------

  /** A created node: rounded coordinates, but the tile of the coordinates as they were sent. */
  function CreatedRow(scale: real, id: nat, lat: real, lon: real): Row
    requires scale > 0.0 && InWorld(lat, lon)
  {
    Row(id, TileAt(lat, lon), RoundAway(lat * scale), RoundAway(lon * scale), true)
  }

  lemma {:induction false} RoundWithin(r: real, n: int)
    ensures r <= n as real ==> RoundAway(r) <= n
    ensures n as real <= r ==> n <= RoundAway(r)
  {
  }

  lemma {:induction false} ProductOrder(a: real, b: real, s: real)
    requires s > 0.0
    ensures a <= b ==> a * s <= b * s
  {
    SignOfProduct(b - a, s);
    assert (b - a) * s == b * s - a * s;
  }

  /** With an integer scale, rounding does not take a coordinate past a whole number of degrees. */
  lemma {:induction false} RoundedBelow(scale: nat, degrees: real, limit: int)
    requires scale > 0 && degrees <= limit as real
    ensures Degrees(scale as real, RoundAway(degrees * scale as real)) <= limit as real
  {
    ProductOrder(degrees, limit as real, scale as real);
    RoundWithin(degrees * scale as real, limit * scale);
    ScaledOrder(scale as real, limit as real, RoundAway(degrees * scale as real));
  }

  lemma {:induction false} RoundedAbove(scale: nat, degrees: real, limit: int)
    requires scale > 0 && limit as real <= degrees
    ensures limit as real <= Degrees(scale as real, RoundAway(degrees * scale as real))
  {
    ProductOrder(limit as real, degrees, scale as real);
    RoundWithin(degrees * scale as real, limit * scale);
    ScaledOrder(scale as real, limit as real, RoundAway(degrees * scale as real));
  }

  lemma {:induction false} RoundedWithin(scale: nat, degrees: real, limit: nat)
    requires scale > 0 && -(limit as real) <= degrees <= limit as real
    ensures -(limit as real) <= Degrees(scale as real, RoundAway(degrees * scale as real)) <= limit as real
  {
    RoundedBelow(scale, degrees, limit);
    RoundedAbove(scale, degrees, 0 - limit);
  }

  lemma {:induction false} RoundedInWorld(scale: nat, lat: real, lon: real)
    requires scale > 0 && InWorld(lat, lon)
    ensures InWorld(Degrees(scale as real, RoundAway(lat * scale as real)),
      Degrees(scale as real, RoundAway(lon * scale as real)))
  {
    RoundedWithin(scale, lat, 90);
    RoundedWithin(scale, lon, 180);
  }

  /**
   Created nodes agree with the index exactly when rounding to the grid does not move them to another tile. The
   configured scale is an integer.
   */
  lemma {:induction false} CreatedRowAgreesExactly(scale: nat, id: nat, lat: real, lon: real)
    requires scale > 0 && InWorld(lat, lon)
    ensures RowInWorld(scale as real, CreatedRow(scale as real, id, lat, lon))
    ensures var row := CreatedRow(scale as real, id, lat, lon);
      FilterAgrees(scale as real, row) <==>
        Lon2x(Degrees(scale as real, row.lon)) == Lon2x(lon) && Lat2y(Degrees(scale as real, row.lat)) == Lat2y(lat)
  {
    RoundedInWorld(scale, lat, lon);
    var row := CreatedRow(scale as real, id, lat, lon);
    FilterAgreesExactly(scale as real, row);
    TileIsBijective(Lon2x(lon), Lat2y(lat), 0);
    TileIsBijective(Lon2x(Degrees(scale as real, row.lon)), Lat2y(Degrees(scale as real, row.lat)), 0);
  }

  /** In particular nodes sent with coordinates on the grid agree. */
  lemma {:induction false} GridNodeAgrees(scale: real, id: nat, lat: int, lon: int)
    requires scale > 0.0 && InWorld(Degrees(scale, lat), Degrees(scale, lon))
    ensures FilterAgrees(scale, CreatedRow(scale, id, Degrees(scale, lat), Degrees(scale, lon)))
  {
    GridIsExact(scale, lat);
    GridIsExact(scale, lon);
    ConsistentAgrees(scale, CreatedRow(scale, id, Degrees(scale, lat), Degrees(scale, lon)));
  }

  /**
   A node that the index hides: sent just west of the zero meridian, it is stored on it, with the tile to its west. The
   box that is its stored point finds it by coordinates and not by tile.
   */
  lemma {:induction false} HiddenNode()
    ensures var row := CreatedRow(10000000.0, 1, 0.0, -0.00000001); var b := Bounds(0.0, 0.0, 0.0, 0.0);
      b.Valid() && row.lat == 0 && row.lon == 0 && PlainMatch(10000000.0, b, row) && !TileMatch(10000000.0, b, row)
  {
    assert Lon2x(-0.00000001) == 32767 && Lon2x(0.0) == 32768;
    TileIsBijective(32767, Lat2y(0.0), 0);
  }
}
