/** The slippy-tile projection of the Web-Mercator grid: at zoom z each axis
    is cut into 2^z tiles. Longitudes go through the exact linear map
    (lon + 180) / 360; latitudes enter as their Mercator fraction (the value
    lat2tile computes with log, tan and cos before scaling by 2^z), which is
    kept abstract. Everything is over exact reals. */
module TileProjection {

  /** Number of zoom levels a full hash is computed for. */
  const MAXZOOM: nat := 16

  datatype Option<T> = None | Some(value: T)

  /** Math.pow(2, z): the number of tiles per axis at zoom z. */
  function Pow2(z: nat): (r: nat)
    ensures r >= 1
  {
    if z == 0 then 1 else 2 * Pow2(z - 1)
  }

  /** A floor of t * p with t in [0, 1) lies in [0, p). */
  lemma FloorInUnit(t: real, p: real, r: int)
    requires 0.0 <= t < 1.0 && p >= 1.0
    requires r as real <= t * p < r as real + 1.0
    ensures 0 <= r && r as real < p
  {
    assert 0.0 <= t * p;
    assert t * p < p by { assert p - t * p == (1.0 - t) * p; }
  }

  /** i / p lies in [0, 1) when 0 <= i < p. */
  lemma FractionInUnit(i: real, p: real)
    requires 0.0 <= i < p
    ensures 0.0 <= i / p < 1.0
  {
  }

  /** floor(t * 2^z): the tile, at zoom z, that a fraction t of an axis falls in. */
  function FloorScaled(t: real, z: nat): int
  {
    Scale(t, z).Floor
  }

  /** t * 2^z, written as z doublings of t. */
  function Scale(t: real, z: nat): real
  {
    if z == 0 then t else 2.0 * Scale(t, z - 1)
  }

  lemma {:induction false} ScaleIsProduct(t: real, z: nat)
    ensures Scale(t, z) == t * Pow2(z) as real
  {
    if z > 0 {
      ScaleIsProduct(t, z - 1);
      RealOfProduct(2, Pow2(z - 1));
    }
  }

  /** floor(t * 2^z) is the integer just below or at t * 2^z. */
  lemma {:induction false} FloorScaledBracket(t: real, z: nat)
    ensures FloorScaled(t, z) as real <= t * Pow2(z) as real < FloorScaled(t, z) as real + 1.0
  {
    ScaleIsProduct(t, z);
  }

  /** Where edge i of the zoom-z grid lies, as a fraction of the axis. */
  function EdgeFraction(i: int, z: nat): real
  {
    if z == 0 then i as real else EdgeFraction(i, z - 1) / 2.0
  }

  /** Edge i of the zoom-z grid is i / 2^z. */
  lemma {:induction false} EdgeIsQuotient(i: int, z: nat)
    ensures EdgeFraction(i, z) == i as real / Pow2(z) as real
  {
    if z > 0 {
      EdgeIsQuotient(i, z - 1);
      RealOfProduct(2, Pow2(z - 1));
      HalveQuotient(i as real, Pow2(z - 1) as real);
    }
  }

  lemma HalveQuotient(a: real, p: real)
    requires p > 0.0
    ensures (a / p) / 2.0 == a / (2.0 * p)
  {
  }

  /** How far east of the antimeridian a longitude lies, as a fraction of the globe. */
  function LonFraction(lon: real): real
  {
    (lon + 180.0) / 360.0
  }

  /** long2tile: the tile column of a longitude, or null (None) when the
      floored value falls outside [0, 2^zoom]. */
  function Long2Tile(lon: real, zoom: nat): (r: Option<int>)
    ensures r.Some? ==> 0 <= r.value <= Pow2(zoom)
  {
    var output := FloorScaled(LonFraction(lon), zoom);
    if 0 <= output <= Pow2(zoom) then Some(output) else None
  }

  /** long2tile yields the column whose span holds lon * 2^zoom, and null
      exactly when lon lies west of -180 or a whole column east of 180. */
  lemma {:induction false} Long2TileMeaning(lon: real, zoom: nat)
    ensures var r := Long2Tile(lon, zoom);
      r.Some? ==> r.value as real <= LonFraction(lon) * Pow2(zoom) as real < r.value as real + 1.0
    ensures Long2Tile(lon, zoom).None? <==>
      LonFraction(lon) < 0.0 || LonFraction(lon) * Pow2(zoom) as real >= Pow2(zoom) as real + 1.0
  {
    FloorScaledBracket(LonFraction(lon), zoom);
  }

  /** lat2tile, given the latitude's Mercator fraction m. The source does not
      range-check this one. */
  function Lat2Tile(m: real, zoom: nat): (r: int)
    ensures 0.0 <= m < 1.0 ==> 0 <= r < Pow2(zoom)
  {
    var r := FloorScaled(m, zoom);
    if 0.0 <= m < 1.0 then
      FloorScaledBracket(m, zoom);
      FloorInUnit(m, Pow2(zoom) as real, r);
      r
    else
      r
  }

  /** lat2tile yields the row whose span holds m * 2^zoom. */
  lemma {:induction false} Lat2TileMeaning(m: real, zoom: nat)
    ensures Lat2Tile(m, zoom) as real <= m * Pow2(zoom) as real < Lat2Tile(m, zoom) as real + 1.0
  {
    FloorScaledBracket(m, zoom);
  }

  /** tile2long: the longitude of the western edge of column x at zoom z. */
  function Tile2Long(x: int, z: nat): real
  {
    EdgeFraction(x, z) * 360.0 - 180.0
  }

  /** tile2lat, on the abstract latitude axis: the Mercator fraction of the
      northern edge of row y at zoom z (tile2lat's atan/exp inverse is left out). */
  function Tile2Lat(y: int, z: nat): real
  {
    EdgeFraction(y, z)
  }

  /** long2tile undoes tile2long on every column edge of the grid, the
      eastern edge 2^z included. */
  lemma {:induction false} Tile2LongInverse(x: int, z: nat)
    requires 0 <= x <= Pow2(z)
    ensures -180.0 <= Tile2Long(x, z) <= 180.0
    ensures Long2Tile(Tile2Long(x, z), z) == Some(x)
  {
    var e := EdgeFraction(x, z);
    assert LonFraction(Tile2Long(x, z)) == e;
    EdgeTimesScale(x, z);
    EdgeIsQuotient(x, z);
    FractionInUnitClosed(x as real, Pow2(z) as real);
  }

  /** Scaling edge i of the zoom-z grid back by 2^z gives i, so its floor is i. */
  lemma {:induction false} EdgeTimesScale(i: int, z: nat)
    ensures EdgeFraction(i, z) * Pow2(z) as real == i as real
    ensures FloorScaled(EdgeFraction(i, z), z) == i
  {
    EdgeIsQuotient(i, z);
    FloorScaledBracket(EdgeFraction(i, z), z);
    DivideTimes(i as real, Pow2(z) as real);
  }

  lemma DivideTimes(a: real, p: real)
    requires p > 0.0
    ensures (a / p) * p == a
  {
  }

  lemma FractionInUnitClosed(i: real, p: real)
    requires 0.0 <= i <= p && p > 0.0
    ensures 0.0 <= i / p <= 1.0
  {
  }

  /** lat2tile undoes tile2lat on every row of the grid. */
  lemma {:induction false} Tile2LatInverse(y: int, z: nat)
    ensures Lat2Tile(Tile2Lat(y, z), z) == y
    ensures 0 <= y < Pow2(z) ==> 0.0 <= Tile2Lat(y, z) < 1.0
  {
    EdgeTimesScale(y, z);
    if 0 <= y < Pow2(z) {
      EdgeIsQuotient(y, z);
      FractionInUnit(y as real, Pow2(z) as real);
    }
  }

  /** On the documented longitude range long2tile never yields null, and it
      yields the out-of-grid column 2^zoom exactly at lon = 180. */
  lemma {:induction false} Long2TileDefined(lon: real, zoom: nat)
    requires -180.0 <= lon <= 180.0
    ensures Long2Tile(lon, zoom) == Some(FloorScaled(LonFraction(lon), zoom))
    ensures Long2Tile(lon, zoom).value == Pow2(zoom) <==> lon == 180.0
  {
    var t, p := LonFraction(lon), Pow2(zoom) as real;
    var r := FloorScaled(t, zoom);
    FloorScaledBracket(t, zoom);
    if lon < 180.0 {
      FloorInUnit(t, p, r);
    } else {
      assert t == 1.0;
    }
  }

  /** Halving the tile size adds exactly one binary digit: the tile at zoom
      z + 1 is twice the tile at zoom z plus 0 or 1. */
  lemma {:induction false} DoublingStep(t: real, z: nat)
    ensures 0 <= FloorScaled(t, z + 1) - 2 * FloorScaled(t, z) <= 1
  {
    var u := t * Pow2(z) as real;
    assert t * Pow2(z + 1) as real == 2.0 * u;
  }

  /** A point with fraction t lies between the edges of the tile floor(t * 2^z). */
  lemma {:induction false} FloorBracket(t: real, z: nat)
    ensures EdgeFraction(FloorScaled(t, z), z) <= t < EdgeFraction(FloorScaled(t, z) + 1, z)
  {
    var p, r := Pow2(z) as real, FloorScaled(t, z) as real;
    FloorScaledBracket(t, z);
    EdgeIsQuotient(FloorScaled(t, z), z);
    EdgeIsQuotient(FloorScaled(t, z) + 1, z);
    DivideBelow(r, t, p);
    DivideAbove(r + 1.0, t, p);
  }

  /** A longitude lies between the western edges of its column and of the next. */
  lemma {:induction false} LonInColumn(lon: real, z: nat, x: int)
    requires x == FloorScaled(LonFraction(lon), z)
    ensures Tile2Long(x, z) <= lon < Tile2Long(x + 1, z)
  {
    FloorBracket(LonFraction(lon), z);
  }

  /** A Mercator fraction lies between the northern edges of its row and of the next. */
  lemma {:induction false} LatInRow(m: real, z: nat, y: int)
    requires y == FloorScaled(m, z)
    ensures Tile2Lat(y, z) <= m < Tile2Lat(y + 1, z)
  {
    FloorBracket(m, z);
  }

  lemma DivideBelow(a: real, t: real, p: real)
    requires p > 0.0 && a <= t * p
    ensures a / p <= t
  {
  }

  lemma DivideAbove(a: real, t: real, p: real)
    requires p > 0.0 && t * p < a
    ensures t < a / p
  {
  }

  /** Edge a of the zoom-z grid is edge 2 * a of the zoom-(z + 1) grid. */
  lemma {:induction false} EdgeDouble(a: int, z: nat)
    ensures EdgeFraction(2 * a, z + 1) == EdgeFraction(a, z)
  {
    if z > 0 {
      EdgeDouble(a, z - 1);
    }
  }

  lemma {:induction false} RealOfProduct(x: int, y: int)
    ensures (x * y) as real == x as real * y as real
  {
  }

  /** Edges are ordered like their indices. */
  lemma {:induction false} EdgeMono(a: int, b: int, z: nat)
    requires a <= b
    ensures EdgeFraction(a, z) <= EdgeFraction(b, z)
  {
    if z > 0 {
      EdgeMono(a, b, z - 1);
    }
  }

  /** Distinct edges are strictly ordered like their indices. */
  lemma {:induction false} EdgeStrict(a: int, b: int, z: nat)
    requires a < b
    ensures EdgeFraction(a, z) < EdgeFraction(b, z)
  {
    if z > 0 {
      EdgeStrict(a, b, z - 1);
    }
  }

  /** tile2long and tile2lat order tiles like their edges. */
  lemma {:induction false} TileEdgeOrder(a: int, z1: nat, b: int, z2: nat)
    requires EdgeFraction(a, z1) <= EdgeFraction(b, z2)
    ensures Tile2Long(a, z1) <= Tile2Long(b, z2) && Tile2Lat(a, z1) <= Tile2Lat(b, z2)
  {
  }

  /** The values pinned by the long2tile tests, including 2^12 at lon = 180. */
  lemma Long2TileExamples()
    ensures Long2Tile(0.0, 0) == Some(0) && Long2Tile(-180.0, 0) == Some(0) && Long2Tile(180.0, 0) == Some(1)
    ensures Long2Tile(0.0, 1) == Some(1) && Long2Tile(-180.0, 1) == Some(0) && Long2Tile(180.0, 1) == Some(2)
    ensures Long2Tile(0.0, 12) == Some(2048) && Long2Tile(-180.0, 12) == Some(0) && Long2Tile(180.0, 12) == Some(4096)
    ensures Long2Tile(180.5, 0) == Some(1) && Long2Tile(541.0, 0) == None && Long2Tile(-181.0, 3) == None
  {
  }
}
