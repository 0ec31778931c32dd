/** gridify and degridify: a point becomes a string of MAXZOOM characters,
    one per zoom level 0 .. MAXZOOM - 1, and a string of quadrant digits
    becomes a tile, its zoom and its bounds.

    The two disagree about the first character. gridify writes the zoom-0
    tile as the hexadecimal digit 4 * y0 + x0 and then one quadrant digit per
    zoom 1 .. MAXZOOM - 1; degridify reads its first character as the zoom-1
    quadrant. The lemmas below state what that does to a round trip. */
module Hasher {
  import opened TileProjection
  import opened QuadrantCode

  /** A tile pair [x, y]: column and row. */
  datatype Tile = Tile(x: int, y: int)

  /** degridify's four-element bounds, in the source's order:
      [tile2long(x), tile2lat(y), tile2long(x + 1), tile2lat(y + 1)]. The
      latitude entries are Mercator fractions (see Tile2Lat): top is the
      tile's northern edge and bottom its southern one. */
  datatype Bounds = Bounds(west: real, top: real, east: real, bottom: real)

  /** What degridify returns. */
  datatype Decoded = Decoded(bounds: Bounds, zoom: nat, tiles: Tile)

  /** The longitudes long2tile accepts. */
  predicate ValidLongitude(lon: real)
  {
    -180.0 <= lon <= 180.0
  }

  /** A latitude inside the Mercator grid, given as its Mercator fraction. */
  predicate ValidMercator(m: real)
  {
    0.0 <= m < 1.0
  }

  /** A hash degridify can parse: base-4 digits only. */
  predicate AllQuad(h: string)
  {
    forall i :: 0 <= i < |h| ==> IsQuadChar(h[i])
  }

  /** The pair [long2tile(lng, z), lat2tile(lat, z)] gridify pushes for zoom z. */
  function TileAt(lng: real, lat: real, z: nat): (t: Tile)
    requires ValidLongitude(lng) && ValidMercator(lat)
    ensures 0 <= t.x <= Pow2(z) && 0 <= t.y < Pow2(z)
  {
    Long2TileDefined(lng, z);
    Tile(Long2Tile(lng, z).value, Lat2Tile(lat, z))
  }

  /** The tile at one zoom is twice its parent plus a parity on each axis,
      so every relative offset gridify encodes is a valid quadrant. */
  lemma {:induction false} ParityStep(lng: real, lat: real, z: nat)
    requires ValidLongitude(lng) && ValidMercator(lat)
    ensures IsParity(TileAt(lng, lat, z + 1).x - 2 * TileAt(lng, lat, z).x)
    ensures IsParity(TileAt(lng, lat, z + 1).y - 2 * TileAt(lng, lat, z).y)
  {
    Long2TileDefined(lng, z);
    Long2TileDefined(lng, z + 1);
    DoublingStep(LonFraction(lng), z);
    DoublingStep(lat, z);
  }

  /** n.toString(16) for a single hexadecimal digit. */
  function HexDigit(n: int): (c: char)
    requires 0 <= n < 16
    ensures 0 <= n < 4 ==> IsQuadChar(c) && DecodeSingleHash(c) == (n % 2, n / 2)
  {
    "0123456789abcdef"[n]
  }

  /** The tile pairs gridify pushes into hArr, one per zoom 0 .. MAXZOOM - 1. */
  function TilePath(lng: real, lat: real): (path: seq<Tile>)
    requires ValidLongitude(lng) && ValidMercator(lat)
    ensures |path| == MAXZOOM
  {
    seq(MAXZOOM, z requires 0 <= z => TileAt(lng, lat, z))
  }

  /** A path of tiles, one per zoom from 0, each inside the one before: the
      zoom-0 tile is (0, 0) or the out-of-grid (1, 0), and every later tile
      is twice its predecessor plus a parity on each axis. */
  predicate IsTilePath(path: seq<Tile>)
  {
    |path| > 0 && path[0].y == 0 && 0 <= path[0].x <= 1
    && forall i :: 1 <= i < |path| ==>
         IsParity(path[i].x - 2 * path[i - 1].x) && IsParity(path[i].y - 2 * path[i - 1].y)
  }

  /** The tiles gridify pushes form such a path. */
  lemma TilePathNested(lng: real, lat: real)
    requires ValidLongitude(lng) && ValidMercator(lat)
    ensures IsTilePath(TilePath(lng, lat))
    ensures TilePath(lng, lat)[0].x == (if lng == 180.0 then 1 else 0)
  {
    var path := TilePath(lng, lat);
    Long2TileDefined(lng, 0);
    forall i | 1 <= i < |path|
      ensures IsParity(path[i].x - 2 * path[i - 1].x) && IsParity(path[i].y - 2 * path[i - 1].y)
    {
      ParityStep(lng, lat, i - 1);
    }
  }

  /** Character idz of gridify's result, given its tile path: the zoom-0
      tile as a hex digit, then each tile relative to its parent as a
      quadrant digit. */
  function PathChar(path: seq<Tile>, idz: nat): (c: char)
    requires IsTilePath(path) && idz < |path|
    ensures IsQuadChar(c)
    ensures idz == 0 ==> DecodeSingleHash(c) == (path[0].x, path[0].y)
    ensures idz > 0 ==> DecodeSingleHash(c) == (path[idz].x - 2 * path[idz - 1].x, path[idz].y - 2 * path[idz - 1].y)
  {
    if idz == 0 then
      HexDigit(4 * path[0].y + path[0].x)
    else
      EncodeSingleHash(path[idz].x - 2 * path[idz - 1].x, path[idz].y - 2 * path[idz - 1].y)
  }

  /** The string hArr.map(...).join('') builds from a tile path. */
  function HashOfPath(path: seq<Tile>): (h: string)
    requires IsTilePath(path)
    ensures |h| == |path| && AllQuad(h)
    ensures h[0] == (if path[0].x == 1 then '1' else '0')
  {
    seq(|path|, idz requires 0 <= idz < |path| => PathChar(path, idz))
  }

  /** Every character of h after the first names the offset of its tile in
      path from twice the previous tile. */
  predicate DigitsFollow(h: string, path: seq<Tile>)
    requires AllQuad(h) && |h| == |path|
  {
    forall i :: 1 <= i < |h| ==>
      DecodeSingleHash(h[i]) == (path[i].x - 2 * path[i - 1].x, path[i].y - 2 * path[i - 1].y)
  }

  /** Decoding the hash of a path gives back the path's steps. */
  lemma {:induction false} HashOfPathFollows(path: seq<Tile>)
    requires IsTilePath(path)
    ensures DigitsFollow(HashOfPath(path), path)
  {
    var h := HashOfPath(path);
    forall i | 1 <= i < |h|
      ensures DecodeSingleHash(h[i]) == (path[i].x - 2 * path[i - 1].x, path[i].y - 2 * path[i - 1].y)
    {
      SingleHashRoundTrip(path[i].x - 2 * path[i - 1].x, path[i].y - 2 * path[i - 1].y);
    }
  }

  /** The string gridify returns. */
  function GridHash(lng: real, lat: real): (h: string)
    requires ValidLongitude(lng) && ValidMercator(lat)
    ensures |h| == MAXZOOM && AllQuad(h)
    ensures h[0] == (if lng == 180.0 then '1' else '0')
  {
    TilePathNested(lng, lat);
    HashOfPath(TilePath(lng, lat))
  }

  /** gridify: push the tile pair of every zoom 0 .. MAXZOOM - 1, then map
      each to its character and join them. */
  method Gridify(lng: real, lat: real) returns (hash: string)
    requires ValidLongitude(lng) && ValidMercator(lat)
    ensures hash == GridHash(lng, lat)
    ensures |hash| == MAXZOOM && AllQuad(hash)
  {
    var hArr := PushTiles(lng, lat);
    TilePathNested(lng, lat);
    hash := JoinTiles(hArr);
  }

  /** gridify's first loop: hArr.push([long2tile(lng, z), lat2tile(lat, z)])
      for every zoom. */
  method PushTiles(lng: real, lat: real) returns (hArr: seq<Tile>)
    requires ValidLongitude(lng) && ValidMercator(lat)
    ensures hArr == TilePath(lng, lat)
  {
    hArr := [];
    for z := 0 to MAXZOOM
      invariant hArr == TilePath(lng, lat)[..z]
    {
      Long2TileDefined(lng, z);
      TilePathStep(lng, lat, z);
      hArr := hArr + [Tile(Long2Tile(lng, z).value, Lat2Tile(lat, z))];
    }
  }

  /** gridify's map and join: the zoom-0 pair as a hex digit, every later
      pair as the quadrant digit of its offset from twice the pair before. */
  method JoinTiles(hArr: seq<Tile>) returns (hash: string)
    requires IsTilePath(hArr)
    ensures hash == HashOfPath(hArr)
  {
    hash := "";
    for idz := 0 to |hArr|
      invariant hash == HashOfPath(hArr)[..idz]
    {
      var a := hArr[idz];
      var c;
      if idz == 0 {
        c := HexDigit(4 * a.y + a.x);
      } else {
        var last := hArr[idz - 1];
        c := EncodeSingleHash(a.x - 2 * last.x, a.y - 2 * last.y);
      }
      HashOfPathStep(hArr, idz);
      hash := hash + [c];
    }
  }

  /** One more zoom of the tile path: its next tile is pushed at the end. */
  lemma {:induction false} TilePathStep(lng: real, lat: real, z: nat)
    requires ValidLongitude(lng) && ValidMercator(lat) && z < MAXZOOM
    ensures Long2Tile(lng, z).Some?
    ensures TilePath(lng, lat)[..z + 1] == TilePath(lng, lat)[..z] + [Tile(Long2Tile(lng, z).value, Lat2Tile(lat, z))]
  {
    Long2TileDefined(lng, z);
    var path := TilePath(lng, lat);
    assert path[z] == TileAt(lng, lat, z);
    assert path[..z + 1] == path[..z] + [path[z]];
  }

  /** One more character of a path's hash: the next one is appended at the end. */
  lemma {:induction false} HashOfPathStep(path: seq<Tile>, idz: nat)
    requires IsTilePath(path) && idz < |path|
    ensures HashOfPath(path)[..idz + 1] == HashOfPath(path)[..idz] + [PathChar(path, idz)]
  {
    var h := HashOfPath(path);
    assert h[..idz + 1] == h[..idz] + [h[idz]];
  }

  /** Every character after the first decodes to the offset of the tile at
      that zoom inside its parent. */
  lemma {:induction false} GridHashDigits(lng: real, lat: real, idz: nat)
    requires ValidLongitude(lng) && ValidMercator(lat)
    requires 1 <= idz < MAXZOOM
    ensures DecodeSingleHash(GridHash(lng, lat)[idz])
      == (TileAt(lng, lat, idz).x - 2 * TileAt(lng, lat, idz - 1).x,
          TileAt(lng, lat, idz).y - 2 * TileAt(lng, lat, idz - 1).y)
  {
    var path := TilePath(lng, lat);
    TilePathNested(lng, lat);
    HashOfPathFollows(path);
    assert path[idz] == TileAt(lng, lat, idz) && path[idz - 1] == TileAt(lng, lat, idz - 1);
  }

  /** The tile that degridify rebuilds from a hash: start at (0, 0) and, for
      each digit, double and add the digit's parities. */
  function TileOf(h: string): (t: Tile)
    requires AllQuad(h)
    ensures 0 <= t.x < Pow2(|h|) && 0 <= t.y < Pow2(|h|)
    decreases |h|
  {
    if |h| == 0 then Tile(0, 0)
    else
      var parent := TileOf(h[..|h| - 1]);
      var rel := DecodeSingleHash(h[|h| - 1]);
      Tile(rel.0 + 2 * parent.x, rel.1 + 2 * parent.y)
  }

  /** The bounds degridify reports for tile t at zoom z, in its field order. */
  function TileBounds(t: Tile, z: nat): Bounds
  {
    Bounds(Tile2Long(t.x, z), Tile2Lat(t.y, z), Tile2Long(t.x + 1, z), Tile2Lat(t.y + 1, z))
  }

  /** Every tile's bounds span a box of positive width and height: west of
      east, and north of south on the fraction axis. */
  lemma {:induction false} TileBoundsOrdered(t: Tile, z: nat)
    ensures TileBounds(t, z).west < TileBounds(t, z).east
    ensures TileBounds(t, z).top < TileBounds(t, z).bottom
  {
    EdgeStrict(t.x, t.x + 1, z);
    EdgeStrict(t.y, t.y + 1, z);
  }

  /** Box outer contains box inner. */
  predicate BoxContains(outer: Bounds, inner: Bounds)
  {
    outer.west <= inner.west && inner.east <= outer.east
    && outer.top <= inner.top && inner.bottom <= outer.bottom
  }

  /** degridify: decode every character, rebuilding each zoom's tile from the
      previous one, and report the last tile, its zoom and its bounds. The
      empty string is excluded: there hArr[-1] is undefined and the call throws. */
  method Degridify(hashVal: string) returns (d: Decoded)
    requires |hashVal| > 0 && AllQuad(hashVal)
    ensures d.zoom == |hashVal| && d.tiles == TileOf(hashVal)
    ensures 0 <= d.tiles.x < Pow2(d.zoom) && 0 <= d.tiles.y < Pow2(d.zoom)
    ensures d.bounds == TileBounds(d.tiles, d.zoom)
  {
    var hArr: seq<Tile> := [];
    var z := 0;
    while z < |hashVal|
      invariant 0 <= z <= |hashVal| && |hArr| == z
      invariant z > 0 ==> hArr[z - 1] == TileOf(hashVal[..z])
    {
      var rel := DecodeSingleHash(hashVal[z]);
      TileOfNextPrefix(hashVal, z);
      if z == 0 {
        hArr := hArr + [Tile(rel.0, rel.1)];
      } else {
        var last := hArr[z - 1];
        hArr := hArr + [Tile(rel.0 + 2 * last.x, rel.1 + 2 * last.y)];
      }
      z := z + 1;
    }
    assert hashVal[..|hashVal|] == hashVal;
    var t := hArr[|hArr| - 1];
    var finalZoom := |hArr|;
    var bounds := Bounds(Tile2Long(t.x, finalZoom), Tile2Lat(t.y, finalZoom),
                         Tile2Long(t.x + 1, finalZoom), Tile2Lat(t.y + 1, finalZoom));
    d := Decoded(bounds, |hashVal|, Tile(t.x, t.y));
  }

  /** The tile of the first z + 1 digits is the child, named by digit z,
      of the tile of the first z digits. */
  lemma {:induction false} TileOfNextPrefix(h: string, z: nat)
    requires AllQuad(h) && z < |h|
    ensures TileOf(h[..z + 1]) == Tile(DecodeSingleHash(h[z]).0 + 2 * TileOf(h[..z]).x,
                                       DecodeSingleHash(h[z]).1 + 2 * TileOf(h[..z]).y)
    ensures z == 0 ==> TileOf(h[..z]) == Tile(0, 0)
  {
    assert h[..z + 1][..z] == h[..z];
  }

  /** Appending digit c to a hash doubles its tile and adds c's parities: a
      hash without its last digit decodes to the parent tile. */
  lemma {:induction false} TileOfAppend(h: string, c: char)
    requires AllQuad(h) && IsQuadChar(c)
    ensures TileOf(h + [c]) == Tile(2 * TileOf(h).x + DecodeSingleHash(c).0,
                                    2 * TileOf(h).y + DecodeSingleHash(c).1)
  {
    assert (h + [c])[..|h|] == h;
  }

  /** The tile d zooms above t. */
  function Ancestor(t: Tile, d: nat): Tile
  {
    Tile(HalveIndex(t.x, d), HalveIndex(t.y, d))
  }

  /** An index halved (rounding down) d times: the cell d zooms up. */
  function HalveIndex(i: int, d: nat): int
    decreases d
  {
    if d == 0 then i else HalveIndex(i / 2, d - 1)
  }

  /** The first k digits of a hash decode to the ancestor, at zoom k, of the
      tile the whole hash decodes to. */
  lemma {:induction false} TileOfPrefix(h: string, k: nat)
    requires AllQuad(h) && k <= |h|
    ensures TileOf(h[..k]) == Ancestor(TileOf(h), |h| - k)
  {
    if k == |h| {
      assert h[..k] == h;
    } else {
      var h' := h[..|h| - 1];
      assert h'[..k] == h[..k];
      TileOfPrefix(h', k);
      var t, rel := TileOf(h'), DecodeSingleHash(h[|h| - 1]);
      assert TileOf(h) == Tile(rel.0 + 2 * t.x, rel.1 + 2 * t.y);
      assert Tile(TileOf(h).x / 2, TileOf(h).y / 2) == t;
    }
  }

  /** Prefix monotonicity: the box of a prefix contains the box of the whole
      hash, on both axes. */
  lemma {:induction false} PrefixBoxContains(h: string, k: nat)
    requires AllQuad(h) && k <= |h|
    ensures BoxContains(TileBounds(TileOf(h[..k]), k), TileBounds(TileOf(h), |h|))
  {
    TileOfPrefix(h, k);
    NestedBounds(TileOf(h[..k]), TileOf(h), k, |h|);
  }

  /** The bounds, at zoom k, of the zoom-k ancestor of a zoom-z tile contain the tile's bounds. */
  lemma {:induction false} NestedBounds(a: Tile, t: Tile, k: nat, z: nat)
    requires k <= z && a == Ancestor(t, z - k)
    ensures BoxContains(TileBounds(a, k), TileBounds(t, z))
  {
    var d := z - k;
    AncestorEdges(t.x, k, d);
    AncestorEdges(t.y, k, d);
    TileEdgeOrder(a.x, k, t.x, k + d);
    TileEdgeOrder(t.x + 1, k + d, a.x + 1, k);
    TileEdgeOrder(a.y, k, t.y, k + d);
    TileEdgeOrder(t.y + 1, k + d, a.y + 1, k);
  }

  /** Cell i of the zoom-(k + d) grid lies between the edges of the cell
      d zooms above it. */
  lemma {:induction false} AncestorEdges(i: int, k: nat, d: nat)
    decreases d
    ensures EdgeFraction(HalveIndex(i, d), k) <= EdgeFraction(i, k + d)
    ensures EdgeFraction(i + 1, k + d) <= EdgeFraction(HalveIndex(i, d) + 1, k)
  {
    if d > 0 {
      var q := i / 2;
      AncestorEdges(q, k, d - 1);
      EdgeDouble(q, k + d - 1);
      EdgeDouble(q + 1, k + d - 1);
      EdgeMono(2 * q, i, k + d);
      EdgeMono(i + 1, 2 * (q + 1), k + d);
    }
  }

  /** A hash whose digits follow a path that starts at (0, 0) with a '0'
      decodes, from character s (0 or 1) through character k, to the path's
      tile k. */
  lemma {:induction false} SliceFollowsPath(h: string, path: seq<Tile>, s: nat, k: nat)
    requires AllQuad(h) && |h| == |path| && DigitsFollow(h, path)
    requires |h| > 0 && h[0] == '0' && path[0] == Tile(0, 0)
    requires s <= 1 && k < |h|
    ensures TileOf(h[s..k + 1]) == path[k]
  {
    if k == 0 {
      if s == 0 {
        assert h[0..1] == [] + ['0'];
        TileOfAppend([], '0');
      } else {
        assert h[1..1] == [];
      }
    } else {
      SliceFollowsPath(h, path, s, k - 1);
      SliceStep(h, s, k, path[k - 1], path[k]);
    }
  }

  /** Reading gridify's output from character s (0 or 1) through character k
      rebuilds the tile of zoom k, provided the zoom-0 tile is (0, 0), that is
      lng < 180. */
  lemma {:induction false} GridHashSliceDecodes(lng: real, lat: real, s: nat, k: nat)
    requires ValidLongitude(lng) && lng < 180.0 && ValidMercator(lat)
    requires s <= 1 && k < MAXZOOM
    ensures TileOf(GridHash(lng, lat)[s..k + 1]) == TileAt(lng, lat, k)
  {
    var path := TilePath(lng, lat);
    TilePathNested(lng, lat);
    HashOfPathFollows(path);
    SliceFollowsPath(HashOfPath(path), path, s, k);
  }

  /** Extending a slice by one digit moves from a tile to the child the digit names. */
  lemma {:induction false} SliceStep(h: string, s: nat, k: nat, prev: Tile, cur: Tile)
    requires AllQuad(h) && s <= k < |h|
    requires TileOf(h[s..k]) == prev
    requires DecodeSingleHash(h[k]) == (cur.x - 2 * prev.x, cur.y - 2 * prev.y)
    ensures TileOf(h[s..k + 1]) == cur
  {
    assert h[s..k + 1] == h[s..k] + [h[k]];
    TileOfAppend(h[s..k], h[k]);
  }

  /** Round trip with the off-by-one accounted for: dropping gridify's zoom-0
      character, the first k digits decode to the point's tile at zoom k. */
  lemma {:induction false} RoundTripAfterOffByOne(lng: real, lat: real, k: nat)
    requires ValidLongitude(lng) && lng < 180.0 && ValidMercator(lat)
    requires 1 <= k < MAXZOOM
    ensures TileOf(GridHash(lng, lat)[1..k + 1]) == TileAt(lng, lat, k)
    ensures Long2Tile(lng, k) == Some(TileOf(GridHash(lng, lat)[1..k + 1]).x)
    ensures Lat2Tile(lat, k) == TileOf(GridHash(lng, lat)[1..k + 1]).y
  {
    GridHashSliceDecodes(lng, lat, 1, k);
    Long2TileDefined(lng, k);
  }

  /** At lng = 180 the slice from character 1 loses the out-of-grid column:
      at zoom 1 the point lies in column 2, but the digit decodes to column 0. */
  lemma AntimeridianSliceDecodes()
    ensures TileAt(180.0, 0.0, 1) == Tile(2, 0)
    ensures TileOf(GridHash(180.0, 0.0)[1..2]) == Tile(0, 0)
  {
    var h := GridHash(180.0, 0.0);
    Long2TileDefined(180.0, 0);
    Long2TileDefined(180.0, 1);
    ScaleIsProduct(0.0, 1);
    GridHashDigits(180.0, 0.0, 1);
    assert h[1..2] == [] + [h[1]];
    TileOfAppend([], h[1]);
  }

  /** The full gridify string read by degridify reports zoom MAXZOOM but the
      tile of zoom MAXZOOM - 1: its first character is taken for a zoom-1
      digit. */
  lemma FullHashDecodesToParent(lng: real, lat: real)
    requires ValidLongitude(lng) && ValidMercator(lat)
    ensures |GridHash(lng, lat)| == MAXZOOM
    ensures TileOf(GridHash(lng, lat)) == TileAt(lng, lat, MAXZOOM - 1)
  {
    var h := GridHash(lng, lat);
    GridHashPrefixDecodes(lng, lat, MAXZOOM - 1);
    assert h[..MAXZOOM] == h;
  }

  /** The first k + 1 characters of a point's hash, the zoom-0 one included,
      decode to the point's tile at zoom k, at every longitude: read as a
      quadrant, the zoom-0 digit names the zoom-0 tile itself. */
  lemma {:induction false} GridHashPrefixDecodes(lng: real, lat: real, k: nat)
    requires ValidLongitude(lng) && ValidMercator(lat) && k < MAXZOOM
    ensures TileOf(GridHash(lng, lat)[..k + 1]) == TileAt(lng, lat, k)
  {
    var path := TilePath(lng, lat);
    TilePathNested(lng, lat);
    PrefixFollowsPath(path, k);
  }

  /** The hash of a tile path, read from its first character through
      character k, decodes to the path's tile k. */
  lemma {:induction false} PrefixFollowsPath(path: seq<Tile>, k: nat)
    requires IsTilePath(path) && k < |path|
    ensures TileOf(HashOfPath(path)[..k + 1]) == path[k]
  {
    var h := HashOfPath(path);
    TileOfNextPrefix(h, k);
    assert h[k] == PathChar(path, k);
    if k > 0 {
      PrefixFollowsPath(path, k - 1);
    }
  }

  /** The box degridify reports for the zoom-k digits of a point's hash
      (after the zoom-0 character) contains the point, western and northern
      edges inclusive. */
  lemma {:induction false} DecodedBoxContainsPoint(lng: real, lat: real, k: nat)
    requires ValidLongitude(lng) && lng < 180.0 && ValidMercator(lat)
    requires 1 <= k < MAXZOOM
    ensures var b := TileBounds(TileOf(GridHash(lng, lat)[1..k + 1]), k);
      b.west <= lng < b.east && b.top <= lat < b.bottom
  {
    GridHashSliceDecodes(lng, lat, 1, k);
    TileBoxContainsPoint(lng, lat, k, TileOf(GridHash(lng, lat)[1..k + 1]));
  }

  /** The bounds of the tile a point falls in at zoom k contain the point. */
  lemma {:induction false} TileBoxContainsPoint(lng: real, lat: real, k: nat, t: Tile)
    requires ValidLongitude(lng) && ValidMercator(lat) && t == TileAt(lng, lat, k)
    ensures var b := TileBounds(t, k); b.west <= lng < b.east && b.top <= lat < b.bottom
  {
    Long2TileDefined(lng, k);
    LonInColumn(lng, k, t.x);
    LatInRow(lat, k, t.y);
  }

  /** The north-west corner of the grid lies in tile (0, 0) at every zoom,
      so its hash is all zeros. */
  lemma GridHashNorthWestCorner()
    ensures GridHash(-180.0, 0.0) == "0000000000000000"
  {
    var h := GridHash(-180.0, 0.0);
    forall z: nat | z < MAXZOOM
      ensures TileAt(-180.0, 0.0, z) == Tile(0, 0)
    {
      Long2TileDefined(-180.0, z);
      ScaleIsProduct(0.0, z);
    }
    forall i | 0 <= i < MAXZOOM
      ensures h[i] == '0'
    {
      if i > 0 {
        GridHashDigits(-180.0, 0.0, i);
      }
    }
  }

  /** The degridify tests, with latitudes as Mercator fractions: 0 is the
      northern edge of the grid, 0.5 the equator, 0.25 about 66.51 degrees. */
  lemma DegridifyExamples()
    ensures TileOf("0") == Tile(0, 0) && TileOf("1") == Tile(1, 0)
    ensures TileOf("2") == Tile(0, 1) && TileOf("3") == Tile(1, 1)
    ensures TileBounds(TileOf("0"), 1) == Bounds(-180.0, 0.0, 0.0, 0.5)
    ensures TileBounds(TileOf("1"), 1) == Bounds(0.0, 0.0, 180.0, 0.5)
    ensures TileBounds(TileOf("2"), 1) == Bounds(-180.0, 0.5, 0.0, 1.0)
    ensures TileBounds(TileOf("3"), 1) == Bounds(0.0, 0.5, 180.0, 1.0)
    ensures TileBounds(TileOf("00"), 2) == Bounds(-180.0, 0.0, -90.0, 0.25)
  {
    assert "00"[..1] == "0";
  }
}
