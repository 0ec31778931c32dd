/** smallestHash and the values getRelevantHashes computes before its
    covering branch (which is commented out, so the function returns
    nothing): the corner hashes, their common prefix, the zoom searches zdx
    and zdy, minZoom, retVal1 and the degridify of retVal1. */
module Coverage {
  import opened TileProjection
  import opened QuadrantCode
  import opened Hasher

  /** A latitude both in degrees (the zdy loop hands these to long2tile)
      and as its Mercator fraction (what gridify's lat2tile works from). */
  datatype Latitude = Latitude(degrees: real, frac: real)

  /** The [west, south, east, north] array: corner 1 is (west, south),
      corner 2 is (east, north). Nothing orders the two corners. */
  datatype BBox = BBox(west: real, south: Latitude, east: real, north: Latitude)

  /** The values getRelevantHashes computes; decoded is None where the
      degridify call throws (retVal1 empty). */
  datatype Relevant = Relevant(corner1: string, corner2: string, result: string,
                               zdx: nat, zdy: nat, minZoom: nat, retVal1: string,
                               decoded: Option<Decoded>)

  predicate ValidLatitude(lat: Latitude)
  {
    -90.0 < lat.degrees < 90.0 && ValidMercator(lat.frac)
  }

  predicate ValidBBox(b: BBox)
  {
    ValidLongitude(b.west) && ValidLongitude(b.east) && ValidLatitude(b.south) && ValidLatitude(b.north)
  }

  /** The longest common prefix of two strings: a prefix of both that
      cannot be extended. */
  function CommonPrefix(a: string, b: string): (p: string)
    ensures |p| <= |a| && |p| <= |b|
    ensures p == a[..|p|] && p == b[..|p|]
    ensures |p| == |a| || |p| == |b| || a[|p|] != b[|p|]
  {
    if |a| == 0 || |b| == 0 || a[0] != b[0] then ""
    else [a[0]] + CommonPrefix(a[1..], b[1..])
  }

  /** A common prefix that cannot be extended is the longest one. */
  lemma {:induction false} CommonPrefixUnique(a: string, b: string, k: nat)
    requires k <= |a| && k <= |b| && a[..k] == b[..k]
    requires k == |a| || k == |b| || a[k] != b[k]
    ensures CommonPrefix(a, b) == a[..k]
  {
  }

  /** Swapping the corners does not change the common prefix. */
  lemma {:induction false} CommonPrefixSymmetric(a: string, b: string)
    ensures CommonPrefix(a, b) == CommonPrefix(b, a)
  {
    CommonPrefixUnique(b, a, |CommonPrefix(a, b)|);
  }

  /** The prefix loop shared by smallestHash and getRelevantHashes: advance
      idx while both corners have the same character there, collecting it in
      result. (An index past the end of corner2 reads undefined, which equals
      no character.) */
  method LongestCommonPrefix(corner1: string, corner2: string) returns (idx: nat, result: string)
    ensures result == CommonPrefix(corner1, corner2) && idx == |result|
  {
    idx := 0;
    result := "";
    while idx < |corner1| && idx < |corner2| && corner1[idx] == corner2[idx]
      invariant idx <= |corner1| && idx <= |corner2|
      invariant result == corner1[..idx] && corner1[..idx] == corner2[..idx]
    {
      result := result + [corner1[idx]];
      idx := idx + 1;
    }
    CommonPrefixUnique(corner1, corner2, idx);
  }

  /** smallestHash: the common prefix of the two corners' hashes. */
  method SmallestHash(bounds: BBox) returns (result: string)
    requires ValidBBox(bounds)
    ensures result == CommonPrefix(GridHash(bounds.west, bounds.south.frac), GridHash(bounds.east, bounds.north.frac))
    ensures |result| <= MAXZOOM
  {
    var corner1 := Gridify(bounds.west, bounds.south.frac);
    var corner2 := Gridify(bounds.east, bounds.north.frac);
    var idx;
    idx, result := LongestCommonPrefix(corner1, corner2);
  }

  /** Two points' hashes agree on their first k characters exactly when the
      points lie in the same tile at every zoom below k. */
  lemma {:induction false} SharedPrefixSharedTiles(lng1: real, lat1: real, lng2: real, lat2: real, k: nat)
    requires ValidLongitude(lng1) && ValidMercator(lat1) && ValidLongitude(lng2) && ValidMercator(lat2)
    requires k <= MAXZOOM
    ensures GridHash(lng1, lat1)[..k] == GridHash(lng2, lat2)[..k] <==> SameTilesBelow(lng1, lat1, lng2, lat2, k)
  {
    if k > 0 {
      var z := k - 1;
      var h1, h2 := GridHash(lng1, lat1), GridHash(lng2, lat2);
      SharedPrefixSharedTiles(lng1, lat1, lng2, lat2, z);
      PrefixStep(h1, h2, k);
      SameTilesBelowStep(lng1, lat1, lng2, lat2, k);
      SameCharSameTile(lng1, lat1, lng2, lat2, z);
      IffChain(h1[..k] == h2[..k], h1[..z] == h2[..z], h1[z] == h2[z],
               SameTilesBelow(lng1, lat1, lng2, lat2, k), SameTilesBelow(lng1, lat1, lng2, lat2, z),
               TileAt(lng1, lat1, z) == TileAt(lng2, lat2, z));
    }
  }

  /** Two strings agree on k > 0 characters exactly when they agree on k - 1
      and on character k - 1. */
  lemma {:induction false} PrefixStep(h1: string, h2: string, k: nat)
    requires 0 < k <= |h1| && k <= |h2|
    ensures h1[..k] == h2[..k] <==> h1[..k - 1] == h2[..k - 1] && h1[k - 1] == h2[k - 1]
  {
    assert h1[..k] == h1[..k - 1] + [h1[k - 1]] && h2[..k] == h2[..k - 1] + [h2[k - 1]];
  }

  lemma IffChain(prefix: bool, shorter: bool, sameChar: bool, tiles: bool, fewer: bool, tile: bool)
    requires prefix <==> shorter && sameChar
    requires shorter <==> fewer
    requires tiles <==> fewer && tile
    requires fewer ==> (sameChar <==> tile)
    ensures prefix <==> tiles
  {
  }

  /** The two points lie in the same tile at every zoom below k. */
  predicate SameTilesBelow(lng1: real, lat1: real, lng2: real, lat2: real, k: nat)
    requires ValidLongitude(lng1) && ValidMercator(lat1) && ValidLongitude(lng2) && ValidMercator(lat2)
  {
    forall j :: 0 <= j < k ==> TileAt(lng1, lat1, j) == TileAt(lng2, lat2, j)
  }

  lemma {:induction false} SameTilesBelowStep(lng1: real, lat1: real, lng2: real, lat2: real, k: nat)
    requires ValidLongitude(lng1) && ValidMercator(lat1) && ValidLongitude(lng2) && ValidMercator(lat2)
    requires k > 0
    ensures SameTilesBelow(lng1, lat1, lng2, lat2, k)
      <==> SameTilesBelow(lng1, lat1, lng2, lat2, k - 1) && TileAt(lng1, lat1, k - 1) == TileAt(lng2, lat2, k - 1)
  {
    if SameTilesBelow(lng1, lat1, lng2, lat2, k - 1) && TileAt(lng1, lat1, k - 1) == TileAt(lng2, lat2, k - 1) {
      forall j | 0 <= j < k
        ensures TileAt(lng1, lat1, j) == TileAt(lng2, lat2, j)
      {
        if j < k - 1 {
          assert SameTilesBelow(lng1, lat1, lng2, lat2, k - 1);
        }
      }
    }
  }

  /** Given equal ancestors, two points' characters at zoom z agree exactly
      when their tiles at zoom z do. */
  lemma {:induction false} SameCharSameTile(lng1: real, lat1: real, lng2: real, lat2: real, z: nat)
    requires ValidLongitude(lng1) && ValidMercator(lat1) && ValidLongitude(lng2) && ValidMercator(lat2)
    requires z < MAXZOOM
    ensures SameTilesBelow(lng1, lat1, lng2, lat2, z) ==>
      (GridHash(lng1, lat1)[z] == GridHash(lng2, lat2)[z] <==> TileAt(lng1, lat1, z) == TileAt(lng2, lat2, z))
  {
    var c1, c2 := GridHash(lng1, lat1)[z], GridHash(lng2, lat2)[z];
    if !SameTilesBelow(lng1, lat1, lng2, lat2, z) {
    } else if z == 0 {
      Long2TileDefined(lng1, 0);
      Long2TileDefined(lng2, 0);
    } else {
      assert TileAt(lng1, lat1, z - 1) == TileAt(lng2, lat2, z - 1);
      GridHashDigits(lng1, lat1, z);
      GridHashDigits(lng2, lat2, z);
      if c1 != c2 {
        assert EncodeSingleHash(DecodeSingleHash(c1).0, DecodeSingleHash(c1).1) == c1;
      }
    }
  }

  /** What smallestHash's result denotes: the corners share their tile at
      every zoom the prefix covers and, below MAXZOOM, not at the next one. */
  lemma {:induction false} SmallestHashIsSharedTile(bounds: BBox)
    requires ValidBBox(bounds)
    ensures var r := CommonPrefix(GridHash(bounds.west, bounds.south.frac), GridHash(bounds.east, bounds.north.frac));
      SameTilesBelow(bounds.west, bounds.south.frac, bounds.east, bounds.north.frac, |r|)
      && (|r| < MAXZOOM ==> TileAt(bounds.west, bounds.south.frac, |r|) != TileAt(bounds.east, bounds.north.frac, |r|))
  {
    var w, s, e, n := bounds.west, bounds.south.frac, bounds.east, bounds.north.frac;
    var h1, h2 := GridHash(w, s), GridHash(e, n);
    var r := CommonPrefix(h1, h2);
    SharedPrefixSharedTiles(w, s, e, n, |r|);
    if |r| < MAXZOOM {
      SharedPrefixSharedTiles(w, s, e, n, |r| + 1);
      SameTilesBelowStep(w, s, e, n, |r| + 1);
      assert h1[..|r| + 1] != h2[..|r| + 1] by {
        assert h1[..|r| + 1][|r|] == h1[|r|] && h2[..|r| + 1][|r|] == h2[|r|];
      }
    }
  }

  /** Away from lon = 180 both corners' hashes start with the zoom-0
      character '0', so the common prefix is never empty, and then
      getRelevantHashes never hands degridify the empty string. */
  lemma {:induction false} SmallestHashNonEmpty(bounds: BBox)
    requires ValidBBox(bounds) && bounds.west < 180.0 && bounds.east < 180.0
    ensures var r := CommonPrefix(GridHash(bounds.west, bounds.south.frac), GridHash(bounds.east, bounds.north.frac));
      |r| >= 1 && r[0] == '0'
  {
    var h1, h2 := GridHash(bounds.west, bounds.south.frac), GridHash(bounds.east, bounds.north.frac);
    CommonPrefixUnique(h1, h2, |CommonPrefix(h1, h2)|);
    assert h1[0] == h2[0];
  }

  /** long2tile(hi, z) - long2tile(lo, z): how many columns apart two
      values fall at zoom z. */
  function Spread(lo: real, hi: real, z: nat): int
    requires ValidLongitude(lo) && ValidLongitude(hi)
  {
    Long2TileDefined(lo, z);
    Long2TileDefined(hi, z);
    Long2Tile(hi, z).value - Long2Tile(lo, z).value
  }

  /** Once two values are a column or more apart they stay so at every
      deeper zoom: each zoom at least doubles the gap less one. */
  lemma {:induction false} SpreadPersists(lo: real, hi: real, z: nat, z': nat)
    requires ValidLongitude(lo) && ValidLongitude(hi)
    requires z <= z' && Spread(lo, hi, z) >= 1
    ensures Spread(lo, hi, z') >= 1
  {
    if z < z' {
      SpreadPersists(lo, hi, z, z' - 1);
      Long2TileDefined(lo, z' - 1);
      Long2TileDefined(hi, z' - 1);
      Long2TileDefined(lo, z');
      Long2TileDefined(hi, z');
      DoublingStep(LonFraction(lo), z' - 1);
      DoublingStep(LonFraction(hi), z' - 1);
    }
  }

  /** The two values fall less than one column apart at every zoom in [a, b). */
  predicate NoSpreadBetween(lo: real, hi: real, a: nat, b: nat)
    requires ValidLongitude(lo) && ValidLongitude(hi)
  {
    forall k :: a <= k < b ==> Spread(lo, hi, k) < 1
  }

  /** z is where the search from start stops: the values are less than a
      column apart on [start, z) and, below MAXZOOM, at least a column apart
      from z on. */
  ghost predicate ZoomSearch(lo: real, hi: real, start: nat, z: nat)
    requires ValidLongitude(lo) && ValidLongitude(hi)
  {
    start <= z <= MAXZOOM && NoSpreadBetween(lo, hi, start, z)
    && (z < MAXZOOM ==> forall k :: z <= k ==> Spread(lo, hi, k) >= 1)
  }

  /** A search that starts past a stretch of zooms known to have no spread
      stops where a search from zoom 0 would. */
  lemma {:induction false} ZoomSearchFromZero(lo: real, hi: real, start: nat, z: nat)
    requires ValidLongitude(lo) && ValidLongitude(hi)
    requires NoSpreadBetween(lo, hi, 0, start) && ZoomSearch(lo, hi, start, z)
    ensures ZoomSearch(lo, hi, 0, z)
  {
  }

  /** The zoom search shared by the zdx and zdy loops: from start, step
      while below MAXZOOM and the two values fall less than one column apart. */
  method SpreadZoom(lo: real, hi: real, start: nat) returns (z: nat)
    requires ValidLongitude(lo) && ValidLongitude(hi) && start <= MAXZOOM
    ensures ZoomSearch(lo, hi, start, z)
  {
    z := start;
    while z < MAXZOOM && Spread(lo, hi, z) < 1
      invariant start <= z <= MAXZOOM
      invariant NoSpreadBetween(lo, hi, start, z)
    {
      z := z + 1;
    }
    if z < MAXZOOM {
      forall k | z <= k
        ensures Spread(lo, hi, k) >= 1
      {
        SpreadPersists(lo, hi, z, k);
      }
    }
  }

  /** At every zoom the corner hashes' common prefix covers, the corners lie
      in the same column, so the zdx search skips nothing by starting there. */
  lemma {:induction false} SharedPrefixNoSpread(bounds: BBox, z: nat)
    requires ValidBBox(bounds)
    requires z < |CommonPrefix(GridHash(bounds.west, bounds.south.frac), GridHash(bounds.east, bounds.north.frac))|
    ensures Spread(bounds.west, bounds.east, z) == 0
  {
    SmallestHashIsSharedTile(bounds);
    assert TileAt(bounds.west, bounds.south.frac, z) == TileAt(bounds.east, bounds.north.frac, z);
  }

  lemma {:induction false} SharedPrefixNoSpreadAll(bounds: BBox)
    requires ValidBBox(bounds)
    ensures NoSpreadBetween(bounds.west, bounds.east, 0,
              |CommonPrefix(GridHash(bounds.west, bounds.south.frac), GridHash(bounds.east, bounds.north.frac))|)
  {
    forall z | 0 <= z < |CommonPrefix(GridHash(bounds.west, bounds.south.frac), GridHash(bounds.east, bounds.north.frac))|
      ensures Spread(bounds.west, bounds.east, z) < 1
    {
      SharedPrefixNoSpread(bounds, z);
    }
  }

  /** The first m characters of a point's hash, read by degridify, name the
      point's tile at zoom m - 1. */
  lemma {:induction false} HashPrefixDecodes(lng: real, lat: real, h: string, m: nat)
    requires ValidLongitude(lng) && ValidMercator(lat)
    requires h == GridHash(lng, lat) && 1 <= m <= MAXZOOM
    ensures AllQuad(h[..m]) && TileOf(h[..m]) == TileAt(lng, lat, m - 1)
  {
    GridHashPrefixDecodes(lng, lat, m - 1);
  }

  /** getRelevantHashes up to the degridify of retVal1. */
  method GetRelevantHashes(inBounds: BBox) returns (r: Relevant)
    requires ValidBBox(inBounds)
    ensures r.corner1 == GridHash(inBounds.west, inBounds.south.frac)
    ensures r.corner2 == GridHash(inBounds.east, inBounds.north.frac)
    ensures r.result == CommonPrefix(r.corner1, r.corner2)
    ensures |r.result| <= r.zdx <= MAXZOOM && |r.result| <= r.zdy <= MAXZOOM
    ensures ZoomSearch(inBounds.west, inBounds.east, 0, r.zdx)
    ensures ZoomSearch(inBounds.south.degrees, inBounds.north.degrees, |r.result|, r.zdy)
    ensures r.minZoom == (if r.zdy < r.zdx then r.zdy else r.zdx)
    ensures r.retVal1 == r.corner1[..r.minZoom] && r.result <= r.retVal1
    ensures r.decoded.None? <==> r.minZoom == 0
    ensures r.decoded.Some? ==>
              r.decoded.value == Decoded(TileBounds(TileOf(r.retVal1), r.minZoom), r.minZoom, TileOf(r.retVal1))
  {
    var corner1 := Gridify(inBounds.west, inBounds.south.frac);
    var corner2 := Gridify(inBounds.east, inBounds.north.frac);
    var idx, result := LongestCommonPrefix(corner1, corner2);

    var zdx := SpreadZoom(inBounds.west, inBounds.east, idx);
    SharedPrefixNoSpreadAll(inBounds);
    ZoomSearchFromZero(inBounds.west, inBounds.east, idx, zdx);
    var zdy := SpreadZoom(inBounds.south.degrees, inBounds.north.degrees, idx);

    var minZoom := if zdy < zdx then zdy else zdx;
    var retVal1 := corner1[..minZoom];
    assert result <= retVal1 by {
      assert retVal1[..idx] == corner1[..idx];
    }
    var decoded: Option<Decoded> := None;
    if |retVal1| > 0 {
      var d := Degridify(retVal1);
      decoded := Some(d);
    }
    r := Relevant(corner1, corner2, result, zdx, zdy, minZoom, retVal1, decoded);
  }
}
