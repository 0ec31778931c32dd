# geotilehash in Dafny

A model of geotilehash, a quadtree hash over the Web-Mercator slippy-tile
grid. At zoom z each axis is cut into 2^z tiles. A point with a latitude
inside the Mercator grid becomes a string of MAXZOOM = 16 characters, one per
zoom 0 .. 15. A hash string becomes a tile,
its zoom and its bounding box. Two corners of a box become their common hash
prefix and the zoom levels at which `long2tile` puts the second corner's
value at least one column above the first's, for the two longitudes and for
the two latitudes (fed to the same longitude formula).

The project has four modules:

- `TileProjection` (`projection.dfy`): `long2tile`, `lat2tile`, `tile2long`
  and `tile2lat` over exact reals.
  - Longitudes use the source's linear map (lon + 180) / 360.
  - A latitude enters as its Mercator fraction m, the value `lat2tile`
    computes before scaling by 2^z. m is 0 at the grid's northern edge and
    1 at its southern edge. Its log/tan/cos formula is kept abstract.
  - `tile2lat` likewise yields the fraction y / 2^z of a row's northern edge.
- `QuadrantCode` (`quadrant.dfy`): `encodeSingleHash` and `decodeSingleHash`.
  A pair of parities (x, y) is the base-4 digit 2·y + x.
- `Hasher` (`hasher.dfy`): `gridify` and `degridify`.
  - Both are methods with the source's loops: gridify's two passes over
    `hArr`, and degridify's `forEach` that rebuilds each tile from the
    previous one.
  - Each method is proved equal to a specification function (`GridHash`,
    `TileOf`). The lemmas are stated about those functions.
- `Coverage` (`coverage.dfy`): `smallestHash` and the part of
  `getRelevantHashes` that the source actually computes.
  - The common-prefix loop is written once (`LongestCommonPrefix`).
  - The zoom search that finds `zdx` and `zdy` is written once
    (`SpreadZoom`).

The encoder and decoder disagree about the first character:

- `gridify` writes the zoom-0 tile as the hexadecimal digit 4·y0 + x0. For
  latitudes inside the Mercator grid this is '0', or '1' at lon = 180.
- `degridify` reads its first character as the zoom-1 quadrant.

The model keeps this behaviour as written. The lemmas state what it does to
a round trip:

- For lng < 180, the characters from index 1 to index k decode to the
  point's zoom-k tile. At lng = 180 they decode to column 0, not 2^k.
- The characters from index 0 to index k decode to the zoom-k tile, at every
  longitude: read as a quadrant, the zoom-0 digit names the zoom-0 tile.
- So the whole 16-character hash decodes to the zoom-15 tile, reported as
  zoom 16.
- `retVal1` = corner1[..minZoom] decodes to the zoom-(minZoom − 1) tile.

## Model

| member | source | states |
|---|---|---|
| TileProjection.Long2Tile | index.js:4-7 | a non-null column lies in [0, 2^zoom], the range the null check lets through |
| TileProjection.Long2TileMeaning | index.js:5-6 | a non-null value v satisfies v ≤ t·2^zoom < v + 1 with t = (lon + 180) / 360; the result is null exactly when t < 0 or t·2^zoom ≥ 2^zoom + 1 |
| TileProjection.Long2TileDefined | index.js:4-7 | on lon ∈ [-180, 180] the result is never null and equals floor(t·2^zoom); it is the out-of-grid column 2^zoom exactly when lon = 180 |
| TileProjection.Long2TileExamples | gridify.test.js:3-16 | the pinned values at zooms 0, 1 and 12, including 4096 at lon = 180, zoom 12; 180.5 still gives column 1 at zoom 0, while 541 and -181 give null |
| TileProjection.Lat2Tile | index.js:8-11 | a Mercator fraction in [0, 1) gives a row in [0, 2^zoom) |
| TileProjection.Lat2TileMeaning | index.js:9 | the row r satisfies r ≤ m·2^zoom < r + 1 |
| TileProjection.DoublingStep | index.js:53-54 | floor(t·2^(z+1)) − 2·floor(t·2^z) is 0 or 1: a tile is twice its parent plus a parity |
| TileProjection.FloorBracket | index.js:5 | a point with fraction t lies between the edges of tile floor(t·2^z) |
| TileProjection.Tile2Long | index.js:13-15 | the western edge of column x at zoom z; long2tile inverts it on every edge 0 .. 2^z (Tile2LongInverse), and it brackets every longitude of its column (LonInColumn) |
| TileProjection.Tile2Lat | index.js:16-19 | the northern edge of row y at zoom z, as a Mercator fraction; lat2tile inverts it (Tile2LatInverse), and it brackets every fraction of its row (LatInRow) |
| TileProjection.EdgeStrict | index.js:13-19 | distinct edges are strictly ordered like their indices |
| TileProjection.Tile2LongInverse | index.js:13-15 | tile2long of any column edge x ∈ [0, 2^z] lies in [-180, 180], and long2tile maps it back to x |
| TileProjection.Tile2LatInverse | index.js:16-19 | lat2tile maps the edge tile2lat(y) back to y; a row inside the grid has its edge fraction in [0, 1) |
| TileProjection.EdgeDouble | index.js:13-14 | edge a at zoom z is edge 2·a at zoom z + 1 |
| TileProjection.EdgeMono | index.js:13-14 | at one zoom, edges are ordered like their indices |
| TileProjection.LonInColumn | index.js:4-15 | a longitude lies between tile2long of its long2tile column and tile2long of the next column, western edge inclusive |
| TileProjection.LatInRow | index.js:8-19 | a Mercator fraction lies between the northern edges of its lat2tile row and of the next row, northern edge inclusive |
| TileProjection.TileEdgeOrder | index.js:13-15 | tile2long orders edges the same way their fractions are ordered |
| QuadrantCode.EncodeSingleHash | index.js:21-23 | for parities, the result is one of '0'..'3', namely the digit 2·relLat + relLng |
| QuadrantCode.DecodeSingleHash | index.js:25-30 | a digit '0'..'3' decodes to two parities, and encoding them gives the digit back |
| QuadrantCode.SingleHashRoundTrip | index.js:21-30 | decodeSingleHash(encodeSingleHash([a, b])) = [a, b] for all parities a, b |
| QuadrantCode.EncodeSingleHashInjective | index.js:21-23 | distinct parity pairs get distinct digits |
| QuadrantCode.SingleHashExamples | gridify.test.js:32-42 | the four encode cases and the four decode cases of the tests |
| Hasher.TileAt | index.js:43-48 | the pair [long2tile(lng, z), lat2tile(lat, z)] pushed for zoom z has 0 ≤ x ≤ 2^z and 0 ≤ y < 2^z |
| Hasher.ParityStep | index.js:52-54 | relLngTile and relLatTile, the offsets of a tile from twice its parent, are parities |
| Hasher.HexDigit | index.js:50 | for the values 0 .. 3 that a zoom-0 tile inside the grid gives, the hex digit is a base-4 digit that decodes to (n mod 2, n div 2) |
| Hasher.PathChar | index.js:49-56 | the map callback yields a base-4 digit; at idz = 0 it decodes back to the zoom-0 pair itself, and at idz > 0 to the pair's offset from twice the pair before |
| Hasher.TilePathNested | index.js:43-54 | the 16 pairs gridify pushes start at (0, 0), or (1, 0) exactly when lng = 180, and each later pair is twice the one before plus a parity on each axis |
| Hasher.HashOfPath | index.js:49-57 | the map and join gives one base-4 character per pair; character 0 is '1' when the zoom-0 column is 1 and '0' otherwise |
| Hasher.HashOfPathFollows | index.js:52-55 | every character after the first decodes back to its pair's offset from twice the pair before |
| Hasher.GridHash | index.js:49-57 | the joined string has exactly 16 characters, all in '0'..'3'; character 0 is '1' when lng = 180 and '0' otherwise |
| Hasher.Gridify | index.js:38-58 | the two loops build exactly GridHash(lng, lat), 16 base-4 characters |
| Hasher.PushTiles | index.js:43-48 | the first loop pushes exactly the pair [long2tile(lng, z), lat2tile(lat, z)] for z = 0 .. 15, in order |
| Hasher.JoinTiles | index.js:49-57 | the map and join yields exactly HashOfPath of the pairs |
| Hasher.GridHashDigits | index.js:52-55 | character i ≥ 1 decodes to (x_i − 2·x_(i−1), y_i − 2·y_(i−1)) |
| Hasher.GridHashNorthWestCorner | index.js:43-57 | the north-west corner of the grid hashes to sixteen '0's |
| Hasher.TileBounds | index.js:79-84 | the bounds array [tile2long(x), tile2lat(y), tile2long(x + 1), tile2lat(y + 1)] in the source's order; it spans a box of positive width and height (TileBoundsOrdered) and contains every point of the tile (TileBoxContainsPoint) |
| Hasher.TileBoundsOrdered | index.js:79-84 | west < east and top < bottom for every tile and zoom |
| Hasher.TileOf | index.js:66-76 | the tile rebuilt from a base-4 hash h lies in [0, 2^n) on both axes, n the length of h |
| Hasher.Degridify | index.js:64-94 | for a non-empty base-4 hash: zoom = length, tiles = TileOf(hash) with 0 ≤ x, y < 2^zoom, and bounds = [tile2long(x), tile2lat(y), tile2long(x + 1), tile2lat(y + 1)] in the source's order |
| Hasher.TileOfAppend | index.js:70-74 | appending digit d doubles the tile and adds decodeSingleHash(d) |
| Hasher.TileOfNextPrefix | index.js:66-75 | the tile of the first z + 1 digits is twice the tile of the first z digits plus digit z's parities; the empty prefix gives (0, 0) |
| Hasher.TileOfPrefix | index.js:66-76 | the first k digits of a hash of length n decode to the whole hash's tile with both indices halved, rounding down, n − k times: its zoom-k ancestor |
| Hasher.PrefixBoxContains | index.js:79-84 | the bounds of a prefix contain the bounds of the whole hash, on both axes |
| Hasher.NestedBounds | index.js:79-84 | the zoom-k bounds of a zoom-z tile's ancestor (indices halved z − k times) contain the tile's zoom-z bounds |
| Hasher.AncestorEdges | index.js:13-19 | a zoom-(k + d) cell lies between the western (northern) edge of the zoom-k cell d halvings up and the eastern (southern) edge of that cell |
| Hasher.SliceFollowsPath | index.js:66-75 | a hash whose digits follow a tile path from (0, 0) decodes, from character 0 or 1 through character k, to the path's tile k |
| Hasher.GridHashSliceDecodes | index.js:49-55 | for lng < 180, gridify's characters s..k (s ∈ {0, 1}) decode to the zoom-k tile |
| Hasher.RoundTripAfterOffByOne | index.js:43-55 | for lng < 180 and 1 ≤ k ≤ 15, the degridify tiles of gridify(lng, lat).slice(1, k + 1) are [long2tile(lng, k), lat2tile(lat, k)] |
| Hasher.FullHashDecodesToParent | index.js:66-91 | reading the whole gridify string gives the zoom-15 tile, not the zoom-16 one, at every longitude |
| Hasher.GridHashPrefixDecodes | index.js:49-57 | at every longitude, gridify's characters 0..k decode to the zoom-k tile |
| Hasher.PrefixFollowsPath | index.js:49-57 | the hash of any tile path, read from character 0 through k, decodes to the path's tile k |
| Hasher.AntimeridianSliceDecodes | index.js:4-7 | at lng = 180, zoom 1, the point lies in column 2 but characters 1..1 of its hash decode to column 0 |
| Hasher.DecodedBoxContainsPoint | index.js:79-84 | for lng < 180 and 1 ≤ k ≤ 15, the box of slice(1, k + 1) contains the point (at lng = 180 it is a column-0 box; TileBoxContainsPoint holds at every longitude), with its western and northern edges inclusive |
| Hasher.TileBoxContainsPoint | index.js:43-48 | the degridify-style bounds of the pair gridify pushes for zoom k contain the point |
| Hasher.DegridifyExamples | gridify.test.js:59-66 | tiles and bounds of '0', '1', '2', '3' and '00', with latitudes as fractions: 0 for the top of the grid, 0.5 for the equator, 0.25 for 66.51° |
| Coverage.CommonPrefix | index.js:107-113 | the result is a prefix of both strings and cannot be extended: the strings differ at the next index, or one of them ends there |
| Coverage.CommonPrefixSymmetric | index.js:102-114 | swapping the corners does not change the common prefix |
| Coverage.LongestCommonPrefix | index.js:120-125 | the loop's result is CommonPrefix(corner1, corner2), and idx is its length |
| Coverage.SmallestHash | index.js:102-114 | the result is the common prefix of the two corner hashes and has at most 16 characters |
| Coverage.SmallestHashNonEmpty | index.js:50 | away from lon = 180 the result is never empty: both hashes start with '0' |
| Coverage.SharedPrefixSharedTiles | index.js:43-57 | two hashes agree on their first k characters exactly when the two points share their tile at every zoom below k |
| Coverage.SameCharSameTile | index.js:50-55 | if two points share every tile below zoom z, their characters at z agree exactly when their zoom-z tiles do |
| Coverage.SmallestHashIsSharedTile | index.js:102-114 | the corners share their tile at every zoom the prefix covers and, below 16, not at the next zoom |
| Coverage.Spread | index.js:128-131 | long2tile(hi, z) − long2tile(lo, z), the loop conditions' column difference; once it reaches 1 it stays ≥ 1 at every deeper zoom (SpreadPersists) |
| Coverage.SpreadPersists | index.js:128 | once long2tile(hi, z) − long2tile(lo, z) ≥ 1, it stays ≥ 1 at every deeper zoom |
| Coverage.SpreadZoom | index.js:127-131 | from the start zoom, the search stops at the first zoom below 16 where long2tile(hi) − long2tile(lo) ≥ 1, and that difference stays ≥ 1 from there on |
| Coverage.SharedPrefixNoSpread | index.js:127-128 | at every zoom the common prefix covers, the corners' columns are equal, so starting zdx at idx skips no stopping zoom |
| Coverage.HashPrefixDecodes | index.js:136-137 | at every longitude, degridify of the first m characters of a hash gives the zoom-(m − 1) tile |
| Coverage.GetRelevantHashes | index.js:116-137 | the corners are the two gridify strings and result is their common prefix; zdx is the first zoom from 0 with east − west ≥ 1 column, and zdy the first from idx with north − south ≥ 1 column (long2tile on latitudes); minZoom = min(zdy, zdx); retVal1 = corner1[..minZoom] extends result; the degridify of retVal1 exists exactly when minZoom > 0 and is its tile, zoom and bounds |

## Left out

- Floating point: every quantity is an exact real. This matters for
  `long2tile`, `tile2long` and `(last / 2^idz) * 2^(idz+1)` in gridify and
  degridify. The last of these is exactly 2·last for the integers involved,
  and it is modelled as 2·last.
- Transcendental functions. lat2tile's log/tan/cos and tile2lat's exp/atan
  are not modelled. A latitude is given as its Mercator fraction m ∈ [0, 1).
  The latitude entries of degridify's bounds are such fractions, not
  degrees. The relation between a latitude in degrees and its fraction is
  not modelled. getRelevantHashes needs both, so a bounding-box latitude
  carries both.
- The source does not range-check lat2tile (that check is commented out).
  The model's row range is therefore stated only for fractions in [0, 1).
- Gridify, SmallestHash, GetRelevantHashes (and TileAt, GridHash): latitudes
  whose Mercator fraction lies outside [0, 1) (beyond about ±85.0511°) are
  excluded by ValidMercator. There lat2tile gives rows outside the grid: the
  source's first character is a negative hex number such as '-4' north of
  the grid, and a hex number 4 or above, such as '4', '5', '8' or '9', south
  of it. The hash has more than 16 characters north of the grid and right at
  the south pole, where the fraction reaches 4 and 4·y0 + x0 needs two hex
  digits.
- Invalid input. The source has no validation, so the model uses
  preconditions instead:
  - longitudes must lie in [-180, 180], where long2tile never returns null;
    a null would coerce to 0 in later arithmetic;
  - hash characters must be in '0'..'3', because parseInt yields NaN
    otherwise;
  - latitudes passed as longitudes to the zdy loop must lie in (-90, 90).
- Degridify requires a non-empty hash. On '' the source throws, reading
  `hArr[-1]`.
  - GetRelevantHashes records this case as `decoded = None`; it happens
    when minZoom = 0.
  - By SmallestHashNonEmpty it can happen only when a corner is at
    lon = 180.
- `hashVal.toLowerCase()` is left out: base-4 digits have no case.
- GetRelevantHashes stops at the degridify of retVal1.
  - The `console.log` is left out.
  - The covering logic is commented out in the source, and the function
    returns undefined. The model returns the computed values instead of
    inventing a result.
- GetRelevantHashes: its contract ties the decoded tile to TileOf(retVal1).
  HashPrefixDecodes supplies the meaning of that tile as a point's tile at
  zoom minZoom − 1.
- The prefix loop reads `corner2[idx]`. Past the end of a string this is
  undefined in JavaScript, and that never equals a character. The model
  stops the loop there; both corners always have 16 characters anyway.
- `module.exports` and the test helpers are left out.
- Test expectations that disagree with index.js are not reproduced:
  - gridify.test.js:47-56 expects the first character to be a zoom-1 digit;
  - gridify.test.js:73 expects three tile entries;
  - gridify.test.js:100 expects '', where the code gives at least '0' (see
    SmallestHashNonEmpty);
  - gridify.test.js:108-132 expects arrays from getRelevantHashes, which
    returns undefined.
- The lat2tile tests and the decimal bounds of the degridify tests depend
  on the transcendental formulas and are not reproduced.
