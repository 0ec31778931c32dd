/** The alphabet of a hash: one base-4 digit 2 * y + x per quadrant, where x
    and y are the column and row parities of a tile inside its parent. */
module QuadrantCode {

  predicate IsParity(b: int)
  {
    b == 0 || b == 1
  }

  predicate IsQuadChar(c: char)
  {
    '0' <= c <= '3'
  }

  /** encodeSingleHash: (2 * relLat + relLng).toString(4) for a pair of parities. */
  function EncodeSingleHash(relLng: int, relLat: int): (c: char)
    requires IsParity(relLng) && IsParity(relLat)
    ensures IsQuadChar(c)
    ensures c as int - '0' as int == 2 * relLat + relLng
  {
    "0123"[2 * relLat + relLng]
  }

  /** decodeSingleHash: parseInt(c, 4), split into (code % 2, (code - code % 2) / 2). */
  function DecodeSingleHash(hashChar: char): (r: (int, int))
    requires IsQuadChar(hashChar)
    ensures IsParity(r.0) && IsParity(r.1)
    ensures EncodeSingleHash(r.0, r.1) == hashChar
  {
    var code := hashChar as int - '0' as int;
    var relLng := code % 2;
    (relLng, (code - relLng) / 2)
  }

  /** Decoding undoes encoding on all four parity pairs. */
  lemma {:induction false} SingleHashRoundTrip(relLng: int, relLat: int)
    requires IsParity(relLng) && IsParity(relLat)
    ensures DecodeSingleHash(EncodeSingleHash(relLng, relLat)) == (relLng, relLat)
  {
  }

  /** Two parity pairs with the same digit are the same pair. */
  lemma {:induction false} EncodeSingleHashInjective(a: int, b: int, c: int, d: int)
    requires IsParity(a) && IsParity(b) && IsParity(c) && IsParity(d)
    requires EncodeSingleHash(a, b) == EncodeSingleHash(c, d)
    ensures a == c && b == d
  {
  }

  /** The four digits of the encode/decode tests. */
  lemma SingleHashExamples()
    ensures EncodeSingleHash(0, 0) == '0' && EncodeSingleHash(1, 0) == '1'
    ensures EncodeSingleHash(0, 1) == '2' && EncodeSingleHash(1, 1) == '3'
    ensures DecodeSingleHash('0') == (0, 0) && DecodeSingleHash('1') == (1, 0)
    ensures DecodeSingleHash('2') == (0, 1) && DecodeSingleHash('3') == (1, 1)
  {
  }
}
