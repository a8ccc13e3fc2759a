/** 32-bit wrap-around sequence numbers (section 3.4 of RFC 9293). */
module TcpSequence {
  import opened MachineTypes

  const MODULUS := 0x1_0000_0000
  const HALF := 0x8000_0000

  /** `int32(a - b)` on two unsigned 32-bit operands. */
  function SignedDifference(a: uint32, b: uint32): int {
    var d := (a - b) % MODULUS;
    if d < HALF then d else d - MODULUS
  }

  predicate SeqLT(a: uint32, b: uint32) {
    SignedDifference(a, b) < 0
  }

  predicate SeqLTE(a: uint32, b: uint32) {
    SignedDifference(a, b) <= 0
  }

  predicate SeqGT(a: uint32, b: uint32) {
    SignedDifference(a, b) > 0
  }

  /** Whether `[aStart, aEnd)` overlaps `[bStart, bEnd)`. */
  predicate SeqOverlap(aStart: uint32, aEnd: uint32, bStart: uint32, bEnd: uint32) {
    SeqLT(aStart, bEnd) && SeqLT(bStart, aEnd)
  }

  /** The sequence number carried on the wire by stream position `pos`. */
  function Wire(isn: uint32, pos: int): uint32 {
    (isn + pos) % MODULUS
  }

  /** Two positions close enough for their wire numbers to be compared. */
  predicate Near(p: int, q: int) {
    -HALF < p - q < HALF
  }

  lemma WireAdd(isn: uint32, pos: int, n: int)
    ensures Wire(isn, pos + n) == (Wire(isn, pos) + n) % MODULUS
  {
  }

  /** Comparison of wire numbers is comparison of the positions behind them. */
  lemma WireOrder(isn: uint32, p: int, q: int)
    requires Near(p, q)
    ensures SignedDifference(Wire(isn, p), Wire(isn, q)) == p - q
    ensures Wire(isn, p) == Wire(isn, q) <==> p == q
  {
    var k1 := (isn + p) / MODULUS;
    var k2 := (isn + q) / MODULUS;
    var d := Wire(isn, p) - Wire(isn, q);
    assert d == (p - q) - (k1 - k2) * MODULUS;
  }

  /** So the comparisons on the wire are the comparisons of positions. */
  lemma WireCompares(isn: uint32, p: int, q: int)
    requires Near(p, q)
    ensures SeqLT(Wire(isn, p), Wire(isn, q)) <==> p < q
    ensures SeqLTE(Wire(isn, p), Wire(isn, q)) <==> p <= q
    ensures SeqGT(Wire(isn, p), Wire(isn, q)) <==> p > q
  {
    WireOrder(isn, p, q);
  }

  /** The half-range is exact: at distance 2^31 both numbers precede each other. */
  lemma HalfRangeIsSharp(isn: uint32, p: int)
    ensures SeqLT(Wire(isn, p), Wire(isn, p + HALF)) && SeqLT(Wire(isn, p + HALF), Wire(isn, p))
  {
    var a, b := Wire(isn, p), Wire(isn, p + HALF);
    WireAdd(isn, p, HALF);
    assert b == a + HALF || b == a + HALF - MODULUS;
  }
}
