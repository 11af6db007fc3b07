/** 32-bit TCP sequence numbers and their wraparound-safe comparison. */
module SequenceNumbers {
  const TWO_32: int := 0x1_0000_0000
  const TWO_31: int := 0x8000_0000

  /** A uint32_t assignment: the value modulo 2^32. */
  function Wrap32(x: int): (w: int)
    ensures 0 <= w < TWO_32
  {
    x % TWO_32
  }

  /** static_cast<int32_t>(s1 - s2) on uint32_t operands. */
  function SeqDiff(s1: int, s2: int): (d: int)
    ensures -TWO_31 <= d < TWO_31
  {
    var d := Wrap32(s1 - s2);
    if d < TWO_31 then d else d - TWO_32
  }

  /** Inside the half-range window the wrapped comparison is the true difference of stream offsets. */
  lemma SeqDiffIsTrueDistance(isn: int, a: int, b: int)
    requires -TWO_31 <= a - b < TWO_31
    ensures SeqDiff(Wrap32(isn + a), Wrap32(isn + b)) == a - b
  {
    var wa, wb := Wrap32(isn + a), Wrap32(isn + b);
    var qa, qb := (isn + a) / TWO_32, (isn + b) / TWO_32;
    assert wa - wb == (a - b) - (qa - qb) * TWO_32;
    WrapUnique(wa - wb, a - b, qb - qa);
  }

  /** Inside the window distinct offsets have distinct sequence numbers. */
  lemma WrapInjective(isn: int, a: int, b: int)
    requires -TWO_31 <= a - b < TWO_31
    ensures Wrap32(isn + a) == Wrap32(isn + b) <==> a == b
  {
    SeqDiffIsTrueDistance(isn, a, b);
    assert Wrap32(0) == 0;
  }

  lemma WrapUnique(x: int, y: int, q: int)
    requires x == y + q * TWO_32
    ensures Wrap32(x) == Wrap32(y)
  {
    var k := x / TWO_32 - y / TWO_32 - q;
    assert Wrap32(x) - Wrap32(y) == -k * TWO_32;
  }

  /** Advancing a wrapped sequence number is advancing the offset it stands for. */
  lemma WrapAdvance(isn: int, a: int, n: int)
    ensures Wrap32(Wrap32(isn + a) + n) == Wrap32(isn + (a + n))
  {
    WrapUnique(Wrap32(isn + a) + n, isn + (a + n), -((isn + a) / TWO_32));
  }
}
