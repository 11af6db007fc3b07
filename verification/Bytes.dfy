/** Octets, octet strings and the big-endian reads shared by every wire format. */
module Bytes {
  type byte = x: int | 0 <= x < 256

  type bytes = seq<byte>

  /** uint32_t */
  type Word = n: nat | n < 0x1_0000_0000

  datatype Option<+T> = None | Some(value: T)

  /** Big-endian 16-bit read at offset i. */
  function U16(b: bytes, i: nat): (n: nat)
    requires i + 2 <= |b|
    ensures n < 0x1_0000
  {
    b[i] as int * 256 + b[i + 1] as int
  }

  /** Big-endian 24-bit read at offset i. */
  function U24(b: bytes, i: nat): (n: nat)
    requires i + 3 <= |b|
    ensures n < 0x100_0000
  {
    b[i] as int * 0x1_0000 + b[i + 1] as int * 256 + b[i + 2] as int
  }

  /** Big-endian 32-bit read at offset i. */
  function U32(b: bytes, i: nat): (n: nat)
    requires i + 4 <= |b|
    ensures n < 0x1_0000_0000
  {
    b[i] as int * 0x100_0000 + b[i + 1] as int * 0x1_0000 + b[i + 2] as int * 256 + b[i + 3] as int
  }

  /** Python's struct.pack('>H', n). */
  function Pack16(n: nat): (b: bytes)
    requires n < 0x1_0000
    ensures |b| == 2 && U16(b, 0) == n
  {
    [n / 256, n % 256]
  }

  /** The low three bytes of Python's struct.pack('>I', n). */
  function Pack24(n: nat): (b: bytes)
    requires n < 0x100_0000
    ensures |b| == 3 && U24(b, 0) == n
  {
    [n / 0x1_0000, n / 256 % 256, n % 256]
  }

  /** Python's struct.pack('>I', n). */
  function Pack32(n: nat): (b: bytes)
    requires n < 0x1_0000_0000
    ensures |b| == 4 && U32(b, 0) == n
  {
    Pack16(n / 0x1_0000) + Pack16(n % 0x1_0000)
  }

  lemma SliceOfSlice(b: bytes, q: nat, next: nat, i: nat, j: nat)
    requires i <= j && q + j <= next <= |b|
    ensures b[q..next][i..j] == b[q + i..q + j]
  {
    assert |b[q..next][i..j]| == j - i == |b[q + i..q + j]|;
    assert forall k :: 0 <= k < j - i ==> b[q..next][i..j][k] == b[q + i..q + j][k];
  }
}
