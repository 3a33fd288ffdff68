/** Bytes, bits and CAN frames: the vocabulary shared by every layer of the stack. */
module Types {

  type byte = bv8

  /** `uint64_t` microseconds. */
  const TWO_64: nat := 0x1_0000_0000_0000_0000
  type Timestamp = t: nat | t < 0x1_0000_0000_0000_0000

  datatype Option<+T> = None | Some(value: T)

  /** A CAN 2.0B data frame; `data_len` of the C record is `|data|`. The two top bits of `id` are EFF and RTR, the third
      is ERR. */
  datatype RawFrame = Frame(id: bv32, data: seq<byte>)
  type Frame = f: RawFrame | |f.data| <= 8 witness Frame(0, [])

  function Min(a: int, b: int): int {
    if a <= b then a else b
  }

  function Max(a: int, b: int): int {
    if a >= b then a else b
  }

  function Bit(b: bool): nat {
    if b then 1 else 0
  }

  function Pow2(n: nat): (r: nat)
    ensures r > 0
  {
    if n == 0 then 1 else 2 * Pow2(n - 1)
  }

  /** The single-bit byte whose bit `k` is set, counting from the most significant one. */
  function BitMask(k: nat): byte
    requires k < 8
  {
    if k == 0 then 0x80 else if k == 1 then 0x40 else if k == 2 then 0x20 else if k == 3 then 0x10
    else if k == 4 then 0x08 else if k == 5 then 0x04 else if k == 6 then 0x02 else 0x01
  }

  /** Bit `k` of a byte, most significant first. */
  predicate BitOf(b: byte, k: nat)
    requires k < 8
  {
    b & BitMask(k) != 0
  }

  /** Bit `i` of a byte string read most significant bit first: the order of bits on the wire. */
  predicate BitAt(s: seq<byte>, i: nat)
    requires i < 8 * |s|
  {
    BitOf(s[i / 8], i % 8)
  }

  /** Two bytes with the same eight bits are equal. */
  lemma {:induction false} ByteExtensionality(a: byte, b: byte)
    requires forall k: nat | k < 8 :: BitOf(a, k) == BitOf(b, k)
    ensures a == b
  {
    assert BitOf(a, 0) == BitOf(b, 0) && BitOf(a, 1) == BitOf(b, 1) && BitOf(a, 2) == BitOf(b, 2)
        && BitOf(a, 3) == BitOf(b, 3);
    assert BitOf(a, 4) == BitOf(b, 4) && BitOf(a, 5) == BitOf(b, 5) && BitOf(a, 6) == BitOf(b, 6)
        && BitOf(a, 7) == BitOf(b, 7);
  }
}
