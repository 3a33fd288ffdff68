/** The transfer CRC (CRC-16-CCITT) and what it detects. */
module Crc {
  import opened Types
  import opened CrcRegister

  function CrcByte(c: bv16, b: byte): bv16 {
    Steps(c ^ ((b as bv16) << 8), 8)
  }

  function CrcAdd(c: bv16, bytes: seq<byte>): bv16
    decreases |bytes|
  {
    if bytes == [] then c else CrcAdd(CrcByte(c, bytes[0]), bytes[1..])
  }

  /** Byte `k` of a signature, least significant first. */
  function SignatureByte(signature: bv64, k: nat): byte
    requires k < 8
  {
    (if k == 0 then signature & 0xFF
     else if k == 1 then (signature >> 8) & 0xFF
     else if k == 2 then (signature >> 16) & 0xFF
     else if k == 3 then (signature >> 24) & 0xFF
     else if k == 4 then (signature >> 32) & 0xFF
     else if k == 5 then (signature >> 40) & 0xFF
     else if k == 6 then (signature >> 48) & 0xFF
     else (signature >> 56) & 0xFF) as byte
  }

  function SignatureBytes(signature: bv64): seq<byte> {
    seq(8, k requires 0 <= k < 8 => SignatureByte(signature, k))
  }

  function SignatureCrc(signature: bv64): bv16 {
    CrcAdd(0xFFFF, SignatureBytes(signature))
  }

  /** The CRC a multi-frame transfer carries. */
  function TransferCrc(signature: bv64, payload: seq<byte>): bv16 {
    CrcAdd(SignatureCrc(signature), payload)
  }

  // ---------------------------------------------------------------- the loops of the source

  method AddByte(crc: bv16, b: byte) returns (r: bv16)
    ensures r == CrcByte(crc, b)
  {
    r := crc ^ ((b as bv16) << 8);
    ghost var start := r;
    for j := 0 to 8
      invariant Steps(r, 8 - j) == Steps(start, 8)
    {
      if r & 0x8000 != 0 {
        r := (r << 1) ^ 0x1021;
      } else {
        r := r << 1;
      }
    }
  }

  method Add(crc: bv16, bytes: seq<byte>) returns (r: bv16)
    ensures r == CrcAdd(crc, bytes)
  {
    r := crc;
    for i := 0 to |bytes|
      invariant CrcAdd(r, bytes[i..]) == CrcAdd(crc, bytes)
    {
      r := AddByte(r, bytes[i]);
    }
  }

  method AddSignature(crc: bv16, signature: bv64) returns (r: bv16)
    ensures r == CrcAdd(crc, SignatureBytes(signature))
  {
    var bytes := SignatureBytes(signature);
    r := crc;
    var shift := 0;
    while shift < 64
      invariant 0 <= shift <= 64 && shift % 8 == 0
      invariant CrcAdd(r, bytes[shift / 8..]) == CrcAdd(crc, bytes)
    {
      r := AddByte(r, SignatureByte(signature, shift / 8));
      shift := shift + 8;
    }
  }

  // ---------------------------------------------------------------- the register, bit by bit

  function BitsOf(b: byte): seq<bool> {
    seq(8, k requires 0 <= k < 8 => BitOf(b, k))
  }

  /** A byte string as the bits of the wire. */
  function Bits(bytes: seq<byte>): (r: seq<bool>)
    ensures |r| == 8 * |bytes|
  {
    if bytes == [] then [] else BitsOf(bytes[0]) + Bits(bytes[1..])
  }

  lemma {:induction false} BitsAt(bytes: seq<byte>, i: nat)
    requires i < 8 * |bytes|
    ensures Bits(bytes)[i] == BitAt(bytes, i)
  {
    if i >= 8 {
      BitsAt(bytes[1..], i - 8);
      assert bytes[1..][(i - 8) / 8] == bytes[i / 8];
    }
  }

  // ---------------------------------------------------------------- byte-wise and bit-wise CRCs agree

  lemma {:induction false} CrcAddConcat(c: bv16, a: seq<byte>, b: seq<byte>)
    ensures CrcAdd(c, a + b) == CrcAdd(CrcAdd(c, a), b)
    decreases |a|
  {
    if a == [] {
      assert a + b == b;
    } else {
      assert (a + b)[1..] == a[1..] + b;
      CrcAddConcat(CrcByte(c, a[0]), a[1..], b);
    }
  }

  /** A byte entered at the top of the register and shifted `k` times. */
  function ByteShifted(b: byte, k: nat): bv16
    requires k <= 8
  {
    var w := b as bv16;
    if k == 0 then w << 8 else if k == 1 then w << 9 else if k == 2 then w << 10 else if k == 3 then w << 11
    else if k == 4 then w << 12 else if k == 5 then w << 13 else if k == 6 then w << 14
        else if k == 7 then w << 15 else 0
  }

  predicate ShiftsOn(b: byte, k: nat)
    requires k < 8
  {
    ByteShifted(b, k + 1) == ByteShifted(b, k) << 1
  }

  lemma {:induction false} ByteShiftsOn(b: byte, k: nat)
    requires k < 8
    ensures ShiftsOn(b, k)
  {
  }

  lemma {:induction false} ByteTop(b: byte, k: nat)
    requires k < 8
    ensures TopBit(ByteShifted(b, k)) == BitOf(b, k)
  {
  }

  predicate TopsFrom(b: byte, k: nat)
    requires k <= 8
  {
    TopBits(ByteShifted(b, k), 8 - k) == BitsOf(b)[k..]
  }

  lemma {:induction false} ByteTopBits(b: byte, k: nat)
    requires k <= 8
    ensures TopsFrom(b, k)
    decreases 8 - k
  {
    if k < 8 {
      ByteTopBits(b, k + 1);
      TopsFromMore(b, k);
    }
  }

  lemma {:induction false} TopsFromMore(b: byte, k: nat)
    requires k < 8 && TopsFrom(b, k + 1)
    ensures TopsFrom(b, k)
  {
    hide TopBits;
    hide ByteShifted;
    hide BitOf;
    hide TopBit;
    ByteShiftsOn(b, k);
    ByteTop(b, k);
    TopBitsCons(ByteShifted(b, k), ByteShifted(b, k + 1), 7 - k, BitOf(b, k), BitsOf(b)[k + 1..]);
    assert BitsOf(b)[k..] == [BitOf(b, k)] + BitsOf(b)[k + 1..];
  }

  lemma {:induction false} TopBitsCons(w: bv16, v: bv16, n: nat, bit: bool, rest: seq<bool>)
    requires v == w << 1 && bit == TopBit(w) && rest == TopBits(v, n)
    ensures TopBits(w, n + 1) == [bit] + rest
  {
  }

  predicate RunsOut(b: byte, k: nat)
    requires k <= 8
  {
    Shifted(ByteShifted(b, k), 8 - k) == 0
  }

  lemma {:induction false} ByteRunsOut(b: byte, k: nat)
    requires k <= 8
    ensures RunsOut(b, k)
    decreases 8 - k
  {
    if k < 8 {
      ByteRunsOut(b, k + 1);
      ByteShiftsOn(b, k);
    }
  }

  lemma {:induction false} WordOfByte(c: bv16, b: byte, w: bv16)
    requires w == (b as bv16) << 8 && WordAgrees(c, w, 8) && Shifted(w, 8) == 0
    ensures CrcByte(c, b) == CrcBits(c, TopBits(w, 8))
  {
    hide Steps;
    hide CrcBits;
    hide TopBits;
    hide Shifted;
  }

  lemma {:induction false} ByteIsEightBits(c: bv16, b: byte)
    ensures CrcByte(c, b) == CrcBits(c, BitsOf(b))
  {
    StepsFeed(c, ByteShifted(b, 0), 8);
    ByteTopBits(b, 0);
    ByteRunsOut(b, 0);
    WordOfByte(c, b, ByteShifted(b, 0));
    assert BitsOf(b)[0..] == BitsOf(b);
  }

  /** The byte-wise loop computes the CRC of the bits on the wire. */
  lemma {:induction false} CrcAddIsBitwise(c: bv16, bytes: seq<byte>)
    ensures CrcAdd(c, bytes) == CrcBits(c, Bits(bytes))
    decreases |bytes|
  {
    if bytes != [] {
      ByteIsEightBits(c, bytes[0]);
      CrcAddIsBitwise(CrcByte(c, bytes[0]), bytes[1..]);
      CrcBitsConcat(c, BitsOf(bytes[0]), Bits(bytes[1..]));
    }
  }

  // ---------------------------------------------------------------- what the CRC detects

  /** Whether `p` and `q` agree on every bit outside `[i, i + 16)`. */
  ghost predicate SameOutside(p: seq<byte>, q: seq<byte>, i: nat)
    requires |p| == |q|
  {
    forall k: nat | k < 8 * |p| && !(i <= k < i + 16) :: BitAt(p, k) == BitAt(q, k)
  }

  lemma {:induction false} BitsInjective(p: seq<byte>, q: seq<byte>)
    requires Bits(p) == Bits(q)
    ensures p == q
    decreases |p|
  {
    if p != [] {
      assert Bits(p)[..8] == BitsOf(p[0]) && Bits(q)[..8] == BitsOf(q[0]);
      assert Bits(p)[8..] == Bits(p[1..]) && Bits(q)[8..] == Bits(q[1..]);
      BitsInjective(p[1..], q[1..]);
      forall k: nat | k < 8 ensures BitOf(p[0], k) == BitOf(q[0], k) {
        assert BitsOf(p[0])[k] == BitsOf(q[0])[k];
      }
      ByteExtensionality(p[0], q[0]);
      assert p == [p[0]] + p[1..] && q == [q[0]] + q[1..];
    }
  }

  /** Any damage confined to sixteen consecutive bits of a payload of any length changes the CRC. */
  lemma {:induction false} BurstDetected(signature: bv64, p: seq<byte>, q: seq<byte>, i: nat)
    requires |p| == |q| && p != q && SameOutside(p, q, i)
    ensures TransferCrc(signature, p) != TransferCrc(signature, q)
  {
    var c, u, v := SignatureCrc(signature), Bits(p), Bits(q);
    CrcAddIsBitwise(c, p);
    CrcAddIsBitwise(c, q);
    forall k: nat | k < |u| && !(i <= k < i + 16) ensures u[k] == v[k] {
      BitsAt(p, k);
      BitsAt(q, k);
    }
    if u == v {
      BitsInjective(p, q);
    }
    BitBurst(c, u, v, i);
  }

  lemma {:induction false} CrcInThree(c: bv16, u: seq<bool>, a: nat, b: nat)
    requires a <= b <= |u|
    ensures CrcBits(c, u) == CrcBits(CrcBits(CrcBits(c, u[..a]), u[a..b]), u[b..])
  {
    assert u == u[..a] + u[a..] && u[a..] == u[a..b] + u[b..];
    CrcBitsConcat(c, u[..a], u[a..]);
    CrcBitsConcat(CrcBits(c, u[..a]), u[a..b], u[b..]);
  }

  lemma {:induction false} BitBurst(c: bv16, u: seq<bool>, v: seq<bool>, i: nat)
    requires |u| == |v| && u != v
    requires forall k: nat | k < |u| && !(i <= k < i + 16) :: u[k] == v[k]
    ensures CrcBits(c, u) != CrcBits(c, v)
  {
    var a := Min(i, |u|);
    var b := Min(i + 16, |u|);
    assert u[..a] == v[..a] && u[b..] == v[b..];
    assert u[a..b] != v[a..b] by {
      assert u == u[..a] + u[a..b] + u[b..] && v == v[..a] + v[a..b] + v[b..];
    }
    CrcInThree(c, u, a, b);
    CrcInThree(c, v, a, b);
    MiddlesDiffer(CrcBits(c, u[..a]), u[a..b], v[a..b], u[b..]);
  }

  lemma {:induction false} MiddlesDiffer(x: bv16, u: seq<bool>, v: seq<bool>, rest: seq<bool>)
    requires |u| == |v| <= 16 && u != v
    ensures CrcBits(CrcBits(x, u), rest) != CrcBits(CrcBits(x, v), rest)
  {
    ShortBurst(x, u, v);
    if CrcBits(CrcBits(x, u), rest) == CrcBits(CrcBits(x, v), rest) {
      CrcBitsInjective(CrcBits(x, u), CrcBits(x, v), rest);
      assert false;
    }
  }

  /** Whether `u` and `v` differ in an odd number of places. */
  predicate DifferOddly(u: seq<bool>, v: seq<bool>)
    requires |u| == |v|
  {
    u != [] && ((u[0] != v[0]) != DifferOddly(u[1..], v[1..]))
  }

  lemma {:induction false} OddDifference(u: seq<bool>, v: seq<bool>)
    requires |u| == |v|
    ensures DifferOddly(u, v) == (OddlyMany(u) != OddlyMany(v))
  {
    if u != [] {
      OddDifference(u[1..], v[1..]);
    }
  }

  /** Any odd number of flipped bits in a payload of any length changes the CRC. */
  lemma {:induction false} OddErrorsDetected(signature: bv64, p: seq<byte>, q: seq<byte>)
    requires |p| == |q| && DifferOddly(Bits(p), Bits(q))
    ensures TransferCrc(signature, p) != TransferCrc(signature, q)
  {
    var c := SignatureCrc(signature);
    CrcAddIsBitwise(c, p);
    CrcAddIsBitwise(c, q);
    ParityFollowsMessage(c, Bits(p));
    ParityFollowsMessage(c, Bits(q));
    OddDifference(Bits(p), Bits(q));
  }
}