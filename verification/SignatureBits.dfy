/** Which CRC a transfer carries: the signature of its data type bit by bit, and the check value. */
module SignatureBits {
  import opened Types
  import opened CrcRegister
  import opened Crc

  /** Bit `i` of a signature, counting from the least significant one. */
  predicate NumberBit(signature: bv64, i: nat)
    requires i < 64
  {
    (signature >> i) & 1 == 1
  }

  /** The 64 bits that a signature contributes: its bytes from the least significant one up, each of them from its most
      significant bit down. */
  function SignatureInBits(signature: bv64): (r: seq<bool>)
    ensures |r| == 64
  {
    seq(64, i requires 0 <= i < 64 => NumberBit(signature, i / 8 * 8 + 7 - i % 8))
  }

  /** The first four bits of a byte are those of the signature from bit `at + 7` down. */
  predicate FirstFour(signature: bv64, b: byte, at: nat)
    requires at <= 56
  {
    && BitOf(b, 0) == NumberBit(signature, at + 7) && BitOf(b, 1) == NumberBit(signature, at + 6)
    && BitOf(b, 2) == NumberBit(signature, at + 5) && BitOf(b, 3) == NumberBit(signature, at + 4)
  }

  predicate LastFour(signature: bv64, b: byte, at: nat)
    requires at <= 56
  {
    && BitOf(b, 4) == NumberBit(signature, at + 3) && BitOf(b, 5) == NumberBit(signature, at + 2)
    && BitOf(b, 6) == NumberBit(signature, at + 1) && BitOf(b, 7) == NumberBit(signature, at)
  }

  lemma {:induction false} FirstOfByte0(signature: bv64)
    ensures FirstFour(signature, SignatureByte(signature, 0), 0)
  {
  }

  lemma {:induction false} LastOfByte0(signature: bv64)
    ensures LastFour(signature, SignatureByte(signature, 0), 0)
  {
  }

  lemma {:induction false} FirstOfByte1(signature: bv64)
    ensures FirstFour(signature, SignatureByte(signature, 1), 8)
  {
  }

  lemma {:induction false} LastOfByte1(signature: bv64)
    ensures LastFour(signature, SignatureByte(signature, 1), 8)
  {
  }

  lemma {:induction false} FirstOfByte2(signature: bv64)
    ensures FirstFour(signature, SignatureByte(signature, 2), 16)
  {
  }

  lemma {:induction false} LastOfByte2(signature: bv64)
    ensures LastFour(signature, SignatureByte(signature, 2), 16)
  {
  }

  lemma {:induction false} FirstOfByte3(signature: bv64)
    ensures FirstFour(signature, SignatureByte(signature, 3), 24)
  {
  }

  lemma {:induction false} LastOfByte3(signature: bv64)
    ensures LastFour(signature, SignatureByte(signature, 3), 24)
  {
  }

  lemma {:induction false} FirstOfByte4(signature: bv64)
    ensures FirstFour(signature, SignatureByte(signature, 4), 32)
  {
  }

  lemma {:induction false} LastOfByte4(signature: bv64)
    ensures LastFour(signature, SignatureByte(signature, 4), 32)
  {
  }

  lemma {:induction false} FirstOfByte5(signature: bv64)
    ensures FirstFour(signature, SignatureByte(signature, 5), 40)
  {
  }

  lemma {:induction false} LastOfByte5(signature: bv64)
    ensures LastFour(signature, SignatureByte(signature, 5), 40)
  {
  }

  lemma {:induction false} FirstOfByte6(signature: bv64)
    ensures FirstFour(signature, SignatureByte(signature, 6), 48)
  {
  }

  lemma {:induction false} LastOfByte6(signature: bv64)
    ensures LastFour(signature, SignatureByte(signature, 6), 48)
  {
  }

  lemma {:induction false} FirstOfByte7(signature: bv64)
    ensures FirstFour(signature, SignatureByte(signature, 7), 56)
  {
  }

  lemma {:induction false} LastOfByte7(signature: bv64)
    ensures LastFour(signature, SignatureByte(signature, 7), 56)
  {
  }

  lemma {:induction false} AnyByte(signature: bv64, k: nat)
    requires k < 8
    ensures FirstFour(signature, SignatureByte(signature, k), 8 * k)
    ensures LastFour(signature, SignatureByte(signature, k), 8 * k)
  {
    hide *;
    if k == 0 {
      FirstOfByte0(signature);
      LastOfByte0(signature);
    } else if k == 1 {
      FirstOfByte1(signature);
      LastOfByte1(signature);
    } else if k == 2 {
      FirstOfByte2(signature);
      LastOfByte2(signature);
    } else if k == 3 {
      FirstOfByte3(signature);
      LastOfByte3(signature);
    } else if k == 4 {
      FirstOfByte4(signature);
      LastOfByte4(signature);
    } else if k == 5 {
      FirstOfByte5(signature);
      LastOfByte5(signature);
    } else if k == 6 {
      FirstOfByte6(signature);
      LastOfByte6(signature);
    } else {
      FirstOfByte7(signature);
      LastOfByte7(signature);
    }
  }

  lemma {:induction false} OneOfEight(signature: bv64, b: byte, at: nat, j: nat)
    requires at <= 56 && j < 8 && FirstFour(signature, b, at) && LastFour(signature, b, at)
    ensures BitOf(b, j) == NumberBit(signature, at + 7 - j)
  {
    hide BitOf;
    hide NumberBit;
  }

  /** Bit `j` of the `k`-th byte that the CRC of a signature runs over is bit `8 * k + 7 - j` of the signature: the
      least significant byte comes first, and of each byte the most significant bit. */
  lemma {:induction false} SignatureByteBit(signature: bv64, k: nat, j: nat)
    requires k < 8 && j < 8
    ensures |SignatureBytes(signature)| == 8
    ensures BitOf(SignatureBytes(signature)[k], j) <==> NumberBit(signature, 8 * k + 7 - j)
  {
    BytesAre(signature, k);
    hide *;
    AnyByte(signature, k);
    OneOfEight(signature, SignatureByte(signature, k), 8 * k, j);
  }

  lemma {:induction false} BytesAre(signature: bv64, k: nat)
    requires k < 8
    ensures |SignatureBytes(signature)| == 8 && SignatureBytes(signature)[k] == SignatureByte(signature, k)
  {
    hide SignatureByte;
  }

  lemma {:induction false} BytesInBits(signature: bv64)
    ensures Bits(SignatureBytes(signature)) == SignatureInBits(signature)
  {
    var s := SignatureBytes(signature);
    forall i | 0 <= i < 64 ensures Bits(s)[i] == SignatureInBits(signature)[i] {
      BitsAt(s, i);
      SignatureByteBit(signature, i / 8, i % 8);
    }
  }

  /** The CRC of a transfer is the bit register, started from 0xFFFF, over the 64 bits of the signature and then over
      the payload as the bits of the wire. */
  lemma {:induction false} TransferCrcIsBitwise(signature: bv64, payload: seq<byte>)
    ensures TransferCrc(signature, payload) == CrcBits(0xFFFF, SignatureInBits(signature) + Bits(payload))
  {
    var s := SignatureBytes(signature);
    BytesInBits(signature);
    CrcAddIsBitwise(0xFFFF, s);
    CrcAddIsBitwise(SignatureCrc(signature), payload);
    CrcBitsConcat(0xFFFF, SignatureInBits(signature), Bits(payload));
  }

  // ---------------------------------------------------------------- which CRC it is

  lemma {:induction false} EightSteps(x: bv16)
    ensures Steps(x, 8) == Step(Step(Step(Step(Step(Step(Step(Step(x))))))))
  {
    hide Step;
    assert Steps(x, 8) == Steps(Step(Step(Step(Step(x)))), 4);
  }

  lemma {:induction false} CrcByteIs(c: bv16, b: byte, x: bv16)
    requires x == c ^ ((b as bv16) << 8)
    ensures CrcByte(c, b) == Step(Step(Step(Step(Step(Step(Step(Step(x))))))))
  {
    hide Step;
    EightSteps(x);
  }

  lemma {:induction false} OneMore(c: bv16, b: byte, rest: seq<byte>)
    ensures CrcAdd(c, [b] + rest) == CrcAdd(CrcByte(c, b), rest)
  {
    assert ([b] + rest)[1..] == rest;
    hide CrcByte;
  }

  /** The check value by which CRC-16/CCITT-FALSE is known: the CRC of the nine characters "123456789". */
  lemma {:induction false} CheckValue()
    ensures CrcAdd(0xFFFF, [0x31, 0x32, 0x33, 0x34, 0x35, 0x36, 0x37, 0x38, 0x39]) == 0x29B1
  {
    CrcByteIs(0xFFFF, 0x31, 0xCEFF);
    CrcByteIs(0xC782, 0x32, 0xF582);
    CrcByteIs(0x3DBA, 0x33, 0x0EBA);
    CrcByteIs(0x5BCE, 0x34, 0x6FCE);
    CrcByteIs(0x5349, 0x35, 0x6649);
    CrcByteIs(0x4560, 0x36, 0x7360);
    CrcByteIs(0x2EF4, 0x37, 0x19F4);
    CrcByteIs(0x7718, 0x38, 0x4F18);
    CrcByteIs(0xA12B, 0x39, 0x982B);
    hide Steps;
    OneMore(0xFFFF, 0x31, [0x32, 0x33, 0x34, 0x35, 0x36, 0x37, 0x38, 0x39]);
    OneMore(0xC782, 0x32, [0x33, 0x34, 0x35, 0x36, 0x37, 0x38, 0x39]);
    OneMore(0x3DBA, 0x33, [0x34, 0x35, 0x36, 0x37, 0x38, 0x39]);
    OneMore(0x5BCE, 0x34, [0x35, 0x36, 0x37, 0x38, 0x39]);
    OneMore(0x5349, 0x35, [0x36, 0x37, 0x38, 0x39]);
    OneMore(0x4560, 0x36, [0x37, 0x38, 0x39]);
    OneMore(0x2EF4, 0x37, [0x38, 0x39]);
    OneMore(0x7718, 0x38, [0x39]);
    OneMore(0xA12B, 0x39, []);
  }
}
