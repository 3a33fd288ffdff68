/** Reading bits out of the scattered storage of a received transfer. */
module Descatter {
  import opened Types
  import opened RxBuffer
  import opened Receiver
  import opened BitCopy

  const HEAD_BITS := 48
  const BLOCK_BITS := 224

  /** How many of the wanted bits a payload of `len` bytes has. */
  function Readable(len: nat, offset: nat, wanted: nat): nat {
    if offset >= 8 * len then 0 else Min(wanted, 8 * len - offset)
  }

  // ---------------------------------------------------------------- where a bit is stored

  /** From bit `at` on, `whole` reads like `part`. */
  ghost predicate Embeds(whole: seq<byte>, at: nat, part: seq<byte>) {
    at + 8 * |part| <= 8 * |whole| && forall i {:trigger BitAt(part, i)} | 0 <= i < 8 * |part| ::
      BitAt(whole, at + i) == BitAt(part, i)
  }

  lemma {:induction false} SliceEmbeds(a: seq<byte>, part: seq<byte>, c: seq<byte>)
    ensures Embeds(a + part + c, 8 * |a|, part)
  {
  }

  lemma {:induction false} FlatSplit(blocks: seq<Block>, b: nat)
    requires b < |blocks|
    ensures Flat(blocks) == Flat(blocks[..b]) + blocks[b] + Flat(blocks[b + 1..])
  {
    assert blocks == blocks[..b] + ([blocks[b]] + blocks[b + 1..]);
    FlatConcat(blocks[..b], [blocks[b]] + blocks[b + 1..]);
    assert ([blocks[b]] + blocks[b + 1..])[1..] == blocks[b + 1..];
  }

  lemma {:induction false} HeadStored(t: Transfer)
    ensures Embeds(Stored(t), 0, t.head)
  {
  }

  lemma {:induction false} BlockStored(t: Transfer, b: nat)
    requires b < |t.middle| && |t.head| == HEAD_SIZE
    ensures Embeds(Stored(t), HEAD_BITS + BLOCK_BITS * b, t.middle[b])
  {
    hide Flat;
    FlatSplit(t.middle, b);
    var before, after := t.head + Flat(t.middle[..b]), Flat(t.middle[b + 1..]) + t.tail;
    assert Stored(t) == before + t.middle[b] + after;
    SliceEmbeds(before, t.middle[b], after);
  }

  lemma {:induction false} TailStored(t: Transfer)
    requires |t.head| == HEAD_SIZE
    ensures Embeds(Stored(t), HEAD_BITS + BLOCK_BITS * |t.middle|, t.tail)
  {
  }

  // ---------------------------------------------------------------- piecing the bits together

  /** The next piece of the wanted bits. */
  lemma {:induction false} CopyPiece(old': seq<byte>, mid: seq<byte>, out: seq<byte>, whole: seq<byte>, s: nat, n: nat,
                                     part: seq<byte>, at: nat, p: nat, m: nat)
    requires |old'| == |mid| == |out| && Embeds(whole, at, part) && p + m <= 8 * |part| && at + p == s + n
    requires n + m <= 8 * |out|
    requires Copied(old', mid, whole, s, n, 0) && Copied(mid, out, part, p, m, n)
    ensures Copied(old', out, whole, s, n + m, 0)
  {
  }

  lemma {:induction false} NothingCopied(out: seq<byte>, whole: seq<byte>, s: nat)
    requires s <= 8 * |whole|
    ensures Copied(out, out, whole, s, 0, 0)
  {
  }

  /** Bits of the storage within the announced length are bits of the payload. */
  lemma {:induction false} CopiedPayload(t: Transfer, old': seq<byte>, out: seq<byte>, s: nat, n: nat)
    requires Stocked(t) && |old'| == |out| && n <= 8 * |out| && s + n <= 8 * t.payloadLen
    requires s + n <= 8 * |Stored(t)| && Copied(old', out, Stored(t), s, n, 0)
    ensures Copied(old', out, Payload(t), s, n, 0)
  {
  }

  // ---------------------------------------------------------------- the reader

  /** Where the reading stands: `n` bits are out, the next one wanted is bit `s + n` of the storage. */
  ghost predicate Reading(t: Transfer, old': seq<byte>, out: seq<byte>, s: nat, n: nat) {
    |out| == |old'| && n <= 8 * |out| && s + n <= 8 * |Stored(t)| && Copied(old', out, Stored(t), s, n, 0)
  }

  /** One piece: `amount` bits from bit `p` of a part that sits at bit `at` of the storage. */
  method ReadPiece(t: Transfer, part: seq<byte>, ghost at: nat, p: nat, amount: nat, output: array<byte>, n: nat,
                   ghost old': seq<byte>, ghost s: nat)
    requires Reading(t, old', output[..], s, n) && Embeds(Stored(t), at, part) && at + p == s + n
    requires amount > 0 && p + amount <= 8 * |part| && n + amount <= 8 * output.Length
    modifies output
    ensures Reading(t, old', output[..], s, n + amount)
  {
    ghost var mid := output[..];
    CopyBitArray(part, p, amount, output, n);
    CopyPiece(old', mid, output[..], Stored(t), s, n, part, at, p, amount);
  }

  /** The part of the wanted bits that lies in the head. */
  method ReadHead(t: Transfer, offset: nat, length: nat, output: array<byte>) returns (amount: nat)
    requires |t.head| == HEAD_SIZE && 0 < length <= 8 * output.Length && offset + length <= 8 * |Stored(t)|
    modifies output
    ensures amount == (if offset < HEAD_BITS then Min(length, HEAD_BITS - offset) else 0)
    ensures Reading(t, old(output[..]), output[..], offset, amount)
  {
    NothingCopied(output[..], Stored(t), offset);
    amount := 0;
    if offset < HEAD_BITS {
      HeadStored(t);
      amount := Min(length, HEAD_BITS - offset);
      ReadPiece(t, t.head, 0, offset, amount, output, 0, output[..], offset);
    }
  }

  /** The loop over the blocks. What is not in them is in the tail, which begins at bit `blockBit`. */
  method ReadMiddle(t: Transfer, offset: nat, length: nat, done: nat, output: array<byte>, ghost old': seq<byte>)
    returns (amount: nat, blockBit: nat)
    requires Stocked(t) && (t.middle != [] || t.tail != []) && done <= length <= 8 * output.Length
    requires offset + length <= 8 * t.payloadLen
    requires Reading(t, old', output[..], offset, done) && (done == length || offset + done >= HEAD_BITS)
    modifies output
    ensures done <= amount <= length && Reading(t, old', output[..], offset, amount)
    ensures amount < length ==> blockBit == HEAD_BITS + BLOCK_BITS * |t.middle| <= offset + amount && t.tail != []
  {
    var remainingBits := 8 * t.payloadLen + (if t.payloadLen >= HEAD_SIZE then 0 else 0x1_0000_0000) - HEAD_BITS;
    var block := 0;
    amount, blockBit := done, HEAD_BITS;
    while block < |t.middle| && amount < length
      invariant 0 <= block <= |t.middle| && done <= amount <= length
      invariant amount < length ==> HEAD_BITS + BLOCK_BITS * block == blockBit <= offset + amount
      invariant amount < length ==> blockBit + remainingBits == 8 * t.payloadLen
      invariant Reading(t, old', output[..], offset, amount)
    {
      assert remainingBits > 0;
      var blockEnd := blockBit + Min(BLOCK_BITS, remainingBits);
      if blockEnd > offset + amount {
        assert offset + amount >= blockBit;
        var n := Min(length - amount, blockEnd - (offset + amount));
        BlockStored(t, block);
        ReadPiece(t, t.middle[block], blockBit, offset + amount - blockBit, n, output, amount, old', offset);
        amount := amount + n;
      }
      assert blockEnd > blockBit;
      remainingBits := remainingBits - (blockEnd - blockBit);
      blockBit := blockEnd;
      block := block + 1;
    }
    assert amount < length ==> length - amount <= remainingBits;
  }

  method ReadTail(t: Transfer, offset: nat, length: nat, done: nat, blockBit: nat, output: array<byte>,
                  ghost old': seq<byte>)
    requires Stocked(t) && (t.middle != [] || t.tail != []) && done <= length <= 8 * output.Length
    requires offset + length <= 8 * t.payloadLen
    requires Reading(t, old', output[..], offset, done)
    requires done < length ==> blockBit == HEAD_BITS + BLOCK_BITS * |t.middle| <= offset + done && t.tail != []
    modifies output
    ensures Reading(t, old', output[..], offset, length)
  {
    if t.tail != [] && length - done > 0 {
      TailStored(t);
      ReadPiece(t, t.tail, blockBit, offset + done - blockBit, length - done, output, done, old', offset);
    }
  }

  /** `descatterTransferPayload`: the scattered bits are those of the contiguous payload; no assertion of the source
      fails. */
  method DescatterTransferPayload(t: Transfer, bitOffset: nat, bitLength: nat, output: array<byte>)
    returns (result: nat)
    requires Stocked(t) && 0 < bitLength <= 64 && output.Length == 8
    modifies output
    ensures result == Readable(t.payloadLen, bitOffset, bitLength)
    ensures result == 0 ==> output[..] == old(output[..])
    ensures result > 0 ==> Copied(old(output[..]), output[..], Payload(t), bitOffset, result, 0)
  {
    if bitOffset >= 8 * t.payloadLen {
      return 0;
    }
    result := bitLength;
    if bitOffset + bitLength > 8 * t.payloadLen {
      result := 8 * t.payloadLen - bitOffset;
    }
    ghost var old' := output[..];
    if t.middle != [] || t.tail != [] {
      var done := ReadHead(t, bitOffset, result, output);
      var blockBit;
      done, blockBit := ReadMiddle(t, bitOffset, result, done, output, old');
      ReadTail(t, bitOffset, result, done, blockBit, output, old');
    } else {
      NothingCopied(output[..], Stored(t), bitOffset);
      HeadStored(t);
      ReadPiece(t, t.head, 0, bitOffset, result, output, 0, old', bitOffset);
    }
    CopiedPayload(t, old', output[..], bitOffset, result);
  }
}
