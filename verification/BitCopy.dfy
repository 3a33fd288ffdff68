/** Copying runs of bits between byte strings that are not aligned to each other. */
module BitCopy {
  import opened Types

  // ---------------------------------------------------------------- single bits of sixteen-bit words

  /** The word whose bit `k` is set, counting from the most significant one; zero beyond the last. */
  function Mask16(k: nat): bv16 {
    if k == 0 then 0x8000 else if k == 1 then 0x4000 else if k == 2 then 0x2000 else if k == 3 then 0x1000
    else if k == 4 then 0x0800 else if k == 5 then 0x0400 else if k == 6 then 0x0200 else if k == 7 then 0x0100
    else if k == 8 then 0x0080 else if k == 9 then 0x0040 else if k == 10 then 0x0020 else if k == 11 then 0x0010
    else if k == 12 then 0x0008 else if k == 13 then 0x0004 else if k == 14 then 0x0002
        else if k == 15 then 0x0001 else 0
  }

  predicate Bit16(w: bv16, k: nat) {
    w & Mask16(k) != 0
  }

  /** `w << n` and `w >> n`, one place at a time. */
  function ShiftLeft(w: bv16, n: nat): bv16
    decreases n
  {
    if n == 0 then w else ShiftLeft(w << 1, n - 1)
  }

  function ShiftRight(w: bv16, n: nat): bv16
    decreases n
  {
    if n == 0 then w else ShiftRight(w >> 1, n - 1)
  }

  function LowByte(w: bv16): byte {
    (w & 0xFF) as byte
  }

  predicate Even(m: bv16) {
    m & 1 == 0
  }

  predicate Halves(m: bv16, h: bv16) {
    m >> 1 == h
  }

  lemma {:induction false} MaskHalves(k: nat)
    ensures Halves(Mask16(k), Mask16(k + 1))
  {
  }

  lemma {:induction false} MaskEven(k: nat)
    requires k != 15
    ensures Even(Mask16(k))
  {
  }

  predicate Meets(w: bv16, m: bv16) {
    w & m != 0
  }

  lemma {:induction false} RightOnce(w: bv16, m: bv16)
    requires Even(m)
    ensures Meets(w >> 1, m >> 1) == Meets(w, m)
  {
  }

  lemma {:induction false} RightTop(w: bv16)
    ensures !Meets(w >> 1, 0x8000)
  {
  }

  lemma {:induction false} MeetsNothing(w: bv16)
    ensures !Meets(w, 0)
  {
  }

  lemma {:induction false} LeftBitOnce(w: bv16, k: nat)
    ensures Bit16(w << 1, k) == Bit16(w, k + 1)
  {
  }

  lemma {:induction false} LeftBit(w: bv16, n: nat, k: nat)
    ensures Bit16(ShiftLeft(w, n), k) == Bit16(w, k + n)
    decreases n
  {
    hide Bit16;
    if n > 0 {
      LeftBit(w << 1, n - 1, k);
      LeftBitOnce(w, k + n - 1);
    }
  }

  lemma {:induction false} RightBitOnce(w: bv16, k: nat)
    ensures Bit16(w >> 1, k) == (0 < k < 16 && Bit16(w, k - 1))
  {
    if k == 0 {
      RightTop(w);
    } else if k < 16 {
      MaskEven(k - 1);
      MaskHalves(k - 1);
      RightOnce(w, Mask16(k - 1));
    } else {
      MeetsNothing(w >> 1);
    }
  }

  lemma {:induction false} RightBit(w: bv16, n: nat, k: nat)
    requires k < 16
    ensures Bit16(ShiftRight(w, n), k) == (k >= n && Bit16(w, k - n))
    decreases n
  {
    if n > 0 {
      RightBit(w >> 1, n - 1, k);
      if k >= n - 1 {
        RightBitOnce(w, k - (n - 1));
      }
    }
  }

  // ---------------------------------------------------------------- bytes in words

  lemma {:induction false} LowByteBit(w: bv16, j: nat)
    requires j < 8
    ensures BitOf(LowByte(w), j) == Bit16(w, 8 + j)
  {
  }

  lemma {:induction false} WordByteBit(b: byte, j: nat)
    requires j < 8
    ensures Bit16(b as bv16, 8 + j) == BitOf(b, j)
  {
  }

  lemma {:induction false} WordHighBit(b: byte, k: nat)
    requires k < 8
    ensures !Bit16(b as bv16, k)
  {
  }

  lemma {:induction false} UpperOnes(k: nat)
    requires k < 16
    ensures Bit16(0xFF00, k) <==> k < 8
  {
  }

  // ---------------------------------------------------------------- one step of the copy

  /** The bits written in one step: `n` of them from bit `d` on. */
  function WriteMask(n: nat, d: nat): byte {
    LowByte(ShiftRight(LowByte(ShiftRight(0xFF00, n)) as bv16, d))
  }

  /** The source byte, moved from bit `s` to bit `d`. */
  function Moved(src: byte, s: nat, d: nat): byte {
    LowByte(ShiftRight(ShiftLeft(src as bv16, s), d))
  }

  function Merged(old': byte, data: byte, mask: byte): byte {
    (old' & !mask) | (data & mask)
  }

  lemma {:induction false} WriteMaskBit(n: nat, d: nat, j: nat)
    requires n <= 8 && d < 8 && j < 8
    ensures BitOf(WriteMask(n, d), j) <==> d <= j < d + n
  {
    hide Bit16;
    hide BitOf;
    hide LowByte;
    hide ShiftRight;
    var top := LowByte(ShiftRight(0xFF00, n));
    LowByteBit(ShiftRight(top as bv16, d), j);
    RightBit(top as bv16, d, 8 + j);
    if j >= d {
      WordByteBit(top, j - d);
      LowByteBit(ShiftRight(0xFF00, n), j - d);
      RightBit(0xFF00, n, 8 + j - d);
      if 8 + j - d >= n {
        UpperOnes(8 + j - d - n);
      }
    } else {
      WordHighBit(top, 8 + j - d);
    }
  }

  lemma {:induction false} MovedBit(src: byte, s: nat, d: nat, j: nat)
    requires d <= j < 8 && s + (j - d) < 8
    ensures BitOf(Moved(src, s, d), j) == BitOf(src, s + (j - d))
  {
    LowByteBit(ShiftRight(ShiftLeft(src as bv16, s), d), j);
    RightBit(ShiftLeft(src as bv16, s), d, 8 + j);
    LeftBit(src as bv16, s, 8 + j - d);
    WordByteBit(src, s + (j - d));
  }

  predicate Single(m: byte) {
    m & (m - 1) == 0
  }

  lemma {:induction false} MaskSingle(j: nat)
    requires j < 8
    ensures Single(BitMask(j))
  {
  }

  lemma {:induction false} MergedMeets(old': byte, data: byte, mask: byte, m: byte)
    requires Single(m)
    ensures (Merged(old', data, mask) & m != 0) == (if mask & m != 0 then data & m != 0 else old' & m != 0)
  {
  }

  lemma {:induction false} MergedBit(old': byte, data: byte, mask: byte, j: nat)
    requires j < 8
    ensures BitOf(Merged(old', data, mask), j) == if BitOf(mask, j) then BitOf(data, j) else BitOf(old', j)
  {
    MaskSingle(j);
    MergedMeets(old', data, mask, BitMask(j));
  }

  /** One step moves `n` bits and leaves the other bits of the destination byte alone. */
  lemma {:induction false} StepBits(old': byte, src: byte, s: nat, d: nat, n: nat, j: nat)
    requires s < 8 && d < 8 && j < 8 && n <= 8 - Max(s, d)
    ensures BitOf(Merged(old', Moved(src, s, d), WriteMask(n, d)), j)
         == if d <= j < d + n then BitOf(src, s + (j - d)) else BitOf(old', j)
  {
    MergedBit(old', Moved(src, s, d), WriteMask(n, d), j);
    WriteMaskBit(n, d, j);
    if d <= j < d + n {
      MovedBit(src, s, d, j);
    }
  }

  // ---------------------------------------------------------------- the whole copy

  /** `dst` is `old'` with bits `d` to `d + n` taken from bit `s` of `src` on. */
  ghost predicate Copied(old': seq<byte>, dst: seq<byte>, src: seq<byte>, s: nat, n: nat, d: nat)
    requires s + n <= 8 * |src| && d + n <= 8 * |old'| && |dst| == |old'|
  {
    forall i {:trigger BitAt(dst, i)} | 0 <= i < 8 * |dst| ::
      BitAt(dst, i) == if d <= i < d + n then BitAt(src, s + (i - d)) else BitAt(old', i)
  }

  lemma {:induction false} InByte(i: nat, p: nat, j: nat)
    requires i == 8 * p + j && j < 8
    ensures i / 8 == p && i % 8 == j
  {
  }

  /** One more step on the way. */
  lemma {:induction false} CopyStep(old': seq<byte>, dst: seq<byte>, src: seq<byte>, s: nat, done: nat, d: nat, n: nat,
                                    dst': seq<byte>)
    requires s + done + n <= 8 * |src| && d + done + n <= 8 * |old'| && |dst| == |dst'| == |old'|
    requires 0 < n <= 8 - Max((s + done) % 8, (d + done) % 8) && Copied(old', dst, src, s, done, d)
    requires var p, q := (s + done) / 8, (d + done) / 8;
      dst' == dst[q := Merged(dst[q], Moved(src[p], (s + done) % 8, (d + done) % 8), WriteMask(n, (d + done) % 8))]
    ensures Copied(old', dst', src, s, done + n, d)
  {
    forall i {:trigger BitAt(dst', i)} | 0 <= i < 8 * |dst'|
      ensures BitAt(dst', i) == if d <= i < d + done + n then BitAt(src, s + (i - d)) else BitAt(old', i)
    {
      CopyStepBit(old', dst, src, s, done, d, n, dst', i);
    }
  }

  lemma {:induction false} CopyStepBit(old': seq<byte>, dst: seq<byte>, src: seq<byte>, s: nat, done: nat, d: nat,
                                       n: nat, dst': seq<byte>, i: nat)
    requires s + done + n <= 8 * |src| && d + done + n <= 8 * |old'| && |dst| == |dst'| == |old'| && i < 8 * |dst|
    requires 0 < n <= 8 - Max((s + done) % 8, (d + done) % 8) && Copied(old', dst, src, s, done, d)
    requires var p, q := (s + done) / 8, (d + done) / 8;
      dst' == dst[q := Merged(dst[q], Moved(src[p], (s + done) % 8, (d + done) % 8), WriteMask(n, (d + done) % 8))]
    ensures BitAt(dst', i) == if d <= i < d + done + n then BitAt(src, s + (i - d)) else BitAt(old', i)
  {
    hide Merged;
    hide Moved;
    hide WriteMask;
    hide BitOf;
    var from, to := s + done, d + done;
    assert BitAt(dst, i) == if d <= i < to then BitAt(src, s + (i - d)) else BitAt(old', i);
    WithinStep(i, to, n);
    if i / 8 == to / 8 {
      StepBits(dst[to / 8], src[from / 8], from % 8, to % 8, n, i % 8);
      if to <= i < to + n {
        InByte(s + (i - d), from / 8, from % 8 + (i - to));
      }
    }
  }

  /** The bits of one step lie in one byte. */
  lemma {:induction false} WithinStep(i: nat, to: nat, n: nat)
    requires n <= 8 - to % 8
    ensures to <= i < to + n ==> i / 8 == to / 8 && i % 8 == to % 8 + (i - to)
    ensures i / 8 == to / 8 && to % 8 <= i % 8 < to % 8 + n ==> to <= i < to + n
  {
  }

  /** `copyBitArray`: each step moves bits up to the next byte boundary of either side. */
  method CopyBitArray(src: seq<byte>, srcOffset: nat, srcLen: nat, dst: array<byte>, dstOffset: nat)
    requires srcLen > 0 && srcOffset + srcLen <= 8 * |src| && dstOffset + srcLen <= 8 * dst.Length
    modifies dst
    ensures Copied(old(dst[..]), dst[..], src, srcOffset, srcLen, dstOffset)
  {
    var from, to := src[srcOffset / 8..], dstOffset / 8;
    var s, d := srcOffset % 8, dstOffset % 8;
    var lastBit := s + srcLen;
    ghost var done := 0;
    while lastBit - s != 0
      invariant 0 <= done <= srcLen && s == srcOffset % 8 + done && d == dstOffset % 8 + done
      invariant Copied(old(dst[..]), dst[..], src, srcOffset, done, dstOffset)
      decreases srcLen - done
    {
      var srcBit, dstBit := s % 8, d % 8;
      var copyBits := Min(lastBit - s, 8 - Max(srcBit, dstBit));
      var mask, data := WriteMask(copyBits, dstBit), Moved(from[s / 8], srcBit, dstBit);
      ghost var before := dst[..];
      dst[to + d / 8] := Merged(dst[to + d / 8], data, mask);
      Normalised(srcOffset, done);
      Normalised(dstOffset, done);
      CopyStep(old(dst[..]), before, src, srcOffset, done, dstOffset, copyBits, dst[..]);
      s, d := s + copyBits, d + copyBits;
      done := done + copyBits;
    }
  }

  /** Skipping whole bytes first does not matter. */
  lemma {:induction false} Normalised(offset: nat, done: nat)
    ensures offset / 8 + (offset % 8 + done) / 8 == (offset + done) / 8
    ensures (offset % 8 + done) % 8 == (offset + done) % 8
  {
  }
}
