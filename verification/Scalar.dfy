/** Numbers as bit fields: the scalar codec. */
module Scalar {
  import opened Types
  import opened Receiver
  import opened BitCopy
  import opened Descatter

  const INVALID_ARGUMENT := 2

  // ---------------------------------------------------------------- what a bit field means

  /** `n` bits from bit `at` on, the most significant one first. */
  function BitsNumber(s: seq<byte>, at: nat, n: nat): nat
    requires at + n <= 8 * |s|
  {
    if n == 0 then 0 else 2 * BitsNumber(s, at, n - 1) + Bit(BitAt(s, at + n - 1))
  }

  /** A field of `len` bits: eight bits at a time, the least significant eight first; fewer in the last group. */
  function FieldNumber(s: seq<byte>, at: nat, len: nat): nat
    requires at + len <= 8 * |s|
    decreases len
  {
    if len < 8 then BitsNumber(s, at, len)
    else BitsNumber(s, at, 8) + 256 * FieldNumber(s, at + 8, len - 8)
  }

  /** Two strings have the same bits in a field. */
  ghost predicate SameBits(s: seq<byte>, at: nat, s': seq<byte>, at': nat, n: nat) {
    && at + n <= 8 * |s| && at' + n <= 8 * |s'|
    && forall i {:trigger BitAt(s, i)} | at <= i < at + n :: BitAt(s, i) == BitAt(s', at' + (i - at))
  }

  lemma {:induction false} SameBitsNumber(s: seq<byte>, at: nat, s': seq<byte>, at': nat, n: nat)
    requires SameBits(s, at, s', at', n)
    ensures BitsNumber(s, at, n) == BitsNumber(s', at', n)
  {
    hide BitAt;
    if n > 0 {
      assert BitAt(s, at + n - 1) == BitAt(s', at' + (at + n - 1 - at));
      SameBitsNumber(s, at, s', at', n - 1);
    }
  }

  lemma {:induction false} SameBitsPart(s: seq<byte>, at: nat, s': seq<byte>, at': nat, n: nat, from: nat, m: nat)
    requires SameBits(s, at, s', at', n) && from + m <= n
    ensures SameBits(s, at + from, s', at' + from, m)
  {
  }

  /** The value of a field depends on its bits only. */
  lemma {:induction false} SameField(s: seq<byte>, at: nat, s': seq<byte>, at': nat, len: nat)
    requires SameBits(s, at, s', at', len)
    ensures FieldNumber(s, at, len) == FieldNumber(s', at', len)
    decreases len
  {
    if len < 8 {
      SameBitsNumber(s, at, s', at', len);
    } else {
      SameBitsPart(s, at, s', at', len, 0, 8);
      SameBitsNumber(s, at, s', at', 8);
      SameBitsPart(s, at, s', at', len, 8, len - 8);
      SameField(s, at + 8, s', at' + 8, len - 8);
    }
  }

  lemma {:induction false} BitsBounded(s: seq<byte>, at: nat, n: nat)
    requires at + n <= 8 * |s|
    ensures BitsNumber(s, at, n) < Pow2(n)
  {
    if n > 0 {
      BitsBounded(s, at, n - 1);
    }
  }

  lemma {:induction false} PowEight(n: nat)
    requires n >= 8
    ensures Pow2(n) == 256 * Pow2(n - 8)
  {
    assert Pow2(n) == 2 * Pow2(n - 1);
    assert Pow2(n - 1) == 2 * Pow2(n - 2);
    assert Pow2(n - 2) == 2 * Pow2(n - 3);
    assert Pow2(n - 3) == 2 * Pow2(n - 4);
    assert Pow2(n - 4) == 2 * Pow2(n - 5);
    assert Pow2(n - 5) == 2 * Pow2(n - 6);
    assert Pow2(n - 6) == 2 * Pow2(n - 7);
  }

  lemma {:induction false} FieldBounded(s: seq<byte>, at: nat, len: nat)
    requires at + len <= 8 * |s|
    ensures FieldNumber(s, at, len) < Pow2(len)
    decreases len
  {
    if len < 8 {
      BitsBounded(s, at, len);
    } else {
      BitsBounded(s, at, 8);
      PowEight(8);
      PowEight(len);
      FieldBounded(s, at + 8, len - 8);
    }
  }

  // ---------------------------------------------------------------- bytes as numbers

  predicate BitSplit(b: byte, m: byte, p: int)
    requires p > 0
  {
    (b as int) / p == 2 * ((b as int) / (2 * p)) + Bit(b & m != 0)
  }

  lemma {:induction false} Powers()
    ensures Pow2(0) == 1 && Pow2(1) == 2 && Pow2(2) == 4 && Pow2(3) == 8 && Pow2(4) == 16 && Pow2(5) == 32
    ensures Pow2(6) == 64
    ensures Pow2(7) == 128 && Pow2(8) == 256
  {
  }

  lemma {:induction false} ByteSmall(b: byte)
    ensures 0 <= b as int < 256
  {
  }

  /** A byte shifted towards its least significant bit. */
  function MovedDown(b: byte, n: nat): byte {
    if n == 0 then b else MovedDown(b, n - 1) >> 1
  }

  predicate HalfOf(b: byte, h: byte) {
    h as int == (b as int) / 2
  }

  lemma {:induction false} RightOnceValue(b: byte)
    ensures HalfOf(b, b >> 1)
  {
  }

  lemma {:induction false} Halved(x: nat, n: nat)
    requires n < 8
    ensures x / Pow2(n) / 2 == x / Pow2(n + 1)
  {
    Powers();
  }

  lemma {:induction false} MovedDownValue(b: byte, n: nat)
    requires n <= 8
    ensures MovedDown(b, n) as int == (b as int) / Pow2(n)
  {
    if n == 0 {
      Powers();
    } else {
      MovedDownValue(b, n - 1);
      RightOnceValue(MovedDown(b, n - 1));
      ByteSmall(b);
      Halved(b as int, n - 1);
    }
  }

  lemma {:induction false} RightOnceBit(b: byte, j: nat)
    requires 0 < j < 8
    ensures BitOf(b >> 1, j) == BitOf(b, j - 1)
  {
  }

  lemma {:induction false} MovedDownBit(b: byte, n: nat, j: nat)
    requires n <= j < 8
    ensures BitOf(MovedDown(b, n), j) == BitOf(b, j - n)
  {
    if n > 0 {
      RightOnceBit(MovedDown(b, n - 1), j);
      MovedDownBit(b, n - 1, j - 1);
      hide BitOf;
    }
  }

  predicate DoubleOf(b: byte, h: byte, low: bool) {
    b as int == 2 * (h as int) + Bit(low)
  }

  lemma {:induction false} LowestBit(b: byte)
    ensures DoubleOf(b, b >> 1, BitOf(b, 7))
  {
  }

  lemma {:induction false} MovedDownSplit(b: byte, n: nat)
    requires n < 8
    ensures DoubleOf(MovedDown(b, n), MovedDown(b, n + 1), BitOf(b, 7 - n))
  {
    LowestBit(MovedDown(b, n));
    MovedDownBit(b, n, 7);
    hide BitOf;
    hide DoubleOf;
  }

  lemma {:induction false} JoinSplit(b: byte, c: byte, d: byte, m: byte, p: int)
    requires p > 0 && c as int == (b as int) / p && d as int == (b as int) / (2 * p) && DoubleOf(c, d, b & m != 0)
    ensures BitSplit(b, m, p)
  {
  }

  /** Bit `j` of a byte is what its value has at that place. */
  lemma {:induction false} BitSplits(b: byte, j: nat)
    requires j < 8
    ensures BitSplit(b, BitMask(j), Pow2(7 - j)) && 2 * Pow2(7 - j) == Pow2(8 - j)
  {
    hide BitSplit;
    hide DoubleOf;
    hide MovedDown;
    hide BitMask;
    MovedDownSplit(b, 7 - j);
    MovedDownValue(b, 7 - j);
    MovedDownValue(b, 8 - j);
    assert Pow2(8 - j) == 2 * Pow2(7 - j);
    hide Pow2;
    JoinSplit(b, MovedDown(b, 7 - j), MovedDown(b, 8 - j), BitMask(j), Pow2(7 - j));
  }

  /** The first `n` bits of a byte are its value without the lower ones. */
  lemma {:induction false} TopOfByte(s: seq<byte>, k: nat, n: nat)
    requires k < |s| && n <= 8
    ensures BitsNumber(s, 8 * k, n) == (s[k] as int) / Pow2(8 - n)
    decreases n
  {
    if n == 0 {
      Powers();
      ByteSmall(s[k]);
    } else {
      TopOfByte(s, k, n - 1);
      BitSplits(s[k], n - 1);
      InByte(8 * k + n - 1, k, n - 1);
      assert BitAt(s, 8 * k + n - 1) == BitOf(s[k], n - 1);
      hide BitAt;
      hide Pow2;
    }
  }

  // ---------------------------------------------------------------- the partial byte

  /** A byte shifted towards its most significant bit, in the eight bits it has. */
  function MovedUp(b: byte, n: nat): byte {
    LowByte(ShiftLeft(b as bv16, n))
  }

  lemma {:induction false} MovedUpBit(b: byte, n: nat, j: nat)
    requires j + n < 8
    ensures BitOf(MovedUp(b, n), j) == BitOf(b, j + n)
  {
    hide Bit16;
    LowByteBit(ShiftLeft(b as bv16, n), j);
    LeftBit(b as bv16, n, 8 + j);
    WordByteBit(b, j + n);
  }

  lemma {:induction false} Doubled(x: nat, p: nat)
    ensures x * (2 * p) == 2 * (x * p)
  {
  }

  lemma {:induction false} Remainder(x: nat, p: nat, y: nat)
    requires p > 0 && x == (x / p) * p + y
    ensures y == x % p
  {
  }

  /** Bits number by number, split at any place. */
  lemma {:induction false} BitsConcat(s: seq<byte>, at: nat, m: nat, n: nat)
    requires at + m + n <= 8 * |s|
    ensures BitsNumber(s, at, m + n) == BitsNumber(s, at, m) * Pow2(n) + BitsNumber(s, at + m, n)
    decreases n
  {
    if n > 0 {
      BitsConcat(s, at, m, n - 1);
      hide BitAt;
      Doubled(BitsNumber(s, at, m), Pow2(n - 1));
    }
  }

  /** The last `r` bits of a byte. */
  lemma {:induction false} BottomOfByte(b: byte, r: nat)
    requires r <= 8
    ensures BitsNumber([b], 8 - r, r) == (b as int) % Pow2(r)
  {
    TopOfByte([b], 0, 8 - r);
    TopOfByte([b], 0, 8);
    Powers();
    BitsConcat([b], 0, 8 - r, r);
    hide BitsNumber;
    hide Pow2;
    assert 8 - (8 - r) == r;
    ByteSmall(b);
    Remainder(b as int, Pow2(r), BitsNumber([b], 8 - r, r));
  }

  lemma {:induction false} MovedUpNumber(s: seq<byte>, k: nat, b: byte, r: nat)
    requires k < |s| && r <= 8 && s[k] == MovedUp(b, 8 - r)
    ensures BitsNumber(s, 8 * k, r) == (b as int) % Pow2(r)
  {
    hide MovedUp;
    forall i {:trigger BitAt(s, i)} | 8 * k <= i < 8 * k + r ensures BitAt(s, i) == BitAt([b], 8 - r + (i - 8 * k)) {
      InByte(i, k, i - 8 * k);
      MovedUpBit(b, 8 - r, i - 8 * k);
    }
    SameBitsNumber(s, 8 * k, [b], 8 - r, r);
    BottomOfByte(b, r);
  }

  // ---------------------------------------------------------------- numbers in memory

  /** `v` without its `k` least significant bytes. */
  function Drop(v: nat, k: nat): nat {
    if k == 0 then v else Drop(v / 256, k - 1)
  }

  lemma {:induction false} DropMore(v: nat, k: nat)
    ensures Drop(v, k + 1) == Drop(v, k) / 256
    decreases k
  {
    if k > 0 {
      DropMore(v / 256, k - 1);
    }
  }

  /** A number as a byte, bit by bit. */
  function ByteOf(x: nat): byte {
    if x == 0 then 0 else AppendBit(ByteOf(x / 2), x % 2 == 1)
  }

  function AppendBit(h: byte, bit: bool): byte {
    (h << 1) | (if bit then 1 else 0)
  }

  predicate TopClear(h: byte) {
    h & 0x80 == 0
  }

  lemma {:induction false} BelowHalf(h: byte)
    requires h as int < 128
    ensures TopClear(h)
  {
  }

  predicate Doubles(h: byte, e: byte, bit: bool) {
    e as int == 2 * (h as int) + Bit(bit)
  }

  lemma {:induction false} AppendOne(h: byte)
    requires TopClear(h)
    ensures Doubles(h, AppendBit(h, true), true)
  {
  }

  lemma {:induction false} AppendZero(h: byte)
    requires TopClear(h)
    ensures Doubles(h, AppendBit(h, false), false)
  {
  }

  lemma {:induction false} ByteOfValue(x: nat)
    requires x < 256
    ensures ByteOf(x) as int == x
  {
    if x > 0 {
      ByteOfValue(x / 2);
      var h := ByteOf(x / 2);
      BelowHalf(h);
      AppendOne(h);
      AppendZero(h);
      hide AppendBit;
    }
  }

  function LittleEndian(v: nat, n: nat): (r: seq<byte>)
    ensures |r| == n
  {
    if n == 0 then [] else [ByteOf(v % 256)] + LittleEndian(v / 256, n - 1)
  }

  lemma {:induction false} LittleEndianAt(v: nat, n: nat, k: nat)
    requires k < n
    ensures LittleEndian(v, n)[k] as int == Drop(v, k) % 256
  {
    if k == 0 {
      ByteOfValue(v % 256);
    } else {
      LittleEndianAt(v / 256, n - 1, k - 1);
    }
  }

  function Number(s: seq<byte>): nat {
    if s == [] then 0 else ByteNat(s[0]) + 256 * Number(s[1..])
  }

  function ByteNat(b: byte): nat {
    b as int
  }

  function Reversed(s: seq<byte>): (r: seq<byte>)
    ensures |r| == |s|
    ensures forall i | 0 <= i < |s| :: r[i] == s[|s| - 1 - i]
  {
    if s == [] then [] else Reversed(s[1..]) + [s[0]]
  }

  lemma {:induction false} ReversedTwice(s: seq<byte>)
    ensures Reversed(Reversed(s)) == s
  {
  }

  /** An integer of `n` bytes as the host keeps it in memory. */
  function HostBytes(v: nat, n: nat, bigEndian: bool): (r: seq<byte>)
    ensures |r| == n
  {
    if bigEndian then Reversed(LittleEndian(v, n)) else LittleEndian(v, n)
  }

  /** The integer that the host reads from memory. */
  function HostNumber(s: seq<byte>, bigEndian: bool): nat {
    Number(if bigEndian then Reversed(s) else s)
  }

  lemma {:induction false} SwappedAll(data: seq<byte>, was: seq<byte>, size: nat)
    requires |data| == |was| && size <= |was|
    requires forall i | 0 <= i < size :: data[i] == was[size - 1 - i]
    requires forall i | size <= i < |was| :: data[i] == was[i]
    ensures data == Reversed(was[..size]) + was[size..]
  {
    var r := Reversed(was[..size]) + was[size..];
    forall i | 0 <= i < |was| ensures data[i] == r[i] {
    }
  }

  /** `swapByteOrder`. */
  method SwapByteOrder(data: array<byte>, size: nat)
    requires 0 < size <= data.Length
    modifies data
    ensures data[..] == Reversed(old(data[..size])) + old(data[size..])
  {
    ghost var was := data[..];
    var fwd, rev := 0, size - 1;
    while fwd < rev
      invariant 0 <= fwd <= rev + 1 <= size && rev == size - 1 - fwd
      invariant forall i | 0 <= i < fwd :: data[i] == old(data[size - 1 - i])
      invariant forall i | rev < i < size :: data[i] == old(data[size - 1 - i])
      invariant forall i | fwd <= i <= rev || size <= i < data.Length :: data[i] == old(data[i])
    {
      data[fwd], data[rev] := data[rev], data[fwd];
      fwd, rev := fwd + 1, rev - 1;
    }
    assert was[..size] == old(data[..size]) && was[size..] == old(data[size..]);
    forall i | 0 <= i < data.Length ensures data[..][i] == if i < size then was[size - 1 - i] else was[i] {
    }
    SwappedAll(data[..], was, size);
  }

  // ---------------------------------------------------------------- arithmetic

  lemma {:induction false} DivUnique(x: int, p: int, q: int, r: int)
    requires p > 0 && x == p * q + r && 0 <= r < p
    ensures x / p == q && x % p == r
  {
    var d := x / p - q;
    assert p * d == r - x % p;
    if d > 0 {
      AtLeast(p, d);
    } else if d < 0 {
      AtLeast(p, -d);
    }
  }

  lemma {:induction false} AtLeast(p: int, d: int)
    requires p > 0 && d > 0
    ensures p * d >= p
  {
  }

  lemma {:induction false} PowSum(m: nat, n: nat)
    ensures Pow2(m + n) == Pow2(m) * Pow2(n)
  {
    if m > 0 {
      PowSum(m - 1, n);
      assert Pow2(m + n) == 2 * (Pow2(m - 1) * Pow2(n));
    }
  }

  lemma {:induction false} ModMod(x: int, p: int, q: int)
    requires p > 0 && q > 0
    ensures p * q > 0 && (x % (p * q)) % p == x % p
  {
    assert p * q > 0;
    var k, r := x / (p * q), x % (p * q);
    var d, s := r / p, r % p;
    Regrouped(p, q, k, d, s);
    assert x == p * (q * k + d) + s;
    DivUnique(x, p, q * k + d, s);
  }

  lemma {:induction false} Regrouped(p: int, q: int, k: int, d: int, s: int)
    ensures p * q * k + (p * d + s) == p * (q * k + d) + s
  {
  }

  lemma {:induction false} ModSplit(u: nat, p: nat)
    requires p > 0
    ensures u % 256 + 256 * ((u / 256) % p) == u % (256 * p)
  {
    var a := u / 256;
    var q, r := a / p, a % p;
    assert a == p * q + r;
    assert u == 256 * a + u % 256;
    assert u == (256 * p) * q + (256 * r + u % 256);
    DivUnique(u, 256 * p, q, 256 * r + u % 256);
  }

  lemma {:induction false} ModByte(u: nat, m: nat)
    requires m <= 8
    ensures (u % 256) % Pow2(m) == u % Pow2(m)
  {
    Powers();
    PowSum(m, 8 - m);
    ModMod(u, Pow2(m), Pow2(8 - m));
  }

  // ---------------------------------------------------------------- encoding

  /** The size of the smallest standard integer that holds `len` bits. */
  function StdLength(len: nat): (n: nat)
    ensures 1 <= len <= 64 ==> 1 <= n <= 8 && len <= 8 * n
  {
    if len <= 8 then 1 else if len <= 16 then 2 else if len <= 32 then 4 else 8
  }

  /** What the field holds: a boolean, or the value modulo the width of the field. */
  function Encoded(value: int, len: nat): nat {
    if len == 1 then Bit(value != 0) else value % Pow2(len)
  }

  /** The memory of the value, read as an unsigned number. */
  function InMemory(value: int, len: nat): nat {
    if len == 1 then Bit(value != 0) else value % Pow2(8 * StdLength(len))
  }

  lemma {:induction false} InMemoryField(value: int, len: nat)
    requires 1 <= len <= 64
    ensures InMemory(value, len) % Pow2(len) == Encoded(value, len)
  {
    if len == 1 {
      Powers();
    } else {
      PowSum(len, 8 * StdLength(len) - len);
      ModMod(value, Pow2(len), Pow2(8 * StdLength(len) - len));
    }
  }

  /** The serialised form: bytes from the least significant on, the last ones moved to the top of their byte. */
  ghost predicate Serialized(s: seq<byte>, v: nat, len: nat) {
    && len <= 8 * |s|
    && (forall k | 0 <= k < len / 8 :: s[k] as int == Drop(v, k) % 256)
    && (len % 8 != 0 ==> exists b: byte {:trigger Last(s, v, len, b)} :: Last(s, v, len, b))
  }

  predicate Last(s: seq<byte>, v: nat, len: nat, b: byte)
    requires len % 8 != 0 && len <= 8 * |s|
  {
    b as int == Drop(v, len / 8) % 256 && s[len / 8] == MovedUp(b, 8 - len % 8)
  }

  lemma {:induction false} ByteNumber(s: seq<byte>, k: nat)
    requires k < |s|
    ensures BitsNumber(s, 8 * k, 8) == s[k] as int
  {
    TopOfByte(s, k, 8);
    Powers();
  }

  lemma {:induction false} WholeByte(s: seq<byte>, k: nat, m: nat, u: nat)
    requires k < |s| && 8 <= m && 8 * k + m <= 8 * |s| && s[k] as int == u % 256
    requires FieldNumber(s, 8 * k + 8, m - 8) == (u / 256) % Pow2(m - 8)
    ensures FieldNumber(s, 8 * k, m) == u % Pow2(m)
  {
    ByteNumber(s, k);
    PowEight(m);
    ModSplit(u, Pow2(m - 8));
    hide BitsNumber;
    hide Pow2;
  }

  lemma {:induction false} PartialByte(s: seq<byte>, v: nat, len: nat)
    requires Serialized(s, v, len) && len % 8 != 0
    ensures FieldNumber(s, 8 * (len / 8), len % 8) == Drop(v, len / 8) % Pow2(len % 8)
  {
    var b :| Last(s, v, len, b);
    MovedUpNumber(s, len / 8, b, len % 8);
    ModByte(Drop(v, len / 8), len % 8);
  }

  lemma {:induction false} SerializedPart(s: seq<byte>, v: nat, len: nat, k: nat)
    requires Serialized(s, v, len) && 8 * k <= len
    ensures FieldNumber(s, 8 * k, len - 8 * k) == Drop(v, k) % Pow2(len - 8 * k)
    decreases len - 8 * k
  {
    var m := len - 8 * k;
    if m == 0 {
      Powers();
    } else if m < 8 {
      assert k == len / 8 && m == len % 8;
      PartialByte(s, v, len);
    } else {
      SerializedPart(s, v, len, k + 1);
      DropMore(v, k);
      WholeByte(s, k, m, Drop(v, k));
    }
  }

  lemma {:induction false} SerializedField(s: seq<byte>, v: nat, len: nat)
    requires Serialized(s, v, len)
    ensures FieldNumber(s, 0, len) == v % Pow2(len)
  {
    SerializedPart(s, v, len, 0);
  }

  /** Only the field changes. */
  ghost predicate Undisturbed(old': seq<byte>, s: seq<byte>, at: nat, len: nat) {
    |s| == |old'| && forall i {:trigger BitAt(s, i)} | 0 <= i < 8 * |s| && !(at <= i < at + len) ::
      BitAt(s, i) == BitAt(old', i)
  }

  /** Writing one field never disturbs a disjoint one. */
  lemma {:induction false} DisjointFields(old': seq<byte>, s: seq<byte>, at: nat, len: nat, at': nat, len': nat)
    requires Undisturbed(old', s, at, len) && at' + len' <= 8 * |s| && (at' + len' <= at || at + len <= at')
    ensures FieldNumber(s, at', len') == FieldNumber(old', at', len')
  {
    SameField(s, at', old', at', len');
  }

  /** `canardEncodeScalar`. */
  method EncodeScalar(destination: array<byte>, bitOffset: nat, bitLength: nat, value: int, bigEndian: bool)
    requires 1 <= bitLength <= 64 && bitOffset + bitLength <= 8 * destination.Length
    modifies destination
    ensures FieldNumber(destination[..], bitOffset, bitLength) == Encoded(value, bitLength)
    ensures Undisturbed(old(destination[..]), destination[..], bitOffset, bitLength)
  {
    hide InMemory;
    hide Encoded;
    hide FieldNumber;
    hide Drop;
    hide MovedUp;
    ghost var v := InMemory(value, bitLength);
    var storage := Serialize(value, bitLength, bigEndian);
    SerializedField(storage[..], v, bitLength);
    InMemoryField(value, bitLength);
    CopyBitArray(storage[..], 0, bitLength, destination, bitOffset);
    SameField(destination[..], bitOffset, storage[..], 0, bitLength);
  }

  /** The value in the temporary storage, its least significant byte first whatever the host. */
  method LoadValue(v: nat, std: nat, bigEndian: bool) returns (storage: array<byte>)
    requires 0 < std <= 8
    ensures fresh(storage) && storage.Length == 8 && storage[..std] == LittleEndian(v, std)
  {
    hide LittleEndian;
    storage := new byte[8](_ => 0);
    var host := HostBytes(v, std, bigEndian);
    forall i | 0 <= i < std {
      storage[i] := host[i];
    }
    assert storage[..std] == host;
    if bigEndian {
      ReversedTwice(LittleEndian(v, std));
      SwapByteOrder(storage, std);
      assert storage[..std] == LittleEndian(v, std);
    }
  }

  /** The temporary storage of the encoder: a partial byte is moved to the top. */
  method Serialize(value: int, bitLength: nat, bigEndian: bool) returns (storage: array<byte>)
    requires 1 <= bitLength <= 64
    ensures fresh(storage) && storage.Length == 8 && Serialized(storage[..], InMemory(value, bitLength), bitLength)
  {
    hide InMemory;
    hide Drop;
    hide MovedUp;
    var std := StdLength(bitLength);
    var v := InMemory(value, bitLength);
    storage := LoadValue(v, std, bigEndian);
    LittleEndianBytes(storage[..], v, std);
    hide LittleEndian;
    if bitLength % 8 != 0 {
      ghost var b := storage[bitLength / 8];
      assert b == storage[..][bitLength / 8];
      storage[bitLength / 8] := MovedUp(storage[bitLength / 8], 8 - bitLength % 8);
      assert Last(storage[..], v, bitLength, b);
    }
  }

  lemma {:induction false} LittleEndianBytes(s: seq<byte>, v: nat, n: nat)
    requires n <= |s| && s[..n] == LittleEndian(v, n)
    ensures forall k | 0 <= k < n :: s[k] as int == Drop(v, k) % 256
  {
    forall k | 0 <= k < n ensures s[k] as int == Drop(v, k) % 256 {
      assert s[k] == s[..n][k];
      LittleEndianAt(v, n, k);
    }
  }

  // ---------------------------------------------------------------- decoding

  const ZEROS: seq<byte> := [0, 0, 0, 0, 0, 0, 0, 0]

  /** Two's complement in `len` bits. */
  function SignExtended(u: nat, len: nat): int
    requires len > 0
  {
    if u >= Pow2(len - 1) then u - Pow2(len) else u
  }

  /** What a read yields: the field of the payload, continued with zero bits where the payload ends. */
  function Decoded(payload: seq<byte>, at: nat, len: nat, signed: bool): int
    requires at < 8 * |payload| && 1 <= len <= 64
  {
    var u := FieldNumber(payload + ZEROS, at, len);
    if signed then SignExtended(u, len) else u
  }

  ghost predicate ZeroFrom(s: seq<byte>, n: nat) {
    forall i {:trigger BitAt(s, i)} | n <= i < 8 * |s| :: !BitAt(s, i)
  }

  lemma {:induction false} NoBitsNoByte(s: seq<byte>, n: nat, k: nat)
    requires ZeroFrom(s, n) && n <= 8 * k && k < |s|
    ensures s[k] == 0
  {
    forall j: nat | j < 8 ensures BitOf(s[k], j) == BitOf(0, j) {
      InByte(8 * k + j, k, j);
      assert !BitAt(s, 8 * k + j);
      NoBit(j);
    }
    ByteExtensionality(s[k], 0);
  }

  lemma {:induction false} NoBit(j: nat)
    requires j < 8
    ensures !BitOf(0, j)
  {
  }

  lemma {:induction false} ZerosAreZero(p: seq<byte>)
    ensures ZeroFrom(p + ZEROS, 8 * |p|)
    ensures ZeroFrom(ZEROS, 0)
  {
  }

  /** The bits read into cleared storage are those of the payload continued with zeros. */
  lemma {:induction false} StoredField(s: seq<byte>, payload: seq<byte>, at: nat, len: nat, n: nat)
    requires |s| == 8 && at < 8 * |payload| && 1 <= len <= 64 && n == Readable(|payload|, at, len)
    requires Copied(ZEROS, s, payload, at, n, 0)
    ensures FieldNumber(s, 0, len) == FieldNumber(payload + ZEROS, at, len) && ZeroFrom(s, len)
  {
    ZerosAreZero(payload);
    forall i {:trigger BitAt(s, i)} | 0 <= i < len ensures BitAt(s, i) == BitAt(payload + ZEROS, at + i) {
      if i < n {
        assert (payload + ZEROS)[(at + i) / 8] == payload[(at + i) / 8];
      }
    }
    SameField(s, 0, payload + ZEROS, at, len);
  }

  /** The storage after the partial byte has been moved down. */
  function MovedBack(s: seq<byte>, len: nat): seq<byte>
    requires len <= 8 * |s|
  {
    if len % 8 == 0 then s else s[len / 8 := MovedDown(s[len / 8], 8 - len % 8)]
  }

  lemma {:induction false} ZeroBytes(s: seq<byte>)
    requires forall k | 0 <= k < |s| :: s[k] == 0
    ensures Number(s) == 0
  {
    if s != [] {
      ZeroBytes(s[1..]);
      ByteNatZero();
    }
  }

  lemma {:induction false} ByteNatZero()
    ensures ByteNat(0) == 0
  {
  }

  lemma {:induction false} NumberStep(s: seq<byte>, k: nat, n: nat)
    requires k < n <= |s|
    ensures Number(s[k..n]) == ByteNat(s[k]) + 256 * Number(s[k + 1..n])
  {
  }

  lemma {:induction false} StoredByte(s: seq<byte>, len: nat, n: nat, k: nat)
    requires 8 * k + 8 <= len <= 8 * n && n <= |s|
    requires Number(MovedBack(s, len)[k + 1..n]) == FieldNumber(s, 8 * k + 8, len - 8 * k - 8)
    ensures Number(MovedBack(s, len)[k..n]) == FieldNumber(s, 8 * k, len - 8 * k)
  {
    assert MovedBack(s, len)[k] == s[k];
    NumberStep(MovedBack(s, len), k, n);
    ByteNumber(s, k);
    hide MovedBack;
    hide Number;
    hide BitsNumber;
  }

  /** The bytes of the storage, least significant first, are the number of the field. */
  lemma {:induction false} StoredNumber(s: seq<byte>, len: nat, n: nat, k: nat)
    requires 8 * k <= len <= 8 * n && n <= |s| && ZeroFrom(s, len)
    ensures Number(MovedBack(s, len)[k..n]) == FieldNumber(s, 8 * k, len - 8 * k)
    decreases len - 8 * k
  {
    hide MovedBack;
    hide Number;
    hide FieldNumber;
    hide ZeroFrom;
    if len - 8 * k >= 8 {
      StoredNumber(s, len, n, k + 1);
      StoredByte(s, len, n, k);
    } else {
      StoredLast(s, len, n);
      assert k == len / 8 && len - 8 * k == len % 8;
    }
  }

  lemma {:induction false} StoredLast(s: seq<byte>, len: nat, n: nat)
    requires len <= 8 * n && n <= |s| && ZeroFrom(s, len)
    ensures Number(MovedBack(s, len)[len / 8..n]) == FieldNumber(s, 8 * (len / 8), len % 8)
  {
    var k, r, m := len / 8, len % 8, MovedBack(s, len);
    var from := if r == 0 then k else k + 1;
    forall j | 0 <= j < |m[from..n]| ensures m[from..n][j] == 0 {
      NoBitsNoByte(s, len, from + j);
    }
    ZeroBytes(m[from..n]);
    if r != 0 {
      NumberStep(m, k, n);
      MovedDownValue(s[k], 8 - r);
      TopOfByte(s, k, r);
    }
  }

  /** The number in the first `std` bytes of the storage, swapped first when the host reads it the other way. */
  method ReadHost(storage: array<byte>, std: nat, bigEndian: bool) returns (u: nat)
    requires 0 < std <= storage.Length
    modifies storage
    ensures u == Number(old(storage[..std]))
  {
    if bigEndian {
      ReversedTwice(storage[..std]);
      SwapByteOrder(storage, std);
      assert storage[..std] == Reversed(old(storage[..std]));
    }
    u := HostNumber(storage[..std], bigEndian);
  }

  /** Setting the bits above the field when its sign bit is set; they are clear before, so that is an addition. */
  function WithSignBits(u: nat, len: nat, std: nat): int
    requires 1 <= len <= 8 * std
  {
    if (u / Pow2(len - 1)) % 2 == 1 then u + (Pow2(8 * std) - Pow2(len)) else u
  }

  /** An integer of `n` bytes read as a signed one. */
  function AsSigned(u: int, n: nat): int
    requires n > 0
  {
    if u >= Pow2(8 * n - 1) then u - Pow2(8 * n) else u
  }

  lemma {:induction false} SignExtension(u: nat, len: nat, std: nat)
    requires 1 <= len <= 8 * std && u < Pow2(len)
    ensures AsSigned(if 8 * std != len then WithSignBits(u, len, std) else u, std) == SignExtended(u, len)
  {
    var p := Pow2(len - 1);
    assert Pow2(len) == 2 * p;
    if u >= p {
      DivUnique(u, p, 1, u - p);
    } else {
      DivUnique(u, p, 0, u);
    }
    if 8 * std != len {
      PowGrows(len, 8 * std - 1);
    }
  }

  lemma {:induction false} PowGrows(m: nat, n: nat)
    requires m <= n
    ensures Pow2(m) <= Pow2(n)
  {
    if m < n {
      PowGrows(m, n - 1);
    }
  }

  /** The partial byte is moved down; the other bits of the storage are where they should be. */
  method MoveDown(storage: array<byte>, bitLength: nat)
    requires bitLength <= 8 * storage.Length
    modifies storage
    ensures storage[..] == MovedBack(old(storage[..]), bitLength)
  {
    hide MovedDown;
    if bitLength % 8 != 0 {
      storage[bitLength / 8] := MovedDown(storage[bitLength / 8], 8 - bitLength % 8);
    }
  }

  /** The bits of the payload in cleared storage, the partial byte moved down. */
  method LoadField(t: Transfer, bitOffset: nat, bitLength: nat) returns (result: nat, storage: array<byte>)
    requires Stocked(t) && 1 <= bitLength <= 64
    ensures fresh(storage) && storage.Length == 8 && result == Readable(t.payloadLen, bitOffset, bitLength)
    ensures result > 0 ==>
      Number(storage[..StdLength(bitLength)]) == FieldNumber(Payload(t) + ZEROS, bitOffset, bitLength) < Pow2(bitLength)
  {
    hide Stocked;
    storage := new byte[8](_ => 0);
    assert storage[..] == ZEROS;
    result := DescatterTransferPayload(t, bitOffset, bitLength, storage);
    if result > 0 {
      ghost var s := storage[..];
      StoredField(s, Payload(t), bitOffset, bitLength, result);
      FieldBounded(s, 0, bitLength);
      StoredNumber(s, bitLength, StdLength(bitLength), 0);
      hide FieldNumber;
      hide Number;
      hide MovedBack;
      MoveDown(storage, bitLength);
      assert storage[..StdLength(bitLength)] == MovedBack(s, bitLength)[0..StdLength(bitLength)];
    }
  }

  /** `canardDecodeScalar`; `value` is only written when bits were read. */
  method DecodeScalar(t: Transfer, bitOffset: nat, bitLength: nat, signed: bool, bigEndian: bool)
    returns (result: int, value: int)
    requires Stocked(t)
    ensures bitLength < 1 || bitLength > 64 || (bitLength == 1 && signed) ==> result == -2
    ensures 1 <= bitLength <= 64 && !(bitLength == 1 && signed) ==> result == Readable(t.payloadLen, bitOffset,
                                                                                       bitLength)
    ensures 1 <= bitLength <= 64 && result > 0 ==> value == Decoded(Payload(t), bitOffset, bitLength, signed)
  {
    value := 0;
    if bitLength < 1 || bitLength > 64 {
      return -INVALID_ARGUMENT, 0;
    }
    if bitLength == 1 && signed {
      return -INVALID_ARGUMENT, 0;
    }
    hide Stocked;
    hide FieldNumber;
    hide Number;
    var storage;
    result, storage := LoadField(t, bitOffset, bitLength);
    if result <= 0 {
      return;
    }
    var std := StdLength(bitLength);
    var u := ReadHost(storage, std, bigEndian);
    value := u;
    if signed {
      SignExtension(u, bitLength, std);
      value := AsSigned(if 8 * std != bitLength then WithSignBits(u, bitLength, std) else u, std);
    }
  }

  // ---------------------------------------------------------------- the round trip

  /** What the decoder makes of what the encoder wrote: the value modulo the width of the field, with its sign. */
  function Recovered(value: int, len: nat, signed: bool): int
    requires 1 <= len <= 64
  {
    if signed then SignExtended(Encoded(value, len), len) else Encoded(value, len)
  }

  /** A value that fits the field comes back unchanged. */
  lemma {:induction false} RecoveredFits(value: int, len: nat, signed: bool)
    requires 1 <= len <= 64 && (len == 1 ==> !signed)
    requires if signed then 0 <= value + Pow2(len - 1) && value < Pow2(len - 1) else 0 <= value < Pow2(len)
    ensures Recovered(value, len, signed) == value
  {
    assert Pow2(len) == 2 * Pow2(len - 1);
    if len == 1 {
      Powers();
    } else if value >= 0 {
      DivUnique(value, Pow2(len), 0, value);
    } else {
      DivUnique(value, Pow2(len), -1, value + Pow2(len));
    }
  }

  /** A field written into a message is read back from the transfer that carries the message. */
  lemma {:induction false} ScalarRoundTrip(message: seq<byte>, at: nat, len: nat, value: int, signed: bool)
    requires 1 <= len <= 64 && at + len <= 8 * |message| && FieldNumber(message, at, len) == Encoded(value, len)
    ensures Readable(|message|, at, len) == len && Decoded(message, at, len, signed) == Recovered(value, len, signed)
  {
    forall i {:trigger BitAt(message, i)} | at <= i < at + len ensures BitAt(message, i) == BitAt(message + ZEROS, i) {
      assert (message + ZEROS)[i / 8] == message[i / 8];
    }
    SameField(message, at, message + ZEROS, at, len);
  }
}
