/** Bus arbitration bit by bit: what the comparison of the transmission queue means on the wire. */
module BusArbitration {
  import opened Types
  import opened CanId
  import opened TxQueue
  import opened Words
  import opened Wire

  // ---------------------------------------------------------------- bit strings as numbers

  /** The number written with these bits, the most significant one first. */
  function NumberOf(s: seq<bool>): nat {
    if s == [] then 0 else 2 * NumberOf(s[..|s| - 1]) + Bit(s[|s| - 1])
  }

  lemma {:induction false} NumberMore(s: seq<bool>, bit: bool)
    ensures NumberOf(s + [bit]) == 2 * NumberOf(s) + Bit(bit)
  {
    assert (s + [bit])[..|s|] == s;
  }

  lemma {:induction false} Doubled(a: nat, n: nat)
    ensures a * Pow2(n + 1) == 2 * (a * Pow2(n))
  {
    DoubledProduct(a, Pow2(n));
  }

  lemma {:induction false} DoubledProduct(a: nat, p: nat)
    ensures a * (2 * p) == 2 * (a * p)
  {
  }

  lemma {:induction false} NumberConcat(a: seq<bool>, b: seq<bool>)
    ensures NumberOf(a + b) == NumberOf(a) * Pow2(|b|) + NumberOf(b)
    decreases |b|
  {
    hide *;
    if b == [] {
      assert a + b == a;
      Nothing();
    } else {
      var n := |b| - 1;
      NumberConcat(a, b[..n]);
      NumberMore(a + b[..n], b[n]);
      assert a + b[..n] + [b[n]] == a + b;
      NumberMore(b[..n], b[n]);
      assert b[..n] + [b[n]] == b;
      Doubled(NumberOf(a), n);
    }
  }

  lemma {:induction false} Nothing()
    ensures NumberOf([]) == 0 && Pow2(0) == 1
  {
  }

  /** At the first place where they differ, `a` has the dominant zero. */
  ghost predicate WinsBus(a: seq<bool>, b: seq<bool>) {
    exists k :: DiffersAt(a, b, k)
  }

  predicate DiffersAt(a: seq<bool>, b: seq<bool>, k: int) {
    0 <= k < |a| && k < |b| && a[..k] == b[..k] && !a[k] && b[k]
  }

  lemma {:induction false} NumberInjective(a: seq<bool>, b: seq<bool>)
    requires |a| == |b| && NumberOf(a) == NumberOf(b)
    ensures a == b
  {
    if a != [] {
      var n := |a| - 1;
      NumberInjective(a[..n], b[..n]);
      assert a == a[..n] + [a[n]] && b == b[..n] + [b[n]];
    }
  }

  /** One more bit. */
  lemma {:induction false} WinsMore(a: seq<bool>, b: seq<bool>)
    requires |a| == |b| > 0
    ensures var n := |a| - 1;
      WinsBus(a, b) <==> WinsBus(a[..n], b[..n]) || (a[..n] == b[..n] && !a[n] && b[n])
  {
    var n := |a| - 1;
    if WinsBus(a, b) {
      var k :| DiffersAt(a, b, k);
      if k < n {
        assert a[..n][..k] == a[..k] && b[..n][..k] == b[..k];
        assert DiffersAt(a[..n], b[..n], k);
      }
    }
    if WinsBus(a[..n], b[..n]) {
      var k :| DiffersAt(a[..n], b[..n], k);
      assert a[..n][..k] == a[..k] && b[..n][..k] == b[..k];
      assert DiffersAt(a, b, k);
    }
    if a[..n] == b[..n] && !a[n] && b[n] {
      assert DiffersAt(a, b, n);
    }
  }

  /** Of two bit strings of one length, that with the dominant zero is the smaller number. */
  lemma {:induction false} WinsIsLess(a: seq<bool>, b: seq<bool>)
    requires |a| == |b|
    ensures WinsBus(a, b) <==> NumberOf(a) < NumberOf(b)
  {
    if a != [] {
      var n := |a| - 1;
      WinsMore(a, b);
      WinsIsLess(a[..n], b[..n]);
      hide WinsBus;
      if NumberOf(a[..n]) == NumberOf(b[..n]) {
        NumberInjective(a[..n], b[..n]);
      }
    }
  }

  // ---------------------------------------------------------------- the bits of an identifier

  /** Bit `j` of the identifier, counting from the least significant one. */
  predicate IdBit(id: bv32, j: nat) {
    id as nat / Pow2(j) % 2 == 1
  }

  /** `n` bits of the identifier from bit `hi` downwards. */
  function IdBits(id: bv32, hi: nat, n: nat): (r: seq<bool>)
    requires n <= hi + 1
    ensures |r| == n
  {
    if n == 0 then [] else IdBits(id, hi, n - 1) + [IdBit(id, hi + 1 - n)]
  }

  /** What goes over the bus before the data, in order (CAN 2.0B): the base identifier, RTR and IDE for a standard
      frame; the base identifier, SRR, IDE, the identifier extension and RTR for an extended one. Bit 31 of an
      identifier says that it is extended, bit 30 that it asks for a remote frame. */
  function OnTheBus(id: bv32): (r: seq<bool>)
    ensures |r| == if IdBit(id, 31) then 32 else 13
  {
    if IdBit(id, 31) then IdBits(id, 28, 11) + [true, true] + IdBits(id, 17, 18) + [IdBit(id, 30)]
    else IdBits(id, 10, 11) + [IdBit(id, 30), false]
  }

  /** The bits from `lo` on, as a number. */
  lemma {:induction false} IdBitsNumber(id: bv32, hi: nat, n: nat)
    requires n <= hi + 1
    ensures NumberOf(IdBits(id, hi, n)) == id as nat / Pow2(hi + 1 - n) % Pow2(n)
    decreases n
  {
    if n > 0 {
      var r := IdBits(id, hi, n);
      assert r[..n - 1] == IdBits(id, hi, n - 1);
      IdBitsNumber(id, hi, n - 1);
      OneBitMore(id as nat, hi + 1 - n, n - 1);
    }
  }

  lemma {:induction false} OneBitMore(x: nat, lo: nat, n: nat)
    ensures x / Pow2(lo) % Pow2(n + 1) == 2 * (x / Pow2(lo + 1) % Pow2(n)) + x / Pow2(lo) % 2
  {
    var y, p := x / Pow2(lo), Pow2(n);
    DivTwice(x, Pow2(lo));
    var q := y / 2 / p;
    assert y == 2 * (y / 2) + y % 2;
    assert y / 2 == p * q + y / 2 % p;
    DivIs(y, 2 * p, q, 2 * (y / 2 % p) + y % 2);
  }

  lemma {:induction false} DivTwice(x: nat, p: nat)
    requires p > 0
    ensures x / (2 * p) == x / p / 2
  {
    var y := x / p;
    var q := y / 2;
    assert x == p * y + x % p;
    assert p * y == 2 * p * q + p * (y % 2) by {
      Spread(p, q, y % 2);
    }
    assert p * (y % 2) <= p by {
      assert y % 2 == 0 || y % 2 == 1;
    }
    DivIs(x, 2 * p, q, p * (y % 2) + x % p);
  }

  lemma {:induction false} Spread(p: nat, q: nat, b: nat)
    ensures p * (2 * q + b) == 2 * p * q + p * b
  {
  }

  lemma {:induction false} Ordered(d: nat, a: nat, b: nat)
    requires a < b
    ensures d * a + d <= d * b
    decreases b
  {
    Distributes(d, b - 1);
    if a < b - 1 {
      Ordered(d, a, b - 1);
    }
  }

  lemma {:induction false} Distributes(d: nat, c: nat)
    ensures d * (c + 1) == d * c + d
  {
  }

  lemma {:induction false} DivIs(x: nat, d: nat, q: nat, r: int)
    requires d > 0 && x == d * q + r && 0 <= r < d
    ensures x / d == q && x % d == r
  {
    var e := x / d;
    assert x == d * e + x % d;
    if e < q {
      Ordered(d, e, q);
    } else if q < e {
      Ordered(d, q, e);
    }
  }

  // ---------------------------------------------------------------- the comparison of the queue

  lemma {:induction false} Powers()
    ensures Pow2(0) == 1 && Pow2(1) == 2 && Pow2(2) == 4 && Pow2(11) == 0x800 && Pow2(13) == 0x2000
    ensures Pow2(18) == 0x4_0000 && Pow2(19) == 0x8_0000 && Pow2(21) == 0x20_0000
    ensures Pow2(29) == 0x2000_0000 && Pow2(30) == 0x4000_0000 && Pow2(31) == 0x8000_0000
  {
    assert Pow2(4) == 16 && Pow2(8) == 256 && Pow2(12) == 4096;
    assert Pow2(16) == 0x1_0000 && Pow2(20) == 0x10_0000;
    assert Pow2(24) == 0x100_0000 && Pow2(28) == 0x1000_0000;
  }

  /** The identifier bits of a word, byte by byte. */
  lemma {:induction false} CleanBytes(id: bv32)
    ensures var q := BytesOf(id); id & EXT_ID_MASK == Word32(TransferIdOf(q.a), q.b, q.c, q.d)
  {
  }

  lemma {:induction false} SmallRest(b: byte, c: byte, d: byte)
    ensures b as nat * 0x1_0000 + c as nat * 0x100 + d as nat < 0x100_0000
  {
    ByteFits(b);
    ByteFits(c);
    ByteFits(d);
  }

  /** A number whose last three bytes make `rest`. */
  lemma {:induction false} TopBits(x: nat, a: nat, rest: nat)
    requires x == a * 0x100_0000 + rest && rest < 0x100_0000 && a < 256
    ensures x % 0x2000_0000 == a % 32 * 0x100_0000 + rest
    ensures x / 0x8000_0000 == a / 128 <= 1
  {
    DivIs(x, 0x2000_0000, a / 32, a % 32 * 0x100_0000 + rest);
    DivIs(x, 0x8000_0000, a / 128, a % 128 * 0x100_0000 + rest);
  }

  lemma {:induction false} CleanParts(id: bv32, q: Four, clean: bv32)
    requires q == BytesOf(id) && clean == Word32(TransferIdOf(q.a), q.b, q.c, q.d)
    ensures clean as nat == id as nat % 0x2000_0000 && id as nat / 0x8000_0000 <= 1
  {
    hide *;
    BytesNumber(id);
    TailReads(q.a);
    ByteFits(q.a);
    SmallRest(q.b, q.c, q.d);
    Number32(TransferIdOf(q.a), q.b, q.c, q.d);
    TopBits(id as nat, q.a as nat, q.b as nat * 0x1_0000 + q.c as nat * 0x100 + q.d as nat);
  }

  /** The last 29 bits of a word. */
  lemma {:induction false} CleanNumber(id: bv32)
    ensures (id & EXT_ID_MASK) as nat == id as nat % 0x2000_0000 && id as nat / 0x8000_0000 <= 1
  {
    hide *;
    CleanBytes(id);
    CleanParts(id, BytesOf(id), id & EXT_ID_MASK);
  }

  lemma {:induction false} FlagBits(id: bv32)
    ensures IdBit(id, 31) <==> id as nat / 0x8000_0000 % 2 == 1
    ensures IdBit(id, 30) <==> id as nat / 0x4000_0000 % 2 == 1
  {
    Powers();
    hide Pow2;
  }

  predicate Extended(id: bv32) {
    id & EFF != 0
  }

  predicate Remote(id: bv32) {
    id & RTR != 0
  }

  function Clean(id: bv32): nat {
    (id & EXT_ID_MASK) as nat
  }

  lemma {:induction false} BusIdFields(id: bv32)
    ensures BusIdOf(id) == BusId(Extended(id), Remote(id), Clean(id))
  {
  }

  lemma {:induction false} FlagsAre(id: bv32)
    ensures Extended(id) <==> id as nat / 0x8000_0000 == 1
    ensures Remote(id) <==> id as nat / 0x4000_0000 % 2 == 1
  {
    FlagReads(id);
  }

  lemma {:induction false} CleanIs(id: bv32)
    ensures Clean(id) == id as nat % 0x2000_0000 && id as nat / 0x8000_0000 <= 1
  {
    CleanNumber(id);
  }

  /** What the comparison reads, in terms of the number that the identifier is. */
  lemma {:induction false} BusIdIs(id: bv32)
    ensures BusIdOf(id) == BusId(IdBit(id, 31), IdBit(id, 30), id as nat % 0x2000_0000)
  {
    hide *;
    CleanIs(id);
    FlagsAre(id);
    FlagBits(id);
    BusIdFields(id);
  }

  /** A standard identifier has eleven bits. */
  predicate Genuine(id: bv32) {
    !IdBit(id, 31) ==> id as nat % 0x2000_0000 < 0x800
  }

  lemma {:induction false} TwoBits(x: bool, y: bool)
    ensures NumberOf([x, y]) == 2 * Bit(x) + Bit(y) && NumberOf([x]) == Bit(x)
  {
    NumberMore([], x);
    NumberMore([x], y);
    assert [] + [x] == [x] && [x] + [y] == [x, y];
  }

  /** The pieces of an identifier, as numbers. */
  lemma {:induction false} PieceNumbers(id: bv32)
    ensures var c := id as nat % 0x2000_0000;
      && NumberOf(IdBits(id, 28, 11)) == c / 0x4_0000 && NumberOf(IdBits(id, 17, 18)) == c % 0x4_0000
      && NumberOf(IdBits(id, 10, 11)) == c % 0x800
  {
    Powers();
    IdBitsNumber(id, 28, 11);
    IdBitsNumber(id, 17, 18);
    IdBitsNumber(id, 10, 11);
    var x, c := id as nat, id as nat % 0x2000_0000;
    Pieces(x);
    hide *;
  }

  lemma {:induction false} Pieces(x: nat)
    ensures var c := x % 0x2000_0000;
      x / 0x4_0000 % 0x800 == c / 0x4_0000 && x % 0x4_0000 == c % 0x4_0000 && x % 0x800 == c % 0x800
  {
    var h, c := x / 0x2000_0000, x % 0x2000_0000;
    assert x == h * 0x2000_0000 + c;
    DivIs(x, 0x4_0000, h * 0x800 + c / 0x4_0000, c % 0x4_0000);
    DivIs(h * 0x800 + c / 0x4_0000, 0x800, h, c / 0x4_0000);
    DivIs(x, 0x800, h * 0x4_0000 + c / 0x800, c % 0x800);
  }

  lemma {:induction false} JoinedNumbers(base: seq<bool>, x: bool, y: bool, rest: seq<bool>, last: bool)
    requires |rest| == 18
    ensures NumberOf(base + [x, y]) == NumberOf(base) * 4 + 2 * Bit(x) + Bit(y)
    ensures NumberOf(base + [x, y] + rest + [last])
         == NumberOf(base + [x, y]) * 0x8_0000 + NumberOf(rest) * 2 + Bit(last)
  {
    Powers();
    TwoBits(x, y);
    TwoBits(last, last);
    hide NumberOf;
    hide Pow2;
    NumberConcat(base, [x, y]);
    NumberConcat(base + [x, y], rest);
    NumberConcat(base + [x, y] + rest, [last]);
  }

  lemma {:induction false} ExtendedNumber(id: bv32)
    requires IdBit(id, 31)
    ensures var c := id as nat % 0x2000_0000; var s := OnTheBus(id);
      && NumberOf(s[..13]) == c / 0x4_0000 * 4 + 3
      && NumberOf(s) == (c / 0x4_0000 * 4 + 3) * 0x8_0000 + c % 0x4_0000 * 2 + Bit(IdBit(id, 30))
  {
    var base, rest, s := IdBits(id, 28, 11), IdBits(id, 17, 18), OnTheBus(id);
    assert s == base + [true, true] + rest + [IdBit(id, 30)] && s[..13] == base + [true, true];
    hide *;
    PieceNumbers(id);
    JoinedNumbers(base, true, true, rest, IdBit(id, 30));
    assert Bit(true) == 1 by {
      BitsAre();
    }
  }

  lemma {:induction false} BitsAre()
    ensures Bit(true) == 1 && Bit(false) == 0
  {
  }

  lemma {:induction false} StandardNumber(id: bv32)
    requires !IdBit(id, 31) && Genuine(id)
    ensures NumberOf(OnTheBus(id)) == id as nat % 0x2000_0000 * 4 + 2 * Bit(IdBit(id, 30))
  {
    hide *;
    StandardBits(id);
    PieceNumbers(id);
    BitsAre();
    JoinedTwo(IdBits(id, 10, 11), IdBit(id, 30), false);
  }

  lemma {:induction false} StandardBits(id: bv32)
    requires !IdBit(id, 31) && Genuine(id)
    ensures OnTheBus(id) == IdBits(id, 10, 11) + [IdBit(id, 30), false]
    ensures id as nat % 0x2000_0000 % 0x800 == id as nat % 0x2000_0000
  {
    hide IdBit;
    hide IdBits;
  }

  lemma {:induction false} JoinedTwo(base: seq<bool>, x: bool, y: bool)
    ensures NumberOf(base + [x, y]) == NumberOf(base) * 4 + 2 * Bit(x) + Bit(y)
  {
    Powers();
    TwoBits(x, y);
    hide NumberOf;
    hide Pow2;
    NumberConcat(base, [x, y]);
  }

  lemma {:induction false} WinsEarly(a: seq<bool>, b: seq<bool>, n: nat)
    requires |a| == n <= |b| || |b| == n <= |a|
    ensures WinsBus(a, b) <==> WinsBus(a[..n], b[..n])
  {
    if WinsBus(a, b) {
      var k :| DiffersAt(a, b, k);
      assert a[..n][..k] == a[..k] && b[..n][..k] == b[..k];
      assert DiffersAt(a[..n], b[..n], k);
    }
    if WinsBus(a[..n], b[..n]) {
      var k :| DiffersAt(a[..n], b[..n], k);
      assert a[..n][..k] == a[..k] && b[..n][..k] == b[..k];
      assert DiffersAt(a, b, k);
    }
  }

  /** Whether one frame goes before another in the queue is what the bus would decide between them: at the first bit
      where their arbitration fields differ, the one that goes first has the dominant zero. */
  lemma {:induction false} HigherWins(a: bv32, b: bv32)
    requires Genuine(a) && Genuine(b)
    ensures IsPriorityHigher(b, a) <==> WinsBus(OnTheBus(a), OnTheBus(b))
  {
    hide *;
    var s, t := OnTheBus(a), OnTheBus(b);
    FieldIs(a);
    FieldIs(b);
    HigherIsLess(a, b);
    if |s| == |t| {
      WinsIsLess(s, t);
    } else {
      WinsEarly(s, t, 13);
      WinsIsLess(s[..13], t[..13]);
      assert |s| == 13 ==> s[..13] == s;
      assert |t| == 13 ==> t[..13] == t;
    }
  }

  /** The number that an arbitration field is, and that its first thirteen bits are. */
  function Field(ext: bool, rtr: bool, clean: nat): nat {
    if ext then (clean / 0x4_0000 * 4 + 3) * 0x8_0000 + clean % 0x4_0000 * 2 + Bit(rtr)
    else clean * 4 + 2 * Bit(rtr)
  }

  function FieldStart(ext: bool, rtr: bool, clean: nat): nat {
    if ext then clean / 0x4_0000 * 4 + 3 else clean * 4 + 2 * Bit(rtr)
  }

  lemma {:induction false} FieldIs(id: bv32)
    requires Genuine(id)
    ensures var e, r, c := IdBit(id, 31), IdBit(id, 30), id as nat % 0x2000_0000; var s := OnTheBus(id);
      && |s| == (if e then 32 else 13) && NumberOf(s) == Field(e, r, c) && NumberOf(s[..13]) == FieldStart(e, r, c)
  {
    hide *;
    FieldCases(IdBit(id, 31), IdBit(id, 30), id as nat % 0x2000_0000);
    if IdBit(id, 31) {
      ExtendedNumber(id);
    } else {
      StandardNumber(id);
      assert OnTheBus(id)[..13] == OnTheBus(id);
    }
  }

  lemma {:induction false} FieldCases(e: bool, r: bool, c: nat)
    ensures e ==> FieldStart(e, r, c) == c / 0x4_0000 * 4 + 3
    ensures e ==> Field(e, r, c) == (c / 0x4_0000 * 4 + 3) * 0x8_0000 + c % 0x4_0000 * 2 + Bit(r)
    ensures !e ==> FieldStart(e, r, c) == c * 4 + 2 * Bit(r) == Field(e, r, c)
  {
  }

  /** The comparison of the source is that of the arbitration fields as numbers. */
  lemma {:induction false} OutranksIsLess(e: bool, r: bool, c: nat, e': bool, r': bool, c': nat)
    ensures Outranks(BusId(e', r', c'), BusId(e, r, c)) <==>
              if e == e' then Field(e, r, c) < Field(e', r', c') else FieldStart(e, r, c) < FieldStart(e', r', c')
  {
    var h, l, h', l' := c / 0x4_0000, c % 0x4_0000, c' / 0x4_0000, c' % 0x4_0000;
    assert c == h * 0x4_0000 + l && c' == h' * 0x4_0000 + l';
    if h < h' {
      assert h * 0x20_0000 + 0x20_0000 <= h' * 0x20_0000;
    } else if h' < h {
      assert h' * 0x20_0000 + 0x20_0000 <= h * 0x20_0000;
    }
  }

  lemma {:induction false} HigherIsLess(a: bv32, b: bv32)
    ensures var e, r, c := IdBit(a, 31), IdBit(a, 30), a as nat % 0x2000_0000;
      var e', r', c' := IdBit(b, 31), IdBit(b, 30), b as nat % 0x2000_0000;
      IsPriorityHigher(b, a) <==> if e == e' then Field(e, r, c) < Field(e', r', c')
                                  else FieldStart(e, r, c) < FieldStart(e', r', c')
  {
    hide *;
    BusIdIs(a);
    BusIdIs(b);
    HigherOutranks(a, b);
    OutranksIsLess(IdBit(a, 31), IdBit(a, 30), a as nat % 0x2000_0000,
                   IdBit(b, 31), IdBit(b, 30), b as nat % 0x2000_0000);
  }

  lemma {:induction false} HigherOutranks(a: bv32, b: bv32)
    ensures IsPriorityHigher(b, a) <==> Outranks(BusIdOf(b), BusIdOf(a))
  {
    hide Outranks;
    hide BusIdOf;
  }

  /** No frame is behind one that it would win the bus against. */
  ghost predicate BusOrder(q: seq<Frame>) {
    forall i, j | 0 <= i < j < |q| :: !WinsBus(OnTheBus(q[j].id), OnTheBus(q[i].id))
  }

  /** What the queue calls sorted is the order in which the bus would let its frames through. */
  lemma {:induction false} SortedIsBusOrder(q: seq<Frame>)
    requires forall i | 0 <= i < |q| :: Genuine(q[i].id)
    ensures Sorted(q) <==> BusOrder(q)
  {
    hide OnTheBus;
    hide IsPriorityHigher;
    hide WinsBus;
    hide Genuine;
    forall i, j | 0 <= i < j < |q|
      ensures IsPriorityHigher(q[i].id, q[j].id) <==> WinsBus(OnTheBus(q[j].id), OnTheBus(q[i].id))
    {
      HigherWins(q[j].id, q[i].id);
    }
  }

  /** Whatever is pushed and popped, no queued frame is behind one that it would win the bus against. */
  lemma {:induction false} QueueArbitrates(q: seq<Frame>, ops: seq<Op>, i: nat, j: nat)
    requires Sorted(q) && var left := Run(q, ops).1; i < j < |left| && Genuine(left[i].id) && Genuine(left[j].id)
    ensures var left := Run(q, ops).1; !WinsBus(OnTheBus(left[j].id), OnTheBus(left[i].id))
  {
    var left := Run(q, ops).1;
    RunIsStable(q, ops, 0);
    HigherWins(left[j].id, left[i].id);
    hide OnTheBus;
    hide IsPriorityHigher;
    hide WinsBus;
  }
}
