/** The 16-bit register of CRC-16-CCITT: one shift, many shifts, and what a shift preserves. */
module CrcRegister {
  /** One shift of the register. */
  function Step(c: bv16): bv16 {
    if c & 0x8000 != 0 then (c << 1) ^ 0x1021 else c << 1
  }

  function Steps(c: bv16, n: nat): bv16
    decreases n
  {
    if n == 0 then c else Steps(Step(c), n - 1)
  }

  /** The register with one message bit entered at its top. */
  function Entered(c: bv16, bit: bool): bv16 {
    if bit then c ^ 0x8000 else c
  }

  function Feed(c: bv16, bit: bool): bv16 {
    Step(Entered(c, bit))
  }

  function CrcBits(c: bv16, bits: seq<bool>): bv16
    decreases |bits|
  {
    if bits == [] then c else CrcBits(Feed(c, bits[0]), bits[1..])
  }

  // ---------------------------------------------------------------- facts about single shifts

  function Unstep(c: bv16): bv16 {
    if c & 1 == 1 then ((c ^ 0x1021) >> 1) | 0x8000 else c >> 1
  }

  predicate Unsteps(d: bv16, c: bv16) {
    Unstep(d) == c
  }

  lemma {:induction false} UnstepHigh(c: bv16)
    requires c & 0x8000 != 0
    ensures Unsteps((c << 1) ^ 0x1021, c)
  {
  }

  lemma {:induction false} UnstepLow(c: bv16)
    requires c & 0x8000 == 0
    ensures Unsteps(c << 1, c)
  {
  }

  /** A step loses nothing. */
  lemma {:induction false} UnstepStep(c: bv16)
    ensures Unsteps(Step(c), c)
  {
    hide Unsteps;
    if c & 0x8000 != 0 {
      UnstepHigh(c);
    } else {
      UnstepLow(c);
    }
  }

  lemma {:induction false} TwoFlips(c: bv16)
    ensures (c ^ 0x8000) ^ 0x8000 == c
  {
  }

  lemma {:induction false} FeedInjective(x: bv16, y: bv16, bit: bool)
    requires Feed(x, bit) == Feed(y, bit)
    ensures x == y
  {
    UnstepStep(Entered(x, bit));
    UnstepStep(Entered(y, bit));
    TwoFlips(x);
    TwoFlips(y);
  }

  // ---------------------------------------------------------------- word-wise and bit-wise registers agree

  predicate TopBit(w: bv16) {
    w & 0x8000 != 0
  }

  function Shifted(w: bv16, n: nat): bv16
    decreases n
  {
    if n == 0 then w else Shifted(w << 1, n - 1)
  }

  /** The `n` bits shifted out of the top of `w`. */
  function TopBits(w: bv16, n: nat): seq<bool>
    decreases n
  {
    if n == 0 then [] else [TopBit(w)] + TopBits(w << 1, n - 1)
  }

  lemma {:induction false} StepEntersOneOne(c: bv16, w: bv16)
    requires w & 0x8000 != 0 && c & 0x8000 != 0
    ensures Step(c ^ w) == Step(c ^ 0x8000) ^ (w << 1)
  {
  }

  lemma {:induction false} StepEntersOneZero(c: bv16, w: bv16)
    requires w & 0x8000 != 0 && c & 0x8000 == 0
    ensures Step(c ^ w) == Step(c ^ 0x8000) ^ (w << 1)
  {
  }

  lemma {:induction false} StepEntersZeroOne(c: bv16, w: bv16)
    requires w & 0x8000 == 0 && c & 0x8000 != 0
    ensures Step(c ^ w) == Step(c) ^ (w << 1)
  {
  }

  lemma {:induction false} StepEntersZeroZero(c: bv16, w: bv16)
    requires w & 0x8000 == 0 && c & 0x8000 == 0
    ensures Step(c ^ w) == Step(c) ^ (w << 1)
  {
  }

  /** Entering a word at once and stepping is entering its top bit, stepping, and entering the rest. */
  lemma {:induction false} StepEnters(c: bv16, w: bv16)
    ensures Step(c ^ w) == Feed(c, TopBit(w)) ^ (w << 1)
  {
    if w & 0x8000 != 0 {
      if c & 0x8000 != 0 { StepEntersOneOne(c, w); } else { StepEntersOneZero(c, w); }
    } else {
      if c & 0x8000 != 0 { StepEntersZeroOne(c, w); } else { StepEntersZeroZero(c, w); }
    }
  }

  /** Entering a word at once and stepping `n` times against entering its top `n` bits one by one. */
  predicate WordAgrees(c: bv16, w: bv16, n: nat) {
    Steps(c ^ w, n) == CrcBits(c, TopBits(w, n)) ^ Shifted(w, n)
  }

  lemma {:induction false} StepsFeed(c: bv16, w: bv16, n: nat)
    ensures WordAgrees(c, w, n)
    decreases n
  {
    if n == 0 {
      WordAgreesNone(c, w);
    } else {
      StepsFeed(Feed(c, TopBit(w)), w << 1, n - 1);
      WordAgreesMore(c, w, n);
    }
  }

  lemma {:induction false} WordAgreesNone(c: bv16, w: bv16)
    ensures WordAgrees(c, w, 0)
  {
  }

  lemma {:induction false} WordAgreesMore(c: bv16, w: bv16, n: nat)
    requires n > 0 && WordAgrees(Feed(c, TopBit(w)), w << 1, n - 1)
    ensures WordAgrees(c, w, n)
  {
    StepEnters(c, w);
    FeedTopBits(c, w, n);
  }

  lemma {:induction false} FeedTopBits(c: bv16, w: bv16, n: nat)
    requires n > 0
    ensures CrcBits(c, TopBits(w, n)) == CrcBits(Feed(c, TopBit(w)), TopBits(w << 1, n - 1))
  {
  }

  lemma {:induction false} CrcBitsConcat(c: bv16, a: seq<bool>, b: seq<bool>)
    ensures CrcBits(c, a + b) == CrcBits(CrcBits(c, a), b)
    decreases |a|
  {
    if a == [] {
      assert a + b == b;
    } else {
      assert (a + b)[1..] == a[1..] + b;
      CrcBitsConcat(Feed(c, a[0]), a[1..], b);
    }
  }

  lemma {:induction false} CrcBitsInjective(x: bv16, y: bv16, bits: seq<bool>)
    requires CrcBits(x, bits) == CrcBits(y, bits)
    ensures x == y
    decreases |bits|
  {
    if bits != [] {
      CrcBitsInjective(Feed(x, bits[0]), Feed(y, bits[0]), bits[1..]);
      FeedInjective(x, y, bits[0]);
    }
  }

  // ---------------------------------------------------------------- a burst of at most sixteen bits

  /** The mask of the lowest `16 - n` bits. */
  function LowMask(n: nat): bv16
    requires n < 16
  {
    if n == 0 then 0xFFFF else if n == 1 then 0x7FFF else if n == 2 then 0x3FFF else if n == 3 then 0x1FFF
    else if n == 4 then 0x0FFF else if n == 5 then 0x07FF else if n == 6 then 0x03FF else if n == 7 then 0x01FF
    else if n == 8 then 0x00FF else if n == 9 then 0x007F else if n == 10 then 0x003F else if n == 11 then 0x001F
    else if n == 12 then 0x000F else if n == 13 then 0x0007 else if n == 14 then 0x0003 else 0x0001
  }

  predicate SameLow(x: bv16, y: bv16, m: bv16) {
    x & m == y & m
  }

  predicate OddMask(m: bv16) {
    m & 1 == 1
  }

  predicate HalfMask(h: bv16, m: bv16) {
    h == m >> 1
  }

  lemma {:induction false} FedLow(x: bv16, y: bv16, a: bool, b: bool, m: bv16, h: bv16)
    requires OddMask(m) && HalfMask(h, m) && SameLow(Feed(x, a), Feed(y, b), m)
    ensures SameLow(x, y, h)
  {
  }

  lemma {:induction false} LowMaskOdd(n: nat)
    requires n < 16
    ensures OddMask(LowMask(n))
  {
  }

  lemma {:induction false} LowMaskShift(n: nat)
    requires n < 15
    ensures HalfMask(LowMask(n + 1), LowMask(n))
  {
  }

  /** Registers that meet after `n` more bits already agreed on their lowest `16 - n` bits, whatever those bits were. */
  lemma {:induction false} MeetingRegisters(x: bv16, y: bv16, u: seq<bool>, v: seq<bool>)
    requires |u| == |v| < 16 && CrcBits(x, u) == CrcBits(y, v)
    ensures SameLow(x, y, LowMask(|u|))
    decreases |u|
  {
    hide Feed;
    hide LowMask;
    hide SameLow;
    if u == [] {
      SameIsSameLow(x, LowMask(0));
    } else {
      MeetingRegisters(Feed(x, u[0]), Feed(y, v[0]), u[1..], v[1..]);
      MeetingStep(x, y, u[0], v[0], |u|);
    }
  }

  lemma {:induction false} SameIsSameLow(x: bv16, m: bv16)
    ensures SameLow(x, x, m)
  {
  }

  lemma {:induction false} MeetingStep(x: bv16, y: bv16, a: bool, b: bool, n: nat)
    requires 0 < n < 16 && SameLow(Feed(x, a), Feed(y, b), LowMask(n - 1))
    ensures SameLow(x, y, LowMask(n))
  {
    hide Feed;
    hide LowMask;
    hide SameLow;
    hide OddMask;
    hide HalfMask;
    LowMaskOdd(n - 1);
    LowMaskShift(n - 1);
    FedLow(x, y, a, b, LowMask(n - 1), LowMask(n));
  }

  /** The lowest bit after a step is the bit that was carried out. */
  predicate LowIs(f: bv16, carried: bool) {
    (f & 1 != 0) == carried
  }

  lemma {:induction false} FedLowest(x: bv16, bit: bool)
    ensures LowIs(Feed(x, bit), (x & 0x8000 != 0) != bit)
  {
  }

  lemma {:induction false} LowestInLow(f: bv16, g: bv16, m: bv16, p: bool)
    requires OddMask(m) && SameLow(f, g, m) && LowIs(f, p)
    ensures LowIs(g, p)
  {
  }

  lemma {:induction false} FeedsDiffer(x: bv16, m: bv16)
    requires OddMask(m)
    ensures !SameLow(Feed(x, true), Feed(x, false), m)
  {
    FedLowest(x, true);
    FedLowest(x, false);
    hide Feed;
    hide SameLow;
    hide OddMask;
    hide LowIs;
    if SameLow(Feed(x, true), Feed(x, false), m) {
      LowestInLow(Feed(x, true), Feed(x, false), m, (x & 0x8000 != 0) != true);
      NotBoth(Feed(x, false), x & 0x8000 != 0);
    }
  }

  lemma {:induction false} NotBoth(f: bv16, p: bool)
    ensures !(LowIs(f, p) && LowIs(f, !p))
  {
  }

  /** Two different strings of at most sixteen bits never lead from one register to the same register. */
  lemma {:induction false} ShortBurst(x: bv16, u: seq<bool>, v: seq<bool>)
    requires |u| == |v| <= 16 && u != v
    ensures CrcBits(x, u) != CrcBits(x, v)
    decreases |u|
  {
    if u[0] == v[0] {
      assert u == [u[0]] + u[1..] && v == [v[0]] + v[1..];
      ShortBurst(Feed(x, u[0]), u[1..], v[1..]);
    } else if CrcBits(x, u) == CrcBits(x, v) {
      var m := LowMask(|u| - 1);
      MeetingRegisters(Feed(x, u[0]), Feed(x, v[0]), u[1..], v[1..]);
      FeedsDiffer(x, m);
      assert false;
    }
  }

  // ---------------------------------------------------------------- parity

  predicate Odd4(a: bool, b: bool, c: bool, d: bool) {
    (a != b) != (c != d)
  }

  predicate Odd16(c: bv16) {
    Odd4(
      Odd4(c & 0x8000 != 0, c & 0x4000 != 0, c & 0x2000 != 0, c & 0x1000 != 0),
      Odd4(c & 0x0800 != 0, c & 0x0400 != 0, c & 0x0200 != 0, c & 0x0100 != 0),
      Odd4(c & 0x0080 != 0, c & 0x0040 != 0, c & 0x0020 != 0, c & 0x0010 != 0),
      Odd4(c & 0x0008 != 0, c & 0x0004 != 0, c & 0x0002 != 0, c & 0x0001 != 0))
  }

  /** Whether an odd number of bits is set. */
  predicate Parity(c: bv16) {
    Odd16(c)
  }

  lemma {:induction false} StepParityOne(c: bv16, s: bv16)
    requires c & 0x8000 != 0 && s == c << 1
    ensures Parity(s ^ 0x1021) == Parity(c)
  {
  }

  lemma {:induction false} StepParityZero(c: bv16, s: bv16)
    requires c & 0x8000 == 0 && s == c << 1
    ensures Parity(s) == Parity(c)
  {
  }

  /** Two bits of the generator and the top bit cancel: a step never changes the parity. */
  lemma {:induction false} StepParity(c: bv16)
    ensures Parity(Step(c)) == Parity(c)
  {
    if c & 0x8000 != 0 {
      StepParityOne(c, c << 1);
    } else {
      StepParityZero(c, c << 1);
    }
  }

  lemma {:induction false} FlipParity(c: bv16)
    ensures Parity(c ^ 0x8000) == !Parity(c)
  {
  }

  predicate OddlyMany(bits: seq<bool>) {
    bits != [] && (bits[0] != OddlyMany(bits[1..]))
  }

  lemma {:induction false} FeedParity(c: bv16, bit: bool)
    ensures Parity(Feed(c, bit)) == (Parity(c) != bit)
  {
    StepParity(Entered(c, bit));
    FlipParity(c);
  }

  /** The generator has the factor x + 1, so the parity of the CRC is the parity of the message. */
  lemma {:induction false} ParityFollowsMessage(c: bv16, bits: seq<bool>)
    ensures Parity(CrcBits(c, bits)) == (Parity(c) != OddlyMany(bits))
    decreases |bits|
  {
    if bits != [] {
      FeedParity(c, bits[0]);
      ParityFollowsMessage(Feed(c, bits[0]), bits[1..]);
    }
  }
}
