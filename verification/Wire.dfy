/** Identifiers and tail bytes as the numbers they are on the bus, field by field at its place. */
module Wire {
  import opened Types
  import opened CanId
  import opened Fragment
  import opened Receiver
  import opened Words

  // ---------------------------------------------------------------- the tail byte

  lemma {:induction false} StartReads(t: byte)
    ensures IsStart(t) <==> t as nat >= 128
  {
  }

  lemma {:induction false} EndReads(t: byte)
    ensures IsEnd(t) <==> t as nat / 64 % 2 == 1
  {
  }

  lemma {:induction false} ToggleReads(t: byte)
    ensures Toggle(t) <==> t as nat / 32 % 2 == 1
  {
  }

  lemma {:induction false} LowFive(t: byte)
    ensures (t & 0x1F) as nat == t as nat % 32
  {
  }

  lemma {:induction false} TidIsLowFive(t: byte)
    ensures TransferIdOf(t) == t & 0x1F
  {
  }

  /** What a receiver takes for start, end, toggle and transfer ID. */
  lemma {:induction false} TailReads(t: byte)
    ensures IsStart(t) <==> t as nat >= 128
    ensures IsEnd(t) <==> t as nat / 64 % 2 == 1
    ensures Toggle(t) <==> t as nat / 32 % 2 == 1
    ensures TransferIdOf(t) as nat == t as nat % 32
  {
    hide *;
    StartReads(t);
    EndReads(t);
    ToggleReads(t);
    LowFive(t);
    TidIsLowFive(t);
  }

  /** Start, end, toggle and transfer ID, from the most significant bit down. */
  lemma {:induction false} TailNumber(start: bool, end: bool, toggle: bool, tid: byte)
    ensures TailByte(start, end, toggle, tid) as nat
         == 128 * Bit(start) + 64 * Bit(end) + 32 * Bit(toggle) + tid as nat % 32
  {
    hide *;
    var t := TailByte(start, end, toggle, tid);
    FieldsOfTail(start, end, toggle, tid);
    TailReads(t);
    TailReads(tid);
    ByteFits(t);
    TailSum(t as nat, start, end, toggle);
  }

  lemma {:induction false} FieldsOfTail(start: bool, end: bool, toggle: bool, tid: byte)
    ensures var t := TailByte(start, end, toggle, tid);
      && IsStart(t) == start && IsEnd(t) == end && Toggle(t) == toggle && TransferIdOf(t) == TransferIdOf(tid)
  {
  }

  lemma {:induction false} TailSum(t: nat, start: bool, end: bool, toggle: bool)
    requires t < 256 && (start <==> t >= 128) && (end <==> t / 64 % 2 == 1) && (toggle <==> t / 32 % 2 == 1)
    ensures t == 128 * Bit(start) + 64 * Bit(end) + 32 * Bit(toggle) + t % 32
  {
  }

  // ---------------------------------------------------------------- the transfer CRC in the first frame

  lemma {:induction false} CrcPair(crc: bv16)
    ensures var s := CrcBytes(crc); |s| == 2 && crc == Word16(s[1], s[0])
  {
  }

  /** The CRC comes first, low byte first. */
  lemma {:induction false} CrcBytesNumber(crc: bv16)
    ensures var s := CrcBytes(crc); |s| == 2 && s[0] as nat + 256 * s[1] as nat == crc as nat
  {
    hide *;
    CrcPair(crc);
    Number16(CrcBytes(crc)[1], CrcBytes(crc)[0]);
  }

  lemma {:induction false} CarriedPair(f: Frame)
    requires |f.data| >= 2
    ensures CarriedCrc(f) == Word16(f.data[1], f.data[0])
  {
  }

  lemma {:induction false} CarriedCrcNumber(f: Frame)
    requires |f.data| >= 2
    ensures CarriedCrc(f) as nat == f.data[0] as nat + 256 * f.data[1] as nat
  {
    hide *;
    CarriedPair(f);
    Number16(f.data[1], f.data[0]);
  }

  /** The first frame of a long transfer, byte by byte. */
  lemma {:induction false} FirstFrameBytes(id: bv32, tid: byte, crc: bv16, payload: seq<byte>)
    requires |payload| >= 8
    ensures var f := Frames(id, tid, crc, payload)[0];
      && f.id == id && |f.data| == 8 && f.data[0] as nat + 256 * f.data[1] as nat == crc as nat
      && f.data[2..7] == payload[..5] && f.data[7] as nat == 128 + tid as nat % 32
  {
    hide TailByte;
    hide CrcBytes;
    CrcBytesNumber(crc);
    TailNumber(true, false, false, tid);
  }

  // ---------------------------------------------------------------- what a sender puts into an identifier

  function Flagged(b: byte): byte {
    b | 0x80
  }

  lemma {:induction false} FlaggedNumber(b: byte)
    requires b < 128
    ensures Flagged(b) as nat == b as nat + 128
  {
  }

  lemma {:induction false} PriorityFlagged(priority: byte)
    requires priority < 32
    ensures Flagged(priority) as nat == priority as nat + 128
  {
    FlaggedNumber(priority);
  }

  lemma {:induction false} MessageWord(priority: byte, dtid: bv16, node: byte)
    requires priority < 32
    ensures MessageId(priority, dtid, node) | EFF == Word32(Flagged(priority), High(dtid), Low(dtid), node)
  {
  }

  lemma {:induction false} MessageParts(priority: byte, dtid: bv16, node: byte, id: bv32)
    requires priority < 32 && id == Word32(Flagged(priority), High(dtid), Low(dtid), node)
    ensures id as nat == 0x8000_0000 + priority as nat * 0x100_0000 + dtid as nat * 0x100 + node as nat
  {
    hide *;
    PairNumber(dtid);
    PriorityFlagged(priority);
    Number32(Flagged(priority), High(dtid), Low(dtid), node);
  }

  /** A message: the extended-frame flag, five bits of priority, sixteen of data type, a zero bit and seven of source.
      */
  lemma {:induction false} MessageNumber(priority: byte, dtid: bv16, node: byte)
    requires priority < 32
    ensures (MessageId(priority, dtid, node) | EFF) as nat
         == 0x8000_0000 + priority as nat * 0x100_0000 + dtid as nat * 0x100 + node as nat
  {
    hide *;
    MessageWord(priority, dtid, node);
    MessageParts(priority, dtid, node, MessageId(priority, dtid, node) | EFF);
  }

  function Third(request: bool, destination: byte): byte {
    (if request then 0x80 else 0) | destination
  }

  lemma {:induction false} ServiceWord(priority: byte, dtid: byte, request: bool, destination: byte, node: byte)
    requires priority < 32 && destination < 128
    ensures ServiceId(priority, dtid, request, destination, node) | EFF
         == Word32(Flagged(priority), dtid, Third(request, destination), Flagged(node))
  {
  }

  lemma {:induction false} ServiceParts(priority: byte, dtid: byte, request: bool, destination: byte, node: byte,
                                        id: bv32)
    requires priority < 32 && destination < 128 && node < 128
    requires id == Word32(Flagged(priority), dtid, Third(request, destination), Flagged(node))
    ensures id as nat == 0x8000_0000 + priority as nat * 0x100_0000 + dtid as nat * 0x1_0000 + Bit(request) * 0x8000
                         + destination as nat * 0x100 + 0x80 + node as nat
  {
    hide *;
    ThirdNumber(request, destination);
    PriorityFlagged(priority);
    FlaggedNumber(node);
    Number32(Flagged(priority), dtid, Third(request, destination), Flagged(node));
  }

  lemma {:induction false} ThirdNumber(request: bool, destination: byte)
    requires destination < 128
    ensures Third(request, destination) as nat == 128 * Bit(request) + destination as nat
  {
  }

  /** A service: priority, eight bits of data type, the request bit, seven of destination, a one bit, seven of
      source. */
  lemma {:induction false} ServiceNumber(priority: byte, dtid: byte, request: bool, destination: byte, node: byte)
    requires priority < 32 && destination < 128 && node < 128
    ensures (ServiceId(priority, dtid, request, destination, node) | EFF) as nat
         == 0x8000_0000 + priority as nat * 0x100_0000 + dtid as nat * 0x1_0000 + Bit(request) * 0x8000
            + destination as nat * 0x100 + 0x80 + node as nat
  {
    hide *;
    ServiceWord(priority, dtid, request, destination, node);
    ServiceParts(priority, dtid, request, destination, node,
                 ServiceId(priority, dtid, request, destination, node) | EFF);
  }

  /** Bits 7 to 14 of a CRC, and bits 1 to 6 before two bits of data type. */
  function UpperBits(high: byte, low: byte): byte {
    (high << 1) | (low >> 7)
  }

  function LowerBits(low: byte, dtid: byte): byte {
    ((low & 0x7E) << 1) | (dtid & 3)
  }

  function NoSource(): byte {
    0
  }

  lemma {:induction false} AnonymousWord(priority: byte, dtid: bv16, crc: bv16)
    requires priority < 32
    ensures AnonymousId(priority, dtid, crc & 0x7FFE) | EFF
         == Word32(Flagged(priority), UpperBits(High(crc), Low(crc)), LowerBits(Low(crc), Low(dtid)), NoSource())
  {
  }

  lemma {:induction false} Upward(h: byte)
    ensures (h << 1) as nat == h as nat % 128 * 2
  {
  }

  lemma {:induction false} TopOne(l: byte)
    ensures (l >> 7) as nat == l as nat / 128
  {
  }

  lemma {:induction false} Beside(a: byte, b: byte, m: byte)
    requires m == 1 || m == 3
    requires a & m == 0 && b <= m
    ensures (a | b) as nat == a as nat + b as nat
  {
  }

  lemma {:induction false} EvenAndOne(h: byte, l: byte)
    ensures (h << 1) & 1 == 0 && l >> 7 <= 1 && UpperBits(h, l) == (h << 1) | (l >> 7)
  {
  }

  lemma {:induction false} UpperNumber(h: byte, l: byte)
    ensures UpperBits(h, l) as nat == h as nat % 128 * 2 + l as nat / 128
  {
    hide *;
    EvenAndOne(h, l);
    Upward(h);
    TopOne(l);
    Beside(h << 1, l >> 7, 1);
  }

  lemma {:induction false} Half(l: byte)
    ensures (l >> 1) as nat == l as nat / 2
  {
  }

  lemma {:induction false} LowSix(x: byte)
    ensures (x & 0x3F) as nat == x as nat % 64
  {
  }

  lemma {:induction false} TwiceUpward(y: byte)
    requires y < 64
    ensures (y << 2) as nat == y as nat * 4
  {
  }

  lemma {:induction false} SixBits(l: byte, x: byte, y: byte)
    requires x == l >> 1 && y == x & 0x3F
    ensures (l & 0x7E) << 1 == y << 2 && y < 64
  {
  }

  lemma {:induction false} SixUpward(l: byte)
    ensures ((l & 0x7E) << 1) as nat == l as nat / 2 % 64 * 4
  {
    hide *;
    Half(l);
    LowSix(l >> 1);
    SixBits(l, l >> 1, (l >> 1) & 0x3F);
    TwiceUpward((l >> 1) & 0x3F);
  }

  lemma {:induction false} LastTwo(t: byte)
    ensures (t & 3) as nat == t as nat % 4
  {
  }

  lemma {:induction false} FourAndThree(l: byte, t: byte)
    ensures ((l & 0x7E) << 1) & 3 == 0 && t & 3 <= 3 && LowerBits(l, t) == ((l & 0x7E) << 1) | (t & 3)
  {
  }

  lemma {:induction false} LowerNumber(l: byte, t: byte)
    ensures LowerBits(l, t) as nat == l as nat / 2 % 64 * 4 + t as nat % 4
  {
    hide *;
    FourAndThree(l, t);
    SixUpward(l);
    LastTwo(t);
    Beside((l & 0x7E) << 1, t & 3, 3);
  }

  lemma {:induction false} Discriminator(crc: nat, h: nat, l: nat)
    requires crc == h * 0x100 + l && l < 0x100 && h < 0x100
    ensures crc / 2 % 0x4000 == (h % 128 * 2 + l / 128) * 64 + l / 2 % 64
  {
    var y := h % 128 * 128 + l / 128 * 64 + l / 2 % 64;
    InThree(l);
    assert h == h / 128 * 128 + h % 128;
    EvenPart(crc, h / 128, y, l % 2);
  }

  lemma {:induction false} InThree(l: nat)
    ensures l == l / 128 * 128 + l / 2 % 64 * 2 + l % 2
  {
  }

  lemma {:induction false} EvenPart(crc: nat, k: nat, y: nat, b: nat)
    requires crc == k * 0x8000 + y * 2 + b && b < 2 && y < 0x4000
    ensures crc / 2 % 0x4000 == y
  {
    assert crc / 2 == k * 0x4000 + y;
  }

  lemma {:induction false} DiscriminatorNumber(crc: bv16)
    ensures crc as nat / 2 % 0x4000 == UpperBits(High(crc), Low(crc)) as nat * 64 + Low(crc) as nat / 2 % 64
  {
    hide *;
    PairNumber(crc);
    UpperNumber(High(crc), Low(crc));
    Discriminator(crc as nat, High(crc) as nat, Low(crc) as nat);
  }

  lemma {:induction false} LowTwo(dtid: nat, u: nat, t: nat)
    requires dtid == u * 0x100 + t
    ensures dtid % 4 == t % 4
  {
  }

  lemma {:induction false} TypeBits(dtid: bv16)
    ensures Low(dtid) as nat % 4 == dtid as nat % 4
  {
    hide *;
    PairNumber(dtid);
    LowTwo(dtid as nat, High(dtid) as nat, Low(dtid) as nat);
  }

  lemma {:induction false} NoSourceNumber()
    ensures NoSource() as nat == 0
  {
  }

  lemma {:induction false} AnonymousParts(priority: byte, dtid: bv16, crc: bv16, id: bv32)
    requires priority < 32
    requires id == Word32(Flagged(priority), UpperBits(High(crc), Low(crc)), LowerBits(Low(crc), Low(dtid)), NoSource())
    ensures id as nat == 0x8000_0000 + priority as nat * 0x100_0000 + crc as nat / 2 % 0x4000 * 0x400
                         + dtid as nat % 4 * 0x100
  {
    hide *;
    DiscriminatorNumber(crc);
    TypeBits(dtid);
    NoSourceNumber();
    PriorityFlagged(priority);
    LowerNumber(Low(crc), Low(dtid));
    Number32(Flagged(priority), UpperBits(High(crc), Low(crc)), LowerBits(Low(crc), Low(dtid)), NoSource());
  }

  /** An anonymous message: priority, fourteen bits of CRC for a discriminator, two of data type, source zero. */
  lemma {:induction false} AnonymousNumber(priority: byte, dtid: bv16, crc: bv16)
    requires priority < 32
    ensures (AnonymousId(priority, dtid, crc & 0x7FFE) | EFF) as nat
         == 0x8000_0000 + priority as nat * 0x100_0000 + crc as nat / 2 % 0x4000 * 0x400 + dtid as nat % 4 * 0x100
  {
    hide *;
    AnonymousWord(priority, dtid, crc);
    AnonymousParts(priority, dtid, crc, AnonymousId(priority, dtid, crc & 0x7FFE) | EFF);
  }

  // ---------------------------------------------------------------- what a receiver takes from an identifier

  function SevenBits(t: byte): byte {
    t & 0x7F
  }

  function TwoBits(t: byte): byte {
    t & 3
  }

  predicate NoneOfSeven(t: byte) {
    SevenBits(t) == 0
  }

  function Short(t: byte): bv16 {
    Word16(0, t)
  }

  lemma {:induction false} ShortNumber(t: byte)
    ensures Short(t) as nat == t as nat
  {
    Joined16(0, t, Short(t));
  }

  lemma {:induction false} NoneNumber(t: byte)
    ensures NoneOfSeven(t) <==> t as nat % 128 == 0
  {
  }

  /** The fields of an identifier in its four bytes. */
  lemma {:induction false} BytesRead(id: bv32)
    ensures var q := BytesOf(id);
      && SourceOf(id) == SevenBits(q.d) && DestinationOf(id) == SevenBits(q.c) && PriorityOf(id) == TransferIdOf(q.a)
  {
  }

  lemma {:induction false} TypeRead(id: bv32)
    ensures var q := BytesOf(id);
      TypeOf(id) == if !IsStart(q.d) then Broadcast else if IsStart(q.c) then Request else Response
  {
  }

  lemma {:induction false} DataTypeRead(id: bv32)
    ensures var q := BytesOf(id);
      DataTypeOf(id) == if IsStart(q.d) then Short(q.b)
                        else if NoneOfSeven(q.d) then Short(TwoBits(q.c)) else Word16(q.b, q.c)
  {
  }

  lemma {:induction false} FlagsRead(id: bv32)
    ensures var q := BytesOf(id);
      (id & EFF != 0 <==> IsStart(q.a)) && (id & RTR != 0 <==> IsEnd(q.a)) && (id & ERR != 0 <==> Toggle(q.a))
  {
  }

  lemma {:induction false} LowSeven(t: byte)
    ensures SevenBits(t) as nat == t as nat % 128
  {
  }

  lemma {:induction false} LowTwoBits(t: byte)
    ensures TwoBits(t) as nat == t as nat % 4
  {
  }

  /** A number of four bytes. */
  lemma {:induction false} InFour(n: nat, a: nat, b: nat, c: nat, d: nat)
    requires n == a * 0x100_0000 + b * 0x1_0000 + c * 0x100 + d && a < 256 && b < 256 && c < 256 && d < 256
    ensures n / 0x100_0000 == a && n / 0x1_0000 == a * 0x100 + b && n / 0x100 == a * 0x1_0000 + b * 0x100 + c
  {
  }

  lemma {:induction false} LastByte(n: nat, a: nat, b: nat, c: nat, d: nat)
    requires n == a * 0x100_0000 + b * 0x1_0000 + c * 0x100 + d && a < 256 && b < 256 && c < 256 && d < 256
    ensures n % 0x80 == d % 0x80 && n / 0x80 % 2 == d / 0x80
    ensures n / 0x100 % 0x80 == c % 0x80 && n / 0x8000 % 2 == c / 0x80
    ensures n / 0x100 % 4 == c % 4 && n / 0x100 % 0x1_0000 == b * 0x100 + c && n / 0x1_0000 % 0x100 == b
  {
    InFour(n, a, b, c, d);
    Ending(n, a * 0x1_0000 + b * 0x100 + c, d);
    Ending(n / 0x100, a * 0x100 + b, c);
    assert n / 0x8000 == n / 0x100 / 0x80;
    assert n / 0x100 == a * 0x1_0000 + (b * 0x100 + c);
    assert n / 0x1_0000 == a * 0x100 + b;
  }

  lemma {:induction false} Ending(n: nat, x: nat, c: nat)
    requires n == x * 0x100 + c && c < 256
    ensures n % 0x80 == c % 0x80 && n / 0x80 % 2 == c / 0x80 && n % 4 == c % 4
  {
    var y, r := c / 0x80, c % 0x80;
    assert n == (x * 2 + y) * 0x80 + r;
    assert n / 0x80 == x * 2 + y;
    LowTwo(n, x, c);
  }

  lemma {:induction false} FirstByte(n: nat, a: nat, rest: nat)
    requires n == a * 0x100_0000 + rest && rest < 0x100_0000 && a < 256
    ensures n / 0x100_0000 % 32 == a % 32 && n / 0x8000_0000 == a / 0x80
    ensures n / 0x4000_0000 % 2 == a / 0x40 % 2 && n / 0x2000_0000 % 2 == a / 0x20 % 2
  {
    assert n / 0x100_0000 == a;
    assert n == a / 0x80 * 0x8000_0000 + (a % 0x80 * 0x100_0000 + rest);
    assert n == a / 0x40 * 0x4000_0000 + (a % 0x40 * 0x100_0000 + rest);
    assert n == a / 0x20 * 0x2000_0000 + (a % 0x20 * 0x100_0000 + rest);
  }

  lemma {:induction false} LowParts(id: bv32)
    ensures var n, q := id as nat, BytesOf(id);
      && n % 0x80 == q.d as nat % 0x80 && n / 0x80 % 2 == q.d as nat / 0x80
      && n / 0x100 % 0x80 == q.c as nat % 0x80 && n / 0x8000 % 2 == q.c as nat / 0x80
      && n / 0x100 % 4 == q.c as nat % 4 && n / 0x100 % 0x1_0000 == q.b as nat * 0x100 + q.c as nat
      && n / 0x1_0000 % 0x100 == q.b as nat && q.c as nat < 0x100 && q.d as nat < 0x100
  {
    hide *;
    var q := BytesOf(id);
    BytesNumber(id);
    ByteFits(q.a);
    ByteFits(q.b);
    ByteFits(q.c);
    ByteFits(q.d);
    LastByte(id as nat, q.a as nat, q.b as nat, q.c as nat, q.d as nat);
  }

  lemma {:induction false} HighParts(id: bv32)
    ensures var n, q := id as nat, BytesOf(id);
      && n / 0x100_0000 % 32 == q.a as nat % 32 && n / 0x8000_0000 == q.a as nat / 0x80
      && n / 0x4000_0000 % 2 == q.a as nat / 0x40 % 2 && n / 0x2000_0000 % 2 == q.a as nat / 0x20 % 2
      && q.a as nat < 0x100
  {
    hide *;
    var q := BytesOf(id);
    BytesNumber(id);
    ByteFits(q.a);
    ByteFits(q.b);
    ByteFits(q.c);
    ByteFits(q.d);
    FirstByte(id as nat, q.a as nat, q.b as nat * 0x1_0000 + q.c as nat * 0x100 + q.d as nat);
  }

  /** Source, destination, priority and kind of a received frame, in terms of the number that its identifier is. */
  lemma {:induction false} IdReads(id: bv32)
    ensures var n := id as nat;
      && SourceOf(id) as nat == n % 0x80 && DestinationOf(id) as nat == n / 0x100 % 0x80
      && PriorityOf(id) as nat == n / 0x100_0000 % 32
      && (TypeOf(id) == Broadcast <==> n / 0x80 % 2 == 0)
      && (TypeOf(id) == Request <==> n / 0x80 % 2 == 1 && n / 0x8000 % 2 == 1)
  {
    hide *;
    var q := BytesOf(id);
    LowParts(id);
    HighParts(id);
    BytesRead(id);
    LowSeven(q.d);
    LowSeven(q.c);
    TailReads(q.a);
    TypeRead(id);
    StartReads(q.d);
    StartReads(q.c);
  }

  /** The data type of a received frame: sixteen bits for a message, of which an anonymous one has two, eight for a
      service. */
  lemma {:induction false} DataTypeReads(id: bv32)
    ensures var n := id as nat;
      DataTypeOf(id) as nat == if n / 0x80 % 2 == 1 then n / 0x1_0000 % 0x100
                               else if n % 0x80 == 0 then n / 0x100 % 4 else n / 0x100 % 0x1_0000
  {
    hide *;
    var q := BytesOf(id);
    LowParts(id);
    DataTypeBytes(id);
  }

  lemma {:induction false} DataTypeBytes(id: bv32)
    ensures var q := BytesOf(id);
      DataTypeOf(id) as nat == if q.d as nat >= 128 then q.b as nat
                               else if q.d as nat % 128 == 0 then q.c as nat % 4 else q.b as nat * 0x100 + q.c as nat
  {
    hide *;
    var q := BytesOf(id);
    StartReads(q.d);
    NoneNumber(q.d);
    LowTwoBits(q.c);
    DataTypeRead(id);
    ShortNumber(q.b);
    ShortNumber(TwoBits(q.c));
    Number16(q.b, q.c);
  }

  /** The three flags above the identifier bits. */
  lemma {:induction false} FlagReads(id: bv32)
    ensures var n := id as nat;
      && (id & EFF != 0 <==> n / 0x8000_0000 == 1) && (id & RTR != 0 <==> n / 0x4000_0000 % 2 == 1)
      && (id & ERR != 0 <==> n / 0x2000_0000 % 2 == 1)
  {
    hide *;
    var q := BytesOf(id);
    HighParts(id);
    FlagsRead(id);
    StartReads(q.a);
    EndReads(q.a);
    ToggleReads(q.a);
  }

  // ---------------------------------------------------------------- which frames share a state

  /** The fields by which the receiver keeps transfers apart: data type, kind and source, and for a service the
      destination. */
  predicate SameTransfers(a: bv32, b: bv32) {
    && DataTypeOf(a) == DataTypeOf(b) && TypeOf(a) == TypeOf(b) && SourceOf(a) == SourceOf(b)
    && AddresseeOf(a) == AddresseeOf(b)
  }

  lemma {:induction false} SmallFields(id: bv32)
    ensures SourceOf(id) < 128 && AddresseeOf(id) < 128
  {
    hide TypeOf;
  }

  lemma {:induction false} DescriptorsSame(a: bv32, b: bv32)
    ensures DescriptorOf(a) == DescriptorOf(b) <==> SameTransfers(a, b)
  {
    SmallFields(a);
    SmallFields(b);
    hide DataTypeOf;
    hide TypeOf;
    hide SourceOf;
    hide AddresseeOf;
    hide MakeDescriptor;
    if DescriptorOf(a) == DescriptorOf(b) {
      DescriptorInjective(Fields(DataTypeOf(a), TypeOf(a), SourceOf(a), AddresseeOf(a)),
                          Fields(DataTypeOf(b), TypeOf(b), SourceOf(b), AddresseeOf(b)));
    }
  }

  lemma {:induction false} AddresseeNumber(id: bv32)
    ensures AddresseeOf(id) as nat == if id as nat / 0x80 % 2 == 0 then 0 else id as nat / 0x100 % 0x80
  {
    hide TypeOf;
    hide DestinationOf;
    IdReads(id);
  }

  function DataTypeNumber(n: nat): nat {
    if n / 0x80 % 2 == 1 then n / 0x1_0000 % 0x100 else if n % 0x80 == 0 then n / 0x100 % 4 else n / 0x100 % 0x1_0000
  }

  /** The same of the numbers that the identifiers are: source, service bit and data type, and for a service the request
      bit and the destination. */
  predicate SameNumbers(m: nat, n: nat) {
    && m % 0x80 == n % 0x80 && m / 0x80 % 2 == n / 0x80 % 2 && DataTypeNumber(m) == DataTypeNumber(n)
    && (m / 0x80 % 2 == 1 ==> m / 0x8000 % 2 == n / 0x8000 % 2 && m / 0x100 % 0x80 == n / 0x100 % 0x80)
  }

  lemma {:induction false} KindNumbers(a: bv32, b: bv32)
    ensures var m, n := a as nat, b as nat;
      TypeOf(a) == TypeOf(b) <==>
        m / 0x80 % 2 == n / 0x80 % 2 && (m / 0x80 % 2 == 1 ==> m / 0x8000 % 2 == n / 0x8000 % 2)
  {
    hide *;
    IdReads(a);
    IdReads(b);
  }

  lemma {:induction false} DataTypeNumbers(id: bv32)
    ensures DataTypeOf(id) as nat == DataTypeNumber(id as nat)
  {
    hide DataTypeOf;
    DataTypeReads(id);
  }

  lemma {:induction false} SameExactly(a: bv32, b: bv32)
    ensures SameTransfers(a, b) <==> SameNumbers(a as nat, b as nat)
  {
    DataTypeNumbers(a);
    DataTypeNumbers(b);
    WordNumbers(DataTypeOf(a), DataTypeOf(b));
    KindNumbers(a, b);
    IdReads(a);
    IdReads(b);
    ByteNumbers(SourceOf(a), SourceOf(b));
    AddresseeNumber(a);
    AddresseeNumber(b);
    ByteNumbers(AddresseeOf(a), AddresseeOf(b));
    hide DataTypeOf;
    hide TypeOf;
    hide SourceOf;
    hide AddresseeOf;
    hide DestinationOf;
    hide PriorityOf;
    hide DataTypeNumber;
  }

  /** Two frames share a descriptor, and with it a receive state, exactly if these numbers agree. */
  lemma {:induction false} DescriptorsExactly(a: bv32, b: bv32)
    ensures DescriptorOf(a) == DescriptorOf(b) <==> SameNumbers(a as nat, b as nat)
  {
    hide *;
    DescriptorsSame(a, b);
    SameExactly(a, b);
  }
}
