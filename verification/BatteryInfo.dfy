/** The BatteryInfo message: fixed fields of 23 bytes, then a name whose length only the size of the transfer tells. */
module BatteryInfo {
  import opened Types
  import opened Receiver
  import opened Descatter
  import opened Scalar
  import opened Dsdl

  const MAX_SIZE := 55
  const FIXED_SIZE := 23
  const NAME_CAPACITY := 31
  const SIGNATURE: bv64 := 0x249C26548A711966
  const DATA_TYPE_ID: bv16 := 1092

  /** Floating point fields are carried as their sixteen-bit codes. */
  datatype Info = Info(temperature: int, voltage: int, current: int, averagePower: int, remainingCapacity: int,
                       fullChargeCapacity: int, hoursToFullCharge: int, statusFlags: int, stateOfHealth: int,
                       stateOfCharge: int, stateOfChargeStdev: int, batteryId: int, modelInstanceId: int,
                       nameLength: nat, name: seq<byte>)

  /** The name array has 31 places. */
  predicate Proper(m: Info) {
    |m.name| == NAME_CAPACITY && m.nameLength <= NAME_CAPACITY
  }

  predicate Code(x: int) {
    0 <= x < 0x1_0000
  }

  predicate InRange(m: Info) {
    && Proper(m)
    && Code(m.temperature) && Code(m.voltage) && Code(m.current) && Code(m.averagePower) && Code(m.remainingCapacity)
    && Code(m.fullChargeCapacity) && Code(m.hoursToFullCharge)
    && 0 <= m.statusFlags < 2048 && 0 <= m.stateOfHealth < 128 && 0 <= m.stateOfCharge < 128
       && 0 <= m.stateOfChargeStdev < 128
    && 0 <= m.batteryId < 256 && 0 <= m.modelInstanceId < 0x1_0000_0000
  }

  function FixedItems(m: Info): (r: seq<Item>)
    ensures |r| == 13
  {
    [Item(16, m.temperature), Item(16, m.voltage), Item(16, m.current), Item(16, m.averagePower),
     Item(16, m.remainingCapacity), Item(16, m.fullChargeCapacity), Item(16, m.hoursToFullCharge),
     Item(11, m.statusFlags), Item(7, m.stateOfHealth), Item(7, m.stateOfCharge), Item(7, m.stateOfChargeStdev),
     Item(8, m.batteryId), Item(32, m.modelInstanceId)]
  }

  function NameItems(name: seq<byte>): (r: seq<Item>)
    ensures |r| == |name| && forall k | 0 <= k < |name| :: r[k] == Item(8, name[k] as int)
  {
    seq(|name|, k requires 0 <= k < |name| => Item(8, name[k] as int))
  }

  function Items(m: Info): (r: seq<Item>)
    requires Proper(m)
    ensures |r| == 13 + m.nameLength
  {
    FixedItems(m) + NameItems(m.name[..m.nameLength])
  }

  /** Where the fixed fields begin. */
  function FixedOffset(k: nat): nat
    requires k <= 13
  {
    if k <= 7 then 16 * k else if k == 8 then 123 else if k == 9 then 130 else if k == 10 then 137
    else if k == 11 then 144 else if k == 12 then 152 else 184
  }

  lemma {:induction false} FixedOffsets(m: Info, k: nat)
    requires Proper(m) && k <= 13
    ensures OffsetOf(Items(m), k) == FixedOffset(k)
  {
    if k > 0 {
      FixedOffsets(m, k - 1);
      assert Items(m)[k - 1] == FixedItems(m)[k - 1];
    }
  }

  lemma {:induction false} NameOffsets(m: Info, i: nat)
    requires Proper(m) && i <= m.nameLength
    ensures OffsetOf(Items(m), 13 + i) == 184 + 8 * i
  {
    if i == 0 {
      FixedOffsets(m, 13);
    } else {
      NameOffsets(m, i - 1);
    }
  }

  // ---------------------------------------------------------------- encoding

  lemma {:induction false} AllFixed(m: Info)
    requires Proper(m)
    ensures forall k | 0 <= k <= 13 :: OffsetOf(Items(m), k) == FixedOffset(k)
    ensures forall k | 0 <= k < 13 :: Items(m)[k] == FixedItems(m)[k]
  {
    forall k | 0 <= k <= 13 ensures OffsetOf(Items(m), k) == FixedOffset(k) {
      FixedOffsets(m, k);
    }
  }

  method EncodeCodes(m: Info, buffer: array<byte>, bigEndian: bool) returns (bitOfs: nat)
    requires Proper(m) && buffer.Length >= MAX_SIZE
    modifies buffer
    ensures bitOfs == 112 && Filled(buffer[..], Items(m), 7) && buffer[MAX_SIZE..] == old(buffer[MAX_SIZE..])
  {
    ghost var items := Items(m);
    AllFixed(m);
    hide FieldIs;
    hide OffsetOf;
    hide Items;
    bitOfs := 0;
    bitOfs := Put(buffer, bitOfs, 16, m.temperature, bigEndian, items, 0, MAX_SIZE);
    bitOfs := Put(buffer, bitOfs, 16, m.voltage, bigEndian, items, 1, MAX_SIZE);
    bitOfs := Put(buffer, bitOfs, 16, m.current, bigEndian, items, 2, MAX_SIZE);
    bitOfs := Put(buffer, bitOfs, 16, m.averagePower, bigEndian, items, 3, MAX_SIZE);
    bitOfs := Put(buffer, bitOfs, 16, m.remainingCapacity, bigEndian, items, 4, MAX_SIZE);
    bitOfs := Put(buffer, bitOfs, 16, m.fullChargeCapacity, bigEndian, items, 5, MAX_SIZE);
    bitOfs := Put(buffer, bitOfs, 16, m.hoursToFullCharge, bigEndian, items, 6, MAX_SIZE);
  }

  method EncodeRest(m: Info, buffer: array<byte>, start: nat, bigEndian: bool) returns (bitOfs: nat)
    requires Proper(m) && buffer.Length >= MAX_SIZE && start == 112 && Filled(buffer[..], Items(m), 7)
    modifies buffer
    ensures bitOfs == 184 && Filled(buffer[..], Items(m), 13) && buffer[MAX_SIZE..] == old(buffer[MAX_SIZE..])
  {
    ghost var items := Items(m);
    AllFixed(m);
    hide FieldIs;
    hide OffsetOf;
    hide Items;
    bitOfs := Put(buffer, start, 11, m.statusFlags, bigEndian, items, 7, MAX_SIZE);
    bitOfs := Put(buffer, bitOfs, 7, m.stateOfHealth, bigEndian, items, 8, MAX_SIZE);
    bitOfs := Put(buffer, bitOfs, 7, m.stateOfCharge, bigEndian, items, 9, MAX_SIZE);
    bitOfs := Put(buffer, bitOfs, 7, m.stateOfChargeStdev, bigEndian, items, 10, MAX_SIZE);
    bitOfs := Put(buffer, bitOfs, 8, m.batteryId, bigEndian, items, 11, MAX_SIZE);
    bitOfs := Put(buffer, bitOfs, 32, m.modelInstanceId, bigEndian, items, 12, MAX_SIZE);
  }

  /** `uavcan_equipment_power_BatteryInfo_encode`, with the length of the name left to the transfer. */
  method Encode(m: Info, buffer: array<byte>, bigEndian: bool) returns (length: nat)
    requires Proper(m) && buffer.Length >= MAX_SIZE
    modifies buffer
    ensures length == FIXED_SIZE + m.nameLength && Filled(buffer[..length], Items(m), |Items(m)|)
    ensures buffer[MAX_SIZE..] == old(buffer[MAX_SIZE..])
  {
    ghost var items := Items(m);
    Clear(buffer, MAX_SIZE);
    var bitOfs := EncodeCodes(m, buffer, bigEndian);
    bitOfs := EncodeRest(m, buffer, bitOfs, bigEndian);
    hide FieldIs;
    hide OffsetOf;
    for i := 0 to m.nameLength
      invariant bitOfs == 184 + 8 * i && Filled(buffer[..], items, 13 + i)
      invariant buffer[MAX_SIZE..] == old(buffer[MAX_SIZE..])
    {
      NameOffsets(m, i);
      bitOfs := Put(buffer, bitOfs, 8, m.name[i] as int, bigEndian, items, 13 + i, MAX_SIZE);
    }
    NameOffsets(m, m.nameLength);
    length := (bitOfs + 7) / 8;
    FilledPrefix(buffer[..], length, items);
  }

  // ---------------------------------------------------------------- decoding

  /** The length of the name as the decoder infers it, in the unsigned arithmetic of the source. */
  function InferredLength(payloadLen: nat): nat {
    ((payloadLen * 8 + 0x1_0000_0000 - 184) % 0x1_0000_0000 / 8) % 256
  }

  lemma {:induction false} Eighth(w: nat)
    ensures (8 * w) % 0x1_0000_0000 / 8 == w % 0x2000_0000
  {
    var q, r := w / 0x2000_0000, w % 0x2000_0000;
    assert 8 * w == q * 0x1_0000_0000 + 8 * r;
  }

  lemma {:induction false} LowByteOf(w: nat)
    ensures w % 0x2000_0000 % 256 == w % 256
  {
    var q, r := w / 0x2000_0000, w % 0x2000_0000;
    assert w == q * 0x2000_0000 + r;
    SameLowByte(r, q);
  }

  lemma {:induction false} SameLowByte(r: int, q: int)
    ensures (q * 0x2000_0000 + r) % 256 == r % 256
  {
    LowByteIs(q * 0x2000_0000 + r, q * 0x20_0000 + r / 256, r % 256);
  }

  lemma {:induction false} LowByteIs(v: int, k: int, b: int)
    requires v == 256 * k + b && 0 <= b < 256
    ensures v % 256 == b
  {
  }

  lemma {:induction false} Inferred(payloadLen: nat)
    ensures InferredLength(payloadLen) == (payloadLen - FIXED_SIZE) % 256
  {
    var w := payloadLen - FIXED_SIZE + 0x2000_0000;
    assert InferredLength(payloadLen) == ((8 * w) % 0x1_0000_0000 / 8) % 256;
    hide InferredLength;
    Eighth(w);
    LowByteOf(w);
    SameLowByte(payloadLen - FIXED_SIZE, 1);
  }

  /** The inferred length fits the name array exactly for these payloads: from 23 to 54 bytes, and every 256 bytes
      again. */
  lemma {:induction false} NameFits(payloadLen: nat)
    ensures InferredLength(payloadLen) <= NAME_CAPACITY <==> (payloadLen - 23) % 256 <= 31
    ensures 23 <= payloadLen <= 54 ==> InferredLength(payloadLen) == payloadLen - 23
  {
    hide InferredLength;
    Inferred(payloadLen);
  }

  /** Byte `i` of the name has bits in a payload of this length; a byte without any is not written. */
  predicate NameByteRead(payloadLen: nat, i: nat) {
    Readable(payloadLen, 184 + 8 * i, 8) > 0
  }

  /** Some byte beyond the name array is read and written. */
  ghost predicate Overruns(payloadLen: nat) {
    exists i | NAME_CAPACITY <= i < InferredLength(payloadLen) :: NameByteRead(payloadLen, i)
  }

  /** The decoder writes beyond the name array exactly for payloads of more than 54 bytes whose length is not, modulo
      256, that of a report: for fewer than 23 bytes the inferred length is far too large, but there is nothing left to
      read. */
  lemma {:induction false} OverrunsExactly(payloadLen: nat)
    ensures Overruns(payloadLen) <==>
      payloadLen > 54 && (payloadLen - 23) % 256 > 31
  {
    NameFits(payloadLen);
    hide InferredLength;
    if payloadLen > FIXED_SIZE + NAME_CAPACITY {
      assert NameByteRead(payloadLen, NAME_CAPACITY);
    }
  }

  /** A sixteen-bit code: read as a signed number into unsigned memory, which holds `junk` when the payload ends before.
      */
  function CodeAt(payload: seq<byte>, at: nat, junk: int): int {
    Got(payload, at, 16, true, junk) % 0x1_0000
  }

  function NameAt(payload: seq<byte>, before: seq<byte>, n: nat): (r: seq<byte>)
    requires n <= |before|
    ensures |r| == |before|
  {
    if n == 0 then before
    else
      var at := 184 + 8 * (n - 1);
      NameAt(payload, before, n - 1)[n - 1 := ByteOf(Got(payload, at, 8, false, before[n - 1] as int) % 256)]
  }

  /** What a received message reads as, in a message that held `before`; of a name that is inferred too long, what the
      array can hold. */
  function Read(payload: seq<byte>, before: Info, junk: int): Info
    requires Proper(before)
  {
    Info(CodeAt(payload, 0, junk), CodeAt(payload, 16, junk), CodeAt(payload, 32, junk), CodeAt(payload, 48, junk),
         CodeAt(payload, 64, junk), CodeAt(payload, 80, junk), CodeAt(payload, 96, junk),
         Got(payload, 112, 11, false, before.statusFlags), Got(payload, 123, 7, false, before.stateOfHealth),
         Got(payload, 130, 7, false, before.stateOfCharge), Got(payload, 137, 7, false, before.stateOfChargeStdev),
         Got(payload, 144, 8, false, before.batteryId), Got(payload, 152, 32, false, before.modelInstanceId),
         InferredLength(|payload|), NameAt(payload, before.name, Min(InferredLength(|payload|), NAME_CAPACITY)))
  }

  method GetCode(t: Transfer, at: nat, bigEndian: bool, junk: int) returns (code: int)
    requires Stocked(t)
    ensures code == CodeAt(Payload(t), at, junk)
  {
    hide Got;
    hide Stocked;
    code := Get(t, at, 16, true, bigEndian, junk);
    code := code % 0x1_0000;
  }

  /** The loop over the name. What is read for a place beyond the array is not stored here: where the source puts it is
      not known. */
  method GetName(t: Transfer, before: seq<byte>, n: nat, bigEndian: bool)
    returns (name: seq<byte>, bitOfs: nat, outside: bool)
    requires Stocked(t) && |before| == NAME_CAPACITY
    ensures name == NameAt(Payload(t), before, Min(n, NAME_CAPACITY)) && bitOfs == 184 + 8 * n
    ensures outside <==> exists i | NAME_CAPACITY <= i < n :: NameByteRead(t.payloadLen, i)
  {
    hide Got;
    hide Stocked;
    hide ByteOf;
    hide Decoded;
    name, bitOfs, outside := before, 184, false;
    for i := 0 to n
      invariant name == NameAt(Payload(t), before, Min(i, NAME_CAPACITY)) && bitOfs == 184 + 8 * i
      invariant outside <==> exists j | NAME_CAPACITY <= j < i :: NameByteRead(t.payloadLen, j)
      invariant forall j | i <= j < |before| :: name[j] == before[j]
    {
      if i < NAME_CAPACITY {
        var value := Get(t, bitOfs, 8, false, bigEndian, name[i] as int);
        name := name[i := ByteOf(value % 256)];
      } else {
        var result, _ := DecodeScalar(t, bitOfs, 8, false, bigEndian);
        assert result > 0 <==> NameByteRead(t.payloadLen, i);
        outside := outside || result > 0;
      }
      bitOfs := bitOfs + 8;
    }
  }

  /** `uavcan_equipment_power_BatteryInfo_decode`: `wrong` means that the length is wrong, `outside` that some byte was
      read into a place beyond the name array. */
  method Decode(t: Transfer, before: Info, bigEndian: bool, junk: int) returns (m: Info, wrong: bool, outside: bool)
    requires Stocked(t) && Proper(before)
    ensures m == Read(Payload(t), before, junk)
    ensures wrong <==> t.payloadLen != FIXED_SIZE + m.nameLength
    ensures outside <==> Overruns(t.payloadLen)
  {
    hide Got;
    hide Stocked;
    hide CodeAt;
    hide NameAt;
    hide InferredLength;
    var temperature := GetCode(t, 0, bigEndian, junk);
    var voltage := GetCode(t, 16, bigEndian, junk);
    var current := GetCode(t, 32, bigEndian, junk);
    var averagePower := GetCode(t, 48, bigEndian, junk);
    var remainingCapacity := GetCode(t, 64, bigEndian, junk);
    var fullChargeCapacity := GetCode(t, 80, bigEndian, junk);
    var hoursToFullCharge := GetCode(t, 96, bigEndian, junk);
    var statusFlags := Get(t, 112, 11, false, bigEndian, before.statusFlags);
    var stateOfHealth := Get(t, 123, 7, false, bigEndian, before.stateOfHealth);
    var stateOfCharge := Get(t, 130, 7, false, bigEndian, before.stateOfCharge);
    var stateOfChargeStdev := Get(t, 137, 7, false, bigEndian, before.stateOfChargeStdev);
    var batteryId := Get(t, 144, 8, false, bigEndian, before.batteryId);
    var modelInstanceId := Get(t, 152, 32, false, bigEndian, before.modelInstanceId);
    var nameLength := InferredLength(t.payloadLen);
    var name, bitOfs;
    name, bitOfs, outside := GetName(t, before.name, nameLength, bigEndian);
    m := Info(temperature, voltage, current, averagePower, remainingCapacity, fullChargeCapacity, hoursToFullCharge,
              statusFlags, stateOfHealth, stateOfCharge, stateOfChargeStdev, batteryId, modelInstanceId, nameLength,
              name);
    wrong := (bitOfs + 7) / 8 != t.payloadLen;
  }

  // ---------------------------------------------------------------- the round trip

  lemma {:induction false} FixedBack(payload: seq<byte>, m: Info, k: nat, before: int)
    requires 7 <= k < 13 && InRange(m) && Filled(payload, Items(m), |Items(m)|)
    ensures Got(payload, FixedOffset(k), FixedItems(m)[k].width, false, before) == FixedItems(m)[k].value
  {
    var i := FixedItems(m)[k];
    assert Items(m)[k] == i && FieldIs(payload, Items(m), k);
    FixedOffsets(m, k);
    GotBack(payload, Items(m), k, false, before);
    WidthPowers();
    RecoveredFits(i.value, i.width, false);
  }

  lemma {:induction false} WidthPowers()
    ensures Pow2(7) == 128 && Pow2(8) == 256 && Pow2(11) == 2048 && Pow2(15) == 0x8000 && Pow2(16) == 0x1_0000
    ensures Pow2(32) == 0x1_0000_0000
  {
    Powers();
    PowSum(8, 3);
    PowSum(8, 7);
    PowSum(8, 8);
    PowSum(16, 16);
  }

  lemma {:induction false} SignedCode(code: int)
    requires Code(code)
    ensures Recovered(code, 16, true) % 0x1_0000 == code
  {
    WidthPowers();
  }

  lemma {:induction false} CodeBack(payload: seq<byte>, m: Info, k: nat, junk: int)
    requires k < 7 && InRange(m) && Filled(payload, Items(m), |Items(m)|)
    ensures CodeAt(payload, 16 * k, junk) == FixedItems(m)[k].value
  {
    assert Items(m)[k] == FixedItems(m)[k] && FieldIs(payload, Items(m), k);
    FixedOffsets(m, k);
    GotBack(payload, Items(m), k, true, junk);
    SignedCode(FixedItems(m)[k].value);
  }

  predicate SameValue(a: byte, b: byte) {
    a as int == b as int
  }

  lemma {:induction false} SameValueSameByte(a: byte, b: byte)
    requires SameValue(a, b)
    ensures a == b
  {
  }

  lemma {:induction false} NameItem(payload: seq<byte>, m: Info, i: nat)
    requires i < m.nameLength && InRange(m) && Filled(payload, Items(m), |Items(m)|)
    ensures 13 + i < |Items(m)| && Items(m)[13 + i] == Item(8, m.name[i] as int) && FieldIs(payload, Items(m), 13 + i)
  {
    assert Items(m)[13 + i] == NameItems(m.name[..m.nameLength])[i];
    hide FieldIs;
  }

  lemma {:induction false} NameByteBack(payload: seq<byte>, m: Info, i: nat, before: int)
    requires i < m.nameLength && InRange(m) && Filled(payload, Items(m), |Items(m)|)
    ensures ByteOf(Got(payload, 184 + 8 * i, 8, false, before) % 256) == m.name[i]
  {
    hide Items;
    hide FieldIs;
    hide Got;
    var x := m.name[i] as int;
    NameItem(payload, m, i);
    NameOffsets(m, i);
    GotBack(payload, Items(m), 13 + i, false, before);
    WidthPowers();
    ByteSmall(m.name[i]);
    RecoveredFits(x, 8, false);
    ByteOfValue(x);
    SameValueSameByte(ByteOf(x), m.name[i]);
  }

  lemma {:induction false} NameBack(payload: seq<byte>, m: Info, before: seq<byte>, n: nat)
    requires n <= m.nameLength && |before| == NAME_CAPACITY && InRange(m) && Filled(payload, Items(m), |Items(m)|)
    ensures NameAt(payload, before, n) == m.name[..n] + before[n..]
  {
    hide Got;
    hide ByteOf;
    hide Filled;
    hide Items;
    if n > 0 {
      NameBack(payload, m, before, n - 1);
      NameByteBack(payload, m, n - 1, before[n - 1] as int);
    }
  }

  lemma {:induction false} CodesBack(payload: seq<byte>, m: Info, junk: int)
    requires InRange(m) && Filled(payload, Items(m), |Items(m)|)
    ensures CodeAt(payload, 0, junk) == m.temperature && CodeAt(payload, 16, junk) == m.voltage
    ensures CodeAt(payload, 32, junk) == m.current
    ensures CodeAt(payload, 48, junk) == m.averagePower && CodeAt(payload, 64, junk) == m.remainingCapacity
    ensures CodeAt(payload, 80, junk) == m.fullChargeCapacity && CodeAt(payload, 96, junk) == m.hoursToFullCharge
  {
    hide CodeAt;
    hide Filled;
    hide Items;
    CodeBack(payload, m, 0, junk);
    CodeBack(payload, m, 1, junk);
    CodeBack(payload, m, 2, junk);
    CodeBack(payload, m, 3, junk);
    CodeBack(payload, m, 4, junk);
    CodeBack(payload, m, 5, junk);
    CodeBack(payload, m, 6, junk);
  }

  lemma {:induction false} FieldsBack(payload: seq<byte>, m: Info, before: Info)
    requires InRange(m) && Filled(payload, Items(m), |Items(m)|)
    ensures Got(payload, 112, 11, false, before.statusFlags) == m.statusFlags
    ensures Got(payload, 123, 7, false, before.stateOfHealth) == m.stateOfHealth
    ensures Got(payload, 130, 7, false, before.stateOfCharge) == m.stateOfCharge
    ensures Got(payload, 137, 7, false, before.stateOfChargeStdev) == m.stateOfChargeStdev
    ensures Got(payload, 144, 8, false, before.batteryId) == m.batteryId
    ensures Got(payload, 152, 32, false, before.modelInstanceId) == m.modelInstanceId
  {
    hide Got;
    hide Filled;
    hide Items;
    FixedBack(payload, m, 7, before.statusFlags);
    FixedBack(payload, m, 8, before.stateOfHealth);
    FixedBack(payload, m, 9, before.stateOfCharge);
    FixedBack(payload, m, 10, before.stateOfChargeStdev);
    FixedBack(payload, m, 11, before.batteryId);
    FixedBack(payload, m, 12, before.modelInstanceId);
  }

  /** Every message in range comes back from its 23 bytes and its name, whatever was there before; only the unused
      places of the name array keep their contents. */
  lemma {:induction false} InfoRoundTrip(m: Info, payload: seq<byte>, before: Info, junk: int)
    requires InRange(m) && Proper(before) && |payload| == FIXED_SIZE + m.nameLength
    requires Filled(payload, Items(m), |Items(m)|)
    ensures InferredLength(|payload|) == m.nameLength
    ensures Read(payload, before, junk) == m.(name := m.name[..m.nameLength] + before.name[m.nameLength..])
  {
    NameFits(|payload|);
    hide Got;
    hide CodeAt;
    hide NameAt;
    hide InferredLength;
    hide Filled;
    hide Items;
    CodesBack(payload, m, junk);
    FieldsBack(payload, m, before);
    NameBack(payload, m, before.name, m.nameLength);
  }
}
