/** The NodeStatus message: 32, 2, 3, 3 and 16 bits in seven bytes. */
module NodeStatus {
  import opened Types
  import opened Receiver
  import opened Scalar
  import opened Dsdl

  const MAX_SIZE := 7
  const SIGNATURE: bv64 := 0xF0868D0C1A7C6F1
  const DATA_TYPE_ID: bv16 := 341

  datatype Status = Status(uptimeSec: int, health: int, mode: int, subMode: int, vendorCode: int)

  predicate InRange(m: Status) {
    && 0 <= m.uptimeSec < 0x1_0000_0000 && 0 <= m.health < 4 && 0 <= m.mode < 8 && 0 <= m.subMode < 8
    && 0 <= m.vendorCode < 0x1_0000
  }

  function Items(m: Status): (r: seq<Item>)
    ensures |r| == 5
  {
    [Item(32, m.uptimeSec), Item(2, m.health), Item(3, m.mode), Item(3, m.subMode), Item(16, m.vendorCode)]
  }

  lemma {:induction false} Offsets(m: Status)
    ensures var i := Items(m);
      && OffsetOf(i, 0) == 0 && OffsetOf(i, 1) == 32 && OffsetOf(i, 2) == 34 && OffsetOf(i, 3) == 37
         && OffsetOf(i, 4) == 40
      && OffsetOf(i, 5) == 56
  {
  }

  /** `uavcan_protocol_NodeStatus_encode`. */
  method Encode(m: Status, buffer: array<byte>, bigEndian: bool) returns (length: nat)
    requires buffer.Length >= MAX_SIZE
    modifies buffer
    ensures length == MAX_SIZE && Filled(buffer[..length], Items(m), 5) && buffer[length..] == old(buffer[length..])
  {
    ghost var items := Items(m);
    Offsets(m);
    hide FieldIs;
    hide OffsetOf;
    Clear(buffer, MAX_SIZE);
    var bitOfs := 0;
    bitOfs := Put(buffer, bitOfs, 32, m.uptimeSec, bigEndian, items, 0, MAX_SIZE);
    bitOfs := Put(buffer, bitOfs, 2, m.health, bigEndian, items, 1, MAX_SIZE);
    bitOfs := Put(buffer, bitOfs, 3, m.mode, bigEndian, items, 2, MAX_SIZE);
    bitOfs := Put(buffer, bitOfs, 3, m.subMode, bigEndian, items, 3, MAX_SIZE);
    bitOfs := Put(buffer, bitOfs, 16, m.vendorCode, bigEndian, items, 4, MAX_SIZE);
    length := (bitOfs + 7) / 8;
    FilledPrefix(buffer[..], length, items);
  }

  /** What a received message reads as; fields beyond the payload keep what `before` has. */
  function Read(payload: seq<byte>, before: Status): Status {
    Status(Got(payload, 0, 32, false, before.uptimeSec), Got(payload, 32, 2, false, before.health),
           Got(payload, 34, 3, false, before.mode), Got(payload, 37, 3, false, before.subMode),
           Got(payload, 40, 16, false, before.vendorCode))
  }

  /** `uavcan_protocol_NodeStatus_decode`: true means that the length is wrong. */
  method Decode(t: Transfer, before: Status, bigEndian: bool) returns (m: Status, wrong: bool)
    requires Stocked(t)
    ensures m == Read(Payload(t), before) && (wrong <==> t.payloadLen != MAX_SIZE)
  {
    hide Got;
    hide Stocked;
    var bitOfs := 0;
    var uptimeSec := Get(t, bitOfs, 32, false, bigEndian, before.uptimeSec);
    bitOfs := bitOfs + 32;
    var health := Get(t, bitOfs, 2, false, bigEndian, before.health);
    bitOfs := bitOfs + 2;
    var mode := Get(t, bitOfs, 3, false, bigEndian, before.mode);
    bitOfs := bitOfs + 3;
    var subMode := Get(t, bitOfs, 3, false, bigEndian, before.subMode);
    bitOfs := bitOfs + 3;
    var vendorCode := Get(t, bitOfs, 16, false, bigEndian, before.vendorCode);
    bitOfs := bitOfs + 16;
    m := Status(uptimeSec, health, mode, subMode, vendorCode);
    wrong := (bitOfs + 7) / 8 != t.payloadLen;
  }

  lemma {:induction false} FieldBack(payload: seq<byte>, m: Status, k: nat, before: int)
    requires k < 5 && InRange(m) && Filled(payload, Items(m), 5)
    ensures Got(payload, OffsetOf(Items(m), k), Items(m)[k].width, false, before) == Items(m)[k].value
  {
    var i := Items(m)[k];
    assert FieldIs(payload, Items(m), k);
    GotBack(payload, Items(m), k, false, before);
    Powers();
    PowSum(8, 8);
    PowSum(16, 16);
    RecoveredFits(i.value, i.width, false);
  }

  /** Every status in range comes back from its seven bytes, whatever the message held before. */
  lemma {:induction false} StatusRoundTrip(m: Status, payload: seq<byte>, before: Status)
    requires InRange(m) && Filled(payload, Items(m), 5)
    ensures Read(payload, before) == m
  {
    Offsets(m);
    FieldBack(payload, m, 0, before.uptimeSec);
    FieldBack(payload, m, 1, before.health);
    FieldBack(payload, m, 2, before.mode);
    FieldBack(payload, m, 3, before.subMode);
    FieldBack(payload, m, 4, before.vendorCode);
    hide Got;
    hide OffsetOf;
  }
}
