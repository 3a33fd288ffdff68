/** The messages byte by byte: where every field of a published message lies. */
module Layout {
  import opened Types
  import opened Descatter
  import opened Scalar
  import opened Dsdl
  import NodeStatus
  import BatteryInfo

  // ---------------------------------------------------------------- fields and bytes

  /** The first bits of a byte, and the rest. */
  lemma {:induction false} PartsOfByte(s: seq<byte>, k: nat, n: nat)
    requires k < |s| && n <= 8
    ensures BitsNumber(s, 8 * k, n) == s[k] as int / Pow2(8 - n)
    ensures BitsNumber(s, 8 * k + n, 8 - n) == s[k] as int % Pow2(8 - n)
  {
    hide *;
    TopOfByte(s, k, n);
    ByteNumber(s, k);
    BitsConcat(s, 8 * k, n, 8 - n);
    ByteSmall(s[k]);
    Remainder(s[k] as int, Pow2(8 - n), BitsNumber(s, 8 * k + n, 8 - n));
  }

  lemma {:induction false} Short(s: seq<byte>, at: nat, len: nat)
    requires at + len <= 8 * |s| && len < 8
    ensures FieldNumber(s, at, len) == BitsNumber(s, at, len)
  {
  }

  lemma {:induction false} NextByte(s: seq<byte>, k: nat, len: nat)
    requires 8 * k + len <= 8 * |s| && len >= 8
    ensures FieldNumber(s, 8 * k, len) == s[k] as int + 256 * FieldNumber(s, 8 * (k + 1), len - 8)
  {
    ByteNumber(s, k);
    hide BitsNumber;
  }

  lemma {:induction false} NoBits(s: seq<byte>, at: nat)
    requires at <= 8 * |s|
    ensures FieldNumber(s, at, 0) == 0
  {
  }

  lemma {:induction false} OneByte(s: seq<byte>, k: nat)
    requires k + 1 <= |s|
    ensures FieldNumber(s, 8 * k, 8) == s[k] as int
  {
    hide *;
    NextByte(s, k, 8);
    NoBits(s, 8 * (k + 1));
  }

  lemma {:induction false} TwoBytes(s: seq<byte>, k: nat)
    requires k + 2 <= |s|
    ensures FieldNumber(s, 8 * k, 16) == s[k] as int + 256 * s[k + 1] as int
  {
    hide *;
    NextByte(s, k, 16);
    OneByte(s, k + 1);
  }

  lemma {:induction false} FourBytes(s: seq<byte>, k: nat)
    requires k + 4 <= |s|
    ensures FieldNumber(s, 8 * k, 32) == s[k] as int + 0x100 * s[k + 1] as int + 0x1_0000 * s[k + 2] as int
                                         + 0x100_0000 * s[k + 3] as int
  {
    hide *;
    NextByte(s, k, 32);
    NextByte(s, k + 1, 24);
    TwoBytes(s, k + 2);
  }

  lemma {:induction false} Widths()
    ensures Pow2(1) == 2 && Pow2(2) == 4 && Pow2(3) == 8 && Pow2(5) == 32 && Pow2(6) == 64 && Pow2(7) == 128
    ensures Pow2(8) == 0x100 && Pow2(11) == 0x800 && Pow2(16) == 0x1_0000 && Pow2(32) == 0x1_0000_0000
  {
    Powers();
    PowSum(8, 3);
    PowSum(8, 8);
    PowSum(16, 16);
  }

  lemma {:induction false} InPlace(s: seq<byte>, items: seq<Item>, k: nat, at: nat, width: nat, value: int)
    requires k < |items| && FieldIs(s, items, k) && OffsetOf(items, k) == at && items[k] == Item(width, value)
    ensures at + width <= 8 * |s| && FieldNumber(s, at, width) == Encoded(value, width)
  {
    hide OffsetOf;
    hide FieldNumber;
    hide Encoded;
  }

  lemma {:induction false} ModuloWidth(value: int, width: nat, p: nat)
    requires width != 1 && p == Pow2(width)
    ensures p > 0 && Encoded(value, width) == value % p
  {
    hide Pow2;
  }

  // ---------------------------------------------------------------- the node status

  /** The fields of a node status, each at its place. */
  lemma {:induction false} StatusFields(p: seq<byte>, m: NodeStatus.Status)
    requires |p| == 7 && Filled(p, NodeStatus.Items(m), 5)
    ensures FieldNumber(p, 0, 32) == m.uptimeSec % 0x1_0000_0000 && FieldNumber(p, 32, 2) == m.health % 4
    ensures FieldNumber(p, 34, 3) == m.mode % 8 && FieldNumber(p, 37, 3) == m.subMode % 8
    ensures FieldNumber(p, 40, 16) == m.vendorCode % 0x1_0000
  {
    var i := NodeStatus.Items(m);
    NodeStatus.Offsets(m);
    assert FieldIs(p, i, 0) && FieldIs(p, i, 1) && FieldIs(p, i, 2) && FieldIs(p, i, 3) && FieldIs(p, i, 4);
    Widths();
    hide *;
    InPlace(p, i, 0, 0, 32, m.uptimeSec);
    InPlace(p, i, 1, 32, 2, m.health);
    InPlace(p, i, 2, 34, 3, m.mode);
    InPlace(p, i, 3, 37, 3, m.subMode);
    InPlace(p, i, 4, 40, 16, m.vendorCode);
    ModuloWidth(m.uptimeSec, 32, 0x1_0000_0000);
    ModuloWidth(m.health, 2, 4);
    ModuloWidth(m.mode, 3, 8);
    ModuloWidth(m.subMode, 3, 8);
    ModuloWidth(m.vendorCode, 16, 0x1_0000);
  }

  /** Two, three and three bits in one byte. */
  lemma {:induction false} ThreeInByte(p: seq<byte>, k: nat)
    requires k < |p|
    ensures p[k] as int == 64 * FieldNumber(p, 8 * k, 2) + 8 * FieldNumber(p, 8 * k + 2, 3)
                           + FieldNumber(p, 8 * k + 5, 3)
  {
    hide *;
    Widths();
    ByteNumber(p, k);
    BitsConcat(p, 8 * k, 2, 6);
    BitsConcat(p, 8 * k + 2, 3, 3);
    Short(p, 8 * k, 2);
    Short(p, 8 * k + 2, 3);
    Short(p, 8 * k + 5, 3);
  }

  /** A node status on the wire: uptime in four bytes, the least significant first; health, mode and sub-mode in the
      next, from the most significant bits down; the vendor code in two bytes, the least significant first. */
  lemma {:induction false} StatusLayout(p: seq<byte>, m: NodeStatus.Status)
    requires |p| == 7 && Filled(p, NodeStatus.Items(m), 5)
    ensures p[0] as int + 0x100 * p[1] as int + 0x1_0000 * p[2] as int + 0x100_0000 * p[3] as int
         == m.uptimeSec % 0x1_0000_0000
    ensures p[4] as int == 64 * (m.health % 4) + 8 * (m.mode % 8) + m.subMode % 8
    ensures p[5] as int + 0x100 * p[6] as int == m.vendorCode % 0x1_0000
  {
    hide *;
    StatusFields(p, m);
    FourBytes(p, 0);
    ThreeInByte(p, 4);
    TwoBytes(p, 5);
  }

  // ---------------------------------------------------------------- the battery report

  lemma {:induction false} InfoField(p: seq<byte>, m: BatteryInfo.Info, k: nat)
    requires BatteryInfo.Proper(m) && Filled(p, BatteryInfo.Items(m), |BatteryInfo.Items(m)|) && k < 13
    ensures var i := BatteryInfo.FixedItems(m)[k]; var at := BatteryInfo.FixedOffset(k);
      at + i.width <= 8 * |p| && FieldNumber(p, at, i.width) == Encoded(i.value, i.width)
  {
    BatteryInfo.AllFixed(m);
    assert FieldIs(p, BatteryInfo.Items(m), k);
    hide BatteryInfo.FixedOffset;
    hide BatteryInfo.Items;
    hide FieldNumber;
    hide Encoded;
  }

  /** Sixteen bits on a byte boundary, the least significant byte first. */
  lemma {:induction false} InfoCode(p: seq<byte>, m: BatteryInfo.Info, k: nat)
    requires BatteryInfo.Proper(m) && Filled(p, BatteryInfo.Items(m), |BatteryInfo.Items(m)|) && k < 7
    ensures 2 * k + 2 <= |p| && BatteryInfo.FixedItems(m)[k].width == 16
    ensures p[2 * k] as int + 0x100 * p[2 * k + 1] as int == BatteryInfo.FixedItems(m)[k].value % 0x1_0000
  {
    hide *;
    CodeItem(m, k);
    Widths();
    InfoField(p, m, k);
    TwoBytes(p, 2 * k);
    ModuloWidth(BatteryInfo.FixedItems(m)[k].value, 16, 0x1_0000);
  }

  lemma {:induction false} CodeItem(m: BatteryInfo.Info, k: nat)
    requires k < 7
    ensures BatteryInfo.FixedOffset(k) == 8 * (2 * k) && BatteryInfo.FixedItems(m)[k].width == 16
  {
  }

  /** The seven sixteen-bit codes of a battery report, in order. */
  lemma {:induction false} InfoCodes(p: seq<byte>, m: BatteryInfo.Info)
    requires BatteryInfo.Proper(m) && Filled(p, BatteryInfo.Items(m), |BatteryInfo.Items(m)|)
    ensures |p| >= 14
    ensures p[0] as int + 0x100 * p[1] as int == m.temperature % 0x1_0000
    ensures p[2] as int + 0x100 * p[3] as int == m.voltage % 0x1_0000
    ensures p[4] as int + 0x100 * p[5] as int == m.current % 0x1_0000
    ensures p[6] as int + 0x100 * p[7] as int == m.averagePower % 0x1_0000
    ensures p[8] as int + 0x100 * p[9] as int == m.remainingCapacity % 0x1_0000
    ensures p[10] as int + 0x100 * p[11] as int == m.fullChargeCapacity % 0x1_0000
    ensures p[12] as int + 0x100 * p[13] as int == m.hoursToFullCharge % 0x1_0000
  {
    hide Filled;
    hide BatteryInfo.Items;
    InfoCode(p, m, 0);
    InfoCode(p, m, 1);
    InfoCode(p, m, 2);
    InfoCode(p, m, 3);
    InfoCode(p, m, 4);
    InfoCode(p, m, 5);
    InfoCode(p, m, 6);
  }

  /** The fields of a battery report that are not on byte boundaries. */
  lemma {:induction false} InfoBits(p: seq<byte>, m: BatteryInfo.Info)
    requires BatteryInfo.Proper(m) && Filled(p, BatteryInfo.Items(m), |BatteryInfo.Items(m)|)
    ensures |p| >= 23 && FieldNumber(p, 112, 11) == m.statusFlags % 0x800
    ensures FieldNumber(p, 123, 7) == m.stateOfHealth % 0x80 && FieldNumber(p, 130, 7) == m.stateOfCharge % 0x80
    ensures FieldNumber(p, 137, 7) == m.stateOfChargeStdev % 0x80 && FieldNumber(p, 144, 8) == m.batteryId % 0x100
    ensures FieldNumber(p, 152, 32) == m.modelInstanceId % 0x1_0000_0000
  {
    hide FieldNumber;
    hide Encoded;
    hide Filled;
    hide BatteryInfo.Items;
    Widths();
    hide Pow2;
    InfoField(p, m, 7);
    InfoField(p, m, 8);
    InfoField(p, m, 9);
    InfoField(p, m, 10);
    InfoField(p, m, 11);
    InfoField(p, m, 12);
    ModuloWidth(m.statusFlags, 11, 0x800);
    ModuloWidth(m.stateOfHealth, 7, 0x80);
    ModuloWidth(m.stateOfCharge, 7, 0x80);
    ModuloWidth(m.stateOfChargeStdev, 7, 0x80);
    ModuloWidth(m.batteryId, 8, 0x100);
    ModuloWidth(m.modelInstanceId, 32, 0x1_0000_0000);
  }

  /** Eleven bits from a byte boundary on: a byte and the first three bits of the next. */
  lemma {:induction false} ElevenBits(p: seq<byte>, k: nat)
    requires k + 2 <= |p|
    ensures FieldNumber(p, 8 * k, 11) == p[k] as int + 0x100 * (p[k + 1] as int / 32)
  {
    hide *;
    Widths();
    NextByte(p, k, 11);
    Short(p, 8 * (k + 1), 3);
    PartsOfByte(p, k + 1, 3);
  }

  /** Seven bits over the end of a byte. */
  lemma {:induction false} SevenBits(p: seq<byte>, k: nat, n: nat)
    requires k + 2 <= |p| && 1 <= n < 8
    ensures FieldNumber(p, 8 * k + 8 - n, 7) == (p[k] as int % Pow2(n)) * Pow2(7 - n) + p[k + 1] as int / Pow2(n + 1)
  {
    hide *;
    Short(p, 8 * k + 8 - n, 7);
    PartsOfByte(p, k, 8 - n);
    PartsOfByte(p, k + 1, 7 - n);
    BitsConcat(p, 8 * k + 8 - n, n, 7 - n);
  }

  /** A battery report on the wire: the codes first; then eleven bits of flags, of which the byte with the lower eight
      comes first; three numbers of seven bits that run on from one byte into the next; the battery's number, that of
      its model, and the name. */
  lemma {:induction false} InfoLayout(p: seq<byte>, m: BatteryInfo.Info)
    requires BatteryInfo.Proper(m) && Filled(p, BatteryInfo.Items(m), |BatteryInfo.Items(m)|)
    ensures |p| >= 23
    ensures p[14] as int + 0x100 * (p[15] as int / 32) == m.statusFlags % 0x800
    ensures p[15] as int % 32 * 4 + p[16] as int / 64 == m.stateOfHealth % 0x80
    ensures p[16] as int % 64 * 2 + p[17] as int / 128 == m.stateOfCharge % 0x80
    ensures p[17] as int % 128 == m.stateOfChargeStdev % 0x80
    ensures p[18] as int == m.batteryId % 0x100
    ensures p[19] as int + 0x100 * p[20] as int + 0x1_0000 * p[21] as int + 0x100_0000 * p[22] as int
         == m.modelInstanceId % 0x1_0000_0000
  {
    hide *;
    InfoBits(p, m);
    Widths();
    ElevenBits(p, 14);
    SevenBits(p, 15, 5);
    SevenBits(p, 16, 6);
    Short(p, 137, 7);
    PartsOfByte(p, 17, 1);
    OneByte(p, 18);
    FourBytes(p, 19);
  }

  /** The name follows, one byte for each character. */
  lemma {:induction false} NameLayout(p: seq<byte>, m: BatteryInfo.Info, i: nat)
    requires BatteryInfo.Proper(m) && Filled(p, BatteryInfo.Items(m), |BatteryInfo.Items(m)|) && i < m.nameLength
    ensures 23 + i < |p| && p[23 + i] == m.name[i]
  {
    NameNumber(p, m, i);
    hide *;
    OneByte(p, 23 + i);
    ByteBack(p[23 + i], m.name[i]);
  }

  lemma {:induction false} NameNumber(p: seq<byte>, m: BatteryInfo.Info, i: nat)
    requires BatteryInfo.Proper(m) && Filled(p, BatteryInfo.Items(m), |BatteryInfo.Items(m)|) && i < m.nameLength
    ensures 23 + i < |p| && i < |m.name| && FieldNumber(p, 8 * (23 + i), 8) == Encoded(m.name[i] as int, 8)
  {
    NameInPlace(p, m, i);
    BatteryInfo.NameOffsets(m, i);
    hide FieldIs;
    hide FieldNumber;
    hide Encoded;
    hide OffsetOf;
    hide BatteryInfo.Items;
    InPlace(p, BatteryInfo.Items(m), 13 + i, 8 * (23 + i), 8, m.name[i] as int);
  }

  lemma {:induction false} ByteBack(b: byte, c: byte)
    requires b as int == Encoded(c as int, 8)
    ensures b == c
  {
    hide *;
    ByteSmall(c);
    SmallStays(c as int);
    SameByte(b, c);
  }

  lemma {:induction false} SmallStays(x: int)
    requires 0 <= x < 0x100
    ensures Encoded(x, 8) == x
  {
    Widths();
  }

  lemma {:induction false} NameInPlace(p: seq<byte>, m: BatteryInfo.Info, i: nat)
    requires BatteryInfo.Proper(m) && Filled(p, BatteryInfo.Items(m), |BatteryInfo.Items(m)|) && i < m.nameLength
    ensures 13 + i < |BatteryInfo.Items(m)| && BatteryInfo.Items(m)[13 + i] == Item(8, m.name[i] as int)
    ensures FieldIs(p, BatteryInfo.Items(m), 13 + i)
  {
    hide FieldIs;
    hide BatteryInfo.FixedItems;
    assert BatteryInfo.Items(m)[13 + i] == BatteryInfo.NameItems(m.name[..m.nameLength])[i];
  }

  lemma {:induction false} SameByte(a: byte, b: byte)
    requires a as int == b as int
    ensures a == b
  {
  }

  // ---------------------------------------------------------------- fields that run over the end

  /** Of sixteen bits of which the payload has only its last byte, eight are read, and the number is that byte. */
  lemma {:induction false} TornField(p: seq<byte>)
    requires p != []
    ensures var k := |p| - 1; Readable(|p|, 8 * k, 16) == 8 && Decoded(p, 8 * k, 16, false) == p[k] as int
  {
    TwoBytes(p + ZEROS, |p| - 1);
    hide FieldNumber;
  }
}
