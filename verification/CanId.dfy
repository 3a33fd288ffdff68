/** The 29-bit CAN identifiers, the transfer descriptors packed from them, and the tail byte of every frame. */
module CanId {
  import opened Types

  datatype TransferType = Response | Request | Broadcast

  function TypeCode(t: TransferType): bv32 {
    match t
    case Response => 0
    case Request => 1
    case Broadcast => 2
  }

  const EFF: bv32 := 0x8000_0000
  const RTR: bv32 := 0x4000_0000
  const ERR: bv32 := 0x2000_0000
  const EXT_ID_MASK: bv32 := 0x1FFF_FFFF

  // ---------------------------------------------------------------- fields of an identifier

  function SourceOf(id: bv32): byte {
    (id & 0x7F) as byte
  }

  function DestinationOf(id: bv32): byte {
    ((id >> 8) & 0x7F) as byte
  }

  function PriorityOf(id: bv32): byte {
    ((id >> 24) & 0x1F) as byte
  }

  function TypeOf(id: bv32): TransferType {
    if (id >> 7) & 1 == 0 then Broadcast
    else if (id >> 15) & 1 == 1 then Request
    else Response
  }

  /** An anonymous message carries only the two lowest bits of its data type. */
  function DataTypeOf(id: bv32): bv16 {
    if TypeOf(id) == Broadcast then
      var dtid := ((id >> 8) & 0xFFFF) as bv16;
      if SourceOf(id) == 0 then dtid & 3 else dtid
    else ((id >> 16) & 0xFF) as bv16
  }

  /** Where a frame is going: messages are for everyone. */
  function AddresseeOf(id: bv32): byte {
    if TypeOf(id) == Broadcast then 0 else DestinationOf(id)
  }

  function MakeDescriptor(dtid: bv16, ttype: TransferType, source: byte, destination: byte): bv32 {
    (dtid as bv32) | (TypeCode(ttype) << 16) | ((source as bv32) << 18) | ((destination as bv32) << 25)
  }

  function DescriptorOf(id: bv32): bv32 {
    MakeDescriptor(DataTypeOf(id), TypeOf(id), SourceOf(id), AddresseeOf(id))
  }

  // ---------------------------------------------------------------- identifiers made by the sender

  function MessageId(priority: byte, dtid: bv16, node: byte): bv32 {
    ((priority as bv32) << 24) | ((dtid as bv32) << 8) | (node as bv32)
  }

  function AnonymousId(priority: byte, dtid: bv16, discriminator: bv16): bv32 {
    ((priority as bv32) << 24) | ((discriminator as bv32) << 9) | (((dtid & 3) as bv32) << 8)
  }

  function ServiceId(priority: byte, dtid: byte, request: bool, destination: byte, node: byte): bv32 {
    ((priority as bv32) << 24) | ((dtid as bv32) << 16) | ((if request then 1 else 0) << 15)
    | ((destination as bv32) << 8) | 0x80 | (node as bv32)
  }

  // ---------------------------------------------------------------- the tail byte

  predicate IsStart(tail: byte) { tail & 0x80 != 0 }

  predicate IsEnd(tail: byte) { tail & 0x40 != 0 }

  predicate Toggle(tail: byte) { tail & 0x20 != 0 }

  function TransferIdOf(tail: byte): byte { tail & 0x1F }

  function TailByte(start: bool, end: bool, toggle: bool, tid: byte): byte {
    (if start then 0x80 else 0) | (if end then 0x40 else 0) | (if toggle then 0x20 else 0) | (tid & 0x1F)
  }

  lemma {:induction false} TailByteFields(start: bool, end: bool, toggle: bool, tid: byte)
    ensures IsStart(TailByte(start, end, toggle, tid)) == start
    ensures IsEnd(TailByte(start, end, toggle, tid)) == end
    ensures Toggle(TailByte(start, end, toggle, tid)) == toggle
    ensures TransferIdOf(TailByte(start, end, toggle, tid)) == tid & 0x1F
  {
  }

  // ---------------------------------------------------------------- packing loses nothing

  function TypeFromCode(c: bv32): TransferType {
    if c == 0 then Response else if c == 1 then Request else Broadcast
  }

  datatype Fields = Fields(dtid: bv16, ttype: TransferType, source: byte, destination: byte)

  function Unpack(d: bv32): Fields {
    Fields((d & 0xFFFF) as bv16, TypeFromCode((d >> 16) & 3), ((d >> 18) & 0x7F) as byte, ((d >> 25) & 0x7F) as byte)
  }

  /** The four fields of a transfer descriptor are disjoint and fill its 32 bits: unpacking inverts packing. */
  lemma {:induction false} DescriptorUnpacks(f: Fields)
    requires f.source < 128 && f.destination < 128
    ensures Unpack(MakeDescriptor(f.dtid, f.ttype, f.source, f.destination)) == f
  {
  }

  /** Transfers that share a descriptor have the same data type, type, source and destination. */
  lemma {:induction false} DescriptorInjective(f: Fields, g: Fields)
    requires f.source < 128 && f.destination < 128 && g.source < 128 && g.destination < 128
    requires MakeDescriptor(f.dtid, f.ttype, f.source, f.destination) == MakeDescriptor(g.dtid, g.ttype, g.source,
                                                                                        g.destination)
    ensures f == g
  {
  }

  // ---------------------------------------------------------------- what the receiver reads from a sender's identifier

  /** What a receiver reads from the identifier of a frame. */
  predicate Reads(id: bv32, dtid: bv16, ttype: TransferType, source: byte, priority: byte) {
    && id & EFF != 0 && id & RTR == 0 && id & ERR == 0
    && DataTypeOf(id) == dtid && TypeOf(id) == ttype && SourceOf(id) == source && PriorityOf(id) == priority
  }

  /** An extended identifier has 29 bits. */
  predicate Fits29(id: bv32) {
    id & EXT_ID_MASK == id
  }

  predicate Addresses(id: bv32, destination: byte) {
    DestinationOf(id) == destination
  }

  lemma {:induction false} MessageIdFits(priority: byte, dtid: bv16, node: byte)
    requires priority < 32 && node < 128
    ensures Fits29(MessageId(priority, dtid, node))
  {
  }

  lemma {:induction false} MessageIdRead(priority: byte, dtid: bv16, node: byte)
    requires priority < 32 && node != 0 && node < 128
    ensures Reads(MessageId(priority, dtid, node) | EFF, dtid, Broadcast, node, priority)
  {
  }

  lemma {:induction false} MessageIdReads(priority: byte, dtid: bv16, node: byte)
    requires priority < 32 && node != 0 && node < 128
    ensures Reads(MessageId(priority, dtid, node) | EFF, dtid, Broadcast, node, priority)
    ensures Fits29(MessageId(priority, dtid, node))
  {
    hide *;
    MessageIdFits(priority, dtid, node);
    MessageIdRead(priority, dtid, node);
  }

  lemma {:induction false} AnonymousIdFits(priority: byte, dtid: bv16, crc: bv16)
    requires priority < 32
    ensures Fits29(AnonymousId(priority, dtid, crc & 0x7FFE))
  {
  }

  lemma {:induction false} AnonymousIdRead(priority: byte, dtid: bv16, crc: bv16)
    requires priority < 32
    ensures Reads(AnonymousId(priority, dtid, crc & 0x7FFE) | EFF, dtid & 3, Broadcast, 0, priority)
  {
  }

  /** Whatever discriminator the CRC gives. */
  lemma {:induction false} AnonymousIdReads(priority: byte, dtid: bv16, crc: bv16)
    requires priority < 32
    ensures Reads(AnonymousId(priority, dtid, crc & 0x7FFE) | EFF, dtid & 3, Broadcast, 0, priority)
    ensures Fits29(AnonymousId(priority, dtid, crc & 0x7FFE))
  {
    hide *;
    AnonymousIdFits(priority, dtid, crc);
    AnonymousIdRead(priority, dtid, crc);
  }

  lemma {:induction false} ServiceIdFits(priority: byte, dtid: byte, request: bool, destination: byte, node: byte)
    requires priority < 32 && node < 128 && destination < 128
    ensures Fits29(ServiceId(priority, dtid, request, destination, node))
  {
  }

  lemma {:induction false} ServiceIdRead(priority: byte, dtid: byte, request: bool, destination: byte, node: byte)
    requires priority < 32 && node < 128 && destination < 128
    ensures Reads(ServiceId(priority, dtid, request, destination, node) | EFF, dtid as bv16,
                  if request then Request else Response, node, priority)
  {
  }

  lemma {:induction false} ServiceIdAddresses(priority: byte, dtid: byte, request: bool, destination: byte, node: byte)
    requires priority < 32 && node < 128 && destination < 128
    ensures Addresses(ServiceId(priority, dtid, request, destination, node) | EFF, destination)
  {
  }

  lemma {:induction false} ServiceIdReads(priority: byte, dtid: byte, request: bool, destination: byte, node: byte)
    requires priority < 32 && node < 128 && destination < 128
    ensures Reads(ServiceId(priority, dtid, request, destination, node) | EFF, dtid as bv16,
                  if request then Request else Response, node, priority)
    ensures Addresses(ServiceId(priority, dtid, request, destination, node) | EFF, destination)
    ensures Fits29(ServiceId(priority, dtid, request, destination, node))
  {
    hide *;
    ServiceIdFits(priority, dtid, request, destination, node);
    ServiceIdRead(priority, dtid, request, destination, node);
    ServiceIdAddresses(priority, dtid, request, destination, node);
  }
}
