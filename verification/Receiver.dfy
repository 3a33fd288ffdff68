/** The receive state machine: what one frame does to the state of its transfer descriptor, and to the node. */
module Receiver {
  import opened Types
  import opened CanId
  import opened Crc
  import opened Fragment
  import opened RxBuffer

  // ---------------------------------------------------------------- return codes

  const OK := 0
  const OUT_OF_MEMORY := 3
  const RX_INCOMPATIBLE_PACKET := 10
  const RX_WRONG_ADDRESS := 11
  const RX_NOT_WANTED := 12
  const RX_MISSED_START := 13
  const RX_WRONG_TOGGLE := 14
  const RX_UNEXPECTED_TID := 15
  const RX_SHORT_FRAME := 16
  const RX_BAD_CRC := 17

  const TRANSFER_TIMEOUT_USEC := 2000000

  // ---------------------------------------------------------------- data

  /** A received transfer, its payload scattered over head, middle and tail; an empty tail is the NULL pointer. */
  datatype Transfer = Transfer(timestamp: Timestamp, head: seq<byte>, middle: seq<Block>, tail: seq<byte>,
                               payloadLen: nat, dataTypeId: bv16, ttype: TransferType, transferId: byte, priority: byte,
                               source: byte)

  /** The bytes of a transfer, wherever they are stored. */
  function Stored(t: Transfer): seq<byte> {
    t.head + Flat(t.middle) + t.tail
  }

  /** The storage holds exactly the announced number of bytes, up to the unused end of the last place written. */
  predicate WellStored(t: Transfer) {
    if t.middle == [] && t.tail == [] then t.payloadLen <= |t.head|
    else
      && |t.head| == HEAD_SIZE
      && (if t.tail == [] then BLOCK_SIZE * (|t.middle| - 1) <= t.payloadLen - HEAD_SIZE <= BLOCK_SIZE * |t.middle|
          else t.payloadLen == HEAD_SIZE + BLOCK_SIZE * |t.middle| + |t.tail|)
  }

  /** The storage reaches as far as the announced number of bytes. Deliveries on leftover blocks, and those whose length
      has wrapped, have more of it. */
  predicate Stocked(t: Transfer) {
    if t.middle == [] && t.tail == [] then t.payloadLen <= |t.head|
    else |t.head| == HEAD_SIZE && t.payloadLen <= |Stored(t)|
  }

  function Payload(t: Transfer): (r: seq<byte>)
    requires Stocked(t)
    ensures |r| == t.payloadLen
  {
    Stored(t)[..t.payloadLen]
  }

  /** What freshly allocated memory happens to hold. */
  datatype Junk = Junk(head: Head, block: Block)

  datatype Event = Event(frame: Frame, now: Timestamp, junk: Junk)

  /** `should_accept`: the signature of a wanted transfer. */
  type Acceptance = (bv16, TransferType, byte) -> Option<bv64>

  // ---------------------------------------------------------------- one state, one frame

  function Elapsed(now: Timestamp, since: Timestamp): nat {
    if now >= since then now - since else now + TWO_64 - since
  }

  predicate TimedOut(s: RxState, now: Timestamp) {
    Elapsed(now, s.core.timestamp) > TRANSFER_TIMEOUT_USEC
  }

  function ForwardDistance(a: byte, b: byte): byte {
    (a - b) & 0x1F
  }

  predicate NotPreviousTid(s: RxState, tail: byte) {
    ForwardDistance(s.core.transferId, TransferIdOf(tail)) > 1
  }

  predicate NeedsRestart(s: RxState, tail: byte, now: Timestamp) {
    || s.core.timestamp == 0
    || TimedOut(s, now)
    || (IsStart(tail) && NotPreviousTid(s, tail))
  }

  function NextTid(tid: byte): byte {
    (tid + 1) & 0x1F
  }

  /** `prepareForNextTransfer`; the source asserts that no block is held. */
  function ForNext(s: RxState): RxState {
    s.(core := s.core.(transferId := NextTid(s.core.transferId), payloadLen := 0, nextToggle := false))
  }

  function Released(s: RxState): RxState {
    RxState(s.core.(payloadLen := 0), [])
  }

  function Restarted(s: RxState, tail: byte): RxState {
    RxState(s.core.(transferId := TransferIdOf(tail), nextToggle := false, payloadLen := 0), [])
  }

  datatype Outcome = Outcome(code: int, state: RxState, pool: Pool, delivered: Option<Transfer>)

  function MakeTransfer(f: Frame, timestamp: Timestamp, head: seq<byte>, middle: seq<Block>, tail: seq<byte>,
                        len: nat): Transfer
    requires f.data != []
  {
    Transfer(timestamp, head, middle, tail, len, DataTypeOf(f.id), TypeOf(f.id), TransferIdOf(TailOf(f)),
             PriorityOf(f.id), SourceOf(f.id))
  }

  function ReceiveSingle(s: RxState, pool: Pool, f: Frame, now: Timestamp): Outcome
    requires f.data != []
  {
    Outcome(OK, ForNext(s.(core := s.core.(timestamp := now))), pool,
            Some(MakeTransfer(f, now, f.data, [], [], |f.data| - 1)))
  }

  /** Storing a chunk of a multi-frame transfer; without memory the whole transfer is dropped. */
  function Store(s: RxState, pool: Pool, chunk: seq<byte>, payloadCrc: bv16, junk: Junk): Outcome {
    var p := PushBytes(s, chunk, pool, junk.block);
    if !p.ok then Outcome(OUT_OF_MEMORY, ForNext(Released(p.state)), p.pool.Return(|p.state.blocks|), None)
    else
      var core := p.state.core;
      Outcome(OK, p.state.(core := core.(payloadCrc := payloadCrc, calculatedCrc := CrcAdd(core.calculatedCrc, chunk),
                                         nextToggle := !core.nextToggle)), p.pool, None)
  }

  /** The transfer CRC comes first, low byte first. */
  function CarriedCrc(f: Frame): bv16
    requires |f.data| >= 2
  {
    (f.data[0] as bv16) | ((f.data[1] as bv16) << 8)
  }

  function ReceiveFirst(s: RxState, pool: Pool, f: Frame, now: Timestamp, junk: Junk): Outcome
    requires f.data != []
  {
    if |f.data| <= 3 then Outcome(-RX_SHORT_FRAME, s, pool, None)
    else
      Store(s.(core := s.core.(timestamp := now)), pool, f.data[2..|f.data| - 1], CarriedCrc(f), junk)
  }

  function ReceiveMiddle(s: RxState, pool: Pool, f: Frame, junk: Junk): Outcome
    requires f.data != []
  {
    Store(s, pool, f.data[..|f.data| - 1], s.core.payloadCrc, junk)
  }

  /** The position in the last block where the final frame continues; beyond the block when the unsigned subtraction
      wraps. */
  function SpliceIndex(s: RxState): nat
    requires s.blocks != []
  {
    var offset := HEAD_SIZE + BLOCK_SIZE * (|s.blocks| - 1);
    if s.core.payloadLen >= offset then s.core.payloadLen - offset
    else s.core.payloadLen + 0x1_0000_0000 - offset % 0x1_0000_0000
  }

  /** The start of the final frame goes into the head or the last block, the rest stays in the frame. */
  datatype Spliced = Spliced(head: Head, blocks: seq<Block>, tail: seq<byte>)

  function Splice(s: RxState, chunk: seq<byte>): Spliced {
    if s.core.payloadLen < HEAD_SIZE then
      Spliced(Overlay(s.core.head, s.core.payloadLen, chunk), s.blocks,
              chunk[Room(HEAD_SIZE, s.core.payloadLen, |chunk|)..])
    else if s.blocks == [] then Spliced(s.core.head, [], chunk)
    else
      var at, last := SpliceIndex(s), |s.blocks| - 1;
      Spliced(s.core.head, s.blocks[last := Overlay(s.blocks[last], at, chunk)], chunk[Room(BLOCK_SIZE, at, |chunk|)..])
  }

  function ReceiveLast(s: RxState, pool: Pool, f: Frame, now: Timestamp): Outcome
    requires f.data != []
  {
    var chunk := f.data[..|f.data| - 1];
    var sp := Splice(s, chunk);
    var t := MakeTransfer(f, now, sp.head, sp.blocks, sp.tail, s.core.payloadLen + |chunk|);
    var crc := CrcAdd(s.core.calculatedCrc, chunk);
    var state := ForNext(RxState(s.core.(head := sp.head, calculatedCrc := crc), []));
    var good := crc == s.core.payloadCrc;
    Outcome(if good then OK else RX_BAD_CRC, state, pool.Return(|s.blocks|), if good then Some(t) else None)
  }

  /** After the restart rule. */
  function Proceed(s: RxState, pool: Pool, f: Frame, now: Timestamp, junk: Junk): Outcome
    requires f.data != []
  {
    var tail := TailOf(f);
    if IsStart(tail) && IsEnd(tail) then ReceiveSingle(s, pool, f, now)
    else if Toggle(tail) != s.core.nextToggle then Outcome(-RX_WRONG_TOGGLE, s, pool, None)
    else if TransferIdOf(tail) != s.core.transferId then Outcome(-RX_UNEXPECTED_TID, s, pool, None)
    else if IsStart(tail) then ReceiveFirst(s, pool, f, now, junk)
    else if !IsEnd(tail) then ReceiveMiddle(s, pool, f, junk)
    else ReceiveLast(s, pool, f, now)
  }

  function Receive(s: RxState, pool: Pool, f: Frame, now: Timestamp, junk: Junk): Outcome
    requires f.data != []
  {
    var tail := TailOf(f);
    if !NeedsRestart(s, tail, now) then Proceed(s, pool, f, now, junk)
    else if IsStart(tail) then Proceed(Restarted(s, tail), pool.Return(|s.blocks|), f, now, junk)
    else
      var r := Restarted(s, tail);
      Outcome(-RX_MISSED_START, r.(core := r.core.(transferId := NextTid(r.core.transferId))), pool.Return(|s.blocks|),
              None)
  }

  // ---------------------------------------------------------------- one descriptor, one frame

  predicate Compatible(f: Frame) {
    f.id & EFF != 0 && f.id & RTR == 0 && f.id & ERR == 0 && |f.data| >= 1
  }

  predicate Addressed(f: Frame, nodeId: byte) {
    TypeOf(f.id) == Broadcast || DestinationOf(f.id) == nodeId
  }

  function Signature(accept: Acceptance, id: bv32): Option<bv64> {
    accept(DataTypeOf(id), TypeOf(id), SourceOf(id))
  }

  function NewState(descriptor: bv32, junk: Junk): RxState {
    RxState(RxCore(descriptor, 0, 0, 0, 0, false, 0, junk.head), [])
  }

  /** What the receiver keeps about one descriptor, and what it says. */
  datatype Reply = Reply(code: int, view: Option<RxState>, pool: Pool, delivered: Option<Transfer>)

  function FromOutcome(o: Outcome): Reply {
    Reply(o.code, Some(o.state), o.pool, o.delivered)
  }

  function WithCrc(s: RxState, crc: bv16): RxState {
    s.(core := s.core.(calculatedCrc := crc))
  }

  /** The state a start frame works on, created if there is none. */
  function Opened(view: Option<RxState>, id: bv32, signature: bv64, junk: Junk): RxState {
    WithCrc(if view.Some? then view.value else NewState(DescriptorOf(id), junk), SignatureCrc(signature))
  }

  function OnFrame(view: Option<RxState>, pool: Pool, nodeId: byte, e: Event, accept: Acceptance): Reply {
    var f := e.frame;
    if !Compatible(f) then Reply(-RX_INCOMPATIBLE_PACKET, view, pool, None)
    else if !Addressed(f, nodeId) then Reply(-RX_WRONG_ADDRESS, view, pool, None)
    else if IsStart(TailOf(f)) then
      match Signature(accept, f.id)
      case None => Reply(-RX_NOT_WANTED, view, pool, None)
      case Some(signature) =>
        if view.None? && pool.Full() then Reply(-OUT_OF_MEMORY, view, pool, None)
        else FromOutcome(Receive(Opened(view, f.id, signature, e.junk), if view.Some? then pool else pool.Take(), f,
                                 e.now, e.junk))
    else
      match view
      case None => Reply(-RX_MISSED_START, view, pool, None)
      case Some(s) => FromOutcome(Receive(s, pool, f, e.now, e.junk))
  }

  // ---------------------------------------------------------------- the node

  /** The state of a library instance. */
  datatype Node = Node(nodeId: byte, pool: Pool, tx: seq<Frame>, rx: seq<RxState>)

  /** The position of a descriptor in the list, or its length. */
  function IndexOf(rx: seq<RxState>, d: bv32): (i: nat)
    ensures i <= |rx|
    ensures i < |rx| ==> rx[i].core.descriptor == d
    ensures forall j | 0 <= j < i :: rx[j].core.descriptor != d
  {
    if rx == [] then 0 else if rx[0].core.descriptor == d then 0 else 1 + IndexOf(rx[1..], d)
  }

  function Lookup(rx: seq<RxState>, d: bv32): Option<RxState> {
    var i := IndexOf(rx, d);
    if i < |rx| then Some(rx[i]) else None
  }

  /** Replacing the state of a descriptor, or prepending a new one. */
  function Update(rx: seq<RxState>, d: bv32, view: Option<RxState>): seq<RxState> {
    var i := IndexOf(rx, d);
    match view
    case None => rx
    case Some(s) => if i < |rx| then rx[i := s] else [s] + rx
  }

  datatype Handled = Handled(code: int, node: Node, delivered: Option<Transfer>)

  function HandleRx(n: Node, e: Event, accept: Acceptance): Handled {
    var d := DescriptorOf(e.frame.id);
    var r := OnFrame(Lookup(n.rx, d), n.pool, n.nodeId, e, accept);
    Handled(r.code, n.(pool := r.pool, rx := Update(n.rx, d, r.view)), r.delivered)
  }
}
