/** What a send answers and what it puts on the bus, in bare numbers. */
module Sends {
  import opened Types
  import opened CanId
  import opened Fragment
  import opened CrcRegister
  import opened Crc
  import opened RxBuffer
  import opened Receiver
  import opened TxQueue
  import opened Library
  import opened EndToEnd
  import opened Service
  import opened SignatureBits
  import opened Wire

  // ---------------------------------------------------------------- return codes

  lemma {:induction false} NextTidNumber(t: byte)
    ensures Incremented(t) as nat == if t as nat < 31 then t as nat + 1 else 0
  {
  }

  /** The frames that a payload of `n` bytes takes: one for up to seven bytes, else one with five and more with up to
      seven each. */
  function Needed(n: nat): nat {
    if n < 8 then 1 else 1 + (n - 5 + 6) / 7
  }

  /** What queueing answers: the number of frames, or -3 when there are not enough free blocks for them. */
  function Queueing(p: Pool, n: nat): int {
    if Needed(n) <= p.capacity - p.usage then Needed(n) else -3
  }

  lemma {:induction false} EnqueueAnswer(n: Node, id: bv32, tid: byte, crc: bv16, payload: seq<byte>)
    requires n.pool.usage <= n.pool.capacity
    ensures Enqueue(n, Frames(id, tid, crc, payload)).1 == Queueing(n.pool, |payload|)
  {
    CountFrames(id, tid, crc, payload);
    hide Frames;
    hide InsertAll;
  }

  /** What a broadcast answers: -2 for a priority above 31, or for a type above 3 from a node without an address; -4 for
      more than seven bytes from such a node; otherwise what queueing answers. Only in the last case the transfer ID is
      taken, whether or not there were blocks. */
  function MessageCode(n: Node, dtid: nat, priority: nat, length: nat): int {
    if priority > 31 then -2
    else if n.nodeId as nat == 0 && length > 7 then -4
    else if n.nodeId as nat == 0 && dtid > 3 then -2
    else Queueing(n.pool, length)
  }

  function NextNumber(t: nat): nat {
    if t < 31 then t + 1 else 0
  }

  predicate BeyondLowest(priority: byte) {
    priority > PRIORITY_LOWEST
  }

  lemma {:induction false} BeyondNumber(priority: byte)
    ensures BeyondLowest(priority) <==> priority as nat > 31
  {
  }

  predicate Wide(dtid: bv16) {
    dtid & 3 != dtid
  }

  lemma {:induction false} WideNumber(dtid: bv16)
    ensures Wide(dtid) <==> dtid as nat > 3
  {
  }

  predicate Anonymous(n: Node) {
    n.nodeId == 0
  }

  lemma {:induction false} AnonymousAddress(n: Node)
    ensures Anonymous(n) <==> n.nodeId as nat == 0
  {
  }

  lemma {:induction false} MessageCases(n: Node, signature: bv64, dtid: bv16, tid: byte, priority: byte,
                                        payload: seq<byte>)
    requires n.pool.usage <= n.pool.capacity
    ensures var s := SendMessage(n, signature, dtid, tid, priority, payload);
      if BeyondLowest(priority) || (Anonymous(n) && |payload| <= 7 && Wide(dtid)) then s == Sent(n, tid, -2)
      else if Anonymous(n) && |payload| > 7 then s == Sent(n, tid, -4)
      else s.code == Queueing(n.pool, |payload|) && s.tid == Incremented(tid)
  {
    if n.nodeId == 0 {
      EnqueueAnswer(n, AnonymousIdOf(priority, dtid, payload), tid, 0xFFFF, payload);
    } else {
      EnqueueAnswer(n, MessageId(priority, dtid, n.nodeId) | EFF, tid, CalculateCrc(signature, payload), payload);
    }
    hide Enqueue;
    hide Frames;
    hide Incremented;
    hide AnonymousIdOf;
    hide MessageId;
    hide CalculateCrc;
    hide CrcAdd;
  }

  /** The code of a broadcast, and the transfer ID after it; what is refused leaves the node as it was. */
  lemma {:induction false} MessageAnswer(n: Node, signature: bv64, dtid: bv16, tid: byte, priority: byte,
                                         payload: seq<byte>)
    requires n.pool.usage <= n.pool.capacity
    ensures var s := SendMessage(n, signature, dtid, tid, priority, payload);
      var code := MessageCode(n, dtid as nat, priority as nat, |payload|);
      && s.code == code && s.tid as nat == (if code == -2 || code == -4 then tid as nat else NextNumber(tid as nat))
      && (code == -2 || code == -4 ==> s.node == n)
  {
    NextTidNumber(tid);
    hide *;
    BeyondNumber(priority);
    WideNumber(dtid);
    AnonymousAddress(n);
    MessageCases(n, signature, dtid, tid, priority, payload);
    MessageCodeIs(n, dtid as nat, priority as nat, |payload|);
    NextIs(tid);
  }

  lemma {:induction false} NextIs(tid: byte)
    ensures Incremented(tid) as nat == NextNumber(tid as nat)
  {
    NextTidNumber(tid);
    hide Incremented;
  }

  lemma {:induction false} MessageCodeIs(n: Node, dtid: nat, priority: nat, length: nat)
    ensures MessageCode(n, dtid, priority, length) == if priority > 31 then -2
      else if n.nodeId as nat == 0 && length > 7 then -4 else if n.nodeId as nat == 0 && dtid > 3 then -2
      else Queueing(n.pool, length)
    ensures Queueing(n.pool, length) > 0 || Queueing(n.pool, length) == -3
  {
  }

  /** The code of a service transfer, and the transfer ID after it: only requests take one. */
  lemma {:induction false} ServiceAnswer(n: Node, destination: byte, signature: bv64, dtid: byte, tid: byte,
                                         priority: byte, request: bool, payload: seq<byte>)
    requires n.pool.usage <= n.pool.capacity
    ensures var s := SendService(n, destination, signature, dtid, tid, priority, request, payload);
      && s.code == (if priority as nat > 31 then -2 else if n.nodeId as nat == 0 then -4
                    else Queueing(n.pool, |payload|))
      && s.tid as nat == (if request && priority as nat <= 31 && n.nodeId as nat != 0 then NextNumber(tid as nat)
                          else tid as nat)
  {
    hide *;
    BeyondNumber(priority);
    AnonymousAddress(n);
    ServiceCases(n, destination, signature, dtid, tid, priority, request, payload);
    NextIs(tid);
  }

  lemma {:induction false} ServiceCases(n: Node, destination: byte, signature: bv64, dtid: byte, tid: byte,
                                        priority: byte, request: bool, payload: seq<byte>)
    requires n.pool.usage <= n.pool.capacity
    ensures var s := SendService(n, destination, signature, dtid, tid, priority, request, payload);
      if BeyondLowest(priority) then s == Sent(n, tid, -2)
      else if Anonymous(n) then s == Sent(n, tid, -4)
      else s.code == Queueing(n.pool, |payload|) && s.tid == if request then Incremented(tid) else tid
  {
    ServiceQueueing(n, destination, signature, dtid, tid, priority, request, payload);
    hide Enqueue;
    hide ServiceFrames;
    hide Incremented;
    hide Queueing;
  }

  lemma {:induction false} ServiceQueueing(n: Node, destination: byte, signature: bv64, dtid: byte, tid: byte,
                                           priority: byte, request: bool, payload: seq<byte>)
    requires n.pool.usage <= n.pool.capacity
    ensures Enqueue(n, ServiceFrames(n.nodeId, destination, signature, dtid, tid, priority, request, payload)).1
         == Queueing(n.pool, |payload|)
  {
    EnqueueAnswer(n, ServiceId(priority, dtid, request, destination, n.nodeId) | EFF, tid,
                  CalculateCrc(signature, payload), payload);
    hide Enqueue;
    hide Frames;
    hide ServiceId;
    hide CalculateCrc;
  }

  // ---------------------------------------------------------------- what stays queued

  /** The frames that find a block. */
  function Placed(p: Pool, n: nat): int {
    if Needed(n) <= p.capacity - p.usage then Needed(n) else p.capacity - p.usage
  }

  /** A send that is not refused queues as many of its frames as find a block, and each takes one. */
  lemma {:induction false} QueueGrows(n: Node, id: bv32, tid: byte, crc: bv16, payload: seq<byte>)
    requires n.pool.usage <= n.pool.capacity
    ensures var m, k := Enqueue(n, Frames(id, tid, crc, payload)).0, Placed(n.pool, |payload|);
      && |m.tx| == |n.tx| + k && m.pool.usage == n.pool.usage + k && m.rx == n.rx && m.nodeId == n.nodeId
  {
    var frames := Frames(id, tid, crc, payload);
    CountFrames(id, tid, crc, payload);
    CountIs(|payload|);
    InsertAllContents(n.tx, frames[..Affordable(n.pool, |frames|)]);
    hide Frames;
    hide InsertAll;
    hide FrameCount;
  }

  /** A broadcast with an address, however it ends. */
  lemma {:induction false} MessageQueues(n: Node, signature: bv64, dtid: bv16, tid: byte, priority: byte,
                                         payload: seq<byte>)
    requires n.pool.usage <= n.pool.capacity
    ensures var s := SendMessage(n, signature, dtid, tid, priority, payload);
      var k := if s.code == -2 || s.code == -4 then 0 else Placed(n.pool, |payload|);
      |s.node.tx| == |n.tx| + k && s.node.pool.usage == n.pool.usage + k && s.node.rx == n.rx
  {
    MessageCases(n, signature, dtid, tid, priority, payload);
    if !BeyondLowest(priority) {
      if Anonymous(n) {
        AnonymousQueues(n, priority, dtid, tid, payload);
      } else {
        QueueGrows(n, MessageId(priority, dtid, n.nodeId) | EFF, tid, CalculateCrc(signature, payload), payload);
      }
    }
    hide Enqueue;
    hide Frames;
    hide MessageId;
    hide CalculateCrc;
    hide AnonymousFrames;
    hide Placed;
    hide Wide;
  }

  lemma {:induction false} AnonymousQueues(n: Node, priority: byte, dtid: bv16, tid: byte, payload: seq<byte>)
    requires n.pool.usage <= n.pool.capacity
    ensures var m, k := Enqueue(n, AnonymousFrames(priority, dtid, tid, payload)).0, Placed(n.pool, |payload|);
      |m.tx| == |n.tx| + k && m.pool.usage == n.pool.usage + k && m.rx == n.rx
  {
    hide *;
    var id, unused := AnonymousMade(priority, dtid, tid, payload);
    QueueGrows(n, id, tid, unused, payload);
  }

  lemma {:induction false} AnonymousMade(priority: byte, dtid: bv16, tid: byte, payload: seq<byte>)
    returns (id: bv32, unused: bv16)
    ensures AnonymousFrames(priority, dtid, tid, payload) == Frames(id, tid, unused, payload)
    ensures id == AnonymousIdOf(priority, dtid, payload)
  {
    id, unused := AnonymousIdOf(priority, dtid, payload), 0xFFFF;
    hide AnonymousIdOf;
    hide CrcAdd;
    hide Frames;
  }

  // ---------------------------------------------------------------- frames

  /** What the frames of a transfer say: all have this identifier; a short payload is one frame with the payload and a
      tail byte with start and end set; of a longer one the first frame has the CRC, low byte first, five bytes, and a
      tail byte with start set. */
  predicate OnBus(fs: seq<Frame>, id: nat, crc: nat, tid: byte, payload: seq<byte>) {
    && (forall f | f in fs :: f.id as nat == id)
    && |fs| == Needed(|payload|)
    && (if |payload| < 8 then
          |fs[0].data| == |payload| + 1 && fs[0].data[..|payload|] == payload
          && fs[0].data[|payload|] as nat == 192 + tid as nat % 32
        else
          |fs[0].data| == 8 && fs[0].data[0] as nat + 0x100 * fs[0].data[1] as nat == crc
          && fs[0].data[2..7] == payload[..5] && fs[0].data[7] as nat == 128 + tid as nat % 32)
  }

  lemma {:induction false} FramesOnBus(id: bv32, tid: byte, crc: bv16, payload: seq<byte>, n: nat, c: nat)
    requires id as nat == n && (|payload| >= 8 ==> crc as nat == c)
    ensures OnBus(Frames(id, tid, crc, payload), n, c, tid, payload)
  {
    FramesHaveId(id, tid, crc, payload);
    CountFrames(id, tid, crc, payload);
    if |payload| < 8 {
      ShortFrame(id, tid, crc, payload);
    } else {
      FirstFrameBytes(id, tid, crc, payload);
    }
    hide Frames;
    hide FrameCount;
    CountIs(|payload|);
  }

  lemma {:induction false} CountIs(n: nat)
    ensures FrameCount(n) == Needed(n)
  {
  }

  lemma {:induction false} ShortFrame(id: bv32, tid: byte, crc: bv16, payload: seq<byte>)
    requires |payload| < 8
    ensures var fs := Frames(id, tid, crc, payload);
      && |fs| == 1 && |fs[0].data| == |payload| + 1 && fs[0].data[..|payload|] == payload
      && fs[0].data[|payload|] as nat == 192 + tid as nat % 32
  {
    hide TailByte;
    TailNumber(true, true, false, tid);
  }

  lemma {:induction false} LongCrc(signature: bv64, payload: seq<byte>)
    requires |payload| >= 8
    ensures CalculateCrc(signature, payload) == CrcBits(0xFFFF, SignatureInBits(signature) + Bits(payload))
  {
    TransferCrcIsBitwise(signature, payload);
    hide TransferCrc;
    hide SignatureInBits;
    hide Bits;
    hide CrcBits;
  }

  /** The CRC that a transfer of more than seven bytes carries, as a number. */
  function CarriedNumber(signature: bv64, payload: seq<byte>): nat {
    CrcBits(0xFFFF, SignatureInBits(signature) + Bits(payload)) as nat
  }

  lemma {:induction false} LongCrcNumber(signature: bv64, payload: seq<byte>)
    ensures |payload| >= 8 ==> CalculateCrc(signature, payload) as nat == CarriedNumber(signature, payload)
  {
    if |payload| >= 8 {
      LongCrc(signature, payload);
    }
    hide CalculateCrc;
    hide CrcBits;
  }

  /** A broadcast: flag, priority, type and source in the identifier, and the bit-by-bit CRC of signature and payload.
      */
  lemma {:induction false} MessageOnBus(nodeId: byte, signature: bv64, dtid: bv16, tid: byte, priority: byte,
                                        payload: seq<byte>)
    requires priority < 32
    ensures OnBus(MessageFrames(nodeId, signature, dtid, tid, priority, payload),
                  0x8000_0000 + priority as nat * 0x100_0000 + dtid as nat * 0x100 + nodeId as nat,
                  CarriedNumber(signature, payload), tid, payload)
  {
    MessageNumber(priority, dtid, nodeId);
    LongCrcNumber(signature, payload);
    FramesOnBus(MessageId(priority, dtid, nodeId) | EFF, tid, CalculateCrc(signature, payload), payload,
                0x8000_0000 + priority as nat * 0x100_0000 + dtid as nat * 0x100 + nodeId as nat,
                CarriedNumber(signature, payload));
    hide OnBus;
    hide Frames;
    hide MessageId;
    hide CalculateCrc;
    hide CarriedNumber;
  }

  /** Flag, priority, type, request bit, destination, service bit and source. */
  function ServiceWord(nodeId: byte, destination: byte, dtid: byte, priority: byte, request: bool): nat {
    0x8000_0000 + priority as nat * 0x100_0000 + dtid as nat * 0x1_0000 + Bit(request) * 0x8000
    + destination as nat * 0x100 + 0x80 + nodeId as nat
  }

  /** A service transfer. */
  lemma {:induction false} ServiceOnBus(nodeId: byte, destination: byte, signature: bv64, dtid: byte, tid: byte,
                                        priority: byte, request: bool, payload: seq<byte>)
    requires priority < 32 && destination < 128 && nodeId < 128
    ensures OnBus(ServiceFrames(nodeId, destination, signature, dtid, tid, priority, request, payload),
                  ServiceWord(nodeId, destination, dtid, priority, request), CarriedNumber(signature, payload), tid,
                  payload)
  {
    ServiceNumber(priority, dtid, request, destination, nodeId);
    LongCrcNumber(signature, payload);
    FramesOnBus(ServiceId(priority, dtid, request, destination, nodeId) | EFF, tid, CalculateCrc(signature, payload),
                payload, ServiceWord(nodeId, destination, dtid, priority, request), CarriedNumber(signature, payload));
    hide OnBus;
    hide Frames;
    hide ServiceId;
    hide CalculateCrc;
    hide CarriedNumber;
  }

  /** The payload's CRC, without a signature. */
  function PayloadNumber(payload: seq<byte>): nat {
    CrcBits(0xFFFF, Bits(payload)) as nat
  }

  lemma {:induction false} PayloadCrc(payload: seq<byte>)
    ensures CrcAdd(0xFFFF, payload) as nat == PayloadNumber(payload)
  {
    CrcAddIsBitwise(0xFFFF, payload);
    hide CrcAdd;
    hide CrcBits;
  }

  /** Source zero, two bits of data type, and bits 1 to 14 of the bit-by-bit CRC of the payload. */
  function AnonymousWord(priority: byte, dtid: bv16, payload: seq<byte>): nat {
    0x8000_0000 + priority as nat * 0x100_0000 + PayloadNumber(payload) / 2 % 0x4000 * 0x400 + dtid as nat % 4 * 0x100
  }

  lemma {:induction false} AnonymousIdNumber(priority: byte, dtid: bv16, payload: seq<byte>)
    requires priority < 32
    ensures AnonymousIdOf(priority, dtid, payload) as nat == AnonymousWord(priority, dtid, payload)
  {
    hide *;
    PayloadCrc(payload);
    IdWithCrc(priority, dtid, payload, CrcAdd(0xFFFF, payload));
    WordIs(priority, dtid, payload);
  }

  lemma {:induction false} IdWithCrc(priority: byte, dtid: bv16, payload: seq<byte>, crc: bv16)
    requires priority < 32 && crc == CrcAdd(0xFFFF, payload)
    ensures AnonymousIdOf(priority, dtid, payload) as nat
         == 0x8000_0000 + priority as nat * 0x100_0000 + crc as nat / 2 % 0x4000 * 0x400 + dtid as nat % 4 * 0x100
  {
    assert AnonymousIdOf(priority, dtid, payload) == AnonymousId(priority, dtid, crc & 0x7FFE) | EFF;
    hide *;
    AnonymousNumber(priority, dtid, crc);
  }

  lemma {:induction false} WordIs(priority: byte, dtid: bv16, payload: seq<byte>)
    ensures AnonymousWord(priority, dtid, payload) == 0x8000_0000 + priority as nat * 0x100_0000
                                                      + PayloadNumber(payload) / 2 % 0x4000 * 0x400
                                                      + dtid as nat % 4 * 0x100
  {
    hide PayloadNumber;
  }

  /** An anonymous broadcast is one frame under that identifier. */
  lemma {:induction false} AnonymousOnBus(priority: byte, dtid: bv16, tid: byte, payload: seq<byte>)
    requires priority < 32 && |payload| <= 7
    ensures OnBus(AnonymousFrames(priority, dtid, tid, payload), AnonymousWord(priority, dtid, payload), 0, tid,
                  payload)
  {
    hide *;
    var id, unused := AnonymousMade(priority, dtid, tid, payload);
    AnonymousIdNumber(priority, dtid, payload);
    FramesOnBus(id, tid, unused, payload, AnonymousWord(priority, dtid, payload), 0);
  }
}
