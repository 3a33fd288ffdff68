/** The calls of the library on a node: sending, taking frames off the queue, receiving, and cleaning up. */
module Library {
  import opened Types
  import opened CanId
  import opened Crc
  import opened Fragment
  import opened RxBuffer
  import opened Receiver
  import opened TxQueue

  const INVALID_ARGUMENT := 2
  const NODE_ID_NOT_SET := 4
  const PRIORITY_LOWEST: byte := 31

  // ---------------------------------------------------------------- sending

  datatype Sent = Sent(node: Node, tid: byte, code: int)

  /** `incrementTransferID`: an eight-bit increment, wrapping at 32. */
  function Incremented(tid: byte): byte {
    if tid + 1 >= 32 then 0 else tid + 1
  }

  /** The transfer ID after `n` sends. */
  function Advanced(tid: byte, n: nat): byte
    decreases n
  {
    if n == 0 then tid else Incremented(Advanced(tid, n - 1))
  }

  function TakeMany(p: Pool, n: nat): Pool {
    p.(usage := p.usage + n, peak := if n > 0 then Max(p.peak, p.usage + n) else p.peak)
  }

  /** As many of `n` blocks as are free. */
  function Affordable(p: Pool, n: nat): nat {
    if p.Full() then 0 else Min(n, p.capacity - p.usage)
  }

  /** Frames enter the queue one by one as long as blocks can be had; what has been queued stays queued. */
  function Enqueue(n: Node, frames: seq<Frame>): (Node, int) {
    var k := Affordable(n.pool, |frames|);
    (n.(tx := InsertAll(n.tx, frames[..k]), pool := TakeMany(n.pool, k)),
     if k == |frames| then |frames| else -OUT_OF_MEMORY)
  }

  /** The CRC of single-frame transfers is not computed, and not sent. */
  function CalculateCrc(signature: bv64, payload: seq<byte>): bv16 {
    if |payload| > 7 then TransferCrc(signature, payload) else 0xFFFF
  }

  /** An anonymous node has identifier zero; the payload CRC keeps the identifiers of different senders apart. */
  function AnonymousIdOf(priority: byte, dtid: bv16, payload: seq<byte>): bv32 {
    AnonymousId(priority, dtid, CrcAdd(0xFFFF, payload) & 0x7FFE) | EFF
  }

  function AnonymousFrames(priority: byte, dtid: bv16, tid: byte, payload: seq<byte>): seq<Frame> {
    Frames(AnonymousIdOf(priority, dtid, payload), tid, 0xFFFF, payload)
  }

  function MessageFrames(nodeId: byte, signature: bv64, dtid: bv16, tid: byte, priority: byte,
                         payload: seq<byte>): seq<Frame> {
    Frames(MessageId(priority, dtid, nodeId) | EFF, tid, CalculateCrc(signature, payload), payload)
  }

  function ServiceFrames(nodeId: byte, destination: byte, signature: bv64, dtid: byte, tid: byte, priority: byte,
                         request: bool, payload: seq<byte>): seq<Frame> {
    Frames(ServiceId(priority, dtid, request, destination, nodeId) | EFF, tid, CalculateCrc(signature, payload),
           payload)
  }

  function SendMessage(n: Node, signature: bv64, dtid: bv16, tid: byte, priority: byte, payload: seq<byte>): Sent {
    if priority > PRIORITY_LOWEST then Sent(n, tid, -INVALID_ARGUMENT)
    else if n.nodeId == 0 then
      if |payload| > 7 then Sent(n, tid, -NODE_ID_NOT_SET)
      else if dtid & 3 != dtid then Sent(n, tid, -INVALID_ARGUMENT)
      else
        var (node, code) := Enqueue(n, AnonymousFrames(priority, dtid, tid, payload));
        Sent(node, Incremented(tid), code)
    else
      var (node, code) := Enqueue(n, MessageFrames(n.nodeId, signature, dtid, tid, priority, payload));
      Sent(node, Incremented(tid), code)
  }

  function SendService(n: Node, destination: byte, signature: bv64, dtid: byte, tid: byte, priority: byte,
                       request: bool, payload: seq<byte>): Sent {
    if priority > PRIORITY_LOWEST then Sent(n, tid, -INVALID_ARGUMENT)
    else if n.nodeId == 0 then Sent(n, tid, -NODE_ID_NOT_SET)
    else
      var (node, code) := Enqueue(n, ServiceFrames(n.nodeId, destination, signature, dtid, tid, priority, request,
                                                   payload));
      Sent(node, if request then Incremented(tid) else tid, code)
  }

  function PopTx(n: Node): Node {
    if n.tx == [] then n else n.(tx := n.tx[1..], pool := n.pool.Return(1))
  }

  // ---------------------------------------------------------------- cleaning up

  /** The states that have not timed out, in their order. */
  function Live(rx: seq<RxState>, now: Timestamp): seq<RxState> {
    if rx == [] then [] else if TimedOut(rx[0], now) then Live(rx[1..], now) else [rx[0]] + Live(rx[1..], now)
  }

  /** The blocks of the states that have timed out, with their chains. */
  function StaleBlocks(rx: seq<RxState>, now: Timestamp): nat {
    if rx == [] then 0 else (if TimedOut(rx[0], now) then 1 + |rx[0].blocks| else 0) + StaleBlocks(rx[1..], now)
  }

  function Cleanup(n: Node, now: Timestamp): Node {
    n.(rx := Live(n.rx, now), pool := n.pool.Return(StaleBlocks(n.rx, now)))
  }

  // ---------------------------------------------------------------- any sequence of calls

  datatype Call =
    | FrameIn(event: Event)
    | Message(signature: bv64, dtid: bv16, tid: byte, priority: byte, payload: seq<byte>)
    | Service(destination: byte, signature: bv64, sdtid: byte, tid: byte, priority: byte, request: bool,
              payload: seq<byte>)
    | Pop
    | CleanUp(now: Timestamp)

  /** What a frame delivered, and under which descriptor. */
  datatype Delivery = Delivery(descriptor: bv32, delivered: Option<Transfer>)

  datatype Step = Step(node: Node, code: int, log: seq<Delivery>)

  function Perform(n: Node, c: Call, accept: Acceptance): Step {
    match c
    case FrameIn(e) =>
      var h := HandleRx(n, e, accept);
      Step(h.node, h.code, [Delivery(DescriptorOf(e.frame.id), h.delivered)])
    case Message(signature, dtid, tid, priority, payload) =>
      var s := SendMessage(n, signature, dtid, tid, priority, payload);
      Step(s.node, s.code, [])
    case Service(destination, signature, dtid, tid, priority, request, payload) =>
      var s := SendService(n, destination, signature, dtid, tid, priority, request, payload);
      Step(s.node, s.code, [])
    case Pop => Step(PopTx(n), OK, [])
    case CleanUp(now) => Step(Cleanup(n, now), OK, [])
  }

  function NewNode(capacity: nat): Node {
    Node(0, Pool(capacity, 0, 0), [], [])
  }

  predicate OutOfMemory(code: int) {
    code == OUT_OF_MEMORY || code == -OUT_OF_MEMORY
  }

  /** A run of calls: the node it leaves, what it delivered, and whether a received frame ever ran out of memory. */
  datatype Ran = Ran(node: Node, log: seq<Delivery>, starved: bool)

  function RunCalls(n: Node, calls: seq<Call>, accept: Acceptance): Ran
    decreases |calls|
  {
    if calls == [] then Ran(n, [], false)
    else
      var s := Perform(n, calls[0], accept);
      var r := RunCalls(s.node, calls[1..], accept);
      Ran(r.node, s.log + r.log, (calls[0].FrameIn? && OutOfMemory(s.code)) || r.starved)
  }
}
