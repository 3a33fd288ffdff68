/** From a send call on one node to the application of another. */
module EndToEnd {
  import opened Types
  import opened CanId
  import opened Crc
  import opened Fragment
  import opened RxBuffer
  import opened Receiver
  import opened Reassembly
  import opened RoundTrip
  import opened TxQueue
  import opened Library

  lemma {:induction false} FramesHaveId(id: bv32, tid: byte, crc: bv16, payload: seq<byte>)
    ensures forall f | f in Frames(id, tid, crc, payload) :: f.id == id
  {
    if |payload| >= 8 {
      FragmentationShape(id, tid, crc, payload);
      forall f | f in Frames(id, tid, crc, payload) ensures f.id == id {
        var k :| 0 <= k < |Frames(id, tid, crc, payload)| && Frames(id, tid, crc, payload)[k] == f;
        assert Shaped(Frames(id, tid, crc, payload)[k], id, tid, k == 0, k == |Frames(id, tid, crc, payload)| - 1,
                      k % 2 == 1);
      }
    }
  }

  /** What is queued behind the frames that had this identifier before. */
  function Behind(before: seq<Frame>, after: seq<Frame>, id: bv32): seq<Frame> {
    var k := |WithId(before, id)|;
    if k <= |WithId(after, id)| then WithId(after, id)[k..] else []
  }

  /** A send succeeds exactly if every frame finds a block, and then the transfer is queued in order behind all that has
      its identifier. */
  lemma {:induction false} EnqueueBehind(n: Node, id: bv32, tid: byte, crc: bv16, payload: seq<byte>)
    requires Sorted(n.tx)
    ensures var frames := Frames(id, tid, crc, payload); var (n', code) := Enqueue(n, frames);
      && (code >= 0 <==> |frames| <= n.pool.capacity - n.pool.usage) && Sorted(n'.tx)
      && (code >= 0 ==> code == |frames| && Behind(n.tx, n'.tx, id) == frames)
  {
    var frames := Frames(id, tid, crc, payload);
    var k := Affordable(n.pool, |frames|);
    FramesHaveId(id, tid, crc, payload);
    InsertAllStable(n.tx, frames[..k], id);
    WithIdAll(frames, id);
    assert frames[..|frames|] == frames;
    hide InsertAll;
    hide WithId;
    hide Sorted;
  }

  /** A send with an empty queue succeeds exactly if every frame finds a block, and then the queue is the transfer in
      order. */
  lemma {:induction false} EnqueueWhole(n: Node, id: bv32, tid: byte, crc: bv16, payload: seq<byte>)
    requires n.tx == []
    ensures var frames := Frames(id, tid, crc, payload); var (n', code) := Enqueue(n, frames);
      && (code >= 0 <==> |frames| <= n.pool.capacity - n.pool.usage)
      && (code >= 0 ==> code == |frames| && n'.tx == frames)
  {
    var frames := Frames(id, tid, crc, payload);
    FramesHaveId(id, tid, crc, payload);
    InsertAllSameId(frames, id);
    assert frames[..|frames|] == frames;
  }

  /** A delivery of the payload under the type, source, priority and transfer ID it was sent with. */
  predicate Arrived(d: Option<Transfer>, payload: seq<byte>, dtid: bv16, ttype: TransferType, source: byte,
                    priority: byte, tid: byte, time: Timestamp) {
    d.Some? && var t := d.value;
      && t.payloadLen == |payload| && WellStored(t) && Payload(t) == payload
      && t.dataTypeId == dtid && t.ttype == ttype && t.source == source && t.priority == priority
         && t.transferId == tid & 0x1F
      && t.timestamp == time
  }

  /** Only the last of these frames delivered. */
  ghost predicate ArrivedLast(log: seq<Option<Transfer>>, payload: seq<byte>, dtid: bv16, ttype: TransferType,
                              source: byte, priority: byte, tid: byte, time: Timestamp) {
    log != [] && Silent(log[..|log| - 1]) && Arrived(log[|log| - 1], payload, dtid, ttype, source, priority, tid, time)
  }

  /** The receiving side of a send: who listens, with what memory, and the events that bring the frames. */
  datatype Listener = Listener(view: Option<RxState>, pool: Pool, nodeId: byte, accept: Acceptance)

  ghost predicate Brings(l: Listener, events: seq<Event>, frames: seq<Frame>, tid: byte) {
    && Carries(events, frames) && events != [] && AllInTime(events, events[0].now)
    && Receptive(l.view, tid, events[0].now) && l.pool.usage + Opening(l.view) <= l.pool.capacity
  }

  lemma {:induction false} AnnouncedArrives(d: Option<Transfer>, x: Sending, dtid: bv16, ttype: TransferType,
                                            source: byte, priority: byte, time: Timestamp)
    requires d.Some? && Announces(d.value, x, time) && Reads(x.id, dtid, ttype, source, priority)
    ensures Arrived(d, x.payload, dtid, ttype, source, priority, x.tid, time)
  {
  }

  /** The listener reads these fields from the identifier, is addressed, and wants the transfer. */
  predicate Suits(l: Listener, x: Sending, dtid: bv16, ttype: TransferType, source: byte, priority: byte) {
    && Reads(x.id, dtid, ttype, source, priority) && (ttype == Broadcast || Addresses(x.id, l.nodeId))
    && l.accept(dtid, ttype, source) == Some(x.signature)
  }

  lemma {:induction false} ReadsIsWanted(l: Listener, x: Sending, dtid: bv16, ttype: TransferType, source: byte,
                                         priority: byte)
    requires Suits(l, x, dtid, ttype, source, priority)
    ensures Wanted(x, l.nodeId, l.accept)
  {
  }

  lemma {:induction false} SingleArrives(l: Listener, events: seq<Event>, x: Sending)
    requires |x.payload| < 8 && Wanted(x, l.nodeId, l.accept)
    requires Brings(l, events, Frames(x.id, x.tid, x.crc, x.payload), x.tid)
    ensures DeliversLast(Feed(l.view, l.pool, l.nodeId, events, l.accept).log, x, EndTime(events), true)
  {
    SingleDelivered(l.view, l.pool, l.nodeId, events[0], l.accept, x);
    FeedStep(l.view, l.pool, l.nodeId, events, l.accept);
    assert events[1..] == [];
  }

  /** Any transfer whose identifier the listener reads and wants. */
  lemma {:induction false} TransferArrives(l: Listener, events: seq<Event>, x: Sending, dtid: bv16, ttype: TransferType,
                                           source: byte, priority: byte)
    requires |x.payload| <= LONGEST && (|x.payload| >= 8 ==> Good(x) && HasRoom(l.pool, l.view, |x.payload|))
    requires Suits(l, x, dtid, ttype, source, priority)
    requires Brings(l, events, Frames(x.id, x.tid, x.crc, x.payload), x.tid)
    ensures ArrivedLast(Feed(l.view, l.pool, l.nodeId, events, l.accept).log, x.payload, dtid, ttype, source, priority,
                        x.tid, EndTime(events))
  {
    ReadsIsWanted(l, x, dtid, ttype, source, priority);
    var log := Feed(l.view, l.pool, l.nodeId, events, l.accept).log;
    if |x.payload| >= 8 {
      TransferDelivered(l.view, l.pool, l.nodeId, events, l.accept, x);
    } else {
      SingleArrives(l, events, x);
    }
    AnnouncedArrives(log[|log| - 1], x, dtid, ttype, source, priority, EndTime(events));
  }

  /** What a node broadcasts, the other node's application gets: every payload of 0 to 1023 bytes (and up to 1027). */
  lemma {:induction false} MessageArrives(n: Node, l: Listener, events: seq<Event>, signature: bv64, dtid: bv16,
                                          tid: byte, priority: byte, payload: seq<byte>)
    requires n.nodeId != 0 && n.nodeId < 128 && priority < 32 && Sorted(n.tx)
    requires var s := SendMessage(n, signature, dtid, tid, priority, payload);
      && s.code >= 0
      && Brings(l, events, Behind(n.tx, s.node.tx, MessageId(priority, dtid, n.nodeId) | EFF), tid)
    requires |payload| <= LONGEST && (|payload| >= 8 ==> HasRoom(l.pool, l.view, |payload|))
    requires l.accept(dtid, Broadcast, n.nodeId) == Some(signature)
    ensures ArrivedLast(Feed(l.view, l.pool, l.nodeId, events, l.accept).log, payload, dtid, Broadcast, n.nodeId,
                        priority, tid, EndTime(events))
  {
    var id := MessageId(priority, dtid, n.nodeId) | EFF;
    MessageIdReads(priority, dtid, n.nodeId);
    EnqueueBehind(n, id, tid, CalculateCrc(signature, payload), payload);
    TransferArrives(l, events, Sending(id, tid, CalculateCrc(signature, payload), payload, signature), dtid, Broadcast,
                    n.nodeId, priority);
  }

  /** An anonymous node reaches the others too, with at most seven bytes and a data type of two bits. */
  lemma {:induction false} AnonymousMessageArrives(n: Node, l: Listener, events: seq<Event>, signature: bv64,
                                                   dtid: bv16, tid: byte, priority: byte, payload: seq<byte>)
    requires n.nodeId == 0 && priority < 32 && Sorted(n.tx)
    requires var s := SendMessage(n, signature, dtid, tid, priority, payload);
      && s.code >= 0
      && Brings(l, events, Behind(n.tx, s.node.tx, AnonymousIdOf(priority, dtid, payload)), tid)
    requires l.accept(dtid, Broadcast, 0) == Some(signature)
    ensures |payload| <= 7 && dtid & 3 == dtid
    ensures ArrivedLast(Feed(l.view, l.pool, l.nodeId, events, l.accept).log, payload, dtid, Broadcast, 0, priority,
                        tid, EndTime(events))
  {
    assert |payload| <= 7 && dtid & 3 == dtid;
    var crc := CrcAdd(0xFFFF, payload);
    var id := AnonymousId(priority, dtid, crc & 0x7FFE) | EFF;
    AnonymousIdReads(priority, dtid, crc);
    EnqueueBehind(n, id, tid, 0xFFFF, payload);
    TransferArrives(l, events, Sending(id, tid, 0xFFFF, payload, signature), dtid, Broadcast, 0, priority);
  }

  lemma {:induction false} PriorityFits(priority: byte)
    requires priority < 32
    ensures !(priority > PRIORITY_LOWEST)
  {
  }

  function ServiceIdOf(priority: byte, dtid: byte, request: bool, destination: byte, node: byte): bv32 {
    ServiceId(priority, dtid, request, destination, node) | EFF
  }

  /** A request or response that was accepted whole. */
  lemma {:induction false} ServiceQueued(n: Node, destination: byte, signature: bv64, dtid: byte, tid: byte,
                                         priority: byte, request: bool, payload: seq<byte>)
    requires n.nodeId != 0 && priority < 32 && Sorted(n.tx)
    requires SendService(n, destination, signature, dtid, tid, priority, request, payload).code >= 0
    ensures Behind(n.tx, SendService(n, destination, signature, dtid, tid, priority, request, payload).node.tx,
                   ServiceIdOf(priority, dtid, request, destination, n.nodeId))
         == ServiceFrames(n.nodeId, destination, signature, dtid, tid, priority, request, payload)
  {
    var id := ServiceIdOf(priority, dtid, request, destination, n.nodeId);
    PriorityFits(priority);
    EnqueueBehind(n, id, tid, CalculateCrc(signature, payload), payload);
    hide Frames;
    hide ServiceId;
    hide CalculateCrc;
    hide InsertAll;
    hide Sorted;
    hide Behind;
  }

  lemma {:induction false} ServiceSuits(n: Node, l: Listener, id: bv32, signature: bv64, dtid: byte, tid: byte,
                                        priority: byte, request: bool, payload: seq<byte>)
    requires id == ServiceIdOf(priority, dtid, request, l.nodeId, n.nodeId)
    requires n.nodeId != 0 && n.nodeId < 128 && l.nodeId < 128 && priority < 32
    requires l.accept(dtid as bv16, if request then Request else Response, n.nodeId) == Some(signature)
    ensures Suits(l, Sending(id, tid, CalculateCrc(signature, payload), payload, signature), dtid as bv16,
                  if request then Request else Response, n.nodeId, priority)
    ensures |payload| >= 8 ==> Good(Sending(id, tid, CalculateCrc(signature, payload), payload, signature))
  {
    hide ServiceId;
    hide Reads;
    hide Addresses;
    ServiceIdReads(priority, dtid, request, l.nodeId, n.nodeId);
  }

  /** Its frames reach the application. */
  lemma {:induction false} ServiceLands(n: Node, l: Listener, events: seq<Event>, id: bv32, signature: bv64, dtid: byte,
                                        tid: byte, priority: byte, request: bool, payload: seq<byte>)
    requires n.nodeId != 0 && n.nodeId < 128 && l.nodeId < 128 && priority < 32
    requires id == ServiceIdOf(priority, dtid, request, l.nodeId, n.nodeId)
    requires Brings(l, events, Frames(id, tid, CalculateCrc(signature, payload), payload), tid)
    requires |payload| <= LONGEST && (|payload| >= 8 ==> HasRoom(l.pool, l.view, |payload|))
    requires l.accept(dtid as bv16, if request then Request else Response, n.nodeId) == Some(signature)
    ensures ArrivedLast(Feed(l.view, l.pool, l.nodeId, events, l.accept).log, payload, dtid as bv16,
                        if request then Request else Response, n.nodeId, priority, tid, EndTime(events))
  {
    hide *;
    ServiceSuits(n, l, id, signature, dtid, tid, priority, request, payload);
    TransferArrives(l, events, Sending(id, tid, CalculateCrc(signature, payload), payload, signature), dtid as bv16,
                    if request then Request else Response, n.nodeId, priority);
  }

  lemma {:induction false} SameService(nodeId: byte, destination: byte, id: bv32, signature: bv64, dtid: byte,
                                       tid: byte, priority: byte, request: bool, payload: seq<byte>)
    requires id == ServiceIdOf(priority, dtid, request, destination, nodeId)
    ensures ServiceFrames(nodeId, destination, signature, dtid, tid, priority, request, payload)
         == Frames(id, tid, CalculateCrc(signature, payload), payload)
  {
    hide ServiceId;
    hide Frames;
    hide CalculateCrc;
  }

  /** A request or response reaches the node it is addressed to. */
  lemma {:induction false} ServiceArrives(n: Node, l: Listener, events: seq<Event>, signature: bv64, dtid: byte,
                                          tid: byte, priority: byte, request: bool, payload: seq<byte>)
    requires n.nodeId != 0 && n.nodeId < 128 && l.nodeId < 128 && priority < 32 && Sorted(n.tx)
    requires var s := SendService(n, l.nodeId, signature, dtid, tid, priority, request, payload);
      && s.code >= 0
      && Brings(l, events, Behind(n.tx, s.node.tx, ServiceIdOf(priority, dtid, request, l.nodeId, n.nodeId)), tid)
    requires |payload| <= LONGEST && (|payload| >= 8 ==> HasRoom(l.pool, l.view, |payload|))
    requires l.accept(dtid as bv16, if request then Request else Response, n.nodeId) == Some(signature)
    ensures ArrivedLast(Feed(l.view, l.pool, l.nodeId, events, l.accept).log, payload, dtid as bv16,
                        if request then Request else Response, n.nodeId, priority, tid, EndTime(events))
  {
    hide *;
    var id := ServiceIdOf(priority, dtid, request, l.nodeId, n.nodeId);
    ServiceQueued(n, l.nodeId, signature, dtid, tid, priority, request, payload);
    SameService(n.nodeId, l.nodeId, id, signature, dtid, tid, priority, request, payload);
    ServiceLands(n, l, events, id, signature, dtid, tid, priority, request, payload);
  }
}
