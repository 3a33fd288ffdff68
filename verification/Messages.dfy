/** Application messages through the whole stack: encoded, cut into frames, queued, received, reassembled, decoded. */
module Messages {
  import opened Types
  import opened CanId
  import opened Fragment
  import opened RxBuffer
  import opened Receiver
  import opened Reassembly
  import opened RoundTrip
  import opened TxQueue
  import opened Library
  import opened EndToEnd
  import opened SharedCounter
  import opened Service
  import opened ServiceApi
  import NodeStatus
  import BatteryInfo

  /** The one delivery of a run of frames, on its last frame. */
  ghost predicate DeliversOnly(log: seq<Option<Transfer>>, t: Transfer) {
    log != [] && Silent(log[..|log| - 1]) && log[|log| - 1] == Some(t)
  }

  /** What the listener's application gets from a broadcast of this node. */
  ghost predicate Heard(n: Node, l: Listener, events: seq<Event>, info: TypeInfo, tid: byte, payload: seq<byte>) {
    && n.nodeId != 0 && n.nodeId < 128 && Sorted(n.tx)
       && l.accept(info.id, CanId.Broadcast, n.nodeId) == Some(info.signature)
    && var s := SendMessage(n, info.signature, info.id, tid, info.priority, payload);
       s.code >= 0 && Brings(l, events, Behind(n.tx, s.node.tx, MessageId(info.priority, info.id, n.nodeId) | EFF), tid)
  }

  lemma {:induction false} HeardArrives(n: Node, l: Listener, events: seq<Event>, info: TypeInfo, tid: byte,
                                        payload: seq<byte>)
    returns (t: Transfer)
    requires Heard(n, l, events, info, tid, payload) && SmallPriority(info)
    requires |payload| <= LONGEST && (|payload| >= 8 ==> HasRoom(l.pool, l.view, |payload|))
    ensures DeliversOnly(Feed(l.view, l.pool, l.nodeId, events, l.accept).log, t) && WellStored(t)
    ensures Payload(t) == payload
    ensures t.payloadLen == |payload| && t.source == n.nodeId && t.dataTypeId == info.id
  {
    MessageArrives(n, l, events, info.signature, info.id, tid, info.priority, payload);
    hide SendMessage;
    hide Feed;
    hide Sorted;
    hide Brings;
    hide MessageId;
    hide HasRoom;
    var log := Feed(l.view, l.pool, l.nodeId, events, l.accept).log;
    t := log[|log| - 1].value;
  }

  /** Every battery report in range, with a name of up to 31 bytes, is decoded field by field at the other end; the
      length of the name is inferred from the size of the transfer alone, and the length check of the decoder passes. */
  lemma {:induction false} InfoArrives(n: Node, l: Listener, events: seq<Event>, tid: byte, m: BatteryInfo.Info,
                                       payload: seq<byte>, before: BatteryInfo.Info, junk: int)
    returns (t: Transfer)
    requires BatteryInfo.InRange(m) && InfoBytes(payload, m) && BatteryInfo.Proper(before)
    requires Heard(n, l, events, INFO_TYPE, tid, payload) && HasRoom(l.pool, l.view, |payload|)
    ensures DeliversOnly(Feed(l.view, l.pool, l.nodeId, events, l.accept).log, t) && WellStored(t)
    ensures BatteryInfo.InferredLength(t.payloadLen) == m.nameLength
    ensures t.payloadLen == BatteryInfo.FIXED_SIZE + m.nameLength
    ensures BatteryInfo.Read(Payload(t), before, junk)
        == m.(name := m.name[..m.nameLength] + before.name[m.nameLength..])
  {
    Priorities();
    hide HasRoom;
    hide Heard;
    hide BatteryInfo.Read;
    t := HeardArrives(n, l, events, INFO_TYPE, tid, payload);
    BatteryInfo.InfoRoundTrip(m, payload, before, junk);
  }

  /** A sound transfer of 55 bytes under the type of battery reports is delivered, and makes the decoder write beyond
      the name array. */
  lemma {:induction false} OverrunReached(n: Node, l: Listener, events: seq<Event>, tid: byte, payload: seq<byte>)
    returns (t: Transfer)
    requires Heard(n, l, events, INFO_TYPE, tid, payload) && |payload| == 55 && HasRoom(l.pool, l.view, |payload|)
    ensures DeliversOnly(Feed(l.view, l.pool, l.nodeId, events, l.accept).log, t) && Stocked(t)
    ensures Payload(t) == payload && BatteryInfo.Overruns(t.payloadLen)
  {
    Priorities();
    hide HasRoom;
    hide Heard;
    t := HeardArrives(n, l, events, INFO_TYPE, tid, payload);
    BatteryInfo.OverrunsExactly(55);
  }

  /** Every node status in range is one frame, and is decoded field by field at the other end. */
  lemma {:induction false} StatusArrives(n: Node, l: Listener, events: seq<Event>, tid: byte, m: NodeStatus.Status,
                                         payload: seq<byte>, before: NodeStatus.Status)
    returns (t: Transfer)
    requires NodeStatus.InRange(m) && StatusBytes(payload, m)
    requires Heard(n, l, events, STATUS_TYPE, tid, payload)
    ensures |events| == 1 && DeliversOnly(Feed(l.view, l.pool, l.nodeId, events, l.accept).log, t) && WellStored(t)
    ensures t.payloadLen == NodeStatus.MAX_SIZE && NodeStatus.Read(Payload(t), before) == m
  {
    Priorities();
    OneFrame(n, l, events, tid, payload);
    hide Heard;
    hide NodeStatus.Read;
    t := HeardArrives(n, l, events, STATUS_TYPE, tid, payload);
    NodeStatus.StatusRoundTrip(m, payload, before);
  }

  lemma {:induction false} OneFrame(n: Node, l: Listener, events: seq<Event>, tid: byte, payload: seq<byte>)
    requires Heard(n, l, events, STATUS_TYPE, tid, payload) && |payload| == NodeStatus.MAX_SIZE
    ensures |events| == 1
  {
    Priorities();
    PriorityFits(STATUS_TYPE.priority);
    var id := MessageId(STATUS_TYPE.priority, STATUS_TYPE.id, n.nodeId) | EFF;
    var crc := CalculateCrc(STATUS_TYPE.signature, payload);
    EnqueueBehind(n, id, tid, crc, payload);
    CountFrames(id, tid, crc, payload);
    hide Frames;
    hide MessageId;
    hide CalculateCrc;
    hide InsertAll;
    hide Sorted;
    hide Behind;
  }

  // ---------------------------------------------------------------- reports that are taken for their predecessor

  /** The transfer ID of the battery report of a poll: the status goes first. */
  function InfoTid(e: Poll): byte {
    Advanced(e.tid, if e.status != [] then 1 else 0)
  }

  function PayloadOf(frames: seq<Frame>): seq<byte> {
    if forall f | f in frames :: f.data != [] then AllCarried(frames) else []
  }

  lemma {:induction false} PayloadOfFrames(id: bv32, tid: byte, crc: bv16, payload: seq<byte>)
    ensures PayloadOf(Frames(id, tid, crc, payload)) == payload
  {
    hide Frames;
    hide AllCarried;
    FragmentationCarries(id, tid, crc, payload);
  }

  /** The transfer that these frames of a message make up. */
  function SentAs(nodeId: byte, info: TypeInfo, tid: byte, frames: seq<Frame>): Sending {
    Sending(MessageId(info.priority, info.id, nodeId) | EFF, tid, CalculateCrc(info.signature, PayloadOf(frames)),
            PayloadOf(frames), info.signature)
  }

  lemma {:induction false} MessageSent(nodeId: byte, info: TypeInfo, tid: byte, payload: seq<byte>, id: bv32)
    requires id == MessageId(info.priority, info.id, nodeId) | EFF
    ensures var crc := CalculateCrc(info.signature, payload); var x := Sending(id, tid, crc, payload, info.signature);
      && FramesOfMessage(nodeId, info, tid, payload) == Frames(id, tid, crc, payload)
      && SentAs(nodeId, info, tid, Frames(id, tid, crc, payload)) == x && (|payload| >= 8 ==> Good(x))
  {
    PayloadOfFrames(id, tid, CalculateCrc(info.signature, payload), payload);
    CrcIsGood(id, tid, payload, info.signature);
    hide Frames;
    hide MessageId;
    hide PayloadOf;
    hide CalculateCrc;
    hide Good;
  }

  lemma {:induction false} SentAsFrames(nodeId: byte, info: TypeInfo, tid: byte, payload: seq<byte>)
    ensures var frames := FramesOfMessage(nodeId, info, tid, payload); var x := SentAs(nodeId, info, tid, frames);
      && x.payload == payload && x.tid == tid && frames == Frames(x.id, x.tid, x.crc, x.payload)
      && (|payload| >= 8 ==> Good(x))
  {
    hide *;
    MessageSent(nodeId, info, tid, payload, MessageId(info.priority, info.id, nodeId) | EFF);
  }

  lemma {:induction false} CrcIsGood(id: bv32, tid: byte, payload: seq<byte>, signature: bv64)
    ensures |payload| >= 8 ==> Good(Sending(id, tid, CalculateCrc(signature, payload), payload, signature))
  {
  }

  /** A listener that wants these messages of this node. */
  predicate Hears(nodeId: byte, info: TypeInfo, accept: Acceptance) {
    1 <= nodeId < 128 && accept(info.id, CanId.Broadcast, nodeId) == Some(info.signature)
  }

  lemma {:induction false} SentAsWanted(nodeId: byte, info: TypeInfo, tid: byte, frames: seq<Frame>, listener: byte,
                                        accept: Acceptance)
    requires Hears(nodeId, info, accept) && SmallPriority(info)
    ensures Wanted(SentAs(nodeId, info, tid, frames), listener, accept)
  {
    hide MessageId;
    hide PayloadOf;
    hide CalculateCrc;
    hide Reads;
    hide Wanted;
    MessageIdReads(info.priority, info.id, nodeId);
    MessageWanted(SentAs(nodeId, info, tid, frames), nodeId, info, listener, accept);
  }

  lemma {:induction false} MessageWanted(x: Sending, nodeId: byte, info: TypeInfo, listener: byte, accept: Acceptance)
    requires Hears(nodeId, info, accept) && x.signature == info.signature
    requires Reads(x.id, info.id, CanId.Broadcast, nodeId, info.priority)
    ensures Wanted(x, listener, accept)
  {
    hide DataTypeOf;
    hide TypeOf;
    hide SourceOf;
    hide PriorityOf;
    hide DestinationOf;
  }

  /** The messages sent from the report of poll `i` on, up to the report of poll `j`. */
  function SentBetween(log: seq<Poll>, i: nat, j: nat): int
    requires i < j < |log|
  {
    AllSends(log[i..j]) + (if log[j].status != [] then 1 else 0) - (if log[i].status != [] then 1 else 0)
  }

  lemma {:induction false} ReportTids(log: seq<Poll>, first: byte, next: byte, i: nat, j: nat)
    requires TidsRun(log, first, next) && i < j < |log|
    ensures SentBetween(log, i, j) >= 0 && InfoTid(log[j]) == Advanced(InfoTid(log[i]), SentBetween(log, i, j))
  {
    var a, b := if log[i].status != [] then 1 else 0, if log[j].status != [] then 1 else 0;
    var m := AllSends(log[i..j]);
    assert m >= a;
    hide Advanced;
    TidsCount(log, first, next, i, j);
    AdvancedOn(log[i].tid, m, b);
    AdvancedOn(log[i].tid, a, m + b - a);
  }

  /** The frames of the battery report of this poll. */
  ghost predicate Reported(e: Poll, nodeId: byte, m: BatteryInfo.Info) {
    BatteryInfo.Proper(m) && e.info != [] && IsInfo(e.info, nodeId, InfoTid(e), m)
  }

  lemma {:induction false} ReportSent(e: Poll, nodeId: byte, m: BatteryInfo.Info)
    requires Reported(e, nodeId, m)
    ensures var x := SentAs(nodeId, INFO_TYPE, InfoTid(e), e.info);
      && x.tid == InfoTid(e) && InfoBytes(x.payload, m) && 8 <= |x.payload| <= 54 && Good(x)
      && e.info == Frames(x.id, x.tid, x.crc, x.payload)
  {
    hide InfoTid;
    hide FramesOfMessage;
    hide SentAs;
    hide Frames;
    hide Good;
    hide InfoBytes;
    var payload :| InfoBytes(payload, m) && e.info == FramesOfMessage(nodeId, INFO_TYPE, InfoTid(e), payload);
    InfoLength(payload, m);
    SentAsFrames(nodeId, INFO_TYPE, InfoTid(e), payload);
  }

  lemma {:induction false} InfoLength(payload: seq<byte>, m: BatteryInfo.Info)
    requires BatteryInfo.Proper(m) && InfoBytes(payload, m)
    ensures 8 <= |payload| <= 54
  {
  }

  /** Of two reports of one run of the service the later one is lost, when the receiver has memory for it and has taken
      nothing of the descriptor in between, exactly if a multiple of 32 messages was sent from the earlier one on and
      both began within two seconds. */
  lemma {:induction false} ServiceReportLost(log: seq<Poll>, first: byte, next: byte, i: nat, j: nat, sender: byte,
                                             before: BatteryInfo.Info, m: BatteryInfo.Info, s: RxState, pool: Pool,
                                             nodeId: byte, events: seq<Event>, accept: Acceptance, start: Timestamp)
    requires TidsRun(log, first, next) && i < j < |log| && InfoTid(log[i]) < 32
    requires Reported(log[i], sender, before) && Reported(log[j], sender, m) && Hears(sender, INFO_TYPE, accept)
    requires Done(s, InfoTid(log[i]), start) && start != 0
    requires Carries(events, log[j].info) && AllInTime(events, events[0].now)
    requires pool.usage <= pool.capacity && pool.capacity - pool.usage + |s.blocks| >= 2
    ensures DeliversLast(Feed(Some(s), pool, nodeId, events, accept).log,
                         SentAs(sender, INFO_TYPE, InfoTid(log[j]), log[j].info), EndTime(events),
                         SentBetween(log, i, j) % 32 != 0 || Elapsed(events[0].now, start) > TRANSFER_TIMEOUT_USEC)
  {
    hide Feed;
    hide DeliversLast;
    hide TidsRun;
    hide SentBetween;
    hide InfoTid;
    hide Wanted;
    hide Good;
    hide Done;
    hide Frames;
    hide AllInTime;
    hide SentAs;
    Priorities();
    ReportTids(log, first, next, i, j);
    ReportSent(log[j], sender, m);
    hide Reported;
    var x := SentAs(sender, INFO_TYPE, InfoTid(log[j]), log[j].info);
    SentAsWanted(sender, INFO_TYPE, InfoTid(log[j]), log[j].info, nodeId, accept);
    RoomForReport(pool, Some(s), |x.payload|);
    ReportLost(s, pool, nodeId, events, accept, x, InfoTid(log[i]), start, SentBetween(log, i, j));
  }

  lemma {:induction false} RoomForReport(pool: Pool, view: Option<RxState>, n: nat)
    requires 8 <= n <= 54 && pool.capacity - pool.usage - Opening(view) >= 2
    ensures HasRoom(pool, view, n)
  {
    TwoBlocks(n);
  }

  lemma {:induction false} TwoBlocks(n: nat)
    requires 8 <= n <= 54
    ensures BlocksFor(Buffered(n)) <= 2
  {
  }
}
