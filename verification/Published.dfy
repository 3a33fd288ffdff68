/** What the service puts on the bus, byte by byte: the status frames with the uptime of their poll, the frames of the
    battery reports, and what a listener decodes. */
module Published {
  import opened Types
  import opened CanId
  import opened CrcRegister
  import opened Crc
  import opened Receiver
  import opened Reassembly
  import opened Library
  import opened Streams
  import opened Interleaving
  import opened Schedule
  import opened Sends
  import opened Service
  import opened ServiceApi
  import opened Messages
  import opened Listening
  import opened EndToEnd
  import opened Dsdl
  import opened Wire
  import opened SignatureBits
  import opened Layout
  import NodeStatus
  import BatteryInfo

  // ---------------------------------------------------------------- status frames

  /** The bytes of the status of a clock time: the whole seconds in four bytes, the least significant first; health,
      mode and sub-mode zero, vendor code 500. */
  predicate UptimeBytes(p: seq<byte>, now: nat) {
    && |p| >= 7 && 1000 * Seconds(p) <= now < 1000 * (Seconds(p) + 1)
    && p[4] as int == 0 && p[5] as int + 0x100 * p[6] as int == 500
  }

  function Seconds(p: seq<byte>): int
    requires |p| >= 4
  {
    p[0] as int + 0x100 * p[1] as int + 0x1_0000 * p[2] as int + 0x100_0000 * p[3] as int
  }

  /** The status of a poll at a real time, as one frame: the identifier of a message of type 341 with priority 8, and a
      tail byte with start and end set. */
  predicate StatusFrame(frames: seq<Frame>, nodeId: byte, tid: byte, time: nat) {
    && |frames| == 1 && |frames[0].data| == 8
    && frames[0].id as nat == 0x8000_0000 + 8 * 0x100_0000 + 341 * 0x100 + nodeId as nat
    && UptimeBytes(frames[0].data, time % 0x1_0000_0000) && frames[0].data[7] as nat == 192 + tid as nat % 32
  }

  lemma {:induction false} StatusType()
    ensures STATUS_TYPE.priority as nat == 8 && STATUS_TYPE.id as nat == 341 && STATUS_TYPE.priority < 32
  {
  }

  lemma {:induction false} InfoType()
    ensures INFO_TYPE.priority as nat == 24 && INFO_TYPE.id as nat == 1092 && INFO_TYPE.priority < 32
  {
  }

  lemma {:induction false} TypeNumber(info: TypeInfo, nodeId: byte, priority: nat, dtid: nat)
    requires info.priority as nat == priority && info.id as nat == dtid && info.priority < 32
    ensures (MessageId(info.priority, info.id, nodeId) | EFF) as nat
         == 0x8000_0000 + priority * 0x100_0000 + dtid * 0x100 + nodeId as nat
  {
    hide *;
    MessageNumber(info.priority, info.id, nodeId);
  }

  lemma {:induction false} OneStatusFrame(nodeId: byte, tid: byte, payload: seq<byte>)
    requires |payload| == 7
    ensures var fs := FramesOfMessage(nodeId, STATUS_TYPE, tid, payload);
      && |fs| == 1 && fs[0].data == payload + [TailByte(true, true, false, tid)]
      && fs[0].id == MessageId(STATUS_TYPE.priority, STATUS_TYPE.id, nodeId) | EFF
  {
    hide MessageId;
    hide CalculateCrc;
    hide TailByte;
  }

  lemma {:induction false} StatusFields(now: Milliseconds)
    ensures var m := StatusAt(now);
      && 1000 * (m.uptimeSec % 0x1_0000_0000) <= now < 1000 * (m.uptimeSec % 0x1_0000_0000 + 1)
      && 64 * (m.health % 4) + 8 * (m.mode % 8) + m.subMode % 8 == 0 && m.vendorCode % 0x1_0000 == 500
  {
  }

  lemma {:induction false} StatusAtBytes(p: seq<byte>, now: Milliseconds)
    requires StatusBytes(p, StatusAt(now))
    ensures |p| == 7 && UptimeBytes(p, now)
  {
    BytesAreLaid(p, StatusAt(now));
    StatusFields(now);
    hide StatusAt;
    hide StatusBytes;
  }

  lemma {:induction false} BytesAreLaid(p: seq<byte>, m: NodeStatus.Status)
    requires StatusBytes(p, m)
    ensures |p| == 7 && Seconds(p) == m.uptimeSec % 0x1_0000_0000
    ensures p[4] as int == 64 * (m.health % 4) + 8 * (m.mode % 8) + m.subMode % 8
    ensures p[5] as int + 0x100 * p[6] as int == m.vendorCode % 0x1_0000
  {
    StatusLayout(p, m);
    hide Filled;
  }

  lemma {:induction false} StatusOnBus(frames: seq<Frame>, nodeId: byte, tid: byte, time: nat)
    requires IsStatus(frames, nodeId, tid, StatusAt(Clock(time)))
    ensures StatusFrame(frames, nodeId, tid, time)
  {
    var payload :| StatusBytes(payload, StatusAt(Clock(time)))
        && frames == FramesOfMessage(nodeId, STATUS_TYPE, tid, payload);
    StatusAtBytes(payload, Clock(time));
    ClockIs(time);
    hide *;
    OneStatusFrame(nodeId, tid, payload);
    StatusType();
    TypeNumber(STATUS_TYPE, nodeId, 8, 341);
    SingleTailNumber(tid);
    FrameSays(frames, nodeId, tid, time, payload);
  }

  lemma {:induction false} ClockIs(time: nat)
    ensures Clock(time) == time % 0x1_0000_0000
  {
  }

  lemma {:induction false} SingleTailNumber(tid: byte)
    ensures TailByte(true, true, false, tid) as nat == 192 + tid as nat % 32
  {
    hide TailByte;
    TailNumber(true, true, false, tid);
  }

  lemma {:induction false} FrameSays(frames: seq<Frame>, nodeId: byte, tid: byte, time: nat, payload: seq<byte>)
    requires |frames| == 1 && |payload| == 7 && UptimeBytes(payload, time % 0x1_0000_0000)
    requires frames[0].data == payload + [TailByte(true, true, false, tid)]
    requires TailByte(true, true, false, tid) as nat == 192 + tid as nat % 32
    requires frames[0].id as nat == 0x8000_0000 + 8 * 0x100_0000 + 341 * 0x100 + nodeId as nat
    ensures StatusFrame(frames, nodeId, tid, time)
  {
    hide TailByte;
    assert frames[0].data[..7] == payload;
  }

  /** Every status that a run of the service offers to the driver, with the uptime of the poll that offered it. */
  lemma {:induction false} StatusOffered(s: Plan, log: seq<Poll>, j: nat)
    requires Complete(s) && |log| <= |s.polls| && Runs(s, log) && j < |log| && log[j].status != []
    ensures StatusFrame(log[j].status, s.nodeId, log[j].tid, s.polls[j])
  {
    hide IsStatus;
    hide Reported;
    hide StatusFrame;
    RunMade(s, log);
    hide Runs;
    StatusOnBus(log[j].status, s.nodeId, log[j].tid, s.polls[j]);
  }

  // ---------------------------------------------------------------- report frames

  lemma {:induction false} CrcOfReport(x: Sending, nodeId: byte, e: Poll)
    requires x == SentAs(nodeId, INFO_TYPE, InfoTid(e), e.info) && |x.payload| >= 8
    ensures x.crc == CrcBits(0xFFFF, SignatureInBits(0x249C_2654_8A71_1966) + Bits(x.payload))
    ensures x.payload == PayloadOf(e.info) && x.id == MessageId(INFO_TYPE.priority, INFO_TYPE.id, nodeId) | EFF
  {
    TransferCrcIsBitwise(0x249C_2654_8A71_1966, x.payload);
    hide TransferCrc;
    hide SignatureInBits;
    hide Bits;
    hide CrcBits;
    hide PayloadOf;
    hide MessageId;
    hide InfoTid;
  }

  /** The battery report that a poll offers: every frame with the identifier of a message of type 1092 with priority 24,
      carrying the bytes of the report between them, and in the first one, low byte first, the CRC of the 64 bits of the
      signature and the bits of the report. */
  lemma {:induction false} ReportOffered(s: Plan, log: seq<Poll>, j: nat)
    requires Complete(s) && |log| <= |s.polls| && Runs(s, log) && j < |log| && log[j].info != []
    ensures s.reports[j] in s.reports && InfoBytes(PayloadOf(log[j].info), s.reports[j])
    ensures forall f | f in log[j].info ::
              f.id as nat == 0x8000_0000 + 24 * 0x100_0000 + 1092 * 0x100 + s.nodeId as nat
    ensures var d := log[j].info[0].data;
      && |d| == 8 && d[0] as nat + 0x100 * d[1] as nat
         == CrcBits(0xFFFF, SignatureInBits(0x249C_2654_8A71_1966) + Bits(PayloadOf(log[j].info))) as nat
      && d[7] as nat == 128 + TidNumber(log[j]) % 32
  {
    ReportMade(s, log, j);
    hide *;
    var x := SentAs(s.nodeId, INFO_TYPE, InfoTid(log[j]), log[j].info);
    ReportSent(log[j], s.nodeId, s.reports[j]);
    CrcOfReport(x, s.nodeId, log[j]);
    InfoType();
    TypeNumber(INFO_TYPE, s.nodeId, 24, 1092);
    FramesHaveId(x.id, x.tid, x.crc, x.payload);
    FirstFrameBytes(x.id, x.tid, x.crc, x.payload);
    InfoTidNumber(log[j]);
  }

  /** The transfer ID of a report: that of its poll, or the next one when a status went before. */
  function TidNumber(e: Poll): nat {
    var t := e.tid as nat;
    if e.status == [] then t else if t < 31 then t + 1 else 0
  }

  lemma {:induction false} InfoTidNumber(e: Poll)
    ensures InfoTid(e) as nat == TidNumber(e)
  {
    assert Advanced(e.tid, 0) == e.tid && Advanced(e.tid, 1) == Incremented(Advanced(e.tid, 0));
    hide Advanced;
    NextTidNumber(e.tid);
    hide Incremented;
  }

  lemma {:induction false} ReportMade(s: Plan, log: seq<Poll>, j: nat)
    requires Complete(s) && |log| <= |s.polls| && Runs(s, log) && j < |log| && log[j].info != []
    ensures s.reports[j] in s.reports && Reported(log[j], s.nodeId, s.reports[j])
  {
    hide IsStatus;
    hide Reported;
    RunMade(s, log);
    hide Runs;
  }

  // ---------------------------------------------------------------- what a listener decodes

  /** What is decoded is the status of a poll at that real time. */
  predicate Tells(m: NodeStatus.Status, time: nat) {
    && 1000 * m.uptimeSec <= time % 0x1_0000_0000 < 1000 * (m.uptimeSec + 1)
    && m.health == 0 && m.mode == 0 && m.subMode == 0 && m.vendorCode == 500
  }

  lemma {:induction false} StatusTells(time: nat)
    ensures NodeStatus.InRange(StatusAt(Clock(time))) && Tells(StatusAt(Clock(time)), time)
  {
  }

  lemma {:induction false} StatusHeard(t: Transfer, x: Sending, start: Timestamp, time: nat,
                                       before: NodeStatus.Status)
    requires Announces(t, x, start) && StatusBytes(x.payload, StatusAt(Clock(time)))
    ensures Stocked(t) && Tells(NodeStatus.Read(Payload(t), before), time)
  {
    hide NodeStatus.Read;
    StatusTells(time);
    NodeStatus.StatusRoundTrip(StatusAt(Clock(time)), x.payload, before);
    hide Tells;
    hide StatusAt;
    hide Filled;
  }

  /** The messages are those of the polls that sent a status, one each, in the order of the polls. */
  lemma {:induction false} StatusPolls(log: seq<Poll>)
    ensures var ms := StatusMessages(log);
      && (forall k | 0 <= k < |ms| :: ms[k].poll < |log| && log[ms[k].poll].status != [])
      && (forall k | 0 <= k < |ms| - 1 :: ms[k].poll < ms[k + 1].poll)
      && (forall j | 0 <= j < |log| && log[j].status != [] :: exists k :: 0 <= k < |ms| && ms[k].poll == j)
  {
    if log != [] {
      var n := |log| - 1;
      StatusPolls(log[..n]);
      var front, ms := StatusMessages(log[..n]), StatusMessages(log);
      forall j | 0 <= j < |log| && log[j].status != [] ensures exists k :: 0 <= k < |ms| && ms[k].poll == j {
        if j < n {
          assert log[..n][j].status != [];
          var k :| 0 <= k < |front| && front[k].poll == j;
          assert ms[k].poll == j;
        } else {
          assert ms[|front|].poll == j;
        }
      }
    }
  }

  /** Whatever a run of the service offered, a listener that gets it is delivered, for each poll that sent a status and
      in that order, one transfer that is decoded to the uptime of that poll. */
  lemma {:induction false} UptimesHeard(s: Plan, log: seq<Poll>, n: Node, calls: seq<Call>, accept: Acceptance,
                                        before: NodeStatus.Status)
    requires Complete(s) && |log| <= |s.polls| && Runs(s, log) && Attends(s, log, n, calls, accept)
    ensures var ms := StatusMessages(log);
      var ts := Deliveries(Select(RunCalls(n, calls, accept).log, DescriptorFor(s.nodeId, STATUS_TYPE)));
      && |ts| == |ms|
      && forall k | 0 <= k < |ts| :: ms[k].poll < |log| && Stocked(ts[k])
                                     && Tells(NodeStatus.Read(Payload(ts[k]), before), s.polls[ms[k].poll])
  {
    StatusesHeard(s, log, n, calls, accept);
    hide *;
    var items, ms := Arrivals(s, STATUS_TYPE, StatusMessages(log), calls), StatusMessages(log);
    var ts := Deliveries(Select(RunCalls(n, calls, accept).log, DescriptorFor(s.nodeId, STATUS_TYPE)));
    AllHeard(items, ts, log, s);
    forall k | 0 <= k < |ts|
      ensures Stocked(ts[k]) && Tells(NodeStatus.Read(Payload(ts[k]), before), s.polls[ms[k].poll])
    {
      StatusHeard(ts[k], items[k].x, EndTime(items[k].events), s.polls[ms[k].poll], before);
    }
  }

  lemma {:induction false} AllHeard(items: seq<Streams.Item>, ts: seq<Transfer>, log: seq<Poll>, s: Plan)
    requires |log| <= |s.polls| && AreStatuses(items, log, s) && DeliversAll(ts, items)
    ensures var ms := StatusMessages(log);
      && |ts| == |ms| == |items|
      && forall k | 0 <= k < |ts| ::
           && ms[k].poll < |log| && Announces(ts[k], items[k].x, EndTime(items[k].events))
           && StatusBytes(items[k].x.payload, StatusAt(Clock(s.polls[ms[k].poll])))
  {
    hide StatusMessages;
    hide Announces;
    hide StatusBytes;
    hide StatusAt;
  }
}
