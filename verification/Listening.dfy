/** The whole run of the service, heard by another node: every status, and exactly the reports that the one transfer-ID
    counter lets through. */
module Listening {
  import opened Types
  import opened CanId
  import opened Fragment
  import opened RxBuffer
  import opened Receiver
  import opened Reassembly
  import opened RoundTrip
  import opened Library
  import opened Streams
  import opened SharedCounter
  import opened Interleaving
  import opened EndToEnd
  import opened Schedule
  import opened Service
  import opened ServiceApi
  import opened Messages
  import NodeStatus
  import BatteryInfo

  // ---------------------------------------------------------------- the messages of a run

  /** A message of the run: the poll that sent it, its transfer ID and its frames. */
  datatype Outgoing = Outgoing(poll: nat, tid: byte, frames: seq<Frame>)

  function StatusMessages(log: seq<Poll>): seq<Outgoing> {
    if log == [] then []
    else var n := |log| - 1;
      StatusMessages(log[..n]) + (if log[n].status != [] then [Outgoing(n, log[n].tid, log[n].status)] else [])
  }

  function InfoMessages(log: seq<Poll>): seq<Outgoing> {
    if log == [] then []
    else var n := |log| - 1;
      InfoMessages(log[..n]) + (if log[n].info != [] then [Outgoing(n, InfoTid(log[n]), log[n].info)] else [])
  }

  function FramesOfAll(ms: seq<Outgoing>): seq<Frame> {
    if ms == [] then [] else var n := |ms| - 1; FramesOfAll(ms[..n]) + ms[n].frames
  }

  function DescriptorFor(nodeId: byte, info: TypeInfo): bv32 {
    DescriptorOf(MessageId(info.priority, info.id, nodeId) | EFF)
  }

  /** The frames under one descriptor, in order. */
  function FramesUnder(frames: seq<Frame>, d: bv32): seq<Frame> {
    if frames == [] then []
    else (if DescriptorOf(frames[0].id) == d then [frames[0]] else []) + FramesUnder(frames[1..], d)
  }

  lemma {:induction false} UnderConcat(a: seq<Frame>, b: seq<Frame>, d: bv32)
    ensures FramesUnder(a + b, d) == FramesUnder(a, d) + FramesUnder(b, d)
  {
    hide DescriptorOf;
    if a == [] {
      assert a + b == b;
    } else {
      assert (a + b)[0] == a[0] && (a + b)[1..] == a[1..] + b;
      UnderConcat(a[1..], b, d);
    }
  }

  lemma {:induction false} UnderAll(frames: seq<Frame>, d: bv32)
    requires forall f | f in frames :: DescriptorOf(f.id) == d
    ensures FramesUnder(frames, d) == frames
  {
    hide DescriptorOf;
    if frames != [] {
      assert frames[0] in frames;
      UnderAll(frames[1..], d);
    }
  }

  lemma {:induction false} UnderNone(frames: seq<Frame>, d: bv32)
    requires forall f | f in frames :: DescriptorOf(f.id) != d
    ensures FramesUnder(frames, d) == []
  {
    hide DescriptorOf;
    if frames != [] {
      assert frames[0] in frames;
      UnderNone(frames[1..], d);
    }
  }

  lemma {:induction false} MessageUnder(nodeId: byte, info: TypeInfo, tid: byte, payload: seq<byte>)
    ensures forall f | f in FramesOfMessage(nodeId, info, tid, payload) ::
              DescriptorOf(f.id) == DescriptorFor(nodeId, info)
  {
    hide *;
    var id := MessageId(info.priority, info.id, nodeId) | EFF;
    MessageSent(nodeId, info, tid, payload, id);
    FramesHaveId(id, tid, CalculateCrc(info.signature, payload), payload);
    DescriptorIs(nodeId, info, id);
  }

  lemma {:induction false} DescriptorIs(nodeId: byte, info: TypeInfo, id: bv32)
    requires id == MessageId(info.priority, info.id, nodeId) | EFF
    ensures DescriptorFor(nodeId, info) == DescriptorOf(id)
  {
    hide DescriptorOf;
    hide MessageId;
  }

  lemma {:induction false} TwoDescriptors(nodeId: byte)
    requires 1 <= nodeId < 128
    ensures DescriptorFor(nodeId, STATUS_TYPE) != DescriptorFor(nodeId, INFO_TYPE)
  {
    Priorities();
    MessageIdReads(STATUS_TYPE.priority, STATUS_TYPE.id, nodeId);
    MessageIdReads(INFO_TYPE.priority, INFO_TYPE.id, nodeId);
    hide MessageId;
    DataTypeSeen(MessageId(STATUS_TYPE.priority, STATUS_TYPE.id, nodeId) | EFF);
    DataTypeSeen(MessageId(INFO_TYPE.priority, INFO_TYPE.id, nodeId) | EFF);
    hide DescriptorOf;
    hide DataTypeOf;
    hide TypeOf;
    hide SourceOf;
    hide PriorityOf;
  }

  lemma {:induction false} DataTypeSeen(id: bv32)
    ensures (DescriptorOf(id) & 0xFFFF) as bv16 == DataTypeOf(id)
  {
    hide TypeOf;
    hide SourceOf;
    hide DataTypeOf;
    hide AddresseeOf;
  }

  /** Every poll offered a status or nothing, and a report or nothing. */
  ghost predicate Made(log: seq<Poll>, s: Plan)
    requires Complete(s) && |log| <= |s.polls|
  {
    forall j | 0 <= j < |log| ::
      && (log[j].status != [] ==> IsStatus(log[j].status, s.nodeId, log[j].tid, StatusAt(Clock(s.polls[j]))))
      && (log[j].info != [] ==> s.reports[j] in s.reports && Reported(log[j], s.nodeId, s.reports[j]))
  }

  lemma {:induction false} AnswerMade(e: Poll, nodeId: byte, statusDue: bool, infoDue: bool, now: Milliseconds,
                                      reported: BatteryInfo.Info)
    requires BatteryInfo.Proper(reported) && Answers(e, nodeId, statusDue, infoDue, now, reported)
    ensures e.status != [] ==> IsStatus(e.status, nodeId, e.tid, StatusAt(now))
    ensures e.info != [] ==> Reported(e, nodeId, reported)
  {
    hide IsStatus;
    hide IsInfo;
    assert Advanced(e.tid, 0) == e.tid && Advanced(e.tid, 1) == Incremented(Advanced(e.tid, 0));
  }

  lemma {:induction false} RunMade(s: Plan, log: seq<Poll>)
    requires Complete(s) && |log| <= |s.polls| && Runs(s, log)
    ensures Made(log, s)
  {
    hide Answers;
    hide DueAt;
    hide IsStatus;
    hide Reported;
    forall j | 0 <= j < |log|
      ensures log[j].status != [] ==> IsStatus(log[j].status, s.nodeId, log[j].tid, StatusAt(Clock(s.polls[j])))
      ensures s.reports[j] in s.reports && (log[j].info != [] ==> Reported(log[j], s.nodeId, s.reports[j]))
    {
      AnswerMade(log[j], s.nodeId, DueAt(s.last, s.period, s.polls, j),
                 s.battery && DueAt(s.lastInfo, s.infoPeriod, s.polls, j), Clock(s.polls[j]), s.reports[j]);
    }
  }

  lemma {:induction false} StatusUnder(frames: seq<Frame>, nodeId: byte, tid: byte, m: NodeStatus.Status)
    requires IsStatus(frames, nodeId, tid, m) && 1 <= nodeId < 128
    ensures FramesUnder(frames, DescriptorFor(nodeId, STATUS_TYPE)) == frames
    ensures FramesUnder(frames, DescriptorFor(nodeId, INFO_TYPE)) == []
  {
    hide DescriptorFor;
    hide FramesOfMessage;
    hide StatusBytes;
    var payload :| StatusBytes(payload, m) && frames == FramesOfMessage(nodeId, STATUS_TYPE, tid, payload);
    MessageUnder(nodeId, STATUS_TYPE, tid, payload);
    TwoDescriptors(nodeId);
    UnderAll(frames, DescriptorFor(nodeId, STATUS_TYPE));
    UnderNone(frames, DescriptorFor(nodeId, INFO_TYPE));
  }

  lemma {:induction false} InfoUnder(e: Poll, nodeId: byte, m: BatteryInfo.Info)
    requires Reported(e, nodeId, m) && 1 <= nodeId < 128
    ensures FramesUnder(e.info, DescriptorFor(nodeId, INFO_TYPE)) == e.info
    ensures FramesUnder(e.info, DescriptorFor(nodeId, STATUS_TYPE)) == []
  {
    hide DescriptorFor;
    hide FramesOfMessage;
    hide InfoBytes;
    hide InfoTid;
    var payload :| InfoBytes(payload, m) && e.info == FramesOfMessage(nodeId, INFO_TYPE, InfoTid(e), payload);
    MessageUnder(nodeId, INFO_TYPE, InfoTid(e), payload);
    TwoDescriptors(nodeId);
    UnderAll(e.info, DescriptorFor(nodeId, INFO_TYPE));
    UnderNone(e.info, DescriptorFor(nodeId, STATUS_TYPE));
  }

  /** Under each of the two descriptors the driver was offered the frames of its messages, one after the other. */
  lemma {:induction false} OfferedUnder(s: Plan, log: seq<Poll>)
    requires Complete(s) && |log| <= |s.polls| && Made(log, s) && 1 <= s.nodeId < 128
    ensures FramesUnder(Offered(log), DescriptorFor(s.nodeId, STATUS_TYPE)) == FramesOfAll(StatusMessages(log))
    ensures FramesUnder(Offered(log), DescriptorFor(s.nodeId, INFO_TYPE)) == FramesOfAll(InfoMessages(log))
    decreases |log|
  {
    hide *;
    if log == [] {
      NothingOffered(s.nodeId);
    } else {
      var n := |log| - 1;
      LastUnder(s, log);
      OfferedUnder(s, log[..n]);
      MoreOffered(log, DescriptorFor(s.nodeId, STATUS_TYPE));
      MoreOffered(log, DescriptorFor(s.nodeId, INFO_TYPE));
      MoreMessages(log);
    }
  }

  lemma {:induction false} NothingOffered(nodeId: byte)
    ensures FramesUnder(Offered([]), DescriptorFor(nodeId, STATUS_TYPE)) == FramesOfAll(StatusMessages([]))
    ensures FramesUnder(Offered([]), DescriptorFor(nodeId, INFO_TYPE)) == FramesOfAll(InfoMessages([]))
  {
    hide DescriptorFor;
  }

  lemma {:induction false} MoreOffered(log: seq<Poll>, d: bv32)
    requires log != []
    ensures var n := |log| - 1;
      FramesUnder(Offered(log), d) == FramesUnder(Offered(log[..n]), d) + FramesUnder(log[n].status + log[n].info, d)
  {
    var n := |log| - 1;
    hide FramesUnder;
    UnderConcat(Offered(log[..n]), log[n].status + log[n].info, d);
  }

  lemma {:induction false} MoreMessages(log: seq<Poll>)
    requires log != []
    ensures var n := |log| - 1;
      && FramesOfAll(StatusMessages(log)) == FramesOfAll(StatusMessages(log[..n])) + log[n].status
      && FramesOfAll(InfoMessages(log)) == FramesOfAll(InfoMessages(log[..n])) + log[n].info
  {
    hide FramesOfAll;
    hide InfoTid;
    var n := |log| - 1;
    MoreFrames(StatusMessages(log[..n]), Outgoing(n, log[n].tid, log[n].status));
    MoreFrames(InfoMessages(log[..n]), Outgoing(n, InfoTid(log[n]), log[n].info));
    assert StatusMessages(log[..n]) + [] == StatusMessages(log[..n]);
    assert InfoMessages(log[..n]) + [] == InfoMessages(log[..n]);
  }

  lemma {:induction false} MoreFrames(ms: seq<Outgoing>, m: Outgoing)
    ensures FramesOfAll(ms + [m]) == FramesOfAll(ms) + m.frames
  {
    assert (ms + [m])[..|ms|] == ms;
  }

  /** The last poll. */
  lemma {:induction false} LastUnder(s: Plan, log: seq<Poll>)
    requires Complete(s) && |log| <= |s.polls| && Made(log, s) && 1 <= s.nodeId < 128 && log != []
    ensures Made(log[..|log| - 1], s)
    ensures var e := log[|log| - 1];
      && FramesUnder(e.status + e.info, DescriptorFor(s.nodeId, STATUS_TYPE)) == e.status
      && FramesUnder(e.status + e.info, DescriptorFor(s.nodeId, INFO_TYPE)) == e.info
  {
    hide *;
    var j := |log| - 1;
    var e, a, b := log[j], DescriptorFor(s.nodeId, STATUS_TYPE), DescriptorFor(s.nodeId, INFO_TYPE);
    LastMade(s, log);
    NoneUnder(a);
    NoneUnder(b);
    if e.status != [] {
      StatusUnder(e.status, s.nodeId, e.tid, StatusAt(Clock(s.polls[j])));
    }
    if e.info != [] {
      InfoUnder(e, s.nodeId, s.reports[j]);
    }
    UnderConcat(e.status, e.info, a);
    UnderConcat(e.status, e.info, b);
    assert e.status + [] == e.status && [] + e.info == e.info;
  }

  lemma {:induction false} LastMade(s: Plan, log: seq<Poll>)
    requires Complete(s) && |log| <= |s.polls| && Made(log, s) && log != []
    ensures Made(log[..|log| - 1], s)
    ensures var j := |log| - 1; var e := log[j];
      && (e.status != [] ==> IsStatus(e.status, s.nodeId, e.tid, StatusAt(Clock(s.polls[j]))))
      && |s.reports| == |s.polls| && (e.info != [] ==> Reported(e, s.nodeId, s.reports[j]))
  {
    hide IsStatus;
    hide Reported;
    hide StatusAt;
  }

  lemma {:induction false} NoneUnder(d: bv32)
    ensures FramesUnder([], d) == []
  {
  }

  lemma {:induction false} StatusesOf(log: seq<Poll>)
    ensures forall m | m in StatusMessages(log) :: m.poll < |log| && log[m.poll].status != []
              && m == Outgoing(m.poll, log[m.poll].tid, log[m.poll].status)
    decreases |log|
  {
    if log != [] {
      StatusesOf(log[..|log| - 1]);
    }
  }

  lemma {:induction false} InfosOf(log: seq<Poll>)
    ensures forall m | m in InfoMessages(log) :: m.poll < |log| && log[m.poll].info != []
              && m == Outgoing(m.poll, InfoTid(log[m.poll]), log[m.poll].info)
    decreases |log|
  {
    if log != [] {
      hide InfoTid;
      InfosOf(log[..|log| - 1]);
    }
  }

  // ---------------------------------------------------------------- what the listener gets

  /** The messages, each with the events that bring it. */
  function Items(nodeId: byte, info: TypeInfo, ms: seq<Outgoing>, events: seq<Event>): seq<Item> {
    if ms == [] then []
    else
      var n := |ms| - 1;
      var k := |events| - Min(|ms[n].frames|, |events|);
      Items(nodeId, info, ms[..n], events[..k]) + [Item(SentAs(nodeId, info, ms[n].tid, ms[n].frames), events[k..])]
  }

  lemma {:induction false} EventsConcat(a: seq<Item>, b: seq<Item>)
    ensures StreamEvents(a + b) == StreamEvents(a) + StreamEvents(b)
    decreases |a|
  {
    if a == [] {
      assert a + b == b;
    } else {
      assert (a + b)[0] == a[0] && (a + b)[1..] == a[1..] + b;
      EventsConcat(a[1..], b);
    }
  }

  /** Each item is a message and brings its frames, and all together are the events. */
  ghost predicate Brought(items: seq<Item>, nodeId: byte, info: TypeInfo, ms: seq<Outgoing>) {
    && |items| == |ms|
    && forall k | 0 <= k < |ms| :: items[k].x == SentAs(nodeId, info, ms[k].tid, ms[k].frames)
                                   && Carries(items[k].events, ms[k].frames)
  }

  lemma {:induction false} ItemsBrought(nodeId: byte, info: TypeInfo, ms: seq<Outgoing>, events: seq<Event>)
    requires Carries(events, FramesOfAll(ms))
    ensures Brought(Items(nodeId, info, ms, events), nodeId, info, ms)
    ensures StreamEvents(Items(nodeId, info, ms, events)) == events
    decreases |ms|
  {
    hide *;
    if ms == [] {
      NoneBrought(nodeId, info, events);
    } else {
      var n := |ms| - 1;
      LastEvents(ms, events);
      var k := |events| - |ms[n].frames|;
      var i := Item(SentAs(nodeId, info, ms[n].tid, ms[n].frames), events[k..]);
      ItemsBrought(nodeId, info, ms[..n], events[..k]);
      BroughtMore(nodeId, info, ms, events, k, Items(nodeId, info, ms[..n], events[..k]), i);
      EventsConcat(Items(nodeId, info, ms[..n], events[..k]), [i]);
      OneItem(i);
      assert events[..k] + events[k..] == events;
    }
  }

  lemma {:induction false} NoneBrought(nodeId: byte, info: TypeInfo, events: seq<Event>)
    requires Carries(events, FramesOfAll([]))
    ensures Brought(Items(nodeId, info, [], events), nodeId, info, [])
    ensures StreamEvents(Items(nodeId, info, [], events)) == events
  {
  }

  lemma {:induction false} OneItem(i: Item)
    ensures StreamEvents([i]) == i.events
  {
    assert [i][1..] == [];
  }

  lemma {:induction false} LastEvents(ms: seq<Outgoing>, events: seq<Event>)
    requires ms != [] && Carries(events, FramesOfAll(ms))
    ensures var n := |ms| - 1;
      && |ms[n].frames| <= |events| && Carries(events[..|events| - |ms[n].frames|], FramesOfAll(ms[..n]))
      && Carries(events[|events| - |ms[n].frames|..], ms[n].frames)
  {
    var n := |ms| - 1;
    var front, last := FramesOfAll(ms[..n]), ms[n].frames;
    assert FramesOfAll(ms) == front + last;
    hide FramesOfAll;
    forall k | 0 <= k < |front| ensures events[k].frame == front[k] {
      assert (front + last)[k] == front[k];
    }
    forall k | 0 <= k < |last| ensures events[|front| + k].frame == last[k] {
      assert (front + last)[|front| + k] == last[k];
    }
  }

  lemma {:induction false} BroughtMore(nodeId: byte, info: TypeInfo, ms: seq<Outgoing>, events: seq<Event>, k: nat,
                                       front: seq<Item>, i: Item)
    requires ms != [] && k == |events| - |ms[|ms| - 1].frames| && front == Items(nodeId, info, ms[..|ms| - 1],
                                                                                 events[..k])
    requires Brought(front, nodeId, info, ms[..|ms| - 1]) && Carries(events[k..], ms[|ms| - 1].frames)
    requires i == Item(SentAs(nodeId, info, ms[|ms| - 1].tid, ms[|ms| - 1].frames), events[k..])
    ensures Items(nodeId, info, ms, events) == front + [i] && Brought(front + [i], nodeId, info, ms)
  {
    hide SentAs;
    hide Carries;
  }

  /** The frames of each report come within the timeout. */
  ghost predicate Prompt(items: seq<Item>) {
    forall i | i in items :: i.events != [] ==> AllInTime(i.events, i.events[0].now)
  }

  lemma {:induction false} ReportLong(i: Item, e: Poll, nodeId: byte, m: BatteryInfo.Info, listener: byte,
                                      accept: Acceptance)
    requires Reported(e, nodeId, m) && Hears(nodeId, INFO_TYPE, accept)
    requires i.x == SentAs(nodeId, INFO_TYPE, InfoTid(e), e.info) && Carries(i.events, e.info)
    requires i.events != [] ==> AllInTime(i.events, i.events[0].now)
    ensures Long(i, listener, accept) && InfoBytes(i.x.payload, m) && i.x.tid == InfoTid(e) && i.events != []
    ensures BlocksFor(Buffered(|i.x.payload|)) <= 2
  {
    hide Wanted;
    hide SentAs;
    hide InfoBytes;
    hide InfoTid;
    hide Good;
    hide Frames;
    hide AllInTime;
    hide Hears;
    hide Reported;
    hide BlocksFor;
    hide Buffered;
    Priorities();
    ReportSent(e, nodeId, m);
    SentAsWanted(nodeId, INFO_TYPE, InfoTid(e), e.info, listener, accept);
    TwoBlocks(|i.x.payload|);
    CountFrames(i.x.id, i.x.tid, i.x.crc, i.x.payload);
    assert FramesOfItem(i)[..|i.events|] == FramesOfItem(i);
  }

  lemma {:induction false} StatusSingle(i: Item, e: Poll, nodeId: byte, m: NodeStatus.Status, listener: byte,
                                        accept: Acceptance)
    requires IsStatus(e.status, nodeId, e.tid, m) && Hears(nodeId, STATUS_TYPE, accept)
    requires i.x == SentAs(nodeId, STATUS_TYPE, e.tid, e.status) && Carries(i.events, e.status)
    ensures Arriving(i, listener, accept) && |i.x.payload| < 8 && StatusBytes(i.x.payload, m)
  {
    hide FramesOfMessage;
    hide Frames;
    hide Wanted;
    hide SentAs;
    hide AllInTime;
    Priorities();
    var payload :| StatusBytes(payload, m) && e.status == FramesOfMessage(nodeId, STATUS_TYPE, e.tid, payload);
    SentAsFrames(nodeId, STATUS_TYPE, e.tid, payload);
    SentAsWanted(nodeId, STATUS_TYPE, e.tid, e.status, listener, accept);
    CountFrames(i.x.id, i.x.tid, i.x.crc, i.x.payload);
    assert FramesOfItem(i)[..|i.events|] == FramesOfItem(i);
    hide StatusBytes;
  }

  /** What the statuses of the run are. */
  ghost predicate AreStatuses(items: seq<Item>, log: seq<Poll>, s: Plan)
    requires |log| <= |s.polls|
  {
    var ms := StatusMessages(log);
    |items| == |ms| && forall k | 0 <= k < |ms| ::
      ms[k].poll < |log| && StatusBytes(items[k].x.payload, StatusAt(Clock(s.polls[ms[k].poll])))
  }

  /** What the battery reports of the run are. */
  ghost predicate AreReports(items: seq<Item>, log: seq<Poll>, s: Plan)
    requires Complete(s) && |log| <= |s.polls|
  {
    var ms := InfoMessages(log);
    |items| == |ms| && forall k | 0 <= k < |ms| ::
      && ms[k].poll < |log| && items[k].x.tid == InfoTid(log[ms[k].poll])
      && s.reports[ms[k].poll] in s.reports && InfoBytes(items[k].x.payload, s.reports[ms[k].poll])
  }

  lemma {:induction false} StatusesSingle(items: seq<Item>, log: seq<Poll>, s: Plan, listener: byte, accept: Acceptance)
    requires Complete(s) && |log| <= |s.polls| && Made(log, s) && Hears(s.nodeId, STATUS_TYPE, accept)
    requires Brought(items, s.nodeId, STATUS_TYPE, StatusMessages(log))
    ensures AllSingle(items, listener, accept) && AreStatuses(items, log, s)
  {
    hide IsStatus;
    hide Reported;
    hide SentAs;
    hide Arriving;
    hide StatusBytes;
    hide Carries;
    var ms := StatusMessages(log);
    StatusesOf(log);
    hide StatusMessages;
    forall k | 0 <= k < |ms|
      ensures ms[k].poll < |log| && StatusBytes(items[k].x.payload, StatusAt(Clock(s.polls[ms[k].poll])))
      ensures Arriving(items[k], listener, accept) && |items[k].x.payload| < 8
    {
      assert ms[k] in ms;
      var j := ms[k].poll;
      StatusSingle(items[k], log[j], s.nodeId, StatusAt(Clock(s.polls[j])), listener, accept);
    }
  }

  lemma {:induction false} ReportsLong(items: seq<Item>, log: seq<Poll>, s: Plan, listener: byte, accept: Acceptance)
    requires Complete(s) && |log| <= |s.polls| && Made(log, s) && Hears(s.nodeId, INFO_TYPE, accept)
    requires Brought(items, s.nodeId, INFO_TYPE, InfoMessages(log)) && Prompt(items)
    ensures AllLong(items, listener, accept) && AllFit(items, 2) && AreReports(items, log, s)
    ensures forall i | i in items :: i.events != []
  {
    hide IsStatus;
    hide Reported;
    hide SentAs;
    hide Long;
    hide InfoBytes;
    hide InfoTid;
    hide Carries;
    hide AllInTime;
    hide BlocksFor;
    var ms := InfoMessages(log);
    InfosOf(log);
    hide InfoMessages;
    forall k | 0 <= k < |ms|
      ensures ms[k].poll < |log| && items[k].x.tid == InfoTid(log[ms[k].poll])
      ensures s.reports[ms[k].poll] in s.reports && InfoBytes(items[k].x.payload, s.reports[ms[k].poll])
      ensures Long(items[k], listener, accept) && items[k].events != []
      ensures |items[k].x.payload| >= 8 ==> BlocksFor(Buffered(|items[k].x.payload|)) <= 2
    {
      assert ms[k] in ms && items[k] in items;
      var j := ms[k].poll;
      ReportLong(items[k], log[j], s.nodeId, s.reports[j], listener, accept);
    }
  }

  /** The events of one message type on the listener, one item for each message of the run. */
  function Arrivals(s: Plan, info: TypeInfo, ms: seq<Outgoing>, calls: seq<Call>): seq<Item> {
    Items(s.nodeId, info, ms, FramesOf(calls, DescriptorFor(s.nodeId, info)))
  }

  /** A listener that gets what the driver was offered under the two descriptors of the service, among whatever else:
      other frames, its own sends and pops. */
  ghost predicate Attends(s: Plan, log: seq<Poll>, n: Node, calls: seq<Call>, accept: Acceptance) {
    && 1 <= s.nodeId < 128 && Hears(s.nodeId, STATUS_TYPE, accept) && Hears(s.nodeId, INFO_TYPE, accept)
    && Sound(n) && NoCleanups(calls) && !RunCalls(n, calls, accept).starved && n.pool.capacity >= 3
    && forall info | info in [STATUS_TYPE, INFO_TYPE] ::
         var d := DescriptorFor(s.nodeId, info); Carries(FramesOf(calls, d), FramesUnder(Offered(log), d))
  }

  /** One descriptor on the listener. */
  lemma {:induction false} SelectIsFed(n: Node, calls: seq<Call>, d: bv32, accept: Acceptance)
    requires Sound(n) && NoCleanups(calls) && !RunCalls(n, calls, accept).starved
    ensures var view := Lookup(n.rx, d);
      && Holding(view) <= n.pool.capacity
      && Select(RunCalls(n, calls, accept).log, d)
         == Feed(view, Alone(view, n.pool.capacity), n.nodeId, FramesOf(calls, d), accept).log
  {
    LookupHeld(n.rx, d);
    hide Lookup;
    hide Follow;
    hide Feed;
    hide RunCalls;
    NonInterference(n, calls, d, accept);
    FollowIsFed(n, calls, d, accept, Alone(Lookup(n.rx, d), n.pool.capacity));
  }

  lemma {:induction false} AloneFits(view: Option<RxState>, capacity: nat)
    requires capacity >= 3
    ensures var q := Alone(view, capacity);
      && q.capacity - q.usage - Opening(view) == capacity - 1 && q.capacity == capacity
      && (view.Some? || !q.Full())
  {
  }

  lemma {:induction false} ArrivalsAre(s: Plan, info: TypeInfo, ms: seq<Outgoing>, calls: seq<Call>)
    ensures Arrivals(s, info, ms, calls) == Items(s.nodeId, info, ms, FramesOf(calls, DescriptorFor(s.nodeId, info)))
  {
  }

  lemma {:induction false} Attended(s: Plan, log: seq<Poll>, n: Node, calls: seq<Call>, accept: Acceptance)
    requires Complete(s) && |log| <= |s.polls| && Runs(s, log) && Attends(s, log, n, calls, accept)
    ensures Made(log, s) && Hears(s.nodeId, STATUS_TYPE, accept) && Hears(s.nodeId, INFO_TYPE, accept)
    ensures Sound(n) && NoCleanups(calls) && !RunCalls(n, calls, accept).starved && n.pool.capacity >= 3
    ensures Carries(FramesOf(calls, DescriptorFor(s.nodeId, STATUS_TYPE)), FramesOfAll(StatusMessages(log)))
    ensures Carries(FramesOf(calls, DescriptorFor(s.nodeId, INFO_TYPE)), FramesOfAll(InfoMessages(log)))
  {
    hide Carries;
    hide Sound;
    hide Made;
    hide Runs;
    hide FramesOf;
    hide DescriptorFor;
    hide RunCalls;
    hide NoCleanups;
    RunMade(s, log);
    OfferedUnder(s, log);
    assert STATUS_TYPE in [STATUS_TYPE, INFO_TYPE] && INFO_TYPE in [STATUS_TYPE, INFO_TYPE];
  }

  /** Every status of the run is delivered, once and in order. */
  lemma {:induction false} StatusesHeard(s: Plan, log: seq<Poll>, n: Node, calls: seq<Call>, accept: Acceptance)
    requires Complete(s) && |log| <= |s.polls| && Runs(s, log) && Attends(s, log, n, calls, accept)
    ensures var items := Arrivals(s, STATUS_TYPE, StatusMessages(log), calls);
      && AreStatuses(items, log, s)
      && DeliversAll(Deliveries(Select(RunCalls(n, calls, accept).log, DescriptorFor(s.nodeId, STATUS_TYPE))), items)
  {
    hide *;
    var d, ms := DescriptorFor(s.nodeId, STATUS_TYPE), StatusMessages(log);
    var view := Lookup(n.rx, d);
    Attended(s, log, n, calls, accept);
    SelectIsFed(n, calls, d, accept);
    AloneFits(view, n.pool.capacity);
    ArrivalsAre(s, STATUS_TYPE, ms, calls);
    ItemsBrought(s.nodeId, STATUS_TYPE, ms, FramesOf(calls, d));
    StatusesSingle(Items(s.nodeId, STATUS_TYPE, ms, FramesOf(calls, d)), log, s, n.nodeId, accept);
    SinglesDelivered(view, Alone(view, n.pool.capacity), n.nodeId, Items(s.nodeId, STATUS_TYPE, ms, FramesOf(calls, d)),
                     accept);
  }

  /** Of the battery reports of the run, exactly those are delivered that the receiver can tell from the last one it
      took, once and in order. */
  lemma {:induction false} ReportsHeard(s: Plan, log: seq<Poll>, n: Node, calls: seq<Call>, accept: Acceptance)
    requires Complete(s) && |log| <= |s.polls| && Runs(s, log) && Attends(s, log, n, calls, accept)
    requires var items := Arrivals(s, INFO_TYPE, InfoMessages(log), calls);
      && Prompt(items)
      && (items != [] && items[0].events != [] ==>
            Receptive(Lookup(n.rx, DescriptorFor(s.nodeId, INFO_TYPE)), items[0].x.tid, items[0].events[0].now))
    ensures var items := Arrivals(s, INFO_TYPE, InfoMessages(log), calls);
      && AreReports(items, log, s)
      && DeliversAll(Deliveries(Select(RunCalls(n, calls, accept).log, DescriptorFor(s.nodeId, INFO_TYPE))),
                     Taken(items))
  {
    hide *;
    var d, ms := DescriptorFor(s.nodeId, INFO_TYPE), InfoMessages(log);
    var view := Lookup(n.rx, d);
    Attended(s, log, n, calls, accept);
    SelectIsFed(n, calls, d, accept);
    AloneFits(view, n.pool.capacity);
    ArrivalsAre(s, INFO_TYPE, ms, calls);
    var items := Items(s.nodeId, INFO_TYPE, ms, FramesOf(calls, d));
    ItemsBrought(s.nodeId, INFO_TYPE, ms, FramesOf(calls, d));
    ReportsLong(items, log, s, n.nodeId, accept);
    FitMore(items, 2, n.pool.capacity - Alone(view, n.pool.capacity).usage - Opening(view));
    CounterStreamFrom(view, Alone(view, n.pool.capacity), n.nodeId, items, accept);
  }

  lemma {:induction false} FitMore(items: seq<Item>, free: int, more: int)
    requires AllFit(items, free) && free <= more
    ensures AllFit(items, more)
  {
    hide BlocksFor;
  }

  /** In terms of the run: the receiver that took the report of poll `i`, begun at `start`, cannot tell that of poll `j`
      from it if and only if a multiple of 32 messages was sent from the one to the other and no more than two seconds
      passed. */
  lemma {:induction false} ToldByCount(log: seq<Poll>, first: byte, next: byte, i: nat, j: nat, start: Timestamp,
                                       now: Timestamp)
    requires TidsRun(log, first, next) && i < j < |log| && InfoTid(log[i]) < 32
    ensures !ToldApart(InfoTid(log[i]), start, InfoTid(log[j]), now)
       <==> SentBetween(log, i, j) % 32 == 0 && start != 0 && Receiver.Elapsed(now, start) <= TRANSFER_TIMEOUT_USEC
  {
    hide TidsRun;
    hide InfoTid;
    hide SentBetween;
    ReportTids(log, first, next, i, j);
    ComesRound(InfoTid(log[i]), SentBetween(log, i, j));
  }

  /** A delivery that announces a status or a report of the run is decoded to it. */
  lemma {:induction false} HeardReads(t: Transfer, x: Sending, start: Timestamp, m: BatteryInfo.Info,
                                      before: BatteryInfo.Info, junk: int, status: NodeStatus.Status,
                                      previous: NodeStatus.Status)
    requires Announces(t, x, start) && BatteryInfo.Proper(m) && BatteryInfo.Proper(before)
    ensures Stocked(t)
    ensures var name := m.name[..m.nameLength] + before.name[m.nameLength..];
      InfoBytes(x.payload, m) && BatteryInfo.InRange(m) ==>
        BatteryInfo.Read(Payload(t), before, junk) == m.(name := name)
    ensures StatusBytes(x.payload, status) && NodeStatus.InRange(status) ==>
              NodeStatus.Read(Payload(t), previous) == status
  {
    hide BatteryInfo.Read;
    hide NodeStatus.Read;
    if InfoBytes(x.payload, m) && BatteryInfo.InRange(m) {
      BatteryInfo.InfoRoundTrip(m, x.payload, before, junk);
    }
    if StatusBytes(x.payload, status) && NodeStatus.InRange(status) {
      NodeStatus.StatusRoundTrip(status, x.payload, previous);
    }
  }
}
