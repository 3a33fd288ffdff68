/** The application's service: message objects, their bytes, and the two periodic publications. */
module ServiceApi {
  import opened Types
  import opened CanId
  import opened Fragment
  import opened Receiver
  import opened Library
  import opened Interleaving
  import opened EndToEnd
  import opened Dsdl
  import opened Schedule
  import opened Service
  import NodeStatus
  import BatteryInfo

  const NODE_STATUS := 0
  const BATTERY_INFO := 1
  const DEFAULT_PERIOD: Milliseconds := 500
  const VENDOR_SPECIFIC_STATUS_CODE := 500
  const CAPACITY := 62
  const LONGEST_TRANSFER := 8

  const STATUS_TYPE := TypeInfo(NodeStatus.SIGNATURE, NodeStatus.DATA_TYPE_ID, PRIORITY_HIGH)
  const INFO_TYPE := TypeInfo(BatteryInfo.SIGNATURE, BatteryInfo.DATA_TYPE_ID, PRIORITY_LOW)

  /** The frames of a message with the given bytes. */
  function FramesOfMessage(nodeId: byte, info: TypeInfo, tid: byte, payload: seq<byte>): seq<Frame> {
    MessageFrames(nodeId, info.signature, info.id, tid, info.priority, payload)
  }

  predicate SmallPriority(info: TypeInfo) {
    info.priority < 32
  }

  /** A node that has published any number of messages: quiet, with its address and arena, and never more than eight
      blocks in use. */
  predicate Settled(m: Node, nodeId: byte) {
    Quiet(m) && m.nodeId == nodeId && nodeId != 0 && m.pool.capacity == CAPACITY && m.pool.peak <= LONGEST_TRANSFER
  }

  /** A message of up to 54 bytes always finds its blocks, and leaves the node settled. */
  lemma {:induction false} SettledSend(m: Node, nodeId: byte, info: TypeInfo, tid: byte, payload: seq<byte>)
    requires Settled(m, nodeId) && Sound(m) && SmallPriority(info) && |payload| <= 54
    ensures var s := SendMessage(m, info.signature, info.id, tid, info.priority, payload);
      && s.code >= 0 && Settled(Drained(s.node), nodeId)
      && s.node.tx == FramesOfMessage(nodeId, info, tid, payload) && s.tid == Incremented(tid)
  {
    hide MessageFrames;
    SendFits(m, info, tid, payload);
    SendThenDrain(m, info, tid, payload);
    PriorityFits(info.priority);
    hide Enqueue;
  }

  lemma {:induction false} Priorities()
    ensures SmallPriority(STATUS_TYPE) && SmallPriority(INFO_TYPE)
  {
  }

  /** The schedule entry after a poll. */
  function Polled(s: Scheduled, now: Milliseconds): Scheduled {
    if Due(s, now) then s.(lastExecution := now) else s
  }

  function StatusAt(now: Milliseconds): NodeStatus.Status {
    NodeStatus.Status(now / 1000, 0, 0, 0, VENDOR_SPECIFIC_STATUS_CODE)
  }

  /** The message that a published status or battery report carries, byte by byte. */
  ghost predicate StatusBytes(payload: seq<byte>, m: NodeStatus.Status) {
    |payload| == NodeStatus.MAX_SIZE && Filled(payload, NodeStatus.Items(m), 5)
  }

  ghost predicate InfoBytes(payload: seq<byte>, m: BatteryInfo.Info)
    requires BatteryInfo.Proper(m)
  {
    |payload| == BatteryInfo.FIXED_SIZE + m.nameLength && Filled(payload, BatteryInfo.Items(m), |BatteryInfo.Items(m)|)
  }

  ghost predicate IsStatus(frames: seq<Frame>, nodeId: byte, tid: byte, m: NodeStatus.Status) {
    exists payload :: StatusBytes(payload, m) && frames == FramesOfMessage(nodeId, STATUS_TYPE, tid, payload)
  }

  ghost predicate IsInfo(frames: seq<Frame>, nodeId: byte, tid: byte, m: BatteryInfo.Info)
    requires BatteryInfo.Proper(m)
  {
    exists payload :: InfoBytes(payload, m) && frames == FramesOfMessage(nodeId, INFO_TYPE, tid, payload)
  }

  /** What one poll offered to the driver, and the shared transfer ID before it. */
  datatype Poll = Poll(tid: byte, status: seq<Frame>, info: seq<Frame>)

  /** The transfer ID is shared: each message advances it. */
  function TidAfter(e: Poll): byte {
    Advanced(e.tid, (if e.status != [] then 1 else 0) + (if e.info != [] then 1 else 0))
  }

  /** The poll offers a status or none, then a battery report or none. */
  ghost predicate Answers(e: Poll, nodeId: byte, statusDue: bool, infoDue: bool, now: Milliseconds,
                          reported: BatteryInfo.Info)
    requires BatteryInfo.Proper(reported)
  {
    && (if statusDue then e.status != [] && IsStatus(e.status, nodeId, e.tid, StatusAt(now)) else e.status == [])
    && (if infoDue then e.info != [] && IsInfo(e.info, nodeId, if statusDue then Incremented(e.tid)
                                               else e.tid, reported) else e.info == [])
  }

  lemma {:induction false} SomeFrames(nodeId: byte, info: TypeInfo, tid: byte, payload: seq<byte>)
    ensures FramesOfMessage(nodeId, info, tid, payload) != []
  {
    hide MessageId;
    hide CalculateCrc;
    CountFrames(MessageId(info.priority, info.id, nodeId) | EFF, tid, CalculateCrc(info.signature, payload), payload);
    hide Frames;
  }

  /** Everything offered by a row of polls, in order. */
  function Offered(log: seq<Poll>): seq<Frame> {
    if log == [] then []
    else var n := |log| - 1; Offered(log[..n]) + (log[n].status + log[n].info)
  }

  /** The times of the polls that offered a status, or a battery report. */
  function StatusTimes(log: seq<Poll>, polls: seq<nat>): seq<nat>
    requires |log| == |polls|
  {
    if log == [] then []
    else var n := |log| - 1; StatusTimes(log[..n], polls[..n]) + (if log[n].status != [] then [polls[n]] else [])
  }

  function InfoTimes(log: seq<Poll>, polls: seq<nat>): seq<nat>
    requires |log| == |polls|
  {
    if log == [] then []
    else var n := |log| - 1; InfoTimes(log[..n], polls[..n]) + (if log[n].info != [] then [polls[n]] else [])
  }

  /** The polls ahead: their times, what the callback returns at each, and the schedule in real time. */
  datatype Plan = Plan(nodeId: byte, polls: seq<nat>, reports: seq<BatteryInfo.Info>, last: nat, period: Milliseconds,
                       lastInfo: nat, infoPeriod: Milliseconds, battery: bool)

  predicate Complete(s: Plan) {
    |s.reports| == |s.polls| && forall m | m in s.reports :: BatteryInfo.Proper(m)
  }

  /** Every poll of the log offered exactly what its time asks for. */
  ghost predicate Runs(s: Plan, log: seq<Poll>)
    requires Complete(s) && |log| <= |s.polls|
  {
    forall j | 0 <= j < |log| :: s.reports[j] in s.reports
      && Answers(log[j], s.nodeId, DueAt(s.last, s.period, s.polls, j),
                 s.battery && DueAt(s.lastInfo, s.infoPeriod, s.polls, j), Clock(s.polls[j]), s.reports[j])
  }

  /** The schedule entries after the first polls. */
  function Entries(s: Plan, n: nat): seq<Scheduled>
    requires n <= |s.polls|
  {
    [Scheduled(Clock(LastPublish(s.last, s.period, s.polls[..n])), s.period),
     Scheduled(Clock(LastPublish(s.lastInfo, s.infoPeriod, s.polls[..n])), s.infoPeriod)]
  }

  ghost predicate Progress(s: Plan, log: seq<Poll>, message: seq<Scheduled>) {
    && Complete(s) && |log| <= |s.polls| && Runs(s, log) && message == Entries(s, |log|)
    && StatusTimes(log, s.polls[..|log|]) == PublishTimes(s.last, s.period, s.polls[..|log|])
    && InfoTimes(log, s.polls[..|log|])
       == if s.battery then PublishTimes(s.lastInfo, s.infoPeriod, s.polls[..|log|]) else []
  }

  lemma {:induction false} ProgressMore(s: Plan, log: seq<Poll>, message: seq<Scheduled>, e: Poll)
    requires Progress(s, log, message) && |log| < |s.polls| && |message| == 2
    requires Fits(s, |log|, e, message)
    ensures Progress(s, log + [e], [Polled(message[0], Clock(s.polls[|log|])),
                                    Polled(message[1], Clock(s.polls[|log|]))])
  {
    hide Due;
    hide Answers;
    hide PublishTimes;
    hide LastPublish;
    hide StatusTimes;
    hide InfoTimes;
    EntriesMore(s, |log|);
    RunsMore(s, log, message, e);
    FitsSome(s, |log|, e);
    PublishMore(s.last, s.period, s.polls, |log|);
    PublishMore(s.lastInfo, s.infoPeriod, s.polls, |log|);
    TimesMore(log, e, s.polls, |log|);
    hide Runs;
    hide Entries;
  }

  /** What `run_pending_tasks` answers to the `j`-th poll. */
  ghost predicate Fits(s: Plan, j: nat, e: Poll, message: seq<Scheduled>)
    requires Complete(s) && j < |s.polls| && |message| == 2
  {
    s.reports[j] in s.reports && Answers(e, s.nodeId, Due(message[0], Clock(s.polls[j])),
                                         s.battery && Due(message[1], Clock(s.polls[j])), Clock(s.polls[j]),
                                         s.reports[j])
  }

  lemma {:induction false} FitsSome(s: Plan, j: nat, e: Poll)
    requires Complete(s) && j < |s.polls| && Fits(s, j, e, Entries(s, j))
    ensures e.status != [] <==> DueAt(s.last, s.period, s.polls, j)
    ensures e.info != [] <==> s.battery && DueAt(s.lastInfo, s.infoPeriod, s.polls, j)
  {
    hide Due;
    hide IsStatus;
    hide IsInfo;
    hide LastPublish;
  }

  lemma {:induction false} EntriesMore(s: Plan, j: nat)
    requires j < |s.polls|
    ensures Entries(s, j + 1) == [Polled(Entries(s, j)[0], Clock(s.polls[j])),
                                  Polled(Entries(s, j)[1], Clock(s.polls[j]))]
  {
    hide Due;
    hide LastPublish;
    PublishMore(s.last, s.period, s.polls, j);
    PublishMore(s.lastInfo, s.infoPeriod, s.polls, j);
  }

  lemma {:induction false} RunsMore(s: Plan, log: seq<Poll>, message: seq<Scheduled>, e: Poll)
    requires Complete(s) && |log| < |s.polls| && Runs(s, log) && message == Entries(s, |log|)
    requires Fits(s, |log|, e, message)
    ensures Runs(s, log + [e])
  {
    hide Due;
    hide Answers;
    hide LastPublish;
  }

  lemma {:induction false} ProgressEnds(s: Plan, log: seq<Poll>, message: seq<Scheduled>)
    requires Progress(s, log, message) && |log| == |s.polls|
    ensures Runs(s, log) && StatusTimes(log, s.polls) == PublishTimes(s.last, s.period, s.polls)
    ensures InfoTimes(log, s.polls) == if s.battery then PublishTimes(s.lastInfo, s.infoPeriod, s.polls) else []
  {
    assert s.polls[..|log|] == s.polls;
  }

  /** The transfer ID runs through the log. */
  predicate TidsRun(log: seq<Poll>, first: byte, next: byte) {
    if log == [] then next == first
    else log[0].tid == first && next == TidAfter(log[|log| - 1]) && forall j | 0 <= j < |log| - 1 ::
      log[j + 1].tid == TidAfter(log[j])
  }

  lemma {:induction false} TidsRunMore(log: seq<Poll>, e: Poll, first: byte)
    requires TidsRun(log, first, e.tid)
    ensures TidsRun(log + [e], first, TidAfter(e))
  {
    hide TidAfter;
  }

  /** How many messages a poll sent. */
  function Sends(e: Poll): nat {
    (if e.status != [] then 1 else 0) + (if e.info != [] then 1 else 0)
  }

  function AllSends(log: seq<Poll>): nat {
    if log == [] then 0 else Sends(log[0]) + AllSends(log[1..])
  }

  lemma {:induction false} AdvancedOn(tid: byte, m: nat, n: nat)
    ensures Advanced(Advanced(tid, m), n) == Advanced(tid, m + n)
    decreases n
  {
    if n > 0 {
      AdvancedOn(tid, m, n - 1);
    }
  }

  /** The transfer ID of a poll is that of an earlier poll, advanced by every message sent from there on. */
  lemma {:induction false} TidsCount(log: seq<Poll>, first: byte, next: byte, i: nat, j: nat)
    requires TidsRun(log, first, next) && i <= j < |log|
    ensures log[j].tid == Advanced(log[i].tid, AllSends(log[i..j]))
    decreases j - i
  {
    if i < j {
      assert log[i..j][1..] == log[i + 1..j];
      TidsCount(log, first, next, i + 1, j);
      assert log[i + 1].tid == Advanced(log[i].tid, Sends(log[i]));
      AdvancedOn(log[i].tid, Sends(log[i]), AllSends(log[i + 1..j]));
    }
  }

  lemma {:induction false} OfferedMore(log: seq<Poll>, e: Poll)
    ensures Offered(log + [e]) == Offered(log) + (e.status + e.info)
  {
    assert (log + [e])[..|log|] == log;
  }

  lemma {:induction false} TimesMore(log: seq<Poll>, e: Poll, polls: seq<nat>, j: nat)
    requires |log| == j < |polls|
    ensures StatusTimes(log + [e], polls[..j + 1]) == StatusTimes(log, polls[..j])
        + (if e.status != [] then [polls[j]] else [])
    ensures InfoTimes(log + [e], polls[..j + 1]) == InfoTimes(log, polls[..j])
        + (if e.info != [] then [polls[j]] else [])
  {
    assert (log + [e])[..j] == log && polls[..j + 1][..j] == polls[..j];
  }

  lemma {:induction false} NoPolls(s: Plan, message: seq<Scheduled>, tid: byte)
    requires Complete(s) && message == [Scheduled(Clock(s.last), s.period), Scheduled(Clock(s.lastInfo), s.infoPeriod)]
    ensures Progress(s, [], message) && TidsRun([], tid, tid) && Offered([]) == []
  {
  }

  /** Publishes at the given times keep their distance when the polls come at most `d` apart. */
  ghost predicate KeepsPace(times: seq<nat>, polls: seq<nat>, last: nat, period: Milliseconds, d: nat) {
    Spaced(last, d, polls) ==>
      && Separate([last] + times, period)
      && (period > 0 && period + d <= WRAP ==>
            Apart([last] + times, period, period + d)
            && (polls != [] ==> polls[|polls| - 1] < ([last] + times)[|times|] + period))
  }

  lemma {:induction false} KeepsDistance(last: nat, period: Milliseconds, polls: seq<nat>, d: nat)
    ensures KeepsPace(PublishTimes(last, period, polls), polls, last, period, d)
  {
    if Spaced(last, d, polls) {
      AtLeastPeriodApart(last, period, polls, d);
      if period > 0 && period + d <= WRAP {
        PublishesInTime(last, last, period, polls, d);
      }
    }
  }

  class DroneCanService {
    const nodeId: byte
    const bigEndian: bool
    const base: ServiceBase
    var message: seq<Scheduled>
    var hasBattery: bool

    ghost predicate Valid()
      reads this, base, base.canard, base.canard.instance, base.canard.instance.next, base.canard.instance.body
    {
      base.Valid() && Settled(base.Model(), nodeId) && |message| == 2
    }

    /** Since `errors` and `count`, `n` frames have been offered, and the only errors reported are those of refused
        sends: no publish has failed for lack of memory. */
    ghost predicate Reported(errors: seq<Error>, count: nat, n: int)
      reads base, base.driver
    {
      && n >= 0 && base.driver.count == count + n
      && base.errors == errors + Reports(base.driver.succeeds, count, n)
    }

    constructor (nodeId: byte, bigEndian: bool, garbage: byte, succeeds: nat -> bool)
      requires 1 <= nodeId && nodeId <= 127
      ensures Valid() && base.isHealthy && base.driver.offered == [] && !hasBattery
      ensures message == [Scheduled(0, 500), Scheduled(0, 500)]
    {
      this.nodeId, this.bigEndian := nodeId, bigEndian;
      base := new ServiceBase(nodeId, garbage, succeeds);
      message, hasBattery := [Scheduled(0, DEFAULT_PERIOD), Scheduled(0, DEFAULT_PERIOD)], false;
    }

    /** A message of bytes that fits: it is offered whole, in order, and no block stays in use. */
    method Publish(info: TypeInfo, payload: seq<byte>)
      requires Valid() && SmallPriority(info) && |payload| <= 54
      modifies base, base.driver, base.canard, base.canard.instance, base.canard.instance.next,
               base.canard.instance.body
      ensures Valid() && base.isHealthy && base.canard.transferId == Incremented(old(base.canard.transferId))
      ensures base.driver.offered == old(base.driver.offered) + FramesOfMessage(nodeId, info,
                                                                                old(base.canard.transferId), payload)
      ensures Reported(old(base.errors), old(base.driver.count),
                       |FramesOfMessage(nodeId, info, old(base.canard.transferId), payload)|)
    {
      SettledSend(base.Model(), nodeId, info, base.canard.transferId, payload);
      hide Instance.CanardInstance.Valid;
      hide SendMessage;
      hide FramesOfMessage;
      hide Sound;
      hide Reports;
      hide Settled;
      base.PublishGenericMessage(info, payload);
    }

    /** `publish_message` of a NodeStatus. */
    method PublishStatus(m: NodeStatus.Status) returns (ghost payload: seq<byte>)
      requires Valid()
      modifies base, base.driver, base.canard, base.canard.instance, base.canard.instance.next,
               base.canard.instance.body
      ensures Valid() && base.isHealthy && base.canard.transferId == Incremented(old(base.canard.transferId))
      ensures StatusBytes(payload, m)
      ensures base.driver.offered == old(base.driver.offered) + FramesOfMessage(nodeId, STATUS_TYPE,
                                                                                old(base.canard.transferId), payload)
      ensures Reported(old(base.errors), old(base.driver.count),
                       |FramesOfMessage(nodeId, STATUS_TYPE, old(base.canard.transferId), payload)|)
    {
      hide Service.ServiceBase.Valid;
      hide FramesOfMessage;
      hide Filled;
      Priorities();
      var buffer := new byte[MAX_BYTES_ON_MESSAGE](_ => 0);
      var length := NodeStatus.Encode(m, buffer, bigEndian);
      payload := buffer[..length];
      Publish(STATUS_TYPE, buffer[..length]);
    }

    /** `publish_message` of a BatteryInfo. */
    method PublishInfo(m: BatteryInfo.Info) returns (ghost payload: seq<byte>)
      requires Valid() && BatteryInfo.Proper(m)
      modifies base, base.driver, base.canard, base.canard.instance, base.canard.instance.next,
               base.canard.instance.body
      ensures Valid() && base.isHealthy && base.canard.transferId == Incremented(old(base.canard.transferId))
      ensures InfoBytes(payload, m)
      ensures base.driver.offered == old(base.driver.offered) + FramesOfMessage(nodeId, INFO_TYPE,
                                                                                old(base.canard.transferId), payload)
      ensures Reported(old(base.errors), old(base.driver.count),
                       |FramesOfMessage(nodeId, INFO_TYPE, old(base.canard.transferId), payload)|)
    {
      hide Service.ServiceBase.Valid;
      hide FramesOfMessage;
      hide Filled;
      Priorities();
      var buffer := new byte[MAX_BYTES_ON_MESSAGE](_ => 0);
      var length := BatteryInfo.Encode(m, buffer, bigEndian);
      payload := buffer[..length];
      Publish(INFO_TYPE, buffer[..length]);
    }

    /** `publish_regularly`: `reported` is what the callback returns now, and it is published at once; a period of zero
        ends the reports and publishes nothing. */
    method PublishRegularly(reported: BatteryInfo.Info, period: Milliseconds) returns (ghost info: seq<Frame>)
      requires Valid() && BatteryInfo.Proper(reported)
      modifies this, base, base.driver, base.canard, base.canard.instance, base.canard.instance.next,
               base.canard.instance.body
      ensures Valid() && hasBattery == (period != 0)
      ensures message == if period == 0 then old(message)
          else old(message)[BATTERY_INFO := old(message)[BATTERY_INFO].(timeBetweenPublish := period)]
      ensures if period == 0 then info == [] else IsInfo(info, nodeId, old(base.canard.transferId), reported)
      ensures base.driver.offered == old(base.driver.offered) + info
      ensures Reported(old(base.errors), old(base.driver.count), |info|)
      ensures base.canard.transferId == if period == 0 then old(base.canard.transferId)
          else Incremented(old(base.canard.transferId))
      ensures base.isHealthy == if period == 0 then old(base.isHealthy) else true
    {
      hide Service.ServiceBase.Valid;
      hide FramesOfMessage;
      hide InfoBytes;
      hide Settled;
      info := [];
      if period == 0 {
        hasBattery := false;
        return;
      }
      hasBattery := true;
      ghost var tid := base.canard.transferId;
      var payload := PublishInfo(reported);
      info := FramesOfMessage(nodeId, INFO_TYPE, tid, payload);
      message := message[BATTERY_INFO := message[BATTERY_INFO].(timeBetweenPublish := period)];
    }

    /** The first half of `run_pending_tasks`: the status, when it is due. */
    method PollStatus(now: Milliseconds) returns (ghost status: seq<Frame>)
      requires Valid()
      modifies this, base, base.driver, base.canard, base.canard.instance, base.canard.instance.next,
               base.canard.instance.body
      ensures Valid() && hasBattery == old(hasBattery) && (old(base.isHealthy) ==> base.isHealthy)
      ensures message == [Polled(old(message)[NODE_STATUS], now), old(message)[BATTERY_INFO]]
      ensures if Due(old(message)[NODE_STATUS], now)
        then status != [] && IsStatus(status, nodeId, old(base.canard.transferId), StatusAt(now)) else status == []
      ensures base.canard.transferId == Advanced(old(base.canard.transferId), if status != [] then 1 else 0)
      ensures base.driver.offered == old(base.driver.offered) + status
      ensures Reported(old(base.errors), old(base.driver.count), |status|)
    {
      hide Service.ServiceBase.Valid;
      hide FramesOfMessage;
      hide StatusBytes;
      hide Settled;
      status := [];
      if Due(message[NODE_STATUS], now) {
        message := message[NODE_STATUS := message[NODE_STATUS].(lastExecution := now)];
        ghost var tid := base.canard.transferId;
        var bytes := PublishStatus(NodeStatus.Status(now / 1000, 0, 0, 0, VENDOR_SPECIFIC_STATUS_CODE));
        status := FramesOfMessage(nodeId, STATUS_TYPE, tid, bytes);
        SomeFrames(nodeId, STATUS_TYPE, tid, bytes);
      }
    }

    /** The second half: the battery report, when it is due and asked for. */
    method PollInfo(now: Milliseconds, reported: BatteryInfo.Info) returns (ghost info: seq<Frame>)
      requires Valid() && BatteryInfo.Proper(reported)
      modifies this, base, base.driver, base.canard, base.canard.instance, base.canard.instance.next,
               base.canard.instance.body
      ensures Valid() && hasBattery == old(hasBattery) && (old(base.isHealthy) ==> base.isHealthy)
      ensures message == [old(message)[NODE_STATUS], Polled(old(message)[BATTERY_INFO], now)]
      ensures if hasBattery && Due(old(message)[BATTERY_INFO], now)
        then info != [] && IsInfo(info, nodeId, old(base.canard.transferId), reported) else info == []
      ensures base.canard.transferId == Advanced(old(base.canard.transferId), if info != [] then 1 else 0)
      ensures base.driver.offered == old(base.driver.offered) + info
      ensures Reported(old(base.errors), old(base.driver.count), |info|)
    {
      hide Service.ServiceBase.Valid;
      hide FramesOfMessage;
      hide InfoBytes;
      hide Settled;
      info := [];
      if Due(message[BATTERY_INFO], now) {
        message := message[BATTERY_INFO := message[BATTERY_INFO].(lastExecution := now)];
        if hasBattery {
          ghost var tid := base.canard.transferId;
          var bytes := PublishInfo(reported);
          info := FramesOfMessage(nodeId, INFO_TYPE, tid, bytes);
          SomeFrames(nodeId, INFO_TYPE, tid, bytes);
        }
      }
    }

    /** `run_pending_tasks`. */
    method RunPendingTasks(now: Milliseconds, reported: BatteryInfo.Info) returns (ghost e: Poll)
      requires Valid() && BatteryInfo.Proper(reported)
      modifies this, base, base.driver, base.canard, base.canard.instance, base.canard.instance.next,
               base.canard.instance.body
      ensures Valid() && hasBattery == old(hasBattery) && (old(base.isHealthy) ==> base.isHealthy)
      ensures message == [Polled(old(message)[NODE_STATUS], now), Polled(old(message)[BATTERY_INFO], now)]
      ensures Answers(e, nodeId, Due(old(message)[NODE_STATUS], now),
                      hasBattery && Due(old(message)[BATTERY_INFO], now), now, reported)
      ensures e.tid == old(base.canard.transferId) && base.canard.transferId == TidAfter(e)
      ensures base.driver.offered == old(base.driver.offered) + (e.status + e.info)
      ensures Reported(old(base.errors), old(base.driver.count), |e.status| + |e.info|)
    {
      hide Service.ServiceBase.Valid;
      hide Settled;
      hide IsStatus;
      hide IsInfo;
      hide Reports;
      ghost var tid := base.canard.transferId;
      var status := PollStatus(now);
      var info := PollInfo(now, reported);
      e := Poll(tid, status, info);
      ReportsConcat(base.driver.succeeds, old(base.driver.count), |status|, |info|);
    }

    /** The application's loop. A poll at each of the given real times offers the status exactly at the times the
        schedule says and the battery report likewise, and nothing else; no publish fails for memory; and the publishes
        keep their distance: at least a period, and less than a period and the polling interval `d` if these fit the
        clock. */
    method Loop(polls: seq<nat>, reports: seq<BatteryInfo.Info>, ghost last: nat, ghost lastInfo: nat, ghost d: nat)
      returns (ghost log: seq<Poll>)
      requires Valid() && |reports| == |polls| && forall m | m in reports :: BatteryInfo.Proper(m)
      requires message[NODE_STATUS].lastExecution == Clock(last)
      requires message[BATTERY_INFO].lastExecution == Clock(lastInfo)
      modifies this, base, base.driver, base.canard, base.canard.instance, base.canard.instance.next,
               base.canard.instance.body
      ensures Valid() && (old(base.isHealthy) ==> base.isHealthy)
      ensures |log| == |polls| && base.driver.offered == old(base.driver.offered) + Offered(log)
      ensures Reported(old(base.errors), old(base.driver.count), |Offered(log)|)
      ensures Runs(Plan(nodeId, polls, reports, last, old(message)[NODE_STATUS].timeBetweenPublish,
                        lastInfo, old(message)[BATTERY_INFO].timeBetweenPublish, old(hasBattery)), log)
      ensures TidsRun(log, old(base.canard.transferId), base.canard.transferId)
      ensures StatusTimes(log, polls) == PublishTimes(last, old(message)[NODE_STATUS].timeBetweenPublish, polls)
      ensures var period := old(message)[BATTERY_INFO].timeBetweenPublish;
        InfoTimes(log, polls) == if old(hasBattery) then PublishTimes(lastInfo, period, polls) else []
      ensures KeepsPace(StatusTimes(log, polls), polls, last, old(message)[NODE_STATUS].timeBetweenPublish, d)
    {
      hide Service.ServiceBase.Valid;
      hide Settled;
      hide Progress;
      hide TidsRun;
      hide Reports;
      hide Offered;
      hide Answers;
      hide Runs;
      hide KeepsPace;
      NoReports(base.driver.succeeds, base.driver.count);
      ghost var s := Plan(nodeId, polls, reports, last, message[NODE_STATUS].timeBetweenPublish, lastInfo,
                          message[BATTERY_INFO].timeBetweenPublish, hasBattery);
      log := [];
      NoPolls(s, message, base.canard.transferId);
      for i := 0 to |polls|
        invariant Valid() && |log| == i && hasBattery == s.battery && (old(base.isHealthy) ==> base.isHealthy)
        invariant base.driver.offered == old(base.driver.offered) + Offered(log)
        invariant Reported(old(base.errors), old(base.driver.count), |Offered(log)|)
        invariant Progress(s, log, message)
        invariant TidsRun(log, old(base.canard.transferId), base.canard.transferId)
      {
        assert reports[i] in reports;
        ghost var before, sent, was := log, |Offered(log)|, message;
        var e := RunPendingTasks(polls[i] % WRAP, reports[i]);
        log := log + [e];
        ProgressMore(s, before, was, e);
        OfferedMore(before, e);
        TidsRunMore(before, e, old(base.canard.transferId));
        ReportsConcat(base.driver.succeeds, old(base.driver.count), sent, |e.status| + |e.info|);
      }
      ProgressEnds(s, log, message);
      KeepsDistance(last, s.period, polls, d);
    }
  }
}
