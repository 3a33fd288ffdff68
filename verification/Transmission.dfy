/** From the calls on one node, over the bus, to the deliveries on another: any run of sends, pops and everything else.
    */
module Transmission {
  import opened Types
  import opened CanId
  import opened Crc
  import opened Fragment
  import opened RxBuffer
  import opened Receiver
  import opened Reassembly
  import opened RoundTrip
  import opened TxQueue
  import opened Library
  import opened Streams
  import opened EndToEnd
  import opened SharedCounter
  import opened Preemption

  // ---------------------------------------------------------------- what a run puts on the bus

  /** The transfer that a call sends, if it sends one. */
  function TransferOf(nodeId: byte, c: Call): Option<Sending> {
    match c
    case Message(signature, dtid, tid, priority, payload) =>
      if priority > PRIORITY_LOWEST then None
      else if nodeId == 0 then
        if |payload| > 7 || dtid & 3 != dtid then None
        else Some(Sending(AnonymousIdOf(priority, dtid, payload), tid, 0xFFFF, payload, signature))
      else Some(Sending(MessageId(priority, dtid, nodeId) | EFF, tid, CalculateCrc(signature, payload), payload,
                        signature))
    case Service(destination, signature, dtid, tid, priority, request, payload) =>
      if priority > PRIORITY_LOWEST || nodeId == 0 then None
      else Some(Sending(ServiceId(priority, dtid, request, destination, nodeId) | EFF, tid,
                        CalculateCrc(signature, payload), payload, signature))
    case _ => None
  }

  /** A transfer of which the first `count` frames were queued; without memory these are not all. */
  datatype Portion = Portion(x: Sending, count: nat)

  function AllFrames(x: Sending): seq<Frame> {
    Frames(x.id, x.tid, x.crc, x.payload)
  }

  function PortionOf(n: Node, c: Call): Option<Portion> {
    match TransferOf(n.nodeId, c)
    case None => None
    case Some(x) => Some(Portion(x, Affordable(n.pool, |AllFrames(x)|)))
  }

  predicate Proper(p: Portion) {
    1 <= p.count <= |AllFrames(p.x)|
  }

  function Queued(p: Portion): seq<Frame> {
    if p.count <= |AllFrames(p.x)| then AllFrames(p.x)[..p.count] else AllFrames(p.x)
  }

  function AllQueued(ps: seq<Portion>): seq<Frame> {
    if ps == [] then [] else Queued(ps[0]) + AllQueued(ps[1..])
  }

  /** What a run queued under one identifier. */
  function Sent(n: Node, calls: seq<Call>, accept: Acceptance, id: bv32): seq<Portion>
    decreases |calls|
  {
    if calls == [] then []
    else
      var p := PortionOf(n, calls[0]);
      (if p.Some? && p.value.x.id == id && p.value.count > 0 then [p.value] else [])
      + Sent(Perform(n, calls[0], accept).node, calls[1..], accept, id)
  }

  /** The frames that a run takes off the queue, in order. */
  function Transmitted(n: Node, calls: seq<Call>, accept: Acceptance): seq<Frame>
    decreases |calls|
  {
    if calls == [] then []
    else
      (if calls[0].Pop? && n.tx != [] then [n.tx[0]] else [])
      + Transmitted(Perform(n, calls[0], accept).node, calls[1..], accept)
  }

  lemma {:induction false} EnqueuesPortion(n: Node, x: Sending)
    ensures var p := Portion(x, Affordable(n.pool, |AllFrames(x)|));
      p.count <= |AllFrames(x)| && Enqueue(n, AllFrames(x)).0.tx == InsertAll(n.tx, Queued(p))
                                && Enqueue(n, AllFrames(x)).0.nodeId == n.nodeId
  {
    hide InsertAll;
    hide AllFrames;
  }

  lemma {:induction false} MessageEnqueues(n: Node, signature: bv64, dtid: bv16, tid: byte, priority: byte,
                                           payload: seq<byte>)
    ensures var x := TransferOf(n.nodeId, Message(signature, dtid, tid, priority, payload));
      var n' := SendMessage(n, signature, dtid, tid, priority, payload).node;
      if x.Some? then n' == Enqueue(n, AllFrames(x.value)).0 else n' == n
  {
    hide Enqueue;
    hide Frames;
    hide MessageId;
    hide AnonymousId;
    hide CalculateCrc;
  }

  lemma {:induction false} ServiceEnqueues(n: Node, destination: byte, signature: bv64, dtid: byte, tid: byte,
                                           priority: byte, request: bool, payload: seq<byte>)
    ensures var x := TransferOf(n.nodeId, Service(destination, signature, dtid, tid, priority, request, payload));
      var n' := SendService(n, destination, signature, dtid, tid, priority, request, payload).node;
      if x.Some? then n' == Enqueue(n, AllFrames(x.value)).0 else n' == n
  {
    hide Enqueue;
    hide Frames;
    hide ServiceId;
    hide CalculateCrc;
  }

  /** What one call does to the queue. */
  lemma {:induction false} CallQueues(n: Node, c: Call, accept: Acceptance)
    ensures var n', p := Perform(n, c, accept).node, PortionOf(n, c);
      && n'.nodeId == n.nodeId
      && n'.tx == if p.Some? then InsertAll(n.tx, Queued(p.value)) else if c.Pop? && n.tx != [] then n.tx[1..] else n.tx
    ensures PortionOf(n, c).Some? ==> PortionOf(n, c).value.count <= |AllFrames(PortionOf(n, c).value.x)| && !c.Pop?
  {
    hide AllFrames;
    hide InsertAll;
    hide OnFrame;
    hide Enqueue;
    hide Queued;
    hide SendMessage;
    hide SendService;
    if TransferOf(n.nodeId, c).Some? {
      EnqueuesPortion(n, TransferOf(n.nodeId, c).value);
    }
    match c
    case Message(signature, dtid, tid, priority, payload) =>
      MessageEnqueues(n, signature, dtid, tid, priority, payload);
    case Service(destination, signature, dtid, tid, priority, request, payload) =>
      ServiceEnqueues(n, destination, signature, dtid, tid, priority, request, payload);
    case _ =>
  }

  lemma {:induction false} QueuedHaveId(p: Portion)
    ensures forall f | f in Queued(p) :: f.id == p.x.id
  {
    FramesHaveId(p.x.id, p.x.tid, p.x.crc, p.x.payload);
    hide Frames;
  }

  lemma {:induction false} WithOtherId(fs: seq<Frame>, id: bv32)
    requires forall f | f in fs :: f.id != id
    ensures WithId(fs, id) == []
  {
    if fs != [] {
      WithOtherId(fs[1..], id);
    }
  }

  /** What was queued before, under one identifier. */
  ghost predicate BusConserves(n: Node, calls: seq<Call>, accept: Acceptance, id: bv32) {
    WithId(Transmitted(n, calls, accept), id) + WithId(RunCalls(n, calls, accept).node.tx, id)
    == WithId(n.tx, id) + AllQueued(Sent(n, calls, accept, id))
  }

  /** A call that sends. */
  lemma {:induction false} SendConserves(n: Node, calls: seq<Call>, accept: Acceptance, id: bv32)
    requires Sorted(n.tx) && calls != [] && PortionOf(n, calls[0]).Some?
    ensures Sorted(Perform(n, calls[0], accept).node.tx)
    ensures BusConserves(Perform(n, calls[0], accept).node, calls[1..], accept, id) ==>
              BusConserves(n, calls, accept, id)
  {
    hide PortionOf;
    hide InsertAll;
    hide Sorted;
    hide WithId;
    hide Queued;
    var n', p := Perform(n, calls[0], accept).node, PortionOf(n, calls[0]).value;
    CallQueues(n, calls[0], accept);
    InsertAllStable(n.tx, Queued(p), id);
    QueuedHaveId(p);
    if p.x.id == id {
      WithIdAll(Queued(p), id);
    } else {
      WithOtherId(Queued(p), id);
    }
    SendUnfolds(n, calls, accept, id);
    hide Perform;
    hide Sent;
    hide Transmitted;
    hide RunCalls;
    var rest := AllQueued(Sent(n', calls[1..], accept, id));
    Regroup(WithId(n.tx, id), if p.x.id == id then Queued(p) else [], rest);
  }

  lemma {:induction false} QueuedFirst(p: Portion, rest: seq<Portion>)
    ensures AllQueued((if p.count > 0 then [p] else []) + rest) == Queued(p) + AllQueued(rest)
  {
    hide AllFrames;
    assert ([p] + rest)[1..] == rest;
    assert [] + rest == rest;
    assert p.count == 0 ==> Queued(p) == [];
  }

  lemma {:induction false} SendUnfolds(n: Node, calls: seq<Call>, accept: Acceptance, id: bv32)
    requires calls != [] && PortionOf(n, calls[0]).Some?
    ensures var n', p := Perform(n, calls[0], accept).node, PortionOf(n, calls[0]).value;
      && Transmitted(n, calls, accept) == Transmitted(n', calls[1..], accept)
      && RunCalls(n, calls, accept).node == RunCalls(n', calls[1..], accept).node
      && AllQueued(Sent(n, calls, accept, id))
         == (if p.x.id == id then Queued(p) else []) + AllQueued(Sent(n', calls[1..], accept, id))
  {
    CallQueues(n, calls[0], accept);
    hide PortionOf;
    hide Perform;
    hide AllFrames;
    hide AllQueued;
    var n', p := Perform(n, calls[0], accept).node, PortionOf(n, calls[0]).value;
    var rest := Sent(n', calls[1..], accept, id);
    if p.x.id == id {
      QueuedFirst(p, rest);
    }
    assert [] + rest == rest && [] + AllQueued(rest) == AllQueued(rest);
  }

  /** A pop. */
  lemma {:induction false} PopConservesBus(n: Node, calls: seq<Call>, accept: Acceptance, id: bv32)
    requires Sorted(n.tx) && calls != [] && calls[0].Pop? && n.tx != []
    ensures Sorted(Perform(n, calls[0], accept).node.tx)
    ensures BusConserves(Perform(n, calls[0], accept).node, calls[1..], accept, id) ==>
              BusConserves(n, calls, accept, id)
  {
    var n', h := Perform(n, calls[0], accept).node, [n.tx[0]];
    SortedTail(n.tx);
    PopUnfoldsBus(n, calls, accept, id);
    hide *;
    var rest := Transmitted(n', calls[1..], accept);
    assert h + n.tx[1..] == n.tx;
    WithIdConcat(h, n.tx[1..], id);
    WithIdConcat(h, rest, id);
    if BusConserves(n', calls[1..], accept, id) {
      Conserved(n', calls[1..], accept, id);
      Prepend(WithId(h, id), WithId(rest, id), WithId(RunCalls(n', calls[1..], accept).node.tx, id),
              WithId(n.tx[1..], id), AllQueued(Sent(n', calls[1..], accept, id)));
      Conserved(n, calls, accept, id);
    }
  }

  lemma {:induction false} PopUnfoldsBus(n: Node, calls: seq<Call>, accept: Acceptance, id: bv32)
    requires calls != [] && calls[0].Pop? && n.tx != []
    ensures var n' := Perform(n, calls[0], accept).node;
      && n'.tx == n.tx[1..] && Transmitted(n, calls, accept) == [n.tx[0]] + Transmitted(n', calls[1..], accept)
      && RunCalls(n, calls, accept).node == RunCalls(n', calls[1..], accept).node
      && Sent(n, calls, accept, id) == Sent(n', calls[1..], accept, id)
  {
  }

  lemma {:induction false} Conserved(n: Node, calls: seq<Call>, accept: Acceptance, id: bv32)
    ensures BusConserves(n, calls, accept, id)
       <==> WithId(Transmitted(n, calls, accept), id) + WithId(RunCalls(n, calls, accept).node.tx, id)
            == WithId(n.tx, id) + AllQueued(Sent(n, calls, accept, id))
  {
  }

  /** A call that does not touch the queue. */
  lemma {:induction false} IdleConservesBus(n: Node, calls: seq<Call>, accept: Acceptance, id: bv32)
    requires Sorted(n.tx) && calls != [] && PortionOf(n, calls[0]).None? && !(calls[0].Pop? && n.tx != [])
    ensures Sorted(Perform(n, calls[0], accept).node.tx)
    ensures BusConserves(Perform(n, calls[0], accept).node, calls[1..], accept, id) ==>
              BusConserves(n, calls, accept, id)
  {
    CallQueues(n, calls[0], accept);
    hide PortionOf;
    hide Perform;
    hide AllQueued;
    hide WithId;
    hide Sorted;
    var n' := Perform(n, calls[0], accept).node;
    assert [] + Transmitted(n', calls[1..], accept) == Transmitted(n', calls[1..], accept);
    assert [] + Sent(n', calls[1..], accept, id) == Sent(n', calls[1..], accept, id);
  }

  /** Whatever a node is asked to do, the queue stays sorted, and the frames with one identifier leave in the order in
      which its sends made them, transfer after transfer, none lost and none repeated. */
  lemma {:induction false} RunConserves(n: Node, calls: seq<Call>, accept: Acceptance, id: bv32)
    requires Sorted(n.tx)
    ensures Sorted(RunCalls(n, calls, accept).node.tx) && BusConserves(n, calls, accept, id)
    decreases |calls|
  {
    if calls != [] {
      var n' := Perform(n, calls[0], accept).node;
      hide Sorted;
      hide PortionOf;
      hide Perform;
      if PortionOf(n, calls[0]).Some? {
        SendConserves(n, calls, accept, id);
      } else if calls[0].Pop? && n.tx != [] {
        PopConservesBus(n, calls, accept, id);
      } else {
        IdleConservesBus(n, calls, accept, id);
      }
      hide BusConserves;
      RunConserves(n', calls[1..], accept, id);
    } else {
      assert WithId(n.tx, id) + [] == WithId(n.tx, id);
    }
  }

  // ---------------------------------------------------------------- what the other side makes of it

  lemma {:induction false} SentProper(n: Node, calls: seq<Call>, accept: Acceptance, id: bv32)
    ensures forall p | p in Sent(n, calls, accept, id) ::
              Proper(p) && p.x.id == id && (|p.x.payload| >= 8 ==> Good(p.x))
    decreases |calls|
  {
    if calls != [] {
      CallQueues(n, calls[0], accept);
      CallGood(n, calls[0]);
      hide Perform;
      hide PortionOf;
      hide AllFrames;
      hide Good;
      SentProper(Perform(n, calls[0], accept).node, calls[1..], accept, id);
    }
  }

  lemma {:induction false} CallGood(n: Node, c: Call)
    ensures PortionOf(n, c).Some? ==> var x := PortionOf(n, c).value.x; |x.payload| >= 8 ==> Good(x)
  {
    hide Frames;
    hide MessageId;
    hide ServiceId;
    hide AnonymousId;
    hide TransferCrc;
  }

  /** The portions that the first `m` frames make up; the last of them may be less than what was queued. */
  function Trimmed(ps: seq<Portion>, m: nat): seq<Portion>
    decreases |ps|
  {
    if ps == [] || m == 0 then []
    else if ps[0].count <= m then [ps[0]] + Trimmed(ps[1..], m - ps[0].count)
    else [ps[0].(count := m)]
  }

  ghost predicate AllProper(ps: seq<Portion>) {
    forall p | p in ps :: Proper(p)
  }

  lemma {:induction false} TrimmedQueued(ps: seq<Portion>, m: nat)
    requires AllProper(ps) && m <= |AllQueued(ps)|
    ensures AllProper(Trimmed(ps, m)) && AllQueued(Trimmed(ps, m)) == AllQueued(ps)[..m]
    decreases |ps|
  {
    hide AllFrames;
    if ps != [] && m > 0 {
      assert ps[0] in ps;
      if ps[0].count <= m {
        TrimmedQueued(ps[1..], m - ps[0].count);
        var t := Trimmed(ps[1..], m - ps[0].count);
        assert ([ps[0]] + t)[1..] == t;
        assert AllQueued(ps)[..m] == Queued(ps[0]) + AllQueued(ps[1..])[..m - ps[0].count];
      } else {
        var p := ps[0].(count := m);
        assert [p][1..] == [] && Queued(p) == Queued(ps[0])[..m];
      }
    }
  }

  /** The portions, each with the events that bring it. */
  function Split(events: seq<Event>, ps: seq<Portion>): seq<Item>
    decreases |ps|
  {
    if ps == [] || |events| < ps[0].count then []
    else [Item(ps[0].x, events[..ps[0].count])] + Split(events[ps[0].count..], ps[1..])
  }

  /** Each brings its own frames, and all together are the events. */
  ghost predicate BringsAll(items: seq<Item>, ps: seq<Portion>) {
    |items| == |ps| && forall k | 0 <= k < |ps| :: items[k].x == ps[k].x && Carries(items[k].events, Queued(ps[k]))
  }

  lemma {:induction false} SplitBrings(events: seq<Event>, ps: seq<Portion>)
    requires AllProper(ps) && Carries(events, AllQueued(ps))
    ensures BringsAll(Split(events, ps), ps) && StreamEvents(Split(events, ps)) == events
    decreases |ps|
  {
    hide *;
    if ps == [] {
      NothingBrought(events);
    } else {
      FirstPortion(events, ps);
      var k := ps[0].count;
      SplitBrings(events[k..], ps[1..]);
      BringsFirst(events, ps, Split(events[k..], ps[1..]));
    }
  }

  lemma {:induction false} NothingBrought(events: seq<Event>)
    requires Carries(events, AllQueued([]))
    ensures BringsAll(Split(events, []), []) && StreamEvents(Split(events, [])) == events
  {
  }

  lemma {:induction false} FirstPortion(events: seq<Event>, ps: seq<Portion>)
    requires ps != [] && AllProper(ps) && Carries(events, AllQueued(ps))
    ensures var k := ps[0].count;
      && k <= |events| && AllProper(ps[1..]) && Carries(events[..k], Queued(ps[0]))
      && Carries(events[k..], AllQueued(ps[1..]))
  {
    hide AllFrames;
    assert ps[0] in ps;
    var p, rest, k := Queued(ps[0]), AllQueued(ps[1..]), ps[0].count;
    assert AllQueued(ps) == p + rest && |p| == k;
    hide AllQueued;
    hide Queued;
    forall j | 0 <= j < |rest| ensures events[k..][j].frame == rest[j] {
      assert (p + rest)[k + j] == rest[j];
    }
    forall j | 0 <= j < k ensures events[..k][j].frame == p[j] {
      assert (p + rest)[j] == p[j];
    }
  }

  lemma {:induction false} BringsFirst(events: seq<Event>, ps: seq<Portion>, rest: seq<Item>)
    requires ps != [] && ps[0].count <= |events| && rest == Split(events[ps[0].count..], ps[1..])
    requires BringsAll(rest, ps[1..]) && Carries(events[..ps[0].count], Queued(ps[0]))
    requires StreamEvents(rest) == events[ps[0].count..]
    ensures BringsAll(Split(events, ps), ps) && StreamEvents(Split(events, ps)) == events
  {
    hide Carries;
    hide Queued;
    var k := ps[0].count;
    var items := [Item(ps[0].x, events[..k])] + rest;
    assert items[1..] == rest && Split(events, ps) == items;
    assert events[..k] + events[k..] == events;
    hide Split;
    forall j | 0 <= j < |ps| ensures items[j].x == ps[j].x && Carries(items[j].events, Queued(ps[j])) {
      if j > 0 {
        assert items[j] == rest[j - 1] && ps[j] == ps[1..][j - 1];
      }
    }
  }

  /** The listener wants these transfers, and gets the frames of each in time. */
  ghost predicate Timely(l: Listener, items: seq<Item>) {
    forall i | i in items ::
      && i.events != [] && Wanted(i.x, l.nodeId, l.accept) && |i.x.payload| <= LONGEST
      && (|i.x.payload| >= 8 ==> AllInTime(i.events, i.events[0].now))
  }

  ghost predicate AllDistinguished(items: seq<Item>)
    requires forall i | i in items :: i.events != []
  {
    forall k | 0 <= k < |items| - 1 :: Distinguished(items[k], items[k + 1])
  }

  lemma {:induction false} PortionArrives(l: Listener, i: Item, p: Portion)
    requires Proper(p) && i.x == p.x && Carries(i.events, Queued(p)) && (|p.x.payload| >= 8 ==> Good(p.x))
    requires Timely(l, [i])
    ensures Arriving(i, l.nodeId, l.accept)
  {
    assert i in [i];
    hide Frames;
    hide Wanted;
    hide Good;
  }

  /** A row of items that bring these portions. */
  ghost predicate Fitting(l: Listener, items: seq<Item>, ps: seq<Portion>) {
    && AllProper(ps) && BringsAll(items, ps) && Timely(l, items) && AllDistinguished(items)
    && forall p | p in ps :: |p.x.payload| >= 8 ==> Good(p.x)
  }

  lemma {:induction false} FittingTail(l: Listener, items: seq<Item>, ps: seq<Portion>)
    requires Fitting(l, items, ps) && items != []
    ensures ps != [] && Fitting(l, items[1..], ps[1..]) && Arriving(items[0], l.nodeId, l.accept)
    ensures |items| > 1 ==> items[0].events != [] && items[1].events != [] && Distinguished(items[0], items[1])
  {
    hide *;
    FittingFirst(l, items, ps);
    PortionArrives(l, items[0], ps[0]);
    TailBrings(items, ps);
    TailTimely(l, items);
    FittingRest(l, items, ps);
  }

  lemma {:induction false} FittingFirst(l: Listener, items: seq<Item>, ps: seq<Portion>)
    requires Fitting(l, items, ps) && items != []
    ensures ps != [] && Proper(ps[0]) && items[0].x == ps[0].x && Carries(items[0].events, Queued(ps[0]))
    ensures (|ps[0].x.payload| >= 8 ==> Good(ps[0].x)) && Timely(l, [items[0]])
    ensures Timely(l, items) && BringsAll(items, ps) && forall i | i in items :: i.events != []
    ensures AllDistinguished(items)
  {
    hide Good;
    hide AllProper;
    hide BringsAll;
    hide Timely;
    hide AllDistinguished;
    FirstBrought(items, ps);
    FirstTimely(l, items);
    FirstProper(ps);
    assert ps[0] in ps;
  }

  lemma {:induction false} FirstBrought(items: seq<Item>, ps: seq<Portion>)
    requires BringsAll(items, ps) && items != []
    ensures ps != [] && items[0].x == ps[0].x && Carries(items[0].events, Queued(ps[0]))
  {
    hide Carries;
    hide Queued;
  }

  lemma {:induction false} FirstTimely(l: Listener, items: seq<Item>)
    requires Timely(l, items) && items != []
    ensures Timely(l, [items[0]]) && forall i | i in items :: i.events != []
  {
    hide Wanted;
    hide AllInTime;
    assert items[0] in items;
  }

  lemma {:induction false} FirstProper(ps: seq<Portion>)
    requires AllProper(ps) && ps != []
    ensures Proper(ps[0])
  {
    hide Proper;
    assert ps[0] in ps;
  }

  lemma {:induction false} TailTimely(l: Listener, items: seq<Item>)
    requires items != [] && Timely(l, items) && (forall i | i in items :: i.events != []) && AllDistinguished(items)
    ensures Timely(l, items[1..]) && AllDistinguished(items[1..])
    ensures |items| > 1 ==> items[0].events != [] && items[1].events != [] && Distinguished(items[0], items[1])
  {
    hide Wanted;
    hide AllInTime;
    hide Distinguished;
    assert |items| > 1 ==> items[1] in items && Distinguished(items[0], items[0 + 1]);
    forall k | 0 <= k < |items[1..]| - 1 ensures Distinguished(items[1..][k], items[1..][k + 1]) {
      assert items[1..][k] == items[k + 1] && items[1..][k + 1] == items[k + 1 + 1];
    }
  }

  lemma {:induction false} FittingRest(l: Listener, items: seq<Item>, ps: seq<Portion>)
    requires Fitting(l, items, ps) && items != [] && ps != [] && BringsAll(items[1..], ps[1..])
    requires Timely(l, items[1..]) && AllDistinguished(items[1..])
    ensures Fitting(l, items[1..], ps[1..])
  {
    hide BringsAll;
    hide Timely;
    hide AllDistinguished;
    hide Good;
    hide Proper;
  }

  lemma {:induction false} TailBrings(items: seq<Item>, ps: seq<Portion>)
    requires BringsAll(items, ps) && items != []
    ensures BringsAll(items[1..], ps[1..])
  {
    hide Carries;
    hide Queued;
  }

  lemma {:induction false} ItemsStream(l: Listener, items: seq<Item>, ps: seq<Portion>)
    requires Fitting(l, items, ps)
    ensures Stream(items, l.nodeId, l.accept) && (items != [] ==> Arriving(items[0], l.nodeId, l.accept))
    decreases |items|
  {
    hide Fitting;
    hide Distinguished;
    hide Arriving;
    if items != [] {
      FittingTail(l, items, ps);
      ItemsStream(l, items[1..], ps[1..]);
    }
  }

  /** What the frames under one identifier that left a node look like at the other end. */
  function ItemsOf(n: Node, calls: seq<Call>, accept: Acceptance, id: bv32, events: seq<Event>): seq<Item> {
    Split(events, Trimmed(Sent(n, calls, accept, id), |events|))
  }

  /** The first of these, if any, finds the listener ready, and there is memory for the largest. */
  ghost predicate Ready(l: Listener, items: seq<Item>) {
    && AllFit(items, l.pool.capacity - l.pool.usage - Opening(l.view))
    && (items != [] ==> items[0].events != [] && Receptive(l.view, items[0].x.tid, items[0].events[0].now))
  }

  /** Whatever the sender is asked to do, in whatever order, and even when its memory runs out in the middle of a send:
      fed to another node, the frames that leave it under one identifier deliver every transfer that left it whole, once
      each and in order, and nothing else. */
  lemma {:induction false} RunDelivered(n: Node, calls: seq<Call>, accept: Acceptance, id: bv32, l: Listener,
                                        events: seq<Event>)
    requires Sorted(n.tx) && WithId(n.tx, id) == []
    requires Carries(events, WithId(Transmitted(n, calls, accept), id))
    requires var items := ItemsOf(n, calls, accept, id, events);
      Timely(l, items) && AllDistinguished(items) && Ready(l, items)
    ensures DeliversAll(Deliveries(Feed(l.view, l.pool, l.nodeId, events, l.accept).log),
                        WholeOnes(ItemsOf(n, calls, accept, id, events)))
  {
    hide Sorted;
    hide Timely;
    hide AllDistinguished;
    hide Good;
    hide Proper;
    hide Split;
    hide BringsAll;
    var ps, out := Sent(n, calls, accept, id), WithId(Transmitted(n, calls, accept), id);
    RunConserves(n, calls, accept, id);
    SentProper(n, calls, accept, id);
    var left := WithId(RunCalls(n, calls, accept).node.tx, id);
    assert out + left == [] + AllQueued(ps) == AllQueued(ps);
    assert AllQueued(ps)[..|out|] == out;
    TrimmedQueued(ps, |events|);
    TrimmedFrom(ps, |events|);
    hide Sent;
    hide Transmitted;
    hide RunCalls;
    hide WithId;
    hide AllQueued;
    var ts := Trimmed(ps, |events|);
    SplitBrings(events, ts);
    hide Carries;
    hide Trimmed;
    var items := ItemsOf(n, calls, accept, id, events);
    ItemsStream(l, items, ts);
    StreamDelivered(l.view, l.pool, l.nodeId, items, l.accept);
  }

  lemma {:induction false} TrimmedFrom(ps: seq<Portion>, m: nat)
    requires forall p | p in ps :: |p.x.payload| >= 8 ==> Good(p.x)
    ensures forall p | p in Trimmed(ps, m) :: |p.x.payload| >= 8 ==> Good(p.x)
    decreases |ps|
  {
    hide Good;
    if ps != [] && m > 0 && ps[0].count <= m {
      TrimmedFrom(ps[1..], m - ps[0].count);
    }
  }

  // ---------------------------------------------------------------- one counter per descriptor

  /** A transfer ID that has been advanced `m` times is neither the old one nor the one before that, as a receiver must
      see it when the first transfer breaks off, if and only if `m` leaves neither 0 nor 31 modulo 32. */
  lemma {:induction false} CountsApart(tid: byte, m: nat)
    requires tid < 32
    ensures ForwardDistance(tid & 0x1F, Advanced(tid, m) & 0x1F) > 1 <==> m % 32 != 0 && m % 32 != 31
  {
    hide Advanced;
    ComesRound(tid, m);
    ComesRound(tid, m + 1);
    AdvancedFits(tid, m);
    AdvancedOnce(tid, m);
    OneFurther(tid, Advanced(tid, m));
  }

  lemma {:induction false} AdvancedOnce(tid: byte, m: nat)
    ensures Advanced(tid, m + 1) == Incremented(Advanced(tid, m))
  {
  }

  lemma {:induction false} AdvancedFits(tid: byte, m: nat)
    requires tid < 32
    ensures Advanced(tid, m) < 32
    decreases m
  {
    if m > 0 {
      AdvancedFits(tid, m - 1);
    }
  }

  lemma {:induction false} OneFurther(a: byte, b: byte)
    requires a < 32 && b < 32
    ensures ForwardDistance(a & 0x1F, b & 0x1F) > 1 <==> b & 0x1F != a & 0x1F && Incremented(b) & 0x1F != a & 0x1F
  {
  }

  /** With a counter that goes on by neither 0 nor 31 modulo 32 the receiver always tells the second transfer from the
      first. */
  lemma {:induction false} CounterDistinguishes(i: Item, j: Item, m: nat)
    requires i.events != [] && j.events != [] && i.x.tid < 32 && j.x.tid == Advanced(i.x.tid, m)
    requires m % 32 != 0 && m % 32 != 31
    ensures Distinguished(i, j)
  {
    hide Whole;
    hide Advanced;
    CountsApart(i.x.tid, m);
  }

  // ---------------------------------------------------------------- a higher priority under the same descriptor

  /** The frames of `q` with either identifier, in order. */
  function OfBoth(q: seq<Frame>, a: bv32, b: bv32): seq<Frame> {
    if q == [] then [] else (if q[0].id == a || q[0].id == b then [q[0]] else []) + OfBoth(q[1..], a, b)
  }

  /** In a queue the frames of the higher priority are before those of the lower one. */
  lemma {:induction false} HigherFirst(q: seq<Frame>, a: bv32, b: bv32)
    requires Sorted(q) && IsPriorityHigher(a, b)
    ensures OfBoth(q, a, b) == WithId(q, b) + WithId(q, a)
  {
    hide *;
    NotItself(a, b);
    if q == [] {
      NoneOfBoth(a, b);
    } else {
      SortedTail(q);
      HigherFirst(q[1..], a, b);
      if q[0].id == a {
        NoneBehind(q, b);
      }
      BothStep(q, a, b);
    }
  }

  lemma {:induction false} NoneOfBoth(a: bv32, b: bv32)
    ensures OfBoth([], a, b) == WithId([], b) + WithId([], a)
  {
  }

  lemma {:induction false} BothStep(q: seq<Frame>, a: bv32, b: bv32)
    requires q != [] && a != b && OfBoth(q[1..], a, b) == WithId(q[1..], b) + WithId(q[1..], a)
    requires q[0].id == a ==> WithId(q, b) == []
    ensures OfBoth(q, a, b) == WithId(q, b) + WithId(q, a)
  {
    var h, wa, wb := [q[0]], WithId(q[1..], a), WithId(q[1..], b);
    assert WithId(q, a) == (if q[0].id == a then h else []) + wa;
    assert WithId(q, b) == (if q[0].id == b then h else []) + wb;
    assert OfBoth(q, a, b) == (if q[0].id == a || q[0].id == b then h else []) + (wb + wa);
    hide *;
    if q[0].id == a {
      assert wb == [] + wb == [];
      assert h + ([] + wa) == [] + (h + wa);
    } else if q[0].id == b {
      Regroup(h, wb, wa);
      assert [] + wa == wa;
    } else {
      assert [] + wa == wa && [] + wb == wb && [] + (wb + wa) == wb + wa;
    }
  }

  lemma {:induction false} NotItself(a: bv32, b: bv32)
    requires IsPriorityHigher(a, b)
    ensures a != b
  {
    OutranksOrder(BusIdOf(a), BusIdOf(b), BusIdOf(a));
  }

  /** The lower number wins the bus. */
  lemma {:induction false} LowerNumberWins(p: byte, p': byte, dtid: bv16, node: byte)
    requires p' < p < 32 && node < 128
    ensures IsPriorityHigher(MessageId(p, dtid, node) | EFF, MessageId(p', dtid, node) | EFF)
  {
    hide *;
    LowerId(p, p', dtid, node);
    SmallerWins(MessageId(p, dtid, node) | EFF, MessageId(p', dtid, node) | EFF);
  }

  predicate Smaller(a: bv32, b: bv32) {
    BusIdOf(a).ext && BusIdOf(b).ext && BusIdOf(b).clean < BusIdOf(a).clean
  }

  lemma {:induction false} LowerId(p: byte, p': byte, dtid: bv16, node: byte)
    requires p' < p < 32 && node < 128
    ensures Smaller(MessageId(p, dtid, node) | EFF, MessageId(p', dtid, node) | EFF)
  {
  }

  lemma {:induction false} SmallerWins(a: bv32, b: bv32)
    requires Smaller(a, b)
    ensures IsPriorityHigher(a, b)
  {
    hide BusIdOf;
  }

  /** The priority is not part of the descriptor. */
  lemma {:induction false} SameDescriptor(p: byte, p': byte, dtid: bv16, node: byte)
    requires p < 32 && p' < 32 && node != 0 && node < 128
    ensures DescriptorOf(MessageId(p, dtid, node) | EFF) == DescriptorOf(MessageId(p', dtid, node) | EFF)
  {
    MessageIdReads(p, dtid, node);
    MessageIdReads(p', dtid, node);
    hide MakeDescriptor;
    hide MessageId;
    hide DataTypeOf;
    hide TypeOf;
    hide SourceOf;
  }

  /** The rest of a transfer is queued, one of a higher priority is sent, and the queue runs empty: first come the
      frames of the second one, then the others. */
  lemma {:induction false} PreemptedQueue(n: Node, x: Sending, y: Sending)
    requires Sorted(n.tx) && IsPriorityHigher(x.id, y.id) && WithId(n.tx, y.id) == []
    requires Enqueue(n, AllFrames(y)).1 >= 0
    ensures OfBoth(Enqueue(n, AllFrames(y)).0.tx, x.id, y.id) == AllFrames(y) + WithId(n.tx, x.id)
  {
    var frames, k := AllFrames(y), Affordable(n.pool, |AllFrames(y)|);
    FramesHaveId(y.id, y.tid, y.crc, y.payload);
    NotItself(x.id, y.id);
    assert k == |frames| && frames[..k] == frames;
    hide Frames;
    hide WithId;
    hide InsertAll;
    hide IsPriorityHigher;
    InsertAllStable(n.tx, frames, y.id);
    InsertAllStable(n.tx, frames, x.id);
    WithIdAll(frames, y.id);
    WithOtherId(frames, x.id);
    hide Sorted;
    HigherFirst(InsertAll(n.tx, frames), x.id, y.id);
    assert [] + frames == frames && WithId(n.tx, x.id) + [] == WithId(n.tx, x.id);
  }

  /** A receiver in the middle of `x`, whose rest is still queued at the sender. */
  ghost predicate Midway(s: RxState, pool: Pool, nodeId: byte, accept: Acceptance, x: Sending, at: nat, lens: seq<nat>,
                         toggle: bool, start: Timestamp) {
    && at <= |x.payload| && lens != [] && Cuts(lens, |x.payload| - at) && BeforeEnd(x, lens) <= MAX_PAYLOAD
    && Mid(s, x, 0, at, toggle, start) && Wanted(x, nodeId, accept) && Good(x)
    && pool.usage <= pool.capacity && Enough(pool, |s.blocks|, at, lens)
  }

  lemma {:induction false} ConveyedBefore(events: seq<Event>, x: Sending, y: Sending, at: nat, lens: seq<nat>,
                                          toggle: bool, start: Timestamp)
    requires at <= |x.payload| && lens != [] && Cuts(lens, |x.payload| - at) && 8 <= |y.payload| <= LONGEST
    requires Carries(events, AllFrames(y) + Pieces(x, at, lens, toggle))
    requires AllInTime(events, start) && (events != [] ==> AllInTime(events, events[0].now))
    ensures 0 < |AllFrames(y)| < |events| && OwnLengths(|y.payload|) != []
    ensures var m, cut := |AllFrames(y)|, OwnLengths(|y.payload|);
      && Conveys(events[..m], y, cut) && BeforeEnd(y, cut) <= MAX_PAYLOAD && events[..m][0] == events[0]
      && AllInTime(events[..m], start) && Carries(events[m..], Pieces(x, at, lens, toggle)) && AllInTime(events[m..],
                                                                                                         start)
  {
    hide Frames;
    hide InTime;
    hide Pieces;
    hide OwnLengths;
    OwnFramesCut(y);
    var m := |AllFrames(y)|;
    assert forall e | e in events[..m] :: e in events;
    assert forall e | e in events[m..] :: e in events;
  }

  lemma {:induction false} OwnRoom(pool: Pool, s: RxState, y: Sending)
    requires |y.payload| >= 8
    ensures RoomFor(pool, Some(s), OwnLengths(|y.payload|)) <==> HasRoom(pool, Some(s), |y.payload|)
  {
    OwnFramesCut(y);
    hide Lengths;
    hide Buffered;
    hide ChainAt;
  }

  lemma {:induction false} MidwayCut(s: RxState, pool: Pool, nodeId: byte, accept: Acceptance, x: Sending, at: nat,
                                     lens: seq<nat>, toggle: bool, start: Timestamp)
    requires Midway(s, pool, nodeId, accept, x, at, lens, toggle, start)
    ensures at <= |x.payload| && lens != [] && Cuts(lens, |x.payload| - at) && Good(x)
    ensures pool.usage <= pool.capacity && Enough(pool, |s.blocks|, at, lens)
  {
    hide Mid;
    hide Wanted;
  }

  lemma {:induction false} MidwayInterrupted(s: RxState, pool: Pool, nodeId: byte, ys: seq<Event>, xs: seq<Event>,
                                             accept: Acceptance, x: Sending, y: Sending, at: nat, lens: seq<nat>,
                                             toggle: bool, cut: seq<nat>, start: Timestamp)
    requires Midway(s, pool, nodeId, accept, x, at, lens, toggle, start)
    requires at <= |x.payload| && Cuts(lens, |x.payload| - at) && Carries(xs, Pieces(x, at, lens, toggle))
    requires Wanted(y, nodeId, accept) && DescriptorOf(y.id) == DescriptorOf(x.id) && cut != [] && Conveys(ys, y, cut)
    requires BeforeEnd(y, cut) <= MAX_PAYLOAD && AllInTime(ys, start) && AllInTime(xs, start)
    ensures Interrupted(s, nodeId, ys, xs, accept, x, y, at, lens, toggle, cut, start)
  {
    hide Mid;
    hide Wanted;
    hide Pieces;
    hide Cuts;
    hide Conveys;
    hide DescriptorOf;
  }

  /** While the rest of `x` is queued, `y` is sent under the same descriptor with a higher priority. The frames then
      leave the queue so that the rest of `x` is delivered if and only if `y` has the transfer ID before that of `x` and
      the CRC of the bytes of `x` that had left already is that of no bytes; and `y` is delivered, with memory for it,
      whenever its transfer ID is neither that of `x` nor the one before. */
  lemma {:induction false} PreemptedExactly(n: Node, s: RxState, pool: Pool, nodeId: byte, events: seq<Event>,
                                            accept: Acceptance, x: Sending, y: Sending, at: nat, lens: seq<nat>,
                                            toggle: bool, start: Timestamp)
    requires Midway(s, pool, nodeId, accept, x, at, lens, toggle, start)
    requires Sorted(n.tx) && WithId(n.tx, x.id) == Pieces(x, at, lens, toggle) && WithId(n.tx, y.id) == []
    requires IsPriorityHigher(x.id, y.id) && DescriptorOf(y.id) == DescriptorOf(x.id) && Wanted(y, nodeId, accept)
    requires 8 <= |y.payload| <= LONGEST && Good(y) && Enqueue(n, AllFrames(y)).1 >= 0
    requires Carries(events, OfBoth(Enqueue(n, AllFrames(y)).0.tx, x.id, y.id))
    requires AllInTime(events, start) && (events != [] ==> AllInTime(events, events[0].now))
    ensures 0 < |AllFrames(y)| < |events|
    ensures var log := Feed(Some(s), pool, nodeId, events, accept).log; var m := |AllFrames(y)|;
      && DeliversLast(log[m..], x, EndTime(events),
                      Lag(x, y) == 1 && TransferCrc(x.signature, x.payload[..at]) == SignatureCrc(x.signature))
      && (Lag(x, y) > 1 ==> DeliversLast(log[..m], y, events[m - 1].now, HasRoom(pool, Some(s), |y.payload|)))
  {
    hide *;
    MidwayCut(s, pool, nodeId, accept, x, at, lens, toggle, start);
    PreemptedQueue(n, x, y);
    ConveyedBefore(events, x, y, at, lens, toggle, start);
    OwnRoom(pool, s, y);
    var m, cut := |AllFrames(y)|, OwnLengths(|y.payload|);
    var ys, xs := events[..m], events[m..];
    assert ys + xs == events;
    EndTimes(events, m);
    MidwayInterrupted(s, pool, nodeId, ys, xs, accept, x, y, at, lens, toggle, cut, start);
    SurvivesExactly(s, pool, nodeId, ys, xs, accept, x, y, at, lens, toggle, cut, start);
    if Lag(x, y) > 1 {
      ByAnother(s, pool, nodeId, ys, xs, accept, x, y, at, lens, toggle, cut, start);
      DisplacedFirst(Feed(Some(s), pool, nodeId, events, accept).log, m, y, EndTime(ys),
                     Good(y) && RoomFor(pool, Some(s), cut));
    }
  }

  lemma {:induction false} EndTimes(events: seq<Event>, m: nat)
    requires 0 < m < |events|
    ensures EndTime(events[..m]) == events[m - 1].now && EndTime(events[m..]) == EndTime(events)
  {
  }

  lemma {:induction false} DisplacedFirst(log: seq<Option<Transfer>>, n: nat, z: Sending, time: Timestamp, good: bool)
    requires n <= |log| && Displaced(log, n, z, time, good)
    ensures DeliversLast(log[..n], z, time, good)
  {
    hide DeliversLast;
  }
}
