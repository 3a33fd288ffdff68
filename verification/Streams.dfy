/** Runs of whole transfers under one descriptor. */
module Streams {
  import opened Types
  import opened CanId
  import opened Fragment
  import opened RxBuffer
  import opened Receiver
  import opened Reassembly
  import opened RoundTrip
  import opened Halfway

  // ---------------------------------------------------------------- a stream of transfers

  /** One transfer of a stream, with the events that bring its frames, or only the first of them. */
  datatype Item = Item(x: Sending, events: seq<Event>)

  function FramesOfItem(i: Item): seq<Frame> {
    Frames(i.x.id, i.x.tid, i.x.crc, i.x.payload)
  }

  predicate Whole(i: Item) {
    |i.events| == |FramesOfItem(i)|
  }

  /** A transfer of up to 1027 bytes, in one frame or several; it may break off after any of them. */
  ghost predicate Arriving(i: Item, nodeId: byte, accept: Acceptance) {
    && |i.x.payload| <= LONGEST && Wanted(i.x, nodeId, accept)
    && 1 <= |i.events| <= |FramesOfItem(i)| && Carries(i.events, FramesOfItem(i)[..|i.events|])
    && (|i.x.payload| >= 8 ==> Good(i.x) && AllInTime(i.events, i.events[0].now))
  }

  /** The receiver can tell transfer `j` from its predecessor `i`: by its transfer ID modulo 32, which is not that of
      `i` and, if `i` broke off, not the one before that either, or because it starts after the timeout. */
  predicate Distinguished(i: Item, j: Item)
    requires i.events != [] && j.events != []
  {
    || Elapsed(j.events[0].now, i.events[0].now) > TRANSFER_TIMEOUT_USEC
    || (if Whole(i) then i.x.tid & 0x1F != j.x.tid & 0x1F else ForwardDistance(i.x.tid & 0x1F, j.x.tid & 0x1F) > 1)
  }

  /** Successive transfers under one descriptor, each distinguished from the one before. */
  ghost predicate Stream(items: seq<Item>, nodeId: byte, accept: Acceptance) {
    items != [] ==>
      && Arriving(items[0], nodeId, accept)
      && (|items| > 1 ==> items[1].events != [] && Distinguished(items[0], items[1]))
      && Stream(items[1..], nodeId, accept)
  }

  function StreamEvents(items: seq<Item>): seq<Event> {
    if items == [] then [] else items[0].events + StreamEvents(items[1..])
  }

  function Delivery(d: Option<Transfer>): seq<Transfer> {
    if d.Some? then [d.value] else []
  }

  /** The deliveries of a log. */
  function Deliveries(log: seq<Option<Transfer>>): seq<Transfer> {
    if log == [] then [] else Delivery(log[0]) + Deliveries(log[1..])
  }

  lemma {:induction false} DeliveriesConcat(a: seq<Option<Transfer>>, b: seq<Option<Transfer>>)
    ensures Deliveries(a + b) == Deliveries(a) + Deliveries(b)
    decreases |a|
  {
    hide Delivery;
    if a == [] {
      assert a + b == b;
    } else {
      assert (a + b)[0] == a[0] && (a + b)[1..] == a[1..] + b;
      DeliveriesConcat(a[1..], b);
    }
  }

  lemma {:induction false} SilentIsEmpty(log: seq<Option<Transfer>>)
    requires Silent(log)
    ensures Deliveries(log) == []
    decreases |log|
  {
    if log != [] {
      SilentIsEmpty(log[1..]);
    }
  }

  lemma {:induction false} OneDelivery(d: Transfer)
    ensures Deliveries([Some(d)]) == [d]
  {
    assert [Some(d)][1..] == [];
  }

  lemma {:induction false} DeliversOne(log: seq<Option<Transfer>>, x: Sending, time: Timestamp)
    requires DeliversLast(log, x, time, true)
    ensures |Deliveries(log)| == 1 && Announces(Deliveries(log)[0], x, time)
  {
    hide Announces;
    hide Silent;
    hide Deliveries;
    var front, last := log[..|log| - 1], log[|log| - 1];
    assert log == front + [last];
    DeliveriesConcat(front, [last]);
    SilentIsEmpty(front);
    OneDelivery(last.value);
  }

  /** After a transfer the receiver is ready for any other transfer ID, and for the same one after the timeout. */
  lemma {:induction false} DoneIsReceptive(s: RxState, tid: byte, next: byte, start: Timestamp, now: Timestamp)
    requires Done(s, tid, start) && (next & 0x1F != tid & 0x1F || Elapsed(now, start) > TRANSFER_TIMEOUT_USEC)
    ensures Receptive(Some(s), next, now)
  {
    if Elapsed(now, start) <= TRANSFER_TIMEOUT_USEC {
      OtherTid(tid & 0x1F, next & 0x1F);
    }
  }

  lemma {:induction false} OtherTid(k: byte, next: byte)
    requires IsTid(k) && IsTid(next) && next != k
    ensures next == NextTid(k) || ForwardDistance(NextTid(k), next) > 1
  {
  }

  ghost predicate AllFit(items: seq<Item>, free: int) {
    && free >= 0
    && forall k | 0 <= k < |items| ::
         |items[k].x.payload| >= 8 ==> BlocksFor(Buffered(|items[k].x.payload|)) <= free
  }

  /** The transfers that did not break off. */
  function WholeOnes(items: seq<Item>): seq<Item> {
    if items == [] then [] else (if Whole(items[0]) then [items[0]] else []) + WholeOnes(items[1..])
  }

  /** Exactly the payloads of these transfers, in order. */
  ghost predicate DeliversAll(ts: seq<Transfer>, items: seq<Item>) {
    |ts| == |items| && forall k | 0 <= k < |items| ::
      items[k].events != [] && Announces(ts[k], items[k].x, EndTime(items[k].events))
  }

  lemma {:induction false} SingleTail(tid: byte)
    ensures var t := TailByte(true, true, false, tid); IsStart(t) && IsEnd(t) && TransferIdOf(t) == tid & 0x1F
  {
  }

  /** A state that a single-frame transfer finds idle at its own transfer ID, or that the restart rule clears. */
  lemma {:induction false} SingleCloses(s: RxState, pool: Pool, f: Frame, now: Timestamp, junk: Junk, tid: byte)
    requires f.data != [] && IsStart(TailOf(f)) && IsEnd(TailOf(f)) && TransferIdOf(TailOf(f)) == tid & 0x1F
    requires Receptive(Some(s), tid, now)
    ensures var o := Receive(s, pool, f, now, junk);
      && o.delivered.Some? && Done(o.state, tid, now) && o.pool == pool.Return(|s.blocks|)
  {
    hide MakeTransfer;
    if NeedsRestart(s, TailOf(f), now) {
      assert Receive(s, pool, f, now, junk)
          == ReceiveSingle(Restarted(s, TailOf(f)), pool.Return(|s.blocks|), f, now);
    } else {
      assert Receive(s, pool, f, now, junk) == ReceiveSingle(s, pool, f, now);
    }
  }

  lemma {:induction false} OpenedIsReceptive(view: Option<RxState>, id: bv32, signature: bv64, junk: Junk, tid: byte,
                                             now: Timestamp)
    requires Receptive(view, tid, now)
    ensures Receptive(Some(Opened(view, id, signature, junk)), tid, now)
  {
  }

  /** A single-frame transfer settles the receiver like a longer one. */
  lemma {:induction false} SingleSettles(view: Option<RxState>, pool: Pool, nodeId: byte, e: Event, accept: Acceptance,
                                         x: Sending)
    requires |x.payload| < 8 && e.frame == SingleFrame(x.id, x.tid, x.payload) && Wanted(x, nodeId, accept)
    requires Receptive(view, x.tid, e.now) && pool.usage + Opening(view) <= pool.capacity
    ensures var r := OnFrame(view, pool, nodeId, e, accept);
      && r.delivered.Some? && Announces(r.delivered.value, x, e.now) && r.view.Some?
      && Done(r.view.value, x.tid, e.now)
      && r.pool.capacity == pool.capacity && r.pool.usage == pool.usage + Opening(view)
  {
    hide Announces;
    hide OnFrame;
    hide Receive;
    hide Done;
    hide Receptive;
    SingleTail(x.tid);
    SingleDelivered(view, pool, nodeId, e, accept, x);
    WantedStart(view, pool, nodeId, e, accept, x);
    OpenedIsReceptive(view, x.id, x.signature, e.junk, x.tid, e.now);
    SingleCloses(Opened(view, x.id, x.signature, e.junk), if view.None? then pool.Take() else pool, e.frame, e.now,
                 e.junk, x.tid);
  }

  /** What one transfer does to a receptive receiver. */
  ghost predicate Served(r: Fed, pool: Pool, view: Option<RxState>, i: Item)
    requires i.events != []
  {
    && |Deliveries(r.log)| == 1 && Announces(Deliveries(r.log)[0], i.x, EndTime(i.events))
    && r.view.Some? && Done(r.view.value, i.x.tid, i.events[0].now)
    && r.pool.capacity == pool.capacity && r.pool.usage == pool.usage + Opening(view)
  }

  /** What it does when it breaks off: the receiver waits for the rest. */
  ghost predicate Waiting(r: Fed, pool: Pool, view: Option<RxState>, i: Item)
    requires i.events != []
  {
    && Deliveries(r.log) == [] && r.view.Some?
    && r.view.value.core.transferId == i.x.tid & 0x1F && r.view.value.core.timestamp == i.events[0].now
    && r.pool.capacity == pool.capacity && r.pool.usage + Opening(r.view) == pool.usage + Opening(view)
  }

  lemma {:induction false} OneFrame(i: Item, nodeId: byte, accept: Acceptance)
    requires Arriving(i, nodeId, accept) && |i.x.payload| < 8
    ensures Whole(i) && |i.events| == 1 && i.events[0].frame == SingleFrame(i.x.id, i.x.tid, i.x.payload)
    ensures Wanted(i.x, nodeId, accept)
  {
  }

  lemma {:induction false} SingleItem(view: Option<RxState>, pool: Pool, nodeId: byte, i: Item, accept: Acceptance)
    requires Arriving(i, nodeId, accept) && Receptive(view, i.x.tid, i.events[0].now) && |i.x.payload| < 8
    requires pool.usage + Opening(view) <= pool.capacity
    ensures Served(Feed(view, pool, nodeId, i.events, accept), pool, view, i)
  {
    OneFrame(i, nodeId, accept);
    SingleSettles(view, pool, nodeId, i.events[0], accept, i.x);
    FeedStep(view, pool, nodeId, i.events, accept);
    var r := OnFrame(view, pool, nodeId, i.events[0], accept);
    assert Feed(r.view, r.pool, nodeId, i.events[1..], accept).log == [];
    OneDelivery(r.delivered.value);
    hide OnFrame;
    hide Announces;
    hide Done;
    hide Deliveries;
    hide Arriving;
    hide Receptive;
  }

  lemma {:induction false} ItemDelivered(view: Option<RxState>, pool: Pool, nodeId: byte, i: Item, accept: Acceptance)
    requires Arriving(i, nodeId, accept) && Whole(i) && Receptive(view, i.x.tid, i.events[0].now)
    requires pool.usage + Opening(view) <= pool.capacity
    requires |i.x.payload| >= 8 ==> BlocksFor(Buffered(|i.x.payload|)) <= pool.capacity - pool.usage - Opening(view)
    ensures Served(Feed(view, pool, nodeId, i.events, accept), pool, view, i)
  {
    if |i.x.payload| < 8 {
      SingleItem(view, pool, nodeId, i, accept);
    } else {
      assert FramesOfItem(i)[..|i.events|] == FramesOfItem(i);
      TransferDelivered(view, pool, nodeId, i.events, accept, i.x);
      DeliversOne(Feed(view, pool, nodeId, i.events, accept).log, i.x, EndTime(i.events));
    }
  }

  /** These events and, at the time of the first, the frames that are missing. */
  function Completed(events: seq<Event>, frames: seq<Frame>): seq<Event>
    requires events != [] && |events| <= |frames|
  {
    events + seq(|frames| - |events|, k requires 0 <= k < |frames| - |events| =>
                   Event(frames[|events| + k], events[0].now, events[0].junk))
  }

  lemma {:induction false} CompletedCarries(events: seq<Event>, frames: seq<Frame>)
    requires 1 <= |events| <= |frames| && Carries(events, frames[..|events|]) && AllInTime(events, events[0].now)
    ensures var all := Completed(events, frames);
      && Carries(all, frames) && all[0] == events[0] && all[..|events|] == events && AllInTime(all, events[0].now)
  {
    var all := Completed(events, frames);
    assert events[0] in events;
    forall e | e in all ensures InTime(e.now, events[0].now) {
      assert e in events || e.now == events[0].now;
    }
    forall k | 0 <= k < |frames| ensures all[k].frame == frames[k] {
      if k < |events| {
        assert frames[..|events|][k] == frames[k];
      }
    }
  }

  lemma {:induction false} ItemBreaksOff(view: Option<RxState>, pool: Pool, nodeId: byte, i: Item, accept: Acceptance)
    requires Arriving(i, nodeId, accept) && !Whole(i) && Receptive(view, i.x.tid, i.events[0].now)
    requires pool.usage + Opening(view) <= pool.capacity
    requires |i.x.payload| >= 8 ==> BlocksFor(Buffered(|i.x.payload|)) <= pool.capacity - pool.usage - Opening(view)
    ensures Waiting(Feed(view, pool, nodeId, i.events, accept), pool, view, i)
  {
    hide Receptive;
    hide Feed;
    hide Mid;
    if |i.x.payload| < 8 {
      OneFrame(i, nodeId, accept);
    } else {
      BreaksOff(view, pool, nodeId, i, accept);
    }
  }

  lemma {:induction false} BreaksOff(view: Option<RxState>, pool: Pool, nodeId: byte, i: Item, accept: Acceptance)
    requires Arriving(i, nodeId, accept) && !Whole(i) && Receptive(view, i.x.tid, i.events[0].now)
    requires |i.x.payload| >= 8 && pool.usage + Opening(view) <= pool.capacity
    requires BlocksFor(Buffered(|i.x.payload|)) <= pool.capacity - pool.usage - Opening(view)
    ensures Waiting(Feed(view, pool, nodeId, i.events, accept), pool, view, i)
  {
    hide *;
    CompletedConveys(view, pool, i, nodeId, accept);
    var all, lens := Completed(i.events, FramesOfItem(i)), OwnLengths(|i.x.payload|);
    var at, toggle := HalfReceived(view, pool, nodeId, all, accept, i.x, lens, |i.events|);
    ResumesMidway(Feed(view, pool, nodeId, i.events, accept), nodeId, all[|i.events|..], accept, i.x, at,
                  lens[|i.events|..], toggle, i.events[0].now, pool.capacity, pool.usage + Opening(view));
    IsWaiting(Feed(view, pool, nodeId, i.events, accept), pool, view, i);
  }

  lemma {:induction false} IsWaiting(r: Fed, pool: Pool, view: Option<RxState>, i: Item)
    requires i.events != [] && Deliveries(r.log) == [] && r.view.Some?
    requires r.view.value.core.transferId == i.x.tid & 0x1F && r.view.value.core.timestamp == i.events[0].now
    requires r.pool.capacity == pool.capacity && r.pool.usage + Opening(r.view) == pool.usage + Opening(view)
    ensures Waiting(r, pool, view, i)
  {
  }

  /** The events of an item that breaks off, completed, convey the transfer. */
  lemma {:induction false} CompletedConveys(view: Option<RxState>, pool: Pool, i: Item, nodeId: byte,
                                            accept: Acceptance)
    requires Arriving(i, nodeId, accept) && !Whole(i) && |i.x.payload| >= 8
    requires BlocksFor(Buffered(|i.x.payload|)) <= pool.capacity - pool.usage - Opening(view)
    ensures 1 <= |i.events| <= |FramesOfItem(i)| && Wanted(i.x, nodeId, accept)
    ensures var all, lens := Completed(i.events, FramesOfItem(i)), OwnLengths(|i.x.payload|);
      && Conveys(all, i.x, lens) && |i.events| < |lens| && lens != [] && BeforeEnd(i.x, lens) <= MAX_PAYLOAD
      && RoomFor(pool, view, lens) && all[0] == i.events[0] && all[..|i.events|] == i.events
  {
    hide Completed;
    hide Frames;
    hide Wanted;
    hide Good;
    hide ChainAt;
    hide Opening;
    CompletedCarries(i.events, FramesOfItem(i));
    OwnFramesCut(i.x);
    hide Carries;
    hide AllInTime;
    hide Pieces;
    hide Lengths;
    hide Cuts;
    hide StartPiece;
  }

  lemma {:induction false} ResumesMidway(r: Fed, nodeId: byte, events: seq<Event>, accept: Acceptance, x: Sending,
                                         at: nat,
                                         lens: seq<nat>, toggle: bool, start: Timestamp, capacity: nat, usage: int)
    requires Resumes(r, nodeId, events, accept, x, 0, at, lens, toggle, start, capacity, usage)
    ensures Deliveries(r.log) == []
    ensures r.view.Some? && r.view.value.core.transferId == x.tid & 0x1F && r.view.value.core.timestamp == start
    ensures r.pool.capacity == capacity && r.pool.usage + Opening(r.view) == usage
  {
    hide Deliveries;
    SilentIsEmpty(r.log);
  }

  lemma {:induction false} DeliversMore(front: seq<Transfer>, ts: seq<Transfer>, items: seq<Item>)
    requires items != [] && FirstDelivers(front, items[0]) && DeliversAll(ts, WholeOnes(items[1..]))
    ensures DeliversAll(front + ts, WholeOnes(items))
  {
    hide Whole;
    hide Announces;
  }

  /** Its one delivery, or none if the transfer breaks off. */
  ghost predicate FirstDelivers(ts: seq<Transfer>, i: Item) {
    && |ts| == (if Whole(i) then 1 else 0)
    && (Whole(i) ==> i.events != [] && Announces(ts[0], i.x, EndTime(i.events)))
  }

  /** What the first transfer of a stream leaves to the others. */
  ghost predicate Passed(r: Fed, items: seq<Item>, nodeId: byte, accept: Acceptance)
    requires items != []
  {
    && Stream(items[1..], nodeId, accept) && FirstDelivers(Deliveries(r.log), items[0])
    && (|items| > 1 ==>
          && Arriving(items[1], nodeId, accept) && items[1].events != []
          && Receptive(r.view, items[1].x.tid, items[1].events[0].now))
    && AllFit(items[1..], r.pool.capacity - r.pool.usage - Opening(r.view))
  }

  /** What is known of the others. */
  ghost predicate Following(items: seq<Item>, nodeId: byte, accept: Acceptance, free: int) {
    && items != [] && items[0].events != [] && Stream(items[1..], nodeId, accept) && AllFit(items[1..], free)
    && (|items| > 1 ==>
          Arriving(items[1], nodeId, accept) && items[1].events != [] && Distinguished(items[0], items[1]))
  }

  lemma {:induction false} StreamFollows(items: seq<Item>, nodeId: byte, accept: Acceptance, free: int)
    requires items != [] && Stream(items, nodeId, accept) && AllFit(items, free)
    ensures Following(items, nodeId, accept, free) && Arriving(items[0], nodeId, accept)
    ensures free >= 0 && (|items[0].x.payload| >= 8 ==> BlocksFor(Buffered(|items[0].x.payload|)) <= free)
  {
    hide Frames;
    if |items| > 1 {
      assert items[1..][0] == items[1];
    }
  }

  lemma {:induction false} StreamFirst(view: Option<RxState>, pool: Pool, nodeId: byte, items: seq<Item>,
                                       accept: Acceptance)
    requires items != [] && Stream(items, nodeId, accept) && Receptive(view, items[0].x.tid, items[0].events[0].now)
    requires AllFit(items, pool.capacity - pool.usage - Opening(view))
    ensures Passed(Feed(view, pool, nodeId, items[0].events, accept), items, nodeId, accept)
  {
    hide *;
    var i := items[0];
    StreamFollows(items, nodeId, accept, pool.capacity - pool.usage - Opening(view));
    var r := Feed(view, pool, nodeId, i.events, accept);
    if Whole(i) {
      ItemDelivered(view, pool, nodeId, i, accept);
      ServedPasses(r, pool, view, items, nodeId, accept);
    } else {
      ItemBreaksOff(view, pool, nodeId, i, accept);
      WaitingPasses(r, pool, view, items, nodeId, accept);
    }
  }

  lemma {:induction false} ServedPasses(r: Fed, pool: Pool, view: Option<RxState>, items: seq<Item>, nodeId: byte,
                                        accept: Acceptance)
    requires Following(items, nodeId, accept, pool.capacity - pool.usage - Opening(view))
    requires Whole(items[0]) && Served(r, pool, view, items[0])
    ensures Passed(r, items, nodeId, accept)
  {
    hide Receptive;
    hide Deliveries;
    hide Announces;
    hide Stream;
    hide Arriving;
    hide AllFit;
    hide Whole;
    var s, i := r.view.value, items[0];
    DoneHoldsNothing(s, i.x.tid, i.events[0].now);
    hide Done;
    if |items| > 1 {
      DoneIsReceptive(s, i.x.tid, items[1].x.tid, i.events[0].now, items[1].events[0].now);
    }
  }

  lemma {:induction false} WaitingPasses(r: Fed, pool: Pool, view: Option<RxState>, items: seq<Item>, nodeId: byte,
                                         accept: Acceptance)
    requires Following(items, nodeId, accept, pool.capacity - pool.usage - Opening(view))
    requires !Whole(items[0]) && Waiting(r, pool, view, items[0])
    ensures Passed(r, items, nodeId, accept)
  {
    hide Deliveries;
    hide Announces;
    hide Stream;
    hide Arriving;
    hide AllFit;
    hide Whole;
    hide Idle;
  }

  lemma {:induction false} DoneHoldsNothing(s: RxState, tid: byte, start: Timestamp)
    requires Done(s, tid, start)
    ensures Opening(Some(s)) == 0
  {
  }

  /** Successive transfers, however long the stream and however long the pauses between them: those that do not break
      off are all delivered, once each and in order, and the others deliver nothing; the receiver never needs more
      blocks than its largest transfer. */
  lemma {:induction false} StreamDelivered(view: Option<RxState>, pool: Pool, nodeId: byte, items: seq<Item>,
                                           accept: Acceptance)
    requires Stream(items, nodeId, accept)
    requires items != [] ==> Arriving(items[0], nodeId, accept) && Receptive(view, items[0].x.tid,
                                                                             items[0].events[0].now)
    requires AllFit(items, pool.capacity - pool.usage - Opening(view))
    ensures DeliversAll(Deliveries(Feed(view, pool, nodeId, StreamEvents(items), accept).log), WholeOnes(items))
    decreases |items|
  {
    if items != [] {
      StreamFirst(view, pool, nodeId, items, accept);
      StreamRest(view, pool, nodeId, items, accept, Feed(view, pool, nodeId, items[0].events, accept));
    }
  }

  lemma {:induction false} StreamRest(view: Option<RxState>, pool: Pool, nodeId: byte, items: seq<Item>,
                                      accept: Acceptance, r: Fed)
    requires items != [] && r == Feed(view, pool, nodeId, items[0].events, accept) && Passed(r, items, nodeId, accept)
    ensures DeliversAll(Deliveries(Feed(view, pool, nodeId, StreamEvents(items), accept).log), WholeOnes(items))
    decreases |items|, 0
  {
    hide Feed;
    hide Receptive;
    hide Arriving;
    hide FirstDelivers;
    hide WholeOnes;
    var rest := Feed(r.view, r.pool, nodeId, StreamEvents(items[1..]), accept);
    StreamDelivered(r.view, r.pool, nodeId, items[1..], accept);
    FeedConcat(view, pool, nodeId, items[0].events, StreamEvents(items[1..]), accept);
    DeliveriesConcat(r.log, rest.log);
    DeliversMore(Deliveries(r.log), Deliveries(rest.log), items);
  }

  // ---------------------------------------------------------------- single-frame transfers

  ghost predicate AllSingle(items: seq<Item>, nodeId: byte, accept: Acceptance) {
    forall i | i in items :: Arriving(i, nodeId, accept) && |i.x.payload| < 8
  }

  /** Single-frame transfers are all delivered, whatever their transfer IDs and whatever the receiver holds; only a new
      state needs memory. */
  lemma {:induction false} SinglesDelivered(view: Option<RxState>, pool: Pool, nodeId: byte, items: seq<Item>,
                                            accept: Acceptance)
    requires AllSingle(items, nodeId, accept) && (view.Some? || !pool.Full())
    ensures DeliversAll(Deliveries(Feed(view, pool, nodeId, StreamEvents(items), accept).log), items)
    decreases |items|
  {
    hide *;
    if items == [] {
      NothingDelivered(view, pool, nodeId, accept);
    } else {
      FirstSingle(items, nodeId, accept);
      SingleFed(view, pool, nodeId, items[0], accept);
      var r := Feed(view, pool, nodeId, items[0].events, accept);
      SinglesDelivered(r.view, r.pool, nodeId, items[1..], accept);
      EventsOfFirst(items);
      var q := Feed(r.view, r.pool, nodeId, StreamEvents(items[1..]), accept);
      FeedConcat(view, pool, nodeId, items[0].events, StreamEvents(items[1..]), accept);
      DeliveriesConcat(r.log, q.log);
      DeliversNext(Deliveries(r.log)[0], Deliveries(q.log), items);
      assert Deliveries(r.log) == [Deliveries(r.log)[0]];
    }
  }

  lemma {:induction false} NothingDelivered(view: Option<RxState>, pool: Pool, nodeId: byte, accept: Acceptance)
    ensures DeliversAll(Deliveries(Feed(view, pool, nodeId, StreamEvents([]), accept).log), [])
  {
    FeedNothing(view, pool, nodeId, accept);
  }

  lemma {:induction false} FirstSingle(items: seq<Item>, nodeId: byte, accept: Acceptance)
    requires items != [] && AllSingle(items, nodeId, accept)
    ensures Arriving(items[0], nodeId, accept) && |items[0].x.payload| < 8 && AllSingle(items[1..], nodeId, accept)
  {
    assert items[0] in items;
    hide Arriving;
  }

  lemma {:induction false} EventsOfFirst(items: seq<Item>)
    requires items != []
    ensures StreamEvents(items) == items[0].events + StreamEvents(items[1..])
  {
  }

  lemma {:induction false} DeliversNext(t: Transfer, ts: seq<Transfer>, items: seq<Item>)
    requires items != [] && items[0].events != [] && Announces(t, items[0].x, EndTime(items[0].events))
    requires DeliversAll(ts, items[1..])
    ensures DeliversAll([t] + ts, items)
  {
    hide Announces;
  }

  lemma {:induction false} SingleFed(view: Option<RxState>, pool: Pool, nodeId: byte, i: Item, accept: Acceptance)
    requires Arriving(i, nodeId, accept) && |i.x.payload| < 8 && (view.Some? || !pool.Full())
    ensures var r := Feed(view, pool, nodeId, i.events, accept);
      && i.events != [] && r.view.Some?
      && |Deliveries(r.log)| == 1 && Announces(Deliveries(r.log)[0], i.x, EndTime(i.events))
  {
    hide Feed;
    hide OnFrame;
    hide Announces;
    hide Deliveries;
    OneFrame(i, nodeId, accept);
    hide Arriving;
    var e := i.events[0];
    SingleDelivered(view, pool, nodeId, e, accept, i.x);
    StateStays(view, pool, nodeId, e, accept);
    var r := OnFrame(view, pool, nodeId, e, accept);
    OneDelivery(r.delivered.value);
    assert i.events[1..] == [] && [r.delivered] + [] == [Some(r.delivered.value)];
    FeedStep(view, pool, nodeId, i.events, accept);
    FeedNothing(r.view, r.pool, nodeId, accept);
  }

  lemma {:induction false} StateStays(view: Option<RxState>, pool: Pool, nodeId: byte, e: Event, accept: Acceptance)
    ensures var r := OnFrame(view, pool, nodeId, e, accept); r.delivered.Some? ==> r.view.Some?
  {
    hide Receive;
  }
}
