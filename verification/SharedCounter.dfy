/** One transfer-ID counter for several descriptors: exactly when a multi-frame transfer is taken for its predecessor.
    */
module SharedCounter {
  import opened Types
  import opened CanId
  import opened Fragment
  import opened RxBuffer
  import opened Receiver
  import opened Reassembly
  import opened RoundTrip
  import opened Halfway
  import opened Streams
  import opened Library

  // ---------------------------------------------------------------- two transfers under one descriptor

  /** A receiver that has settled after transfer `tid`, begun at `start`, can tell a transfer with ID `next` that begins
      at `now` from that one. A time of zero stands for no transfer at all. */
  predicate ToldApart(tid: byte, start: Timestamp, next: byte, now: Timestamp) {
    next & 0x1F != tid & 0x1F || start == 0 || Elapsed(now, start) > TRANSFER_TIMEOUT_USEC
  }

  /** Only a start frame after the timeout, or with another transfer ID, moves a settled receiver. */
  lemma {:induction false} StaleFrame(s: RxState, pool: Pool, f: Frame, now: Timestamp, junk: Junk, tid: byte,
                                      start: Timestamp)
    requires f.data != [] && Done(s, tid, start) && start != 0
    requires TransferIdOf(TailOf(f)) == tid & 0x1F && !(IsStart(TailOf(f)) && IsEnd(TailOf(f)))
    requires IsStart(TailOf(f)) ==> !TimedOut(s, now)
    ensures var o := Receive(s, pool, f, now, junk); Done(o.state, tid, start) && o.pool == pool && o.delivered == None
  {
    TidIsTid(tid);
    if !TimedOut(s, now) {
      StaleFrameRefused(s, pool, f, now, junk, tid & 0x1F);
    }
  }

  /** The frames of a transfer after its first one: none of them can start anything, in time or not. */
  lemma {:induction false} StaleRest(s: RxState, pool: Pool, nodeId: byte, events: seq<Event>, accept: Acceptance,
                                     x: Sending, at: nat, lens: seq<nat>, toggle: bool, tid: byte, start: Timestamp)
    requires at <= |x.payload| && Cuts(lens, |x.payload| - at) && Done(s, tid, start) && start != 0
    requires x.tid & 0x1F == tid & 0x1F && Wanted(x, nodeId, accept)
    requires Carries(events, Pieces(x, at, lens, toggle))
    ensures var r := Feed(Some(s), pool, nodeId, events, accept);
      Silent(r.log) && Settled(r, tid, start, pool.capacity, pool.usage)
    decreases |lens|
  {
    if lens != [] {
      hide Wanted;
      hide Receive;
      hide OnFrame;
      hide Done;
      hide Pieces;
      hide Cuts;
      hide Carries;
      hide Feed;
      StaleNext(events, x, at, lens, toggle);
      WantedContinuation(s, pool, nodeId, events[0], accept, x);
      StaleFrame(s, pool, events[0].frame, events[0].now, events[0].junk, tid, start);
      var o := Receive(s, pool, events[0].frame, events[0].now, events[0].junk);
      StaleRest(o.state, o.pool, nodeId, events[1..], accept, x, at + lens[0], lens[1..], !toggle, tid, start);
      FeedStep(Some(s), pool, nodeId, events, accept);
    }
  }

  lemma {:induction false} StaleNext(events: seq<Event>, x: Sending, at: nat, lens: seq<nat>, toggle: bool)
    requires at <= |x.payload| && lens != [] && Cuts(lens, |x.payload| - at)
    requires Carries(events, Pieces(x, at, lens, toggle))
    ensures events != [] && events[0].frame.id == x.id && events[0].frame.data != []
    ensures !IsStart(TailOf(events[0].frame)) && TransferIdOf(TailOf(events[0].frame)) == x.tid & 0x1F
    ensures at + lens[0] <= |x.payload| && Cuts(lens[1..], |x.payload| - at - lens[0])
    ensures Carries(events[1..], Pieces(x, at + lens[0], lens[1..], !toggle))
  {
    var frames := Pieces(x, at, lens, toggle);
    assert frames[0] == Piece(x, at, lens[0], |lens| == 1, toggle);
    assert frames[1..] == Pieces(x, at + lens[0], lens[1..], !toggle);
    PieceTail(x, at, lens[0], |lens| == 1, toggle);
  }

  /** A multi-frame transfer that the receiver cannot tell from its predecessor is lost whole, whatever its length and
      its cut, and however late its later frames come; it leaves the receiver as it was. */
  lemma {:induction false} LostWhole(s: RxState, pool: Pool, nodeId: byte, events: seq<Event>, accept: Acceptance,
                                     x: Sending, lens: seq<nat>, tid: byte, start: Timestamp)
    requires Done(s, tid, start) && Wanted(x, nodeId, accept)
    requires Cut(x, lens) && Carries(events, CutFrames(x, lens))
    requires !ToldApart(tid, start, x.tid, events[0].now)
    ensures var r := Feed(Some(s), pool, nodeId, events, accept);
      Silent(r.log) && Settled(r, tid, start, pool.capacity, pool.usage)
  {
    hide Done;
    hide ToldApart;
    hide Feed;
    var e := events[0];
    LostStart(events, x, lens);
    var s1 := Opened(Some(s), x.id, x.signature, e.junk);
    WantedStart(Some(s), pool, nodeId, e, accept, x);
    hide Wanted;
    hide Receive;
    hide OnFrame;
    hide CutFrames;
    hide Pieces;
    NotToldApart(s, x, tid, start, e.now);
    OpenedIsDone(s, x, e, tid, start);
    StaleFrame(s1, pool, e.frame, e.now, e.junk, tid, start);
    var o := Receive(s1, pool, e.frame, e.now, e.junk);
    StaleRest(o.state, o.pool, nodeId, events[1..], accept, x, lens[0], lens[1..], true, tid, start);
    FeedStep(Some(s), pool, nodeId, events, accept);
  }

  lemma {:induction false} NotToldApart(s: RxState, x: Sending, tid: byte, start: Timestamp, now: Timestamp)
    requires Done(s, tid, start) && !ToldApart(tid, start, x.tid, now)
    ensures start != 0 && x.tid & 0x1F == tid & 0x1F && !TimedOut(s, now)
  {
  }

  lemma {:induction false} OpenedIsDone(s: RxState, x: Sending, e: Event, tid: byte, start: Timestamp)
    requires Done(s, tid, start)
    ensures var s1 := Opened(Some(s), x.id, x.signature, e.junk);
      Done(s1, tid, start) && s1.core.timestamp == s.core.timestamp
  {
  }

  lemma {:induction false} LostStart(events: seq<Event>, x: Sending, lens: seq<nat>)
    requires Cut(x, lens) && Carries(events, CutFrames(x, lens))
    ensures lens[0] <= |x.payload| && Cuts(lens[1..], |x.payload| - lens[0])
    ensures events[0].frame == StartPiece(x, lens[0]) && events[0].frame.data != []
    ensures var t := TailOf(events[0].frame); IsStart(t) && !IsEnd(t) && TransferIdOf(t) == x.tid & 0x1F
    ensures Carries(events[1..], Pieces(x, lens[0], lens[1..], true))
  {
    var frames := CutFrames(x, lens);
    assert frames[1..] == Pieces(x, lens[0], lens[1..], true);
    StartTail(x.tid);
  }

  lemma {:induction false} ApartIsReceptive(s: RxState, tid: byte, start: Timestamp, next: byte, now: Timestamp)
    requires Done(s, tid, start) && ToldApart(tid, start, next, now)
    ensures Receptive(Some(s), next, now)
  {
    if start != 0 {
      DoneIsReceptive(s, tid, next, start, now);
    }
  }

  lemma {:induction false} SilentIsUndelivered(log: seq<Option<Transfer>>, x: Sending, time: Timestamp)
    requires log != [] && Silent(log)
    ensures DeliversLast(log, x, time, false)
  {
  }

  /** A sound multi-frame transfer after another one under the same descriptor, with memory for it, is delivered if and
      only if the receiver can tell the two apart. */
  lemma {:induction false} SuccessorDelivered(s: RxState, pool: Pool, nodeId: byte, events: seq<Event>,
                                              accept: Acceptance, x: Sending, tid: byte, start: Timestamp)
    requires Done(s, tid, start)
    requires 8 <= |x.payload| <= LONGEST && Good(x) && Wanted(x, nodeId, accept)
    requires Carries(events, Frames(x.id, x.tid, x.crc, x.payload)) && AllInTime(events, events[0].now)
    requires pool.usage <= pool.capacity && HasRoom(pool, Some(s), |x.payload|)
    ensures DeliversLast(Feed(Some(s), pool, nodeId, events, accept).log, x, EndTime(events),
                         ToldApart(tid, start, x.tid, events[0].now))
  {
    hide Done;
    hide Wanted;
    hide Good;
    hide DeliversLast;
    hide Announces;
    hide Feed;
    if ToldApart(tid, start, x.tid, events[0].now) {
      ApartIsReceptive(s, tid, start, x.tid, events[0].now);
      hide Receptive;
      DoneHoldsNothing(s, tid, start);
      TransferDelivered(Some(s), pool, nodeId, events, accept, x);
    } else {
      hide ToldApart;
      OwnFramesCut(x);
      LostWhole(s, pool, nodeId, events, accept, x, OwnLengths(|x.payload|), tid, start);
      SilentIsUndelivered(Feed(Some(s), pool, nodeId, events, accept).log, x, EndTime(events));
    }
  }

  // ---------------------------------------------------------------- a whole stream under one descriptor

  /** A transfer in several frames, all of which come, in time. */
  ghost predicate Long(i: Item, nodeId: byte, accept: Acceptance) {
    Arriving(i, nodeId, accept) && Whole(i) && |i.x.payload| >= 8
  }

  ghost predicate AllLong(items: seq<Item>, nodeId: byte, accept: Acceptance) {
    forall i | i in items :: Long(i, nodeId, accept)
  }

  /** Those that the receiver tells from the last one it took, which had transfer ID `tid` and began at `start`. */
  function Told(items: seq<Item>, tid: byte, start: Timestamp): seq<Item>
    decreases |items|
  {
    if items == [] || items[0].events == [] then []
    else if ToldApart(tid, start, items[0].x.tid, items[0].events[0].now) then
      [items[0]] + Told(items[1..], items[0].x.tid, items[0].events[0].now)
    else Told(items[1..], tid, start)
  }

  /** Seen from a receiver that knows nothing or waits for the first of them. */
  function Taken(items: seq<Item>): seq<Item> {
    if items == [] || items[0].events == [] then []
    else [items[0]] + Told(items[1..], items[0].x.tid, items[0].events[0].now)
  }

  lemma {:induction false} FirstLong(items: seq<Item>, nodeId: byte, accept: Acceptance, free: int)
    requires items != [] && AllLong(items, nodeId, accept) && AllFit(items, free)
    ensures AllLong(items[1..], nodeId, accept) && AllFit(items[1..], free) && free >= 0
    ensures Arriving(items[0], nodeId, accept) && Whole(items[0]) && items[0].events != []
    ensures |items[0].x.payload| >= 8 && BlocksFor(Buffered(|items[0].x.payload|)) <= free
  {
    assert items[0] in items;
    hide Wanted;
    hide Good;
    hide BlocksFor;
    hide Frames;
  }

  /** One of them that is told apart. */
  lemma {:induction false} ToldDelivers(s: RxState, pool: Pool, nodeId: byte, i: Item, accept: Acceptance, tid: byte,
                                        start: Timestamp)
    requires Arriving(i, nodeId, accept) && Whole(i) && |i.x.payload| >= 8 && Done(s, tid, start)
    requires ToldApart(tid, start, i.x.tid, i.events[0].now) && pool.usage <= pool.capacity
    requires BlocksFor(Buffered(|i.x.payload|)) <= pool.capacity - pool.usage
    ensures var r := Feed(Some(s), pool, nodeId, i.events, accept);
      && |Deliveries(r.log)| == 1 && Announces(Deliveries(r.log)[0], i.x, EndTime(i.events))
      && Settled(r, i.x.tid, i.events[0].now, pool.capacity, pool.usage)
  {
    ApartIsReceptive(s, tid, start, i.x.tid, i.events[0].now);
    DoneHoldsNothing(s, tid, start);
    hide Feed;
    hide Arriving;
    hide Receptive;
    hide ToldApart;
    hide Announces;
    hide Deliveries;
    ItemDelivered(Some(s), pool, nodeId, i, accept);
  }

  /** One of them that is not. */
  lemma {:induction false} NotToldSilent(s: RxState, pool: Pool, nodeId: byte, i: Item, accept: Acceptance, tid: byte,
                                         start: Timestamp)
    requires Arriving(i, nodeId, accept) && Whole(i) && |i.x.payload| >= 8 && Done(s, tid, start)
    requires !ToldApart(tid, start, i.x.tid, i.events[0].now)
    ensures var r := Feed(Some(s), pool, nodeId, i.events, accept);
      Deliveries(r.log) == [] && Settled(r, tid, start, pool.capacity, pool.usage)
  {
    hide Feed;
    hide Done;
    hide ToldApart;
    hide Wanted;
    hide Deliveries;
    assert FramesOfItem(i)[..|i.events|] == FramesOfItem(i);
    OwnFramesCut(i.x);
    hide Frames;
    LostWhole(s, pool, nodeId, i.events, accept, i.x, OwnLengths(|i.x.payload|), tid, start);
    SilentIsEmpty(Feed(Some(s), pool, nodeId, i.events, accept).log);
  }

  /** Of long transfers under one descriptor, whatever their transfer IDs and however many, exactly those are delivered
      that the receiver can tell from the last one it took, once each and in order. */
  lemma {:induction false} CounterStream(s: RxState, pool: Pool, nodeId: byte, items: seq<Item>, accept: Acceptance,
                                         tid: byte, start: Timestamp)
    requires AllLong(items, nodeId, accept) && AllFit(items, pool.capacity - pool.usage) && Done(s, tid, start)
    ensures DeliversAll(Deliveries(Feed(Some(s), pool, nodeId, StreamEvents(items), accept).log),
                        Told(items, tid, start))
    decreases |items|
  {
    hide *;
    if items == [] {
      NoItems(Some(s), pool, nodeId, accept, tid, start);
    } else {
      FirstLong(items, nodeId, accept, pool.capacity - pool.usage);
      var i := items[0];
      var r := Feed(Some(s), pool, nodeId, i.events, accept);
      var told := ToldApart(tid, start, i.x.tid, i.events[0].now);
      ToldFirst(items, tid, start);
      if told {
        ToldDelivers(s, pool, nodeId, i, accept, tid, start);
        SettledIsDone(r, i.x.tid, i.events[0].now, pool.capacity, pool.usage);
        CounterStream(r.view.value, r.pool, nodeId, items[1..], accept, i.x.tid, i.events[0].now);
        OneMore(Some(s), pool, nodeId, items, accept, Told(items[1..], i.x.tid, i.events[0].now), true);
      } else {
        NotToldSilent(s, pool, nodeId, i, accept, tid, start);
        SettledIsDone(r, tid, start, pool.capacity, pool.usage);
        CounterStream(r.view.value, r.pool, nodeId, items[1..], accept, tid, start);
        OneMore(Some(s), pool, nodeId, items, accept, Told(items[1..], tid, start), false);
        assert [] + Told(items[1..], tid, start) == Told(items[1..], tid, start);
      }
    }
  }

  lemma {:induction false} NoItems(view: Option<RxState>, pool: Pool, nodeId: byte, accept: Acceptance, tid: byte,
                                   start: Timestamp)
    ensures DeliversAll(Deliveries(Feed(view, pool, nodeId, StreamEvents([]), accept).log), Told([], tid, start))
    ensures DeliversAll(Deliveries(Feed(view, pool, nodeId, StreamEvents([]), accept).log), Taken([]))
  {
    FeedNothing(view, pool, nodeId, accept);
    hide Feed;
  }

  lemma {:induction false} ToldFirst(items: seq<Item>, tid: byte, start: Timestamp)
    requires items != [] && items[0].events != []
    ensures var i := items[0];
      Told(items, tid, start)
      == if ToldApart(tid, start, i.x.tid, i.events[0].now) then [i] + Told(items[1..], i.x.tid, i.events[0].now)
         else Told(items[1..], tid, start)
  {
    hide ToldApart;
  }

  lemma {:induction false} SettledIsDone(r: Fed, tid: byte, start: Timestamp, capacity: nat, usage: int)
    requires Settled(r, tid, start, capacity, usage)
    ensures r.view.Some? && Done(r.view.value, tid, start) && r.pool.capacity == capacity && r.pool.usage == usage
  {
    hide Done;
  }

  /** The deliveries of the first and those of the others. */
  lemma {:induction false} OneMore(view: Option<RxState>, pool: Pool, nodeId: byte, items: seq<Item>,
                                   accept: Acceptance, rest: seq<Item>, told: bool)
    requires items != [] && items[0].events != []
    requires var r := Feed(view, pool, nodeId, items[0].events, accept);
      && |Deliveries(r.log)| == (if told then 1 else 0)
      && (told ==> Announces(Deliveries(r.log)[0], items[0].x, EndTime(items[0].events)))
      && DeliversAll(Deliveries(Feed(r.view, r.pool, nodeId, StreamEvents(items[1..]), accept).log), rest)
    ensures DeliversAll(Deliveries(Feed(view, pool, nodeId, StreamEvents(items), accept).log),
                        (if told then [items[0]] else []) + rest)
  {
    hide *;
    var r := Feed(view, pool, nodeId, items[0].events, accept);
    var q := Feed(r.view, r.pool, nodeId, StreamEvents(items[1..]), accept);
    FirstEvents(items);
    FeedConcat(view, pool, nodeId, items[0].events, StreamEvents(items[1..]), accept);
    DeliveriesConcat(r.log, q.log);
    DeliversFront(Deliveries(r.log), Deliveries(q.log), items[0], rest, told);
  }

  lemma {:induction false} FirstEvents(items: seq<Item>)
    requires items != []
    ensures StreamEvents(items) == items[0].events + StreamEvents(items[1..])
  {
  }

  lemma {:induction false} DeliversFront(first: seq<Transfer>, others: seq<Transfer>, i: Item, rest: seq<Item>,
                                         told: bool)
    requires i.events != [] && |first| == (if told then 1 else 0) && DeliversAll(others, rest)
    requires told ==> Announces(first[0], i.x, EndTime(i.events))
    ensures DeliversAll(first + others, (if told then [i] else []) + rest)
  {
    hide Announces;
    hide EndTime;
    if !told {
      assert first + others == others && [] + rest == rest;
    }
  }

  /** From a receiver that knows nothing, or waits for the first. */
  lemma {:induction false} CounterStreamFrom(view: Option<RxState>, pool: Pool, nodeId: byte, items: seq<Item>,
                                             accept: Acceptance)
    requires AllLong(items, nodeId, accept) && AllFit(items, pool.capacity - pool.usage - Opening(view))
    requires items != [] && items[0].events != [] ==> Receptive(view, items[0].x.tid, items[0].events[0].now)
    ensures DeliversAll(Deliveries(Feed(view, pool, nodeId, StreamEvents(items), accept).log), Taken(items))
  {
    if items == [] {
      NoItems(view, pool, nodeId, accept, 0, 0);
    } else {
      FirstLong(items, nodeId, accept, pool.capacity - pool.usage - Opening(view));
      hide AllLong;
      hide AllFit;
      hide Feed;
      hide Arriving;
      hide Whole;
      hide Announces;
      hide Deliveries;
      hide Receptive;
      hide Told;
      var i := items[0];
      var r := Feed(view, pool, nodeId, i.events, accept);
      ItemDelivered(view, pool, nodeId, i, accept);
      hide Done;
      CounterStream(r.view.value, r.pool, nodeId, items[1..], accept, i.x.tid, i.events[0].now);
      OneMore(view, pool, nodeId, items, accept, Told(items[1..], i.x.tid, i.events[0].now), true);
    }
  }

  // ---------------------------------------------------------------- the counter of the wrapper

  predicate Counts(tid: byte, n: int) {
    tid as int == n
  }

  lemma {:induction false} IncrementedCounts(tid: byte, n: nat)
    requires n < 32 && Counts(tid, n)
    ensures Counts(Incremented(tid), (n + 1) % 32)
  {
  }

  lemma {:induction false} NextCount(k: nat, n: nat)
    requires n > 0
    ensures ((k + n - 1) % 32 + 1) % 32 == (k + n) % 32
  {
  }

  /** The counter counts modulo 32. */
  lemma {:induction false} AdvancedCounts(tid: byte, k: nat, n: nat)
    requires Counts(tid, k) && k < 32
    ensures Counts(Advanced(tid, n), (k + n) % 32)
    decreases n
  {
    hide Counts;
    hide Incremented;
    if n > 0 {
      AdvancedCounts(tid, k, n - 1);
      IncrementedCounts(Advanced(tid, n - 1), (k + n - 1) % 32);
      NextCount(k, n);
    }
  }

  /** Two numbers below 32 are one transfer ID only if they are the same. */
  lemma {:induction false} SameNumber(a: byte, b: byte, m: nat, k: nat)
    requires Counts(a, m) && Counts(b, k) && m < 32 && k < 32
    ensures a & 0x1F == b & 0x1F <==> m == k
  {
    LowFive(a, m);
    LowFive(b, k);
  }

  lemma {:induction false} LowFive(tid: byte, n: nat)
    requires Counts(tid, n) && n < 32
    ensures tid & 0x1F == tid
  {
    InRange(tid);
  }

  lemma {:induction false} InRange(tid: byte)
    requires tid as int < 32
    ensures tid < 32
  {
  }

  lemma {:induction false} Round(k: nat, n: nat)
    requires k < 32
    ensures (k + n) % 32 == k <==> n % 32 == 0
  {
  }

  lemma {:induction false} CountOf(tid: byte) returns (k: nat)
    requires tid < 32
    ensures k < 32 && Counts(tid, k)
  {
    k := tid as int;
  }

  /** The counter meets an earlier transfer ID again exactly after a multiple of 32 sends. */
  lemma {:induction false} ComesRound(tid: byte, n: nat)
    requires tid < 32
    ensures Advanced(tid, n) & 0x1F == tid & 0x1F <==> n % 32 == 0
  {
    hide Counts;
    hide Advanced;
    var k := CountOf(tid);
    AdvancedCounts(tid, k, n);
    Round(k, n);
    SameNumber(Advanced(tid, n), tid, (k + n) % 32, k);
  }

  /** With one counter for all messages, a long report is lost if and only if a multiple of 32 sends, of whatever
      messages, separate it from the last one the receiver took, and no more than two seconds. */
  lemma {:induction false} ReportLost(s: RxState, pool: Pool, nodeId: byte, events: seq<Event>, accept: Acceptance,
                                      x: Sending, tid: byte, start: Timestamp, n: nat)
    requires Done(s, tid, start) && start != 0 && tid < 32 && x.tid == Advanced(tid, n)
    requires 8 <= |x.payload| <= LONGEST && Good(x) && Wanted(x, nodeId, accept)
    requires Carries(events, Frames(x.id, x.tid, x.crc, x.payload)) && AllInTime(events, events[0].now)
    requires pool.usage <= pool.capacity && HasRoom(pool, Some(s), |x.payload|)
    ensures DeliversLast(Feed(Some(s), pool, nodeId, events, accept).log, x, EndTime(events),
                         n % 32 != 0 || Elapsed(events[0].now, start) > TRANSFER_TIMEOUT_USEC)
  {
    hide Feed;
    hide DeliversLast;
    ComesRound(tid, n);
    SuccessorDelivered(s, pool, nodeId, events, accept, x, tid, start);
  }
}
