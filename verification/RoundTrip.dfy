/** Whole transfers cut by this library: delivery, damage, single frames. */
module RoundTrip {
  import opened Types
  import opened CanId
  import opened Crc
  import opened Fragment
  import opened RxBuffer
  import opened Receiver
  import opened Reassembly

  // ---------------------------------------------------------------- the library's own cut

  /** Bytes buffered before the final frame. */
  function Buffered(n: nat): nat
    requires n >= 8
  {
    5 + 7 * ((n - 6) / 7)
  }

  const LONGEST := 1027

  /** Bytes buffered before the final frame, counting from `at`. */
  function BufferedFrom(at: nat, n: nat): nat
    requires at < n
  {
    at + 7 * ((n - at - 1) / 7)
  }

  /** The lengths of the frames from byte `at` on: full ones, then the rest. */
  function Lengths(at: nat, n: nat): seq<nat>
    requires at <= n
    decreases n - at
  {
    if at == n then [] else [Min(7, n - at)] + Lengths(at + Min(7, n - at), n)
  }

  /** The frames of a transfer are a cut of it. */
  lemma {:induction false} LengthsCut(x: Sending, at: nat, toggle: bool)
    requires at <= |x.payload|
    ensures Cuts(Lengths(at, |x.payload|), |x.payload| - at)
    ensures FramesFrom(x.id, x.tid, x.payload, at, toggle) == Pieces(x, at, Lengths(at, |x.payload|), toggle)
    decreases |x.payload| - at
  {
    if at < |x.payload| {
      var n := Min(7, |x.payload| - at);
      LengthsCut(x, at + n, !toggle);
      assert Lengths(at, |x.payload|)[1..] == Lengths(at + n, |x.payload|);
      assert |Lengths(at, |x.payload|)| == 1 <==> at + n == |x.payload|;
    }
  }

  lemma {:induction false} BufferedOnward(at: nat, n: nat)
    requires at + 7 < n
    ensures BufferedFrom(at + 7, n) == BufferedFrom(at, n)
  {
  }

  lemma {:induction false} FullFrame(at: nat)
    requires at % 7 == 5
    ensures After(BlocksFor(at), at, 7) == BlocksFor(at + 7)
  {
  }

  lemma {:induction false} OneLength(at: nat, n: nat)
    requires at < n <= at + 7
    ensures Lengths(at, n) == [n - at] && BufferedFrom(at, n) == at
  {
    assert Lengths(n, n) == [];
  }

  lemma {:induction false} MoreLengths(at: nat, n: nat)
    requires at + 7 < n
    ensures Lengths(at, n) == [7] + Lengths(at + 7, n) && Lengths(at + 7, n) != []
  {
  }

  /** Neither head nor block is ever exactly full on the way. */
  lemma {:induction false} LengthsEnd(at: nat, n: nat)
    requires at < n && at % 7 == 5
    ensures var lens := Lengths(at, n);
      && lens != [] && n - lens[|lens| - 1] == BufferedFrom(at, n)
      && ChainAt(BlocksFor(at), at, lens) == BlocksFor(BufferedFrom(at, n))
    decreases n - at
  {
    hide Lengths;
    hide BufferedFrom;
    hide BlocksFor;
    hide After;
    if at + 7 < n {
      MoreLengths(at, n);
      LengthsEnd(at + 7, n);
      BufferedOnward(at, n);
      FullFrame(at);
      assert Lengths(at, n)[1..] == Lengths(at + 7, n);
    } else {
      OneLength(at, n);
    }
  }

  function OwnLengths(n: nat): seq<nat>
    requires n >= 8
  {
    [5] + Lengths(5, n)
  }

  lemma {:induction false} OwnFramesCut(x: Sending)
    requires |x.payload| >= 8
    ensures Cut(x, OwnLengths(|x.payload|))
    ensures Frames(x.id, x.tid, x.crc, x.payload) == CutFrames(x, OwnLengths(|x.payload|))
    ensures BeforeEnd(x, OwnLengths(|x.payload|)) == Buffered(|x.payload|)
    ensures ChainAt(0, 5, OwnLengths(|x.payload|)[1..]) == BlocksFor(Buffered(|x.payload|))
  {
    var lens := OwnLengths(|x.payload|);
    assert lens[1..] == Lengths(5, |x.payload|);
    LengthsCut(x, 5, true);
    LengthsEnd(5, |x.payload|);
  }

  /** The blocks a transfer of `n` bytes needs besides the state itself are there. */
  predicate HasRoom(pool: Pool, view: Option<RxState>, n: nat)
    requires n >= 8
  {
    BlocksFor(Buffered(n)) <= pool.capacity - pool.usage - Opening(view)
  }

  /** Fed in order to a receptive receiver, the frames of a multi-frame transfer are delivered exactly once, by the last
      frame, with the payload that was sent, exactly if the carried CRC is right and the blocks can be had; either way
      the state is left idle and every block but that of the state itself is back in the pool. */
  lemma {:induction false} TransferDelivered(view: Option<RxState>, pool: Pool, nodeId: byte, events: seq<Event>,
                                             accept: Acceptance, x: Sending)
    requires 8 <= |x.payload| <= LONGEST
    requires Carries(events, Frames(x.id, x.tid, x.crc, x.payload)) && AllInTime(events, events[0].now)
    requires Wanted(x, nodeId, accept) && Receptive(view, x.tid, events[0].now)
    requires pool.usage + Opening(view) <= pool.capacity
    ensures Ends(Feed(view, pool, nodeId, events, accept), x, events[0].now, EndTime(events),
                 Good(x) && HasRoom(pool, view, |x.payload|), pool.capacity, pool.usage + Opening(view))
  {
    hide Feed;
    hide Ends;
    OwnFramesCut(x);
    CutDelivered(view, pool, nodeId, events, accept, x, OwnLengths(|x.payload|));
  }

  /** The time a delivery is stamped with is that of the first frame, as the documentation has it, if and only if the
      last frame comes at that very time; however the transfer was cut. */
  lemma {:induction false} FirstTimeExactly(view: Option<RxState>, pool: Pool, nodeId: byte, events: seq<Event>,
                                            accept: Acceptance, x: Sending, lens: seq<nat>)
    requires Conveys(events, x, lens) && BeforeEnd(x, lens) <= MAX_PAYLOAD
    requires Wanted(x, nodeId, accept) && Receptive(view, x.tid, events[0].now)
    requires pool.usage + Opening(view) <= pool.capacity && Good(x) && RoomFor(pool, view, lens)
    ensures var log := Feed(view, pool, nodeId, events, accept).log;
      && log != [] && log[|log| - 1].Some?
      && (log[|log| - 1].value.timestamp == events[0].now <==> events[|events| - 1].now == events[0].now)
  {
    hide Feed;
    hide Wanted;
    hide Receptive;
    hide Good;
    hide RoomFor;
    hide BeforeEnd;
    CutDelivered(view, pool, nodeId, events, accept, x, lens);
  }

  /** Two frames half a millisecond apart are delivered with the time of the second. */
  lemma {:induction false} LaterTimeDelivered(view: Option<RxState>, pool: Pool, nodeId: byte, events: seq<Event>,
                                              accept: Acceptance, x: Sending)
    requires 8 <= |x.payload| <= 12 && Good(x) && pool.usage + Opening(view) <= pool.capacity
    requires Carries(events, Frames(x.id, x.tid, x.crc, x.payload)) && |events| == 2
    requires events[0].now == 1000000 && events[1].now == 1000500
    requires Wanted(x, nodeId, accept) && Receptive(view, x.tid, events[0].now)
    ensures var log := Feed(view, pool, nodeId, events, accept).log;
      log[1].Some? && log[1].value.timestamp == 1000500
  {
    hide Feed;
    hide Wanted;
    hide Receptive;
    hide Good;
    hide Frames;
    assert HasRoom(pool, view, |x.payload|);
    assert AllInTime(events, events[0].now);
    TransferDelivered(view, pool, nodeId, events, accept, x);
  }

  /** Frames that carry the CRC of one payload and the bytes of another, damaged in at most sixteen consecutive bits or
      in an odd number of bits, deliver nothing. */
  lemma {:induction false} DamageNotDelivered(view: Option<RxState>, pool: Pool, nodeId: byte, events: seq<Event>,
                                              accept: Acceptance, x: Sending, sent: seq<byte>, i: nat)
    requires 8 <= |x.payload| <= LONGEST && |sent| == |x.payload| && sent != x.payload
    requires x.crc == TransferCrc(x.signature, sent)
    requires SameOutside(sent, x.payload, i) || DifferOddly(Bits(sent), Bits(x.payload))
    requires Carries(events, Frames(x.id, x.tid, x.crc, x.payload)) && AllInTime(events, events[0].now)
    requires Wanted(x, nodeId, accept) && Receptive(view, x.tid, events[0].now)
    requires pool.usage + Opening(view) <= pool.capacity
    ensures Silent(Feed(view, pool, nodeId, events, accept).log)
  {
    if SameOutside(sent, x.payload, i) {
      BurstDetected(x.signature, sent, x.payload, i);
    } else {
      OddErrorsDetected(x.signature, sent, x.payload);
    }
    TransferDelivered(view, pool, nodeId, events, accept, x);
    NotGoodIsSilent(Feed(view, pool, nodeId, events, accept).log, x, EndTime(events));
  }

  lemma {:induction false} NotGoodIsSilent(log: seq<Option<Transfer>>, x: Sending, time: Timestamp)
    requires DeliversLast(log, x, time, false)
    ensures Silent(log)
  {
  }

  // ---------------------------------------------------------------- single-frame transfers

  /** A wanted single-frame transfer is delivered by its one frame, whatever the state of its descriptor; only a new
      state needs memory. */
  lemma {:induction false} SingleDelivered(view: Option<RxState>, pool: Pool, nodeId: byte, e: Event,
                                           accept: Acceptance, x: Sending)
    requires |x.payload| < 8 && e.frame == SingleFrame(x.id, x.tid, x.payload)
    requires Wanted(x, nodeId, accept)
    ensures var r := OnFrame(view, pool, nodeId, e, accept);
      r.delivered.Some? == (view.Some? || !pool.Full())
          && (r.delivered.Some? ==> Announces(r.delivered.value, x, e.now))
  {
    TailByteFields(true, true, false, x.tid);
    if view.Some? || !pool.Full() {
      WantedStart(view, pool, nodeId, e, accept, x);
      SingleAnnounces(Opened(view, x.id, x.signature, e.junk), if view.None? then pool.Take() else pool, e.frame, e.now,
                      e.junk, x);
    }
  }

  lemma {:induction false} SingleAnnounces(s: RxState, pool: Pool, f: Frame, now: Timestamp, junk: Junk, x: Sending)
    requires |x.payload| < 8 && f == SingleFrame(x.id, x.tid, x.payload)
    ensures var o := Receive(s, pool, f, now, junk); o.delivered.Some? && Announces(o.delivered.value, x, now)
  {
    TailByteFields(true, true, false, x.tid);
    var t := MakeTransfer(f, now, f.data, [], [], |f.data| - 1);
    assert Stored(t) == f.data;
    assert Payload(t) == x.payload;
  }
}
