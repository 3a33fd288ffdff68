/** A single-frame transfer that arrives in the middle of a longer one leaves the blocks of the longer one behind. */
module Leftovers {
  import opened Types
  import opened CanId
  import opened Crc
  import opened Fragment
  import opened RxBuffer
  import opened Receiver
  import opened Reassembly
  import opened RoundTrip
  import opened LongTransfers
  import opened Streams
  import opened Deliveries

  // ---------------------------------------------------------------- how blocks are left behind

  predicate IsSingle(f: Frame)
    requires f.data != []
  {
    IsStart(TailOf(f)) && IsEnd(TailOf(f))
  }

  /** When the source prepares for the next transfer after a single frame, it asserts that no block is held. That holds
      exactly if no block was held before, or the restart rule has just released them. */
  lemma {:induction false} SingleLeavesBlocks(s: RxState, pool: Pool, f: Frame, now: Timestamp, junk: Junk)
    requires f.data != [] && IsSingle(f)
    ensures var o := Receive(s, pool, f, now, junk);
      && o.delivered.Some? && (o.state.blocks == [] <==> s.blocks == [] || NeedsRestart(s, TailOf(f), now))
      && (!NeedsRestart(s, TailOf(f), now) ==>
            o.state == RxState(o.state.core, s.blocks) && Between(o.state, NextTid(s.core.transferId), now))
  {
  }

  /** A state that waits for transfer `tid`, reached at `now`. */
  predicate Between(s: RxState, tid: byte, now: Timestamp) {
    s.core.payloadLen == 0 && !s.core.nextToggle && s.core.transferId == tid && s.core.timestamp == now
  }

  /** A state between transfers that still holds blocks, the first of them beginning with `c`, and expects transfer
      `tid`. */
  predicate Littered(s: RxState, tid: byte, now: Timestamp, c: byte) {
    && Stale(s, c) && s.core.payloadLen == 0 && !s.core.nextToggle && s.core.transferId == tid & 0x1F
    && s.core.timestamp != 0 && !TimedOut(s, now)
  }

  predicate Stale(s: RxState, c: byte) {
    s.blocks != [] && s.blocks[0][0] == c
  }

  // ---------------------------------------------------------------- what they do to the next transfer

  /** Between a start frame of five bytes and the final frame, the write position never meets the start of a block. */
  lemma {:induction false} NeverAtStart(len: nat)
    requires len % 7 == 5
    ensures IndexAtLastBlock(len) != 0 && (len >= HEAD_SIZE ==> len > HEAD_SIZE)
  {
  }

  lemma {:induction false} WriteKeepsFirst(blocks: seq<Block>, at: nat, data: seq<byte>, pool: Pool, junk: Block)
    requires blocks != [] && at < BLOCK_SIZE && (at > 0 || |blocks| > 1)
    ensures var w := WriteBlocks(blocks, at, data, pool, junk).blocks; w != [] && w[0][0] == blocks[0][0]
    decreases |data|
  {
    var n := Room(BLOCK_SIZE, at, |data|);
    var filled := blocks[|blocks| - 1 := Overlay(blocks[|blocks| - 1], at, data)];
    assert filled[0][0] == blocks[0][0];
    if n < |data| && !pool.Full() {
      WriteKeepsFirst(filled + [junk], 0, data[n..], pool.Take(), junk);
    }
  }

  lemma {:induction false} PushKeepsFirst(s: RxState, data: seq<byte>, pool: Pool, junk: Block, c: byte)
    requires Stale(s, c) && s.core.payloadLen % 7 == 5
    ensures Stale(PushBytes(s, data, pool, junk).state, c)
  {
    NeverAtStart(s.core.payloadLen);
    if !FitsHead(s, |data|) {
      WriteKeepsFirst(s.blocks, StartIndex(s), BeyondHead(s, data), pool, junk);
    }
  }

  lemma {:induction false} StoreKeepsFirst(s: RxState, pool: Pool, chunk: seq<byte>, crc: bv16, junk: Junk, c: byte)
    requires Stale(s, c) && s.core.payloadLen % 7 == 5
    ensures var o := Store(s, pool, chunk, crc, junk); o.code == OK ==> Stale(o.state, c)
  {
    PushKeepsFirst(s, chunk, pool, junk.block, c);
    hide PushBytes;
    hide CrcAdd;
  }

  /** A delivery whose seventh byte is `c`. */
  predicate Tainted(d: Option<Transfer>, c: byte) {
    d.Some? ==> |Stored(d.value)| > 6 && Stored(d.value)[6] == c
  }

  ghost predicate AllTainted(log: seq<Option<Transfer>>, c: byte) {
    forall i | 0 <= i < |log| :: Tainted(log[i], c)
  }

  /** Below the block, or with a later block as the last one, the first byte is out of reach. */
  lemma {:induction false} SpliceKeepsFirst(s: RxState, chunk: seq<byte>, c: byte)
    requires Stale(s, c) && s.core.payloadLen % 7 == 5
    ensures var sp := Splice(s, chunk); sp.blocks != [] && sp.blocks[0][0] == c
  {
    NeverAtStart(s.core.payloadLen);
    if s.core.payloadLen >= HEAD_SIZE {
      NotFirst(s);
    }
  }

  lemma {:induction false} NotFirst(s: RxState)
    requires s.blocks != [] && s.core.payloadLen > HEAD_SIZE
    ensures |s.blocks| > 1 || SpliceIndex(s) > 0
  {
  }

  lemma {:induction false} SeventhStored(t: Transfer)
    requires |t.head| == HEAD_SIZE && t.middle != []
    ensures |Stored(t)| > 6 && Stored(t)[6] == t.middle[0][0]
  {
  }

  lemma {:induction false} LastTainted(s: RxState, pool: Pool, f: Frame, now: Timestamp, c: byte)
    requires f.data != [] && Stale(s, c) && s.core.payloadLen % 7 == 5
    ensures Tainted(ReceiveLast(s, pool, f, now).delivered, c)
  {
    hide Splice;
    hide CrcAdd;
    hide Stored;
    SpliceKeepsFirst(s, f.data[..|f.data| - 1], c);
    var o := ReceiveLast(s, pool, f, now);
    if o.delivered.Some? {
      SeventhStored(o.delivered.value);
    }
  }

  lemma {:induction false} TaintStep(view: Option<RxState>, pool: Pool, nodeId: byte, events: seq<Event>,
                                     accept: Acceptance, c: byte)
    requires events != []
    requires var r := OnFrame(view, pool, nodeId, events[0], accept);
      Tainted(r.delivered, c) && AllTainted(Feed(r.view, r.pool, nodeId, events[1..], accept).log, c)
    ensures AllTainted(Feed(view, pool, nodeId, events, accept).log, c)
  {
  }

  /** On the way a transfer of this library that began on leftover blocks; the length has not wrapped yet. */
  ghost predicate ComingStale(s: RxState, nodeId: byte, events: seq<Event>, accept: Acceptance, x: Sending, at: nat,
                              toggle: bool, start: Timestamp, c: byte) {
    && at < |x.payload| <= LONGEST && at % 7 == 5
    && Coming(s, nodeId, events, accept, x, at, Lengths(at, |x.payload|), toggle, start) && Stale(s, c)
  }

  lemma {:induction false} LengthIs(s: RxState, nodeId: byte, events: seq<Event>, accept: Acceptance, x: Sending,
                                    at: nat, toggle: bool, start: Timestamp, c: byte)
    requires ComingStale(s, nodeId, events, accept, x, at, toggle, start, c)
    ensures s.core.payloadLen == at
  {
  }

  lemma {:induction false} LengthsOnward(at: nat, n: nat)
    requires at < n
    ensures var lens := Lengths(at, n); lens != [] && lens[0] == Min(7, n - at) && lens[1..] == Lengths(at + lens[0], n)
    ensures |Lengths(at, n)| == 1 <==> n <= at + 7
  {
  }

  lemma {:induction false} NothingTainted(view: Option<RxState>, pool: Pool, nodeId: byte, accept: Acceptance, c: byte)
    ensures AllTainted(Feed(view, pool, nodeId, [], accept).log, c)
  {
  }

  /** The final frame of a transfer that began on leftover blocks. */
  lemma {:induction false} EndTainted(s: RxState, pool: Pool, nodeId: byte, events: seq<Event>, accept: Acceptance,
                                      x: Sending, at: nat, toggle: bool, start: Timestamp, c: byte)
    requires ComingStale(s, nodeId, events, accept, x, at, toggle, start, c) && |x.payload| <= at + 7
    ensures AllTainted(Feed(Some(s), pool, nodeId, events, accept).log, c)
  {
    var lens := Lengths(at, |x.payload|);
    LengthIs(s, nodeId, events, accept, x, at, toggle, start, c);
    LengthsOnward(at, |x.payload|);
    FrameIs(s, pool, nodeId, events, accept, x, at, lens, toggle, start);
    assert lens[1..] == [] && events[1..] == [];
    hide ReceiveLast;
    hide OnFrame;
    hide Coming;
    hide Pieces;
    hide Piece;
    LastTainted(s, pool, events[0].frame, events[0].now, c);
    var o := ReceiveLast(s, pool, events[0].frame, events[0].now);
    NothingTainted(Some(o.state), o.pool, nodeId, accept, c);
    hide Feed;
    hide AllTainted;
    TaintStep(Some(s), pool, nodeId, events, accept, c);
  }

  /** After a frame with outcome `o`, the rest of the events bring the rest of the transfer. */
  ghost predicate Follows(events: seq<Event>, o: Outcome, nodeId: byte, accept: Acceptance, x: Sending, at: nat,
                          toggle: bool, start: Timestamp, c: byte)
    requires events != []
  {
    if o.code == OK then ComingStale(o.state, nodeId, events[1..], accept, x, at, toggle, start, c)
    else start != 0 && Done(o.state, x.tid, start) && forall e | e in events[1..] :: Later(e, x, start)
  }

  /** A middle frame is stored, and the first leftover byte stays where it is; or it drops the transfer. */
  lemma {:induction false} MiddleStored(s: RxState, pool: Pool, nodeId: byte, events: seq<Event>, accept: Acceptance,
                                        x: Sending, at: nat, toggle: bool, start: Timestamp, c: byte)
    returns (o: Outcome)
    requires ComingStale(s, nodeId, events, accept, x, at, toggle, start, c) && at + 7 < |x.payload|
    requires pool.usage <= pool.capacity
    ensures events != [] && Follows(events, o, nodeId, accept, x, at + 7, !toggle, start, c)
    ensures OnFrame(Some(s), pool, nodeId, events[0], accept) == FromOutcome(o) && o.delivered == None
    ensures o.code == OK ==> o.pool.usage <= o.pool.capacity
  {
    hide OnFrame;
    hide Store;
    hide Grown;
    hide Counting;
    hide Done;
    hide Carries;
    hide Pieces;
    hide Piece;
    hide Cuts;
    hide Later;
    hide Wanted;
    hide AllInTime;
    hide Lengths;
    LengthIs(s, nodeId, events, accept, x, at, toggle, start, c);
    LengthsOnward(at, |x.payload|);
    var lens := Lengths(at, |x.payload|);
    FrameIs(s, pool, nodeId, events, accept, x, at, lens, toggle, start);
    SameButPayloadCrc(s, x, at, toggle, start);
    LengthsOnward(at + 7, |x.payload|);
    o := Store(s, pool, x.payload[at..at + 7], x.crc, events[0].junk);
    StoreCounts(s, pool, x, at, 7, toggle, start, events[0].junk);
    StoreKeepsFirst(s, pool, x.payload[at..at + 7], x.crc, events[0].junk, c);
    PiecesAreLater(events[1..], x, at + 7, lens[1..], !toggle, start);
    hide Stale;
  }

  /** The rest of a transfer that began on leftover blocks. */
  lemma {:induction false} RestTainted(s: RxState, pool: Pool, nodeId: byte, events: seq<Event>, accept: Acceptance,
                                       x: Sending, at: nat, toggle: bool, start: Timestamp, c: byte)
    requires ComingStale(s, nodeId, events, accept, x, at, toggle, start, c) && pool.usage <= pool.capacity
    ensures AllTainted(Feed(Some(s), pool, nodeId, events, accept).log, c)
    decreases |x.payload| - at
  {
    hide Feed;
    hide OnFrame;
    hide AllTainted;
    hide Coming;
    hide Done;
    hide Stale;
    if |x.payload| <= at + 7 {
      EndTainted(s, pool, nodeId, events, accept, x, at, toggle, start, c);
    } else {
      var o := MiddleStored(s, pool, nodeId, events, accept, x, at, toggle, start, c);
      if o.code == OK {
        RestTainted(o.state, o.pool, nodeId, events[1..], accept, x, at + 7, !toggle, start, c);
      } else {
        DropTainted(o.state, o.pool, nodeId, events[1..], accept, x, start, c);
      }
      TaintStep(Some(s), pool, nodeId, events, accept, c);
    }
  }

  lemma {:induction false} DropTainted(s: RxState, pool: Pool, nodeId: byte, rest: seq<Event>, accept: Acceptance,
                                       x: Sending, start: Timestamp, c: byte)
    requires Done(s, x.tid, start) && start != 0 && forall e | e in rest :: Later(e, x, start)
    ensures AllTainted(Feed(Some(s), pool, nodeId, rest, accept).log, c)
  {
    TidIsTid(x.tid);
    DroppedStaysSilent(s, pool, nodeId, rest, accept, x, start);
    hide Feed;
  }

  /** The start frame does not release the leftovers: the state expects its transfer ID, so nothing is restarted. */
  lemma {:induction false} StartProceeds(s: RxState, pool: Pool, x: Sending, now: Timestamp, junk: Junk, c: byte)
    requires |x.payload| >= 8 && Littered(s, x.tid, now, c)
    ensures var f := StartPiece(x, 5); Receive(s, pool, f, now, junk) == ReceiveFirst(s, pool, f, now, junk)
  {
  }

  /** Five bytes into the head of a littered state. */
  lemma {:induction false} StartOnLeftovers(s: RxState, pool: Pool, x: Sending, now: Timestamp, junk: Junk, c: byte)
    requires |x.payload| >= 8 && now != 0 && Littered(s, x.tid, now, c)
    requires s.core.calculatedCrc == SignatureCrc(x.signature)
    ensures var o := ReceiveFirst(s, pool, StartPiece(x, 5), now, junk);
      o.delivered == None && o.pool == pool && Counting(o.state, x, 5, true, now) && Stale(o.state, c)
      && |o.state.blocks| == |s.blocks|
  {
    var f, s1 := StartPiece(x, 5), s.(core := s.core.(timestamp := now));
    CrcBytesJoin(x.crc);
    assert f.data[2..|f.data| - 1] == x.payload[..5];
    assert FitsHead(s1, 5);
    hide CrcAdd;
    hide SignatureCrc;
  }

  lemma {:induction false} FirstOnLeftovers(s: RxState, pool: Pool, nodeId: byte, events: seq<Event>,
                                            accept: Acceptance, x: Sending, c: byte)
    requires 8 <= |x.payload| <= LONGEST && Wanted(x, nodeId, accept)
    requires Carries(events, Frames(x.id, x.tid, x.crc, x.payload)) && AllInTime(events, events[0].now)
    requires Littered(s, x.tid, events[0].now, c)
    ensures var r := OnFrame(Some(s), pool, nodeId, events[0], accept);
      && r.delivered == None && r.view.Some? && r.pool == pool && |r.view.value.blocks| == |s.blocks|
      && ComingStale(r.view.value, nodeId, events[1..], accept, x, 5, true, events[0].now, c)
  {
    hide *;
    OwnFirst(events, x);
    WantedStart(Some(s), pool, nodeId, events[0], accept, x);
    var s1 := Opened(Some(s), x.id, x.signature, events[0].junk);
    OpenedLittered(s, x, events[0], c);
    StartProceeds(s1, pool, x, events[0].now, events[0].junk, c);
    StartOnLeftovers(s1, pool, x, events[0].now, events[0].junk, c);
    var o := ReceiveFirst(s1, pool, events[0].frame, events[0].now, events[0].junk);
    NowComing(o.state, nodeId, events[1..], accept, x, events[0].now, c);
    AsReply(o);
  }

  lemma {:induction false} AsReply(o: Outcome)
    ensures FromOutcome(o) == Reply(o.code, Some(o.state), o.pool, o.delivered)
  {
  }

  lemma {:induction false} OpenedLittered(s: RxState, x: Sending, e: Event, c: byte)
    requires Littered(s, x.tid, e.now, c)
    ensures var s1 := Opened(Some(s), x.id, x.signature, e.junk);
      Littered(s1, x.tid, e.now, c) && s1.core.calculatedCrc == SignatureCrc(x.signature) && s1.blocks == s.blocks
  {
    hide SignatureCrc;
  }

  lemma {:induction false} OwnFirst(events: seq<Event>, x: Sending)
    requires 8 <= |x.payload| && Carries(events, Frames(x.id, x.tid, x.crc, x.payload))
    requires AllInTime(events, events[0].now)
    ensures events != [] && events[0].frame == StartPiece(x, 5) && events[0].frame.id == x.id
    ensures events[0].frame.data != [] && IsStart(TailOf(events[0].frame)) && events[0].now != 0
    ensures var lens := Lengths(5, |x.payload|);
      && lens != [] && Cuts(lens, |x.payload| - 5) && Carries(events[1..], Pieces(x, 5, lens, true))
      && AllInTime(events[1..], events[0].now)
  {
    hide Frames;
    hide Pieces;
    hide Lengths;
    hide Cuts;
    OwnFramesCut(x);
    FirstPiece(events, x, OwnLengths(|x.payload|));
    assert OwnLengths(|x.payload|)[1..] == Lengths(5, |x.payload|);
    LengthsOnward(5, |x.payload|);
    StartTail(x.tid);
    assert events[0] in events;
  }

  lemma {:induction false} NowComing(s: RxState, nodeId: byte, events: seq<Event>, accept: Acceptance, x: Sending,
                                     start: Timestamp, c: byte)
    requires 8 <= |x.payload| <= LONGEST && Wanted(x, nodeId, accept) && Counting(s, x, 5, true, start) && Stale(s, c)
    requires var lens := Lengths(5, |x.payload|);
      && lens != [] && Cuts(lens, |x.payload| - 5) && Carries(events, Pieces(x, 5, lens, true))
      && AllInTime(events, start)
    ensures ComingStale(s, nodeId, events, accept, x, 5, true, start, c)
  {
    hide Wanted;
    hide Counting;
    hide Stale;
    hide Pieces;
    hide Cuts;
    hide Lengths;
  }

  /** What follows on leftover blocks: exactly if `delivered` one delivery, by the last frame, of the number of bytes
      sent, the seventh of them `c`. */
  ghost predicate Misread(log: seq<Option<Transfer>>, n: nat, c: byte, delivered: bool) {
    && Announcing(log, n, delivered)
    && (delivered ==>
          var t := log[|log| - 1].value; t.payloadLen == n > 6 && Stocked(t) && Payload(t)[6] == c)
  }

  lemma {:induction false} TaintedIsMisread(log: seq<Option<Transfer>>, n: nat, c: byte, delivered: bool)
    requires n > 6 && Announcing(log, n, delivered) && AllTainted(log, c) && AllStocked(log)
    ensures Misread(log, n, c, delivered)
  {
    assert Tainted(log[|log| - 1], c) && StockedIf(log[|log| - 1]);
  }

  /** Two frames add nothing to the leftovers. */
  lemma {:induction false} ShortNeedsNothing(pool: Pool, k: nat, n: nat)
    requires 8 <= n <= 12 && pool.usage <= pool.capacity
    ensures Fits(pool, k, 5, Lengths(5, n))
  {
    OneLength(5, n);
  }

  /** Whatever multi-frame transfer this library sends next under the expected transfer ID, it is delivered exactly if
      its CRC is right and the blocks it adds to the leftovers can be had, with the right length; but its seventh byte
      is not its own: it is the first byte of the leftover blocks. */
  lemma {:induction false} LeftoversMisread(s: RxState, pool: Pool, nodeId: byte, events: seq<Event>,
                                            accept: Acceptance, x: Sending, c: byte)
    requires 8 <= |x.payload| <= LONGEST && Wanted(x, nodeId, accept) && pool.usage <= pool.capacity
    requires Carries(events, Frames(x.id, x.tid, x.crc, x.payload)) && AllInTime(events, events[0].now)
    requires Littered(s, x.tid, events[0].now, c)
    ensures Misread(Feed(Some(s), pool, nodeId, events, accept).log, |x.payload|, c,
                    Good(x) && Fits(pool, |s.blocks|, 5, Lengths(5, |x.payload|)))
    ensures |x.payload| <= 12 ==> Fits(pool, |s.blocks|, 5, Lengths(5, |x.payload|))
  {
    if |x.payload| <= 12 {
      ShortNeedsNothing(pool, |s.blocks|, |x.payload|);
    }
    hide OnFrame;
    hide Feed;
    hide Littered;
    hide Counting;
    hide Pieces;
    hide Stale;
    hide Tainted;
    hide AllTainted;
    hide Announcing;
    hide Good;
    hide Fits;
    FirstOnLeftovers(s, pool, nodeId, events, accept, x, c);
    var r := OnFrame(Some(s), pool, nodeId, events[0], accept);
    var lens := Lengths(5, |x.payload|);
    RestTainted(r.view.value, r.pool, nodeId, events[1..], accept, x, 5, true, events[0].now, c);
    NoTaint(r.delivered, c);
    TaintStep(Some(s), pool, nodeId, events, accept, c);
    RestAnnounces(r.view.value, r.pool, nodeId, events[1..], accept, x, 5, lens, true, events[0].now);
    AnnouncesAll(x);
    var delivered := Good(x) && Fits(pool, |s.blocks|, 5, lens);
    LogStep(Some(s), pool, nodeId, events, accept, |x.payload|, delivered);
    LitteredIsBacked(s, x.tid, events[0].now, c);
    FeedStocked(Some(s), pool, nodeId, events, accept);
    hide AllStocked;
    hide Misread;
    TaintedIsMisread(Feed(Some(s), pool, nodeId, events, accept).log, |x.payload|, c, delivered);
  }

  lemma {:induction false} LitteredIsBacked(s: RxState, tid: byte, now: Timestamp, c: byte)
    requires Littered(s, tid, now, c)
    ensures BackedView(Some(s))
  {
  }

  lemma {:induction false} NoTaint(d: Option<Transfer>, c: byte)
    requires d == None
    ensures Tainted(d, c)
  {
  }

  lemma {:induction false} AnnouncesAll(x: Sending)
    requires 8 <= |x.payload| <= LONGEST
    ensures Lengths(5, |x.payload|) != [] && Announced(x, Lengths(5, |x.payload|)) == |x.payload|
  {
    hide Lengths;
    hide ChainAt;
    hide BlocksFor;
    hide BufferedFrom;
    LengthsEnd(5, |x.payload|);
    BelowWrap(|x.payload|);
  }

  lemma {:induction false} BelowWrap(n: nat)
    requires 8 <= n <= LONGEST
    ensures 0 <= BufferedFrom(5, n) <= MAX_PAYLOAD
  {
  }

  // ---------------------------------------------------------------- from a fresh receiver

  /** Two frames of a transfer, a single-frame transfer under the same transfer ID, and then another transfer. */
  ghost predicate Crossed(events: seq<Event>, x: Sending, y: Sending, z: Sending) {
    && |events| > 3 && |x.payload| > 12 && |y.payload| < 8
    && y.id == x.id && z.id == x.id && y.tid & 0x1F == x.tid & 0x1F && z.tid & 0x1F == NextTid(x.tid & 0x1F)
    && events[0].frame == StartPiece(x, 5) && events[1].frame == Piece(x, 5, 7, false, true)
    && events[2].frame == SingleFrame(y.id, y.tid, y.payload)
    && Carries(events[3..], Frames(z.id, z.tid, z.crc, z.payload))
    && InTime(events[1].now, events[0].now) && InTime(events[2].now, events[0].now)
    && events[2].now != 0 && InTime(events[3].now, events[2].now) && AllInTime(events[3..], events[3].now)
  }

  /** After two frames of a transfer one block is held, and it begins with the seventh byte. */
  lemma {:induction false} SeventhByte(s: RxState, x: Sending, toggle: bool, start: Timestamp)
    requires |x.payload| > 12 && Mid(s, x, 0, 12, toggle, start)
    ensures Stale(s, x.payload[6])
  {
    assert |s.blocks| == 1;
    assert Contents(s)[6] == Flat(s.blocks)[0] == s.blocks[0][0];
    assert Contents(s)[6] == x.payload[..12][6];
  }

  lemma {:induction false} SingleLitters(s: RxState, pool: Pool, nodeId: byte, e: Event, accept: Acceptance, x: Sending,
                                         y: Sending, start: Timestamp)
    requires |x.payload| > 12 && Mid(s, x, 0, 12, false, start) && Wanted(y, nodeId, accept)
    requires |y.payload| < 8 && e.frame == SingleFrame(y.id, y.tid, y.payload) && y.tid & 0x1F == x.tid & 0x1F
    requires InTime(e.now, start)
    ensures var r := OnFrame(Some(s), pool, nodeId, e, accept);
      && r.delivered.Some? && Announces(r.delivered.value, y, e.now) && r.pool == pool
      && r.view.Some? && Stale(r.view.value, x.payload[6]) && |r.view.value.blocks| == 1
      && Between(r.view.value, NextTid(x.tid & 0x1F), e.now)
  {
    SeventhByte(s, x, false, start);
    SingleDelivered(Some(s), pool, nodeId, e, accept, y);
    hide Announces;
    SingleTail(y.tid);
    WantedStart(Some(s), pool, nodeId, e, accept, y);
    hide OnFrame;
    var s1 := Opened(Some(s), y.id, y.signature, e.junk);
    NotRestarted(s1, e.frame, e.now);
    SingleLeavesBlocks(s1, pool, e.frame, e.now, e.junk);
    assert Receive(s1, pool, e.frame, e.now, e.junk).pool == pool;
  }

  lemma {:induction false} NotRestarted(s: RxState, f: Frame, now: Timestamp)
    requires f.data != [] && TransferIdOf(TailOf(f)) == s.core.transferId && InTime(now, s.core.timestamp)
    ensures !NeedsRestart(s, TailOf(f), now)
  {
  }

  lemma {:induction false} BecomesLittered(s: RxState, tid: byte, since: Timestamp, now: Timestamp, c: byte)
    requires Stale(s, c) && Between(s, tid & 0x1F, since) && InTime(now, since)
    ensures Littered(s, tid, now, c)
  {
  }

  /** From a receiver that knows nothing of the sender, with two free blocks. */
  lemma {:induction false} TwoFramesHeld(pool: Pool, nodeId: byte, events: seq<Event>, accept: Acceptance, x: Sending)
    requires |events| > 1 && |x.payload| > 12 && Wanted(x, nodeId, accept) && pool.usage + 2 <= pool.capacity
    requires events[0].frame == StartPiece(x, 5) && events[1].frame == Piece(x, 5, 7, false, true)
    requires InTime(events[1].now, events[0].now)
    ensures var r := OnFrame(None, pool, nodeId, events[0], accept);
      var q := OnFrame(r.view, r.pool, nodeId, events[1], accept);
      && r.delivered == None && q.delivered == None && q.view.Some? && Mid(q.view.value, x, 0, 12, false, events[0].now)
      && q.pool.capacity == pool.capacity && q.pool.usage == pool.usage + 2
  {
    hide OnFrame;
    hide Wanted;
    hide Receive;
    StartTaken(None, pool, nodeId, events[0], accept, x, 5);
    var r := OnFrame(None, pool, nodeId, events[0], accept);
    hide Mid;
    PieceTail(x, 5, 7, false, true);
    WantedContinuation(r.view.value, r.pool, nodeId, events[1], accept, x);
    MiddleTaken(r.view.value, r.pool, events[1], x, 0, 5, 7, true, events[0].now);
  }

  lemma {:induction false} ThreeSteps(view: Option<RxState>, pool: Pool, nodeId: byte, events: seq<Event>,
                                      accept: Acceptance)
    requires |events| > 3
    ensures var a := OnFrame(view, pool, nodeId, events[0], accept);
      var b := OnFrame(a.view, a.pool, nodeId, events[1], accept);
      var c := OnFrame(b.view, b.pool, nodeId, events[2], accept);
      Feed(view, pool, nodeId, events, accept).log
      == [a.delivered, b.delivered, c.delivered] + Feed(c.view, c.pool, nodeId, events[3..], accept).log
  {
    hide OnFrame;
    hide Feed;
    FeedStep(view, pool, nodeId, events, accept);
    var a := OnFrame(view, pool, nodeId, events[0], accept);
    FeedStep(a.view, a.pool, nodeId, events[1..], accept);
    var b := OnFrame(a.view, a.pool, nodeId, events[1], accept);
    FeedStep(b.view, b.pool, nodeId, events[1..][1..], accept);
    assert events[1..][1..][0] == events[2] && events[1..][1..][1..] == events[3..];
  }

  /** The whole story from a receiver that knows nothing of the sender and has two free blocks: two frames of a
      transfer, a single-frame transfer with the same transfer ID, which is delivered, and the next transfer, which is
      delivered with the seventh byte of the one that was never finished. */
  lemma {:induction false} LeftoversReached(pool: Pool, nodeId: byte, events: seq<Event>, accept: Acceptance,
                                            x: Sending, y: Sending, z: Sending)
    requires Crossed(events, x, y, z) && pool.usage + 2 <= pool.capacity
    requires Wanted(x, nodeId, accept) && Wanted(y, nodeId, accept) && Wanted(z, nodeId, accept)
    requires 8 <= |z.payload| <= LONGEST
    ensures var log := Feed(None, pool, nodeId, events, accept).log;
      && |log| == |events| && log[0] == None && log[1] == None
      && log[2].Some? && Announces(log[2].value, y, events[2].now)
      && Misread(log[3..], |z.payload|, x.payload[6],
                 Good(z) && HeldAt(1, 5, Lengths(5, |z.payload|)) + 1 <= pool.capacity - pool.usage)
  {
    hide OnFrame;
    hide Feed;
    hide Wanted;
    hide Mid;
    hide Announces;
    hide Misread;
    hide Stale;
    hide Between;
    TwoFramesHeld(pool, nodeId, events, accept, x);
    var a := OnFrame(None, pool, nodeId, events[0], accept);
    var b := OnFrame(a.view, a.pool, nodeId, events[1], accept);
    SingleLitters(b.view.value, b.pool, nodeId, events[2], accept, x, y, events[0].now);
    var c := OnFrame(b.view, b.pool, nodeId, events[2], accept);
    BecomesLittered(c.view.value, z.tid, events[2].now, events[3].now, x.payload[6]);
    LeftoversMisread(c.view.value, c.pool, nodeId, events[3..], accept, z, x.payload[6]);
    ThreeSteps(None, pool, nodeId, events, accept);
  }

  // ---------------------------------------------------------------- where the bytes go

  /** The place in the last block for a payload shorter than the head: the subtraction of the source wraps. */
  lemma {:induction false} WrappedPlace(len: nat)
    requires len < 6
    ensures IndexAtLastBlock(len) == (len + 26) % 28
  {
  }

  /** Of the second frame of a transfer begun on leftover blocks, the first byte goes to the end of the head; the others
      go to place 3 of the last leftover block and on, whatever its contents, and nothing else changes. */
  lemma {:induction false} SecondFrameLands(s: RxState, data: seq<byte>, pool: Pool, junk: Block)
    requires s.blocks != [] && s.core.payloadLen == 5 && 2 <= |data| <= 7
    ensures var r := PushBytes(s, data, pool, junk); var last := |s.blocks| - 1;
      && r.ok && r.pool == pool && |r.state.blocks| == |s.blocks| && r.state.blocks[..last] == s.blocks[..last]
      && r.state.core == s.core.(head := s.core.head[5 := data[0]], payloadLen := 5 + |data|)
      && forall i | 0 <= i < 28 ::
           r.state.blocks[last][i] == if 3 <= i < 2 + |data| then data[i - 2] else s.blocks[last][i]
  {
    WrappedPlace(5);
    hide IndexAtLastBlock;
    assert Overlay(s.core.head, 5, data) == s.core.head[5 := data[0]];
  }
}
