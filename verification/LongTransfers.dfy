/** What the ten-bit payload length makes of transfers with more than 1023 bytes before their final frame. */
module LongTransfers {
  import opened Types
  import opened Crc
  import opened Fragment
  import opened RxBuffer
  import opened Receiver
  import opened Reassembly
  import opened RoundTrip

  const WRAP_LENGTH := MAX_PAYLOAD + 1

  /** The length is counted modulo 1024, the CRC is that of the bytes sent; nothing is said about the storage. */
  predicate Counting(s: RxState, x: Sending, at: nat, toggle: bool, start: Timestamp)
    requires at <= |x.payload|
  {
    && s.core.payloadLen == at % WRAP_LENGTH && s.core.nextToggle == toggle
    && s.core.transferId == x.tid & 0x1F && s.core.timestamp == start
    && s.core.calculatedCrc == TransferCrc(x.signature, x.payload[..at]) && s.core.payloadCrc == x.crc
  }

  /** The length announced for a transfer cut like this. */
  function Announced(x: Sending, lens: seq<nat>): int
    requires lens != []
  {
    BeforeEnd(x, lens) % WRAP_LENGTH + lens[|lens| - 1]
  }

  /** Exactly if `delivered` there is one delivery, by the last frame, and it announces `n` bytes; otherwise there is
      none. */
  ghost predicate Announcing(log: seq<Option<Transfer>>, n: int, delivered: bool) {
    && log != [] && Silent(log[..|log| - 1])
    && log[|log| - 1].Some? == delivered && (delivered ==> log[|log| - 1].value.payloadLen == n)
  }

  // ---------------------------------------------------------------- what a push does to the two counters

  /** A push advances the ten-bit length, modulo its width. */
  lemma {:induction false} PushCounts(s: RxState, data: seq<byte>, pool: Pool, junk: Block)
    ensures var r := PushBytes(s, data, pool, junk);
      r.ok ==> r.state.core.payloadLen == (s.core.payloadLen + |data|) % WRAP_LENGTH
  {
  }

  /** The blocks held after a push of `n` bytes, when `k` are held and the length field reads `len`. */
  function Grown(k: nat, len: nat, n: nat): nat {
    if len != HEAD_SIZE && Room(HEAD_SIZE, len, n) >= n then k
    else
      var grows := k == 0 || ((len + n - HEAD_SIZE) / BLOCK_SIZE + 1 > k && IndexAtLastBlock(len) == 0);
      var held := if grows then k + 1 else k;
      var start := if k == 0 then 0 else IndexAtLastBlock(len);
      Max(held, BlocksToHold(BLOCK_SIZE * (held - 1) + start + n - Room(HEAD_SIZE, len, n)))
  }

  predicate CanGrow(pool: Pool, k: nat, k': nat) {
    k' - k <= pool.capacity - pool.usage
  }

  /** From any state: a push succeeds exactly when the blocks it adds can be had. */
  lemma {:induction false} PushGrows(s: RxState, data: seq<byte>, pool: Pool, junk: Block)
    requires pool.usage <= pool.capacity
    ensures var r := PushBytes(s, data, pool, junk); var k' := Grown(|s.blocks|, s.core.payloadLen, |data|);
      (r.ok <==> CanGrow(pool, |s.blocks|, k')) && (r.ok ==> |r.state.blocks| == k')
  {
    if !FitsHead(s, |data|) {
      if !Grows(s, |data|) {
        WriteBlocksCounts(s.blocks, StartIndex(s), BeyondHead(s, data), pool, junk);
      } else if !pool.Full() {
        WriteBlocksCounts(s.blocks + [junk], StartIndex(s), BeyondHead(s, data), pool.Take(), junk);
      }
    }
  }

  /** Seven bytes never take more than one block. */
  lemma {:induction false} GrowsByOne(k: nat, len: nat, n: nat)
    requires n <= 7
    ensures k <= Grown(k, len, n) <= k + 1
  {
  }

  /** The blocks held when the final frame comes. */
  function HeldAt(k: nat, at: nat, lens: seq<nat>): nat
    decreases |lens|
  {
    if |lens| <= 1 then k else HeldAt(Grown(k, at % WRAP_LENGTH, lens[0]), at + lens[0], lens[1..])
  }

  /** A block for every frame is always enough. */
  lemma {:induction false} HeldAtMost(k: nat, at: nat, lens: seq<nat>)
    requires forall j | 0 <= j < |lens| :: lens[j] <= 7
    ensures k <= HeldAt(k, at, lens) <= k + |lens|
    decreases |lens|
  {
    if |lens| > 1 {
      GrowsByOne(k, at % WRAP_LENGTH, lens[0]);
      HeldAtMost(Grown(k, at % WRAP_LENGTH, lens[0]), at + lens[0], lens[1..]);
      hide Grown;
    }
  }

  lemma {:induction false} LengthOnward(at: nat, n: nat)
    ensures (at % WRAP_LENGTH + n) % WRAP_LENGTH == (at + n) % WRAP_LENGTH
  {
  }

  /** Storing a chunk, whatever the state of the storage. */
  lemma {:induction false} StoreCounts(s: RxState, pool: Pool, x: Sending, at: nat, n: nat, toggle: bool,
                                       start: Timestamp, junk: Junk)
    requires at + n <= |x.payload| && Counting(s.(core := s.core.(payloadCrc := x.crc)), x, at, toggle, start)
    requires pool.usage <= pool.capacity
    ensures var o := Store(s, pool, x.payload[at..at + n], x.crc, junk);
      var k' := Grown(|s.blocks|, at % WRAP_LENGTH, n);
      && o.delivered == None && (o.code == OK <==> CanGrow(pool, |s.blocks|, k'))
      && (o.code == OK ==>
            && Counting(o.state, x, at + n, !toggle, start) && |o.state.blocks| == k'
            && o.pool.capacity == pool.capacity && o.pool.usage == pool.usage + k' - |s.blocks|)
      && (o.code != OK ==> Done(o.state, x.tid, start))
  {
    hide PushBytes;
    hide CrcAdd;
    hide SignatureCrc;
    hide Grown;
    hide CanGrow;
    var chunk := x.payload[at..at + n];
    SliceGrows(x.payload, 0, at, at + n);
    CrcAddConcat(SignatureCrc(x.signature), x.payload[..at], chunk);
    LengthOnward(at, n);
    PushCounts(s, chunk, pool, junk.block);
    PushAccounts(s, chunk, pool, junk.block);
    PushGrows(s, chunk, pool, junk.block);
  }

  lemma {:induction false} LastCounts(s: RxState, pool: Pool, f: Frame, now: Timestamp, x: Sending, at: nat,
                                      toggle: bool, start: Timestamp)
    requires at <= |x.payload| <= at + 7 && Counting(s, x, at, toggle, start)
    requires f == Piece(x, at, |x.payload| - at, true, toggle)
    ensures var o := ReceiveLast(s, pool, f, now);
      && o.delivered.Some? == Good(x)
      && (Good(x) ==> o.delivered.value.payloadLen == at % WRAP_LENGTH + |x.payload| - at)
  {
    hide CrcAdd;
    hide Splice;
    var n := |x.payload| - at;
    PieceTail(x, at, n, true, toggle);
    hide Piece;
    assert at + n == |x.payload|;
    assert x.payload[..at] + x.payload[at..at + n] == x.payload;
    CrcAddConcat(SignatureCrc(x.signature), x.payload[..at], x.payload[at..at + n]);
  }

  /** The situation after `at` bytes. */
  ghost predicate Coming(s: RxState, nodeId: byte, events: seq<Event>, accept: Acceptance, x: Sending, at: nat,
                         lens: seq<nat>, toggle: bool, start: Timestamp) {
    && at <= |x.payload| && lens != [] && Cuts(lens, |x.payload| - at)
    && Counting(s, x, at, toggle, start) && Wanted(x, nodeId, accept)
    && Carries(events, Pieces(x, at, lens, toggle)) && AllInTime(events, start)
  }

  /** What the next frame is, and what comes after it. */
  lemma {:induction false} FrameIs(s: RxState, pool: Pool, nodeId: byte, events: seq<Event>, accept: Acceptance,
                                   x: Sending, at: nat, lens: seq<nat>, toggle: bool, start: Timestamp)
    requires Coming(s, nodeId, events, accept, x, at, lens, toggle, start)
    ensures lens[0] <= 7 && at + lens[0] <= |x.payload| && Cuts(lens[1..], |x.payload| - at - lens[0])
    ensures events != [] && events[0].frame == Piece(x, at, lens[0], |lens| == 1, toggle)
    ensures InTime(events[0].now, start)
    ensures OnFrame(Some(s), pool, nodeId, events[0], accept)
         == FromOutcome(if |lens| == 1 then ReceiveLast(s, pool, events[0].frame, events[0].now)
                        else Store(s, pool, x.payload[at..at + lens[0]], x.crc, events[0].junk))
    ensures Carries(events[1..], Pieces(x, at + lens[0], lens[1..], !toggle)) && AllInTime(events[1..], start)
  {
    hide Store;
    hide ReceiveLast;
    hide Pieces;
    hide Cuts;
    hide Piece;
    hide OnFrame;
    hide Receive;
    hide Wanted;
    hide CrcAdd;
    hide SignatureCrc;
    PiecesRest(events, x, at, lens, toggle, start);
    PieceTail(x, at, lens[0], |lens| == 1, toggle);
    WantedContinuation(s, pool, nodeId, events[0], accept, x);
    ContinuationProceeds(s, pool, events[0].frame, events[0].now, events[0].junk);
  }

  lemma {:induction false} LogStep(view: Option<RxState>, pool: Pool, nodeId: byte, events: seq<Event>,
                                   accept: Acceptance, n: int, sure: bool)
    requires events != []
    requires var r := OnFrame(view, pool, nodeId, events[0], accept);
      r.delivered == None && Announcing(Feed(r.view, r.pool, nodeId, events[1..], accept).log, n, sure)
    ensures Announcing(Feed(view, pool, nodeId, events, accept).log, n, sure)
  {
  }

  lemma {:induction false} LastAnnounces(s: RxState, pool: Pool, nodeId: byte, events: seq<Event>, accept: Acceptance,
                                         x: Sending, at: nat, lens: seq<nat>, toggle: bool, start: Timestamp)
    requires Coming(s, nodeId, events, accept, x, at, lens, toggle, start) && |lens| == 1
    ensures Announcing(Feed(Some(s), pool, nodeId, events, accept).log, Announced(x, lens), Good(x))
  {
    hide OnFrame;
    hide Piece;
    hide Wanted;
    FrameIs(s, pool, nodeId, events, accept, x, at, lens, toggle, start);
    assert lens[1..] == [] && Sum(lens) == lens[0];
    LastCounts(s, pool, events[0].frame, events[0].now, x, at, toggle, start);
    hide ReceiveLast;
    hide Counting;
    FeedStep(Some(s), pool, nodeId, events, accept);
  }

  lemma {:induction false} AnnouncedOnward(x: Sending, at: nat, lens: seq<nat>)
    requires at <= |x.payload| && |lens| > 1 && Cuts(lens, |x.payload| - at)
    ensures Announced(x, lens[1..]) == Announced(x, lens)
  {
  }

  /** The blocks still needed can be had. */
  predicate Fits(pool: Pool, k: nat, at: nat, lens: seq<nat>) {
    CanGrow(pool, k, HeldAt(k, at, lens))
  }

  lemma {:induction false} FitsOnward(pool: Pool, later: Pool, k: nat, at: nat, lens: seq<nat>)
    requires |lens| > 1 && later.capacity == pool.capacity
    requires later.usage == pool.usage + Grown(k, at % WRAP_LENGTH, lens[0]) - k
    ensures Fits(later, Grown(k, at % WRAP_LENGTH, lens[0]), at + lens[0], lens[1..]) == Fits(pool, k, at, lens)
  {
    hide Grown;
  }

  lemma {:induction false} FitsFirst(pool: Pool, k: nat, at: nat, lens: seq<nat>)
    requires |lens| > 1 && Fits(pool, k, at, lens) && forall j | 0 <= j < |lens| :: lens[j] <= 7
    ensures CanGrow(pool, k, Grown(k, at % WRAP_LENGTH, lens[0]))
  {
    hide Grown;
    HeldAtMost(Grown(k, at % WRAP_LENGTH, lens[0]), at + lens[0], lens[1..]);
  }

  lemma {:induction false} SameButPayloadCrc(s: RxState, x: Sending, at: nat, toggle: bool, start: Timestamp)
    requires at <= |x.payload| && Counting(s, x, at, toggle, start)
    ensures Counting(s.(core := s.core.(payloadCrc := x.crc)), x, at, toggle, start)
  {
  }

  lemma {:induction false} DropAnnounces(s: RxState, pool: Pool, nodeId: byte, events: seq<Event>, accept: Acceptance,
                                         x: Sending, at: nat, lens: seq<nat>, toggle: bool, start: Timestamp)
    requires lens != [] && at <= |x.payload| && Cuts(lens, |x.payload| - at) && Done(s, x.tid, start)
    requires Carries(events, Pieces(x, at, lens, toggle)) && AllInTime(events, start)
    ensures Announcing(Feed(Some(s), pool, nodeId, events, accept).log, Announced(x, lens), false)
  {
    hide *;
    PiecesRest(events, x, at, lens, toggle, start);
    PiecesAreLater(events, x, at, lens, toggle, start);
    DoneIsPast(s, x.tid, start, events[0].now);
    DroppedStaysSilent(s, pool, nodeId, events, accept, x, start);
    SilentAnnounces(Feed(Some(s), pool, nodeId, events, accept).log, Announced(x, lens));
  }

  lemma {:induction false} DoneIsPast(s: RxState, tid: byte, start: Timestamp, now: Timestamp)
    requires Done(s, tid, start) && InTime(now, start)
    ensures Past(s, tid & 0x1F)
  {
    TidIsTid(tid);
  }

  lemma {:induction false} SilentAnnounces(log: seq<Option<Transfer>>, n: int)
    requires log != [] && Silent(log)
    ensures Announcing(log, n, false)
  {
  }

  lemma {:induction false} ShortLengths(s: RxState, nodeId: byte, events: seq<Event>, accept: Acceptance, x: Sending,
                                        at: nat, lens: seq<nat>, toggle: bool, start: Timestamp)
    requires Coming(s, nodeId, events, accept, x, at, lens, toggle, start)
    ensures forall j | 0 <= j < |lens| :: lens[j] <= 7
    ensures at <= |x.payload| && Counting(s, x, at, toggle, start)
    ensures lens != [] && Cuts(lens, |x.payload| - at) && Wanted(x, nodeId, accept)
  {
  }

  /** A middle frame: its bytes are stored, or the transfer is dropped and the rest of its frames say nothing. */
  lemma {:induction false} Middle(s: RxState, pool: Pool, nodeId: byte, events: seq<Event>, accept: Acceptance,
                                  x: Sending, at: nat, lens: seq<nat>, toggle: bool, start: Timestamp)
    returns (o: Outcome)
    requires Coming(s, nodeId, events, accept, x, at, lens, toggle, start) && |lens| > 1 && pool.usage <= pool.capacity
    ensures events != [] && OnFrame(Some(s), pool, nodeId, events[0], accept) == FromOutcome(o) && o.delivered == None
    ensures o.code == OK <==> CanGrow(pool, |s.blocks|, Grown(|s.blocks|, at % WRAP_LENGTH, lens[0]))
    ensures o.code == OK ==>
      && Coming(o.state, nodeId, events[1..], accept, x, at + lens[0], lens[1..], !toggle, start)
      && |o.state.blocks| == Grown(|s.blocks|, at % WRAP_LENGTH, lens[0])
      && o.pool.capacity == pool.capacity && o.pool.usage == pool.usage + |o.state.blocks| - |s.blocks| <= pool.capacity
    ensures o.code != OK ==>
      Announcing(Feed(Some(o.state), o.pool, nodeId, events[1..], accept).log, Announced(x, lens), false)
  {
    hide Feed;
    hide OnFrame;
    hide Store;
    hide Piece;
    hide Pieces;
    hide Cuts;
    hide Announced;
    hide Announcing;
    hide Counting;
    hide Done;
    hide Wanted;
    hide Grown;
    hide Carries;
    hide AllInTime;
    ShortLengths(s, nodeId, events, accept, x, at, lens, toggle, start);
    FrameIs(s, pool, nodeId, events, accept, x, at, lens, toggle, start);
    SameButPayloadCrc(s, x, at, toggle, start);
    AnnouncedOnward(x, at, lens);
    o := Store(s, pool, x.payload[at..at + lens[0]], x.crc, events[0].junk);
    StoreCounts(s, pool, x, at, lens[0], toggle, start, events[0].junk);
    if o.code != OK {
      DropAnnounces(o.state, o.pool, nodeId, events[1..], accept, x, at + lens[0], lens[1..], !toggle, start);
    }
  }

  /** The rest of a transfer of any length. */
  lemma {:induction false} RestAnnounces(s: RxState, pool: Pool, nodeId: byte, events: seq<Event>, accept: Acceptance,
                                         x: Sending, at: nat, lens: seq<nat>, toggle: bool, start: Timestamp)
    requires Coming(s, nodeId, events, accept, x, at, lens, toggle, start) && pool.usage <= pool.capacity
    ensures Announcing(Feed(Some(s), pool, nodeId, events, accept).log, Announced(x, lens),
                       Good(x) && Fits(pool, |s.blocks|, at, lens))
    decreases |lens|
  {
    hide Coming;
    hide Feed;
    hide OnFrame;
    hide Announcing;
    hide Announced;
    hide Good;
    hide Grown;
    ShortLengths(s, nodeId, events, accept, x, at, lens, toggle, start);
    if |lens| == 1 {
      LastAnnounces(s, pool, nodeId, events, accept, x, at, lens, toggle, start);
    } else {
      hide Fits;
      AnnouncedOnward(x, at, lens);
      hide Cuts;
      hide Wanted;
      hide Counting;
      var o := Middle(s, pool, nodeId, events, accept, x, at, lens, toggle, start);
      if o.code == OK {
        RestAnnounces(o.state, o.pool, nodeId, events[1..], accept, x, at + lens[0], lens[1..], !toggle, start);
        FitsOnward(pool, o.pool, |s.blocks|, at, lens);
      } else if Fits(pool, |s.blocks|, at, lens) {
        FitsFirst(pool, |s.blocks|, at, lens);
      }
      LogStep(Some(s), pool, nodeId, events, accept, Announced(x, lens), Good(x) && Fits(pool, |s.blocks|, at, lens));
    }
  }

  lemma {:induction false} FirstCounts(view: Option<RxState>, pool: Pool, nodeId: byte, events: seq<Event>,
                                       accept: Acceptance, x: Sending, lens: seq<nat>)
    requires Conveys(events, x, lens) && Wanted(x, nodeId, accept) && Receptive(view, x.tid, events[0].now)
    requires pool.usage + Opening(view) <= pool.capacity
    ensures var r := OnFrame(view, pool, nodeId, events[0], accept);
      && r.delivered == None && r.view.Some? && r.view.value.blocks == []
      && Coming(r.view.value, nodeId, events[1..], accept, x, lens[0], lens[1..], true, events[0].now)
      && r.pool.capacity == pool.capacity && r.pool.usage == pool.usage + Opening(view)
  {
    FirstPiece(events, x, lens);
    StartTaken(view, pool, nodeId, events[0], accept, x, lens[0]);
    hide OnFrame;
    hide Receptive;
    MidCounts(OnFrame(view, pool, nodeId, events[0], accept).view.value, x, lens[0], true, events[0].now);
    hide Mid;
    hide Counting;
    hide Pieces;
    hide CutFrames;
    hide StartPiece;
    hide Wanted;
  }

  lemma {:induction false} MidCounts(s: RxState, x: Sending, at: nat, toggle: bool, start: Timestamp)
    requires at <= |x.payload| && at <= MAX_PAYLOAD && Mid(s, x, 0, at, toggle, start)
    ensures Counting(s, x, at, toggle, start)
  {
    assert x.payload[0..at] == x.payload[..at];
  }

  /** The blocks a transfer cut like this takes besides the state itself, whatever its length, are there. */
  predicate HasBlocks(pool: Pool, view: Option<RxState>, lens: seq<nat>)
    requires lens != []
  {
    HeldAt(0, lens[0], lens[1..]) <= pool.capacity - pool.usage - Opening(view)
  }

  /** A transfer of any length, cut in any way, is delivered by its last frame, exactly if its CRC is right and the
      blocks can be had; it announces the number of bytes sent if and only if at most 1023 of them came before the final
      frame. */
  lemma {:induction false} LengthAnnounced(view: Option<RxState>, pool: Pool, nodeId: byte, events: seq<Event>,
                                           accept: Acceptance, x: Sending, lens: seq<nat>)
    requires Conveys(events, x, lens) && Wanted(x, nodeId, accept) && Receptive(view, x.tid, events[0].now)
    requires pool.usage + Opening(view) <= pool.capacity
    ensures Announcing(Feed(view, pool, nodeId, events, accept).log, Announced(x, lens),
                       Good(x) && HasBlocks(pool, view, lens))
    ensures Announced(x, lens) == |x.payload| <==> BeforeEnd(x, lens) <= MAX_PAYLOAD
  {
    hide OnFrame;
    hide Feed;
    hide Announcing;
    hide Wanted;
    hide Receptive;
    FirstCounts(view, pool, nodeId, events, accept, x, lens);
    var r := OnFrame(view, pool, nodeId, events[0], accept);
    RestAnnounces(r.view.value, r.pool, nodeId, events[1..], accept, x, lens[0], lens[1..], true, events[0].now);
    FirstPiece(events, x, lens);
    assert Fits(r.pool, 0, lens[0], lens[1..]) == HasBlocks(pool, view, lens);
    LogStep(view, pool, nodeId, events, accept, Announced(x, lens), Good(x) && HasBlocks(pool, view, lens));
    WrapsBeyond(x, lens);
  }

  lemma {:induction false} WrapsBeyond(x: Sending, lens: seq<nat>)
    requires Cut(x, lens)
    ensures Announced(x, lens) == |x.payload| <==> BeforeEnd(x, lens) <= MAX_PAYLOAD
  {
    LastInSum(lens);
  }

  /** The length announced when this library sends `n` bytes. */
  function OwnAnnounced(n: nat): int
    requires n >= 8
  {
    Buffered(n) % WRAP_LENGTH + n - Buffered(n)
  }

  lemma {:induction false} OwnWrapsBeyond(n: nat)
    requires n >= 8
    ensures OwnAnnounced(n) == n <==> n <= LONGEST
    ensures OwnAnnounced(1028) == 4
  {
  }

  /** A block for every frame is enough. */
  lemma {:induction false} PlentyIsEnough(view: Option<RxState>, pool: Pool, x: Sending, lens: seq<nat>)
    requires Cut(x, lens) && pool.usage + Opening(view) + |lens| <= pool.capacity
    ensures HasBlocks(pool, view, lens)
  {
    HeldAtMost(0, lens[0], lens[1..]);
  }

  /** A transfer of this library is delivered by its last frame, however long it is, exactly if its CRC is right and the
      blocks can be had; the length it announces is right if and only if it has at most 1027 bytes. A transfer of 1028
      bytes announces four. */
  lemma {:induction false} OwnLengthAnnounced(view: Option<RxState>, pool: Pool, nodeId: byte, events: seq<Event>,
                                              accept: Acceptance, x: Sending)
    requires |x.payload| >= 8 && Wanted(x, nodeId, accept)
    requires Carries(events, Frames(x.id, x.tid, x.crc, x.payload)) && AllInTime(events, events[0].now)
    requires Receptive(view, x.tid, events[0].now) && pool.usage + Opening(view) <= pool.capacity
    ensures Announcing(Feed(view, pool, nodeId, events, accept).log, OwnAnnounced(|x.payload|),
                       Good(x) && HasBlocks(pool, view, OwnLengths(|x.payload|)))
    ensures pool.usage + Opening(view) + |events| <= pool.capacity ==> HasBlocks(pool, view, OwnLengths(|x.payload|))
    ensures OwnAnnounced(|x.payload|) == |x.payload| <==> |x.payload| <= LONGEST
    ensures OwnAnnounced(1028) == 4
  {
    hide Feed;
    hide Announcing;
    hide Receptive;
    hide Wanted;
    hide Good;
    hide Lengths;
    hide HasBlocks;
    OwnFramesCut(x);
    OwnWrapsBeyond(|x.payload|);
    hide Frames;
    hide Cut;
    hide Buffered;
    LengthAnnounced(view, pool, nodeId, events, accept, x, OwnLengths(|x.payload|));
    if pool.usage + Opening(view) + |events| <= pool.capacity {
      PlentyIsEnough(view, pool, x, OwnLengths(|x.payload|));
    }
  }
}
