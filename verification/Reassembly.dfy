/** Runs of frames under one descriptor: replays are refused, and a transfer is put together again however its sender
    cut it. */
module Reassembly {
  import opened Types
  import opened CanId
  import opened Crc
  import opened Fragment
  import opened RxBuffer
  import opened Receiver
  import opened Splicing

  // ---------------------------------------------------------------- runs of frames with one descriptor

  /** What a run leaves, and what each of its frames delivered. */
  datatype Fed = Fed(view: Option<RxState>, pool: Pool, log: seq<Option<Transfer>>)

  function Feed(view: Option<RxState>, pool: Pool, nodeId: byte, events: seq<Event>, accept: Acceptance): (r: Fed)
    ensures |r.log| == |events|
    decreases |events|
  {
    if events == [] then Fed(view, pool, [])
    else
      var r := OnFrame(view, pool, nodeId, events[0], accept);
      var rest := Feed(r.view, r.pool, nodeId, events[1..], accept);
      rest.(log := [r.delivered] + rest.log)
  }

  // ---------------------------------------------------------------- transfer identifiers

  predicate IsTid(k: byte) {
    k & 0x1F == k
  }

  lemma {:induction false} TidIsTid(x: byte)
    ensures IsTid(x & 0x1F)
  {
  }

  // ---------------------------------------------------------------- replays

  /** The state past transfer `tid`, begun at a time that has not run out at `now`. */
  predicate Past(s: RxState, tid: byte) {
    IsTid(tid) && s.core.transferId == NextTid(tid) && s.core.timestamp != 0
  }

  predicate SameButCrc(s: RxState, r: RxState) {
    r == WithCrc(s, r.core.calculatedCrc)
  }

  /** A frame of the transfer just left behind, other than a single-frame one, is refused and changes nothing. */
  lemma {:induction false} StaleFrameRefused(s: RxState, pool: Pool, f: Frame, now: Timestamp, junk: Junk, tid: byte)
    requires f.data != [] && Past(s, tid) && !TimedOut(s, now)
    requires TransferIdOf(TailOf(f)) == tid && !(IsStart(TailOf(f)) && IsEnd(TailOf(f)))
    ensures var o := Receive(s, pool, f, now, junk); o.state == s && o.pool == pool && o.delivered == None && o.code < 0
  {
  }

  /** A replayed event: any frame of transfer `tid` but a single-frame one, within the timeout. */
  predicate Replay(e: Event, id: bv32, tid: byte, since: Timestamp) {
    && e.frame.data != [] && e.frame.id == id
    && TransferIdOf(TailOf(e.frame)) == tid && !(IsStart(TailOf(e.frame)) && IsEnd(TailOf(e.frame)))
    && Elapsed(e.now, since) <= TRANSFER_TIMEOUT_USEC
  }

  /** Nothing was delivered. */
  ghost predicate Silent(log: seq<Option<Transfer>>) {
    forall i | 0 <= i < |log| :: log[i] == None
  }

  /** After transfer `tid`, no sequence of frames of `tid` within the timeout of its first frame delivers anything or
      changes the toggle, the transfer ID, the payload or the pool. */
  lemma {:induction false} ReplayRejected(s: RxState, pool: Pool, nodeId: byte, events: seq<Event>, accept: Acceptance,
                                          id: bv32, tid: byte)
    requires Past(s, tid)
    requires forall e | e in events :: Replay(e, id, tid, s.core.timestamp)
    ensures var r := Feed(Some(s), pool, nodeId, events, accept);
      r.view.Some? && SameButCrc(s, r.view.value) && r.pool == pool && Silent(r.log)
    decreases |events|
  {
    if events != [] {
      var e := events[0];
      assert e in events;
      var r := OnFrame(Some(s), pool, nodeId, e, accept);
      assert r.view.Some? && SameButCrc(s, r.view.value) && r.pool == pool && r.delivered == None by {
        StaleFrameRefused(s, pool, e.frame, e.now, e.junk, tid);
        if Signature(accept, e.frame.id).Some? {
          StaleFrameRefused(Opened(Some(s), e.frame.id, Signature(accept, e.frame.id).value, e.junk), pool, e.frame,
                            e.now, e.junk, tid);
        }
      }
      ReplayRejected(r.view.value, pool, nodeId, events[1..], accept, id, tid);
    }
  }

  // ---------------------------------------------------------------- a transfer cut into frames of any lengths

  /** The parameters of a transfer on its way: what the sender put in and what the receiver expects. */
  datatype Sending = Sending(id: bv32, tid: byte, crc: bv16, payload: seq<byte>, signature: bv64)

  function Sum(lens: seq<nat>): nat {
    if lens == [] then 0 else lens[0] + Sum(lens[1..])
  }

  /** Lengths of frames that carry `n` bytes in all, none more than a frame can hold. */
  predicate Cuts(lens: seq<nat>, n: nat) {
    Sum(lens) == n && forall k | 0 <= k < |lens| :: lens[k] <= 7
  }

  /** A start frame with the CRC and the first `n` bytes. */
  function StartPiece(x: Sending, n: nat): Frame
    requires n <= 5 && n <= |x.payload|
  {
    Frame(x.id, CrcBytes(x.crc) + x.payload[..n] + [TailByte(true, false, false, x.tid)])
  }

  /** A later frame with `n` bytes from byte `at` on; it may carry nothing. */
  function Piece(x: Sending, at: nat, n: nat, end: bool, toggle: bool): Frame
    requires n <= 7 && at + n <= |x.payload|
  {
    Frame(x.id, x.payload[at..at + n] + [TailByte(false, end, toggle, x.tid)])
  }

  /** Frames of the given lengths from byte `at` on. */
  function Pieces(x: Sending, at: nat, lens: seq<nat>, toggle: bool): (fs: seq<Frame>)
    requires at <= |x.payload| && Cuts(lens, |x.payload| - at)
    ensures |fs| == |lens|
    decreases |lens|
  {
    if lens == [] then []
    else [Piece(x, at, lens[0], |lens| == 1, toggle)] + Pieces(x, at + lens[0], lens[1..], !toggle)
  }

  /** A transfer in several frames, the first with one to five bytes. */
  predicate Cut(x: Sending, lens: seq<nat>) {
    |lens| >= 2 && 1 <= lens[0] <= 5 && Cuts(lens, |x.payload|)
  }

  function CutFrames(x: Sending, lens: seq<nat>): seq<Frame>
    requires Cut(x, lens)
  {
    [StartPiece(x, lens[0])] + Pieces(x, lens[0], lens[1..], true)
  }

  /** The bytes buffered when the final frame comes. */
  function BeforeEnd(x: Sending, lens: seq<nat>): int
    requires lens != []
  {
    |x.payload| - lens[|lens| - 1]
  }

  // ---------------------------------------------------------------- the state on the way

  /** As many blocks as the bytes need; an empty frame after exactly the bytes of the head takes the first block too
      early. */
  predicate Tight(k: nat, at: nat) {
    k == BlocksFor(at) || (k == 1 && at == HEAD_SIZE)
  }

  /** The state after `at` bytes of the transfer, when the CRC register was last set at byte `base`. */
  predicate Mid(s: RxState, x: Sending, base: nat, at: nat, toggle: bool, start: Timestamp)
    requires base <= at <= |x.payload|
  {
    && Layout(s) && s.core.payloadLen == at && Contents(s) == x.payload[..at]
    && Tight(|s.blocks|, at)
    && s.core.calculatedCrc == TransferCrc(x.signature, x.payload[base..at])
    && s.core.payloadCrc == x.crc && s.core.transferId == x.tid & 0x1F && s.core.nextToggle == toggle
    && s.core.timestamp == start
  }

  /** The state between transfers: nothing buffered. */
  predicate Idle(s: RxState) {
    s.blocks == [] && s.core.payloadLen == 0 && !s.core.nextToggle
  }

  lemma {:induction false} CrcBytesJoin(crc: bv16)
    ensures (CrcBytes(crc)[0] as bv16) | ((CrcBytes(crc)[1] as bv16) << 8) == crc
  {
  }

  /** The blocks held after a frame of `n` bytes, when `k` are held after `at`. */
  function After(k: nat, at: nat, n: nat): nat {
    if at == HEAD_SIZE && n == 0 && k == 0 then 1 else Max(k, BlocksFor(at + n))
  }

  /** The blocks held when the final frame comes. */
  function ChainAt(k: nat, at: nat, lens: seq<nat>): (r: nat)
    ensures r >= k
    decreases |lens|
  {
    if |lens| <= 1 then k else ChainAt(After(k, at, lens[0]), at + lens[0], lens[1..])
  }

  lemma {:induction false} AfterIsTight(k: nat, at: nat, n: nat)
    requires Tight(k, at)
    ensures Tight(After(k, at, n), at + n) && After(k, at, n) >= k
  {
  }

  lemma {:induction false} SliceGrows(p: seq<byte>, i: nat, j: nat, k: nat)
    requires i <= j <= k <= |p|
    ensures p[i..j] + p[j..k] == p[i..k]
  {
  }

  lemma {:induction false} SameContents(s: RxState, crc: bv16)
    requires Layout(s)
    ensures Contents(s.(core := s.core.(payloadCrc := crc))) == Contents(s)
  {
  }

  /** What a push asks for, in terms of the transfer. */
  lemma {:induction false} MidPushes(s: RxState, x: Sending, base: nat, at: nat, n: nat, toggle: bool,
                                     start: Timestamp)
    requires base <= at <= |x.payload| && n <= 7 && at + n <= MAX_PAYLOAD
    requires Mid(s.(core := s.core.(payloadCrc := x.crc)), x, base, at, toggle, start)
    ensures Layout(s) && Pushable(s, n) && BlocksAfter(s, n) == After(|s.blocks|, at, n)
  {
    hide Contents;
    hide Tight;
    hide TransferCrc;
    hide BlocksFor;
  }

  /** Storing one more chunk of the transfer. */
  lemma {:induction false} StoreChunk(s: RxState, pool: Pool, x: Sending, base: nat, at: nat, n: nat, toggle: bool,
                                      start: Timestamp, junk: Junk)
    requires base <= at && at + n <= |x.payload| && n <= 7 && at + n <= MAX_PAYLOAD
    requires Mid(s.(core := s.core.(payloadCrc := x.crc)), x, base, at, toggle, start)
    requires After(|s.blocks|, at, n) - |s.blocks| <= pool.capacity - pool.usage
    ensures var o := Store(s, pool, x.payload[at..at + n], x.crc, junk);
      && o.code == OK && o.delivered == None && Mid(o.state, x, base, at + n, !toggle, start)
      && |o.state.blocks| == After(|s.blocks|, at, n)
      && o.pool.capacity == pool.capacity && o.pool.usage == pool.usage + |o.state.blocks| - |s.blocks|
  {
    hide Store;
    hide CrcAdd;
    hide SignatureCrc;
    hide Contents;
    hide Tight;
    hide After;
    hide BlocksAfter;
    hide BlocksFor;
    hide Layout;
    var chunk := x.payload[at..at + n];
    MidPushes(s, x, base, at, n, toggle, start);
    StoreAppends(s, pool, chunk, x.crc, junk);
    SameContents(s, x.crc);
    SliceGrows(x.payload, 0, at, at + n);
    SliceGrows(x.payload, base, at, at + n);
    AfterIsTight(|s.blocks|, at, n);
    CrcAddConcat(SignatureCrc(x.signature), x.payload[base..at], chunk);
  }

  /** The identifier is one the receiver takes, with the signature of the sender. */
  predicate Wanted(x: Sending, nodeId: byte, accept: Acceptance) {
    && x.id & EFF != 0 && x.id & RTR == 0 && x.id & ERR == 0
    && (TypeOf(x.id) == Broadcast || DestinationOf(x.id) == nodeId)
    && Signature(accept, x.id) == Some(x.signature)
  }

  /** A receiver that can start on the transfer: it knows nothing of the descriptor, its state is idle and expects this
      transfer ID, or, whatever is half-received, the state is uninitialised, timed out, or at an unrelated transfer ID.
      */
  predicate Receptive(view: Option<RxState>, tid: byte, now: Timestamp) {
    view.None? || var s := view.value;
      || s.core.timestamp == 0 || TimedOut(s, now) || ForwardDistance(s.core.transferId, tid & 0x1F) > 1
      || (Idle(s) && s.core.transferId == tid & 0x1F)
  }

  /** Blocks taken when the transfer starts: a new state, or minus the leftovers that a restart releases. */
  function Opening(view: Option<RxState>): int {
    if view.None? then 1 else -|view.value.blocks|
  }

  lemma {:induction false} StartTail(tid: byte)
    ensures var t := TailByte(true, false, false, tid);
      IsStart(t) && !IsEnd(t) && !Toggle(t) && TransferIdOf(t) == tid & 0x1F
  {
  }

  /** The state on which the first frame is stored. */
  predicate Cleared(s: RxState, x: Sending) {
    && s.blocks == [] && s.core.payloadLen == 0 && !s.core.nextToggle && s.core.transferId == x.tid & 0x1F
    && s.core.calculatedCrc == SignatureCrc(x.signature)
  }

  lemma {:induction false} ClearedStores(s: RxState, pool: Pool, x: Sending, n: nat, now: Timestamp, junk: Junk)
    requires 1 <= n <= 5 && n <= |x.payload| && Cleared(s, x) && pool.usage <= pool.capacity
    ensures var o := Proceed(s, pool, StartPiece(x, n), now, junk);
      && o.code == OK && o.delivered == None && Mid(o.state, x, 0, n, true, now) && o.state.blocks == []
      && o.pool.capacity == pool.capacity && o.pool.usage == pool.usage
  {
    hide *;
    var s1 := s.(core := s.core.(timestamp := now));
    ClearedProceeds(s, pool, x, n, now, junk);
    ClearedIsMid(s1, x);
    NoBlocksYet(n);
    StoreChunk(s1, pool, x, 0, 0, n, false, now, junk);
  }

  lemma {:induction false} NoBlocksYet(n: nat)
    requires 1 <= n <= 5
    ensures After(0, 0, n) == 0 && n <= MAX_PAYLOAD
  {
  }

  lemma {:induction false} ClearedProceeds(s: RxState, pool: Pool, x: Sending, n: nat, now: Timestamp, junk: Junk)
    requires 1 <= n <= 5 && n <= |x.payload| && Cleared(s, x)
    ensures s.blocks == [] && Cleared(s.(core := s.core.(timestamp := now)), x) && StartPiece(x, n).data != []
    ensures Proceed(s, pool, StartPiece(x, n), now, junk)
         == Store(s.(core := s.core.(timestamp := now)), pool, x.payload[0..0 + n], x.crc, junk)
  {
    hide Store;
    hide SignatureCrc;
    var f := StartPiece(x, n);
    StartTail(x.tid);
    CrcBytesJoin(x.crc);
    assert f.data[2..|f.data| - 1] == x.payload[0..n];
    assert CarriedCrc(f) == x.crc;
    hide CarriedCrc;
  }

  lemma {:induction false} ClearedIsMid(s: RxState, x: Sending)
    requires Cleared(s, x)
    ensures Mid(s.(core := s.core.(payloadCrc := x.crc)), x, 0, 0, false, s.core.timestamp)
  {
  }

  /** A frame of `x` at the receiver that wants it. */
  lemma {:induction false} WantedStart(view: Option<RxState>, pool: Pool, nodeId: byte, e: Event, accept: Acceptance,
                                       x: Sending)
    requires e.frame.id == x.id && e.frame.data != [] && IsStart(TailOf(e.frame)) && Wanted(x, nodeId, accept)
    requires view.None? ==> !pool.Full()
    ensures OnFrame(view, pool, nodeId, e, accept)
         == FromOutcome(Receive(Opened(view, x.id, x.signature, e.junk), if view.None? then pool.Take() else pool,
                                e.frame, e.now, e.junk))
  {
  }

  lemma {:induction false} WantedContinuation(s: RxState, pool: Pool, nodeId: byte, e: Event, accept: Acceptance,
                                              x: Sending)
    requires e.frame.id == x.id && e.frame.data != [] && !IsStart(TailOf(e.frame)) && Wanted(x, nodeId, accept)
    ensures OnFrame(Some(s), pool, nodeId, e, accept) == FromOutcome(Receive(s, pool, e.frame, e.now, e.junk))
  {
  }

  lemma {:induction false} ReceptiveStarts(s: RxState, pool: Pool, f: Frame, now: Timestamp, junk: Junk, x: Sending,
                                           n: nat)
    requires 1 <= n <= 5 && n <= |x.payload| && f == StartPiece(x, n) && pool.usage - |s.blocks| <= pool.capacity
    requires s.core.calculatedCrc == SignatureCrc(x.signature) && Receptive(Some(s), x.tid, now)
    ensures var o := Receive(s, pool, f, now, junk);
      && o.code == OK && o.delivered == None && Mid(o.state, x, 0, n, true, now) && o.state.blocks == []
      && o.pool.capacity == pool.capacity && o.pool.usage == pool.usage - |s.blocks|
  {
    StartTail(x.tid);
    if NeedsRestart(s, TailOf(f), now) {
      ClearedStores(Restarted(s, TailOf(f)), pool.Return(|s.blocks|), x, n, now, junk);
    } else {
      ClearedStores(s, pool, x, n, now, junk);
    }
  }

  /** The first frame of a transfer is taken, whatever the receiver held before. */
  lemma {:induction false} StartTaken(view: Option<RxState>, pool: Pool, nodeId: byte, e: Event, accept: Acceptance,
                                      x: Sending, n: nat)
    requires 1 <= n <= 5 && n <= |x.payload| && e.frame == StartPiece(x, n)
    requires Wanted(x, nodeId, accept) && Receptive(view, x.tid, e.now) && pool.usage + Opening(view) <= pool.capacity
    ensures var r := OnFrame(view, pool, nodeId, e, accept);
      && r.code == OK && r.delivered == None && r.view.Some?
      && Mid(r.view.value, x, 0, n, true, e.now) && r.view.value.blocks == []
      && r.pool.capacity == pool.capacity && r.pool.usage == pool.usage + Opening(view)
  {
    StartTail(x.tid);
    WantedStart(view, pool, nodeId, e, accept, x);
    ReceptiveStarts(Opened(view, x.id, x.signature, e.junk), if view.None? then pool.Take() else pool, e.frame, e.now,
                    e.junk, x, n);
  }

  lemma {:induction false} PieceTail(x: Sending, at: nat, n: nat, end: bool, toggle: bool)
    requires n <= 7 && at + n <= |x.payload|
    ensures var f := Piece(x, at, n, end, toggle);
      && f.id == x.id && f.data != [] && f.data[..|f.data| - 1] == x.payload[at..at + n]
      && !IsStart(TailOf(f)) && IsEnd(TailOf(f)) == end && Toggle(TailOf(f)) == toggle
      && TransferIdOf(TailOf(f)) == x.tid & 0x1F
  {
  }

  predicate InTime(now: Timestamp, start: Timestamp) {
    start != 0 && Elapsed(now, start) <= TRANSFER_TIMEOUT_USEC
  }

  /** A continuation that fits the state is stored or ends the transfer. */
  lemma {:induction false} ContinuationProceeds(s: RxState, pool: Pool, f: Frame, now: Timestamp, junk: Junk)
    requires f.data != [] && !IsStart(TailOf(f)) && Toggle(TailOf(f)) == s.core.nextToggle
    requires TransferIdOf(TailOf(f)) == s.core.transferId && InTime(now, s.core.timestamp)
    ensures Receive(s, pool, f, now, junk)
         == if IsEnd(TailOf(f)) then ReceiveLast(s, pool, f, now) else ReceiveMiddle(s, pool, f, junk)
  {
  }

  lemma {:induction false} MiddleTaken(s: RxState, pool: Pool, e: Event, x: Sending, base: nat, at: nat, n: nat,
                                       toggle: bool, start: Timestamp)
    requires base <= at && at + n <= |x.payload| && n <= 7 && at + n <= MAX_PAYLOAD
    requires Mid(s, x, base, at, toggle, start) && InTime(e.now, start)
    requires e.frame == Piece(x, at, n, false, toggle)
    requires After(|s.blocks|, at, n) - |s.blocks| <= pool.capacity - pool.usage
    ensures var o := Receive(s, pool, e.frame, e.now, e.junk);
      && o.code == OK && o.delivered == None && Mid(o.state, x, base, at + n, !toggle, start)
      && |o.state.blocks| == After(|s.blocks|, at, n)
      && o.pool.capacity == pool.capacity && o.pool.usage == pool.usage + |o.state.blocks| - |s.blocks|
  {
    PieceTail(x, at, n, false, toggle);
    ContinuationProceeds(s, pool, e.frame, e.now, e.junk);
    assert s.(core := s.core.(payloadCrc := x.crc)) == s;
    StoreChunk(s, pool, x, base, at, n, toggle, start, e.junk);
  }

  /** What the application is told about the transfer. */
  predicate Announces(t: Transfer, x: Sending, time: Timestamp) {
    && Holds(t, x.payload) && t.timestamp == time
    && t.dataTypeId == DataTypeOf(x.id) && t.ttype == TypeOf(x.id) && t.source == SourceOf(x.id)
    && t.priority == PriorityOf(x.id) && t.transferId == x.tid & 0x1F
  }

  /** The state after the transfer: idle, waiting for the next transfer ID. */
  predicate Done(s: RxState, tid: byte, start: Timestamp) {
    Idle(s) && s.core.transferId == NextTid(tid & 0x1F) && s.core.timestamp == start
  }

  /** The carried CRC is that of the bytes from `base` on. */
  predicate Checks(x: Sending, base: nat)
    requires base <= |x.payload|
  {
    x.crc == TransferCrc(x.signature, x.payload[base..])
  }

  lemma {:induction false} LastChunk(s: RxState, f: Frame, now: Timestamp, x: Sending, base: nat, at: nat, toggle: bool,
                                     start: Timestamp)
    requires base <= at <= |x.payload| <= at + 7 && Mid(s, x, base, at, toggle, start)
    requires f == Piece(x, at, |x.payload| - at, true, toggle)
    ensures Holds(Finished(s, f, now), x.payload)
    ensures CrcAdd(s.core.calculatedCrc, f.data[..|f.data| - 1]) == TransferCrc(x.signature, x.payload[base..])
  {
    hide CrcAdd;
    var chunk := x.payload[at..|x.payload|];
    PieceTail(x, at, |x.payload| - at, true, toggle);
    FinishedTransfer(s, f, now);
    SliceGrows(x.payload, 0, at, |x.payload|);
    SliceGrows(x.payload, base, at, |x.payload|);
    CrcAddConcat(SignatureCrc(x.signature), x.payload[base..at], chunk);
  }

  lemma {:induction false} LastTaken(s: RxState, pool: Pool, e: Event, x: Sending, base: nat, at: nat, toggle: bool,
                                     start: Timestamp)
    requires base <= at <= |x.payload| <= at + 7
    requires Mid(s, x, base, at, toggle, start) && InTime(e.now, start)
    requires e.frame == Piece(x, at, |x.payload| - at, true, toggle)
    ensures var o := Receive(s, pool, e.frame, e.now, e.junk);
      && Done(o.state, x.tid, start) && o.pool == pool.Return(|s.blocks|)
      && o.delivered.Some? == Checks(x, base) && o.code == (if o.delivered.Some? then OK else RX_BAD_CRC)
      && (o.delivered.Some? ==> Announces(o.delivered.value, x, e.now))
  {
    PieceTail(x, at, |x.payload| - at, true, toggle);
    ContinuationProceeds(s, pool, e.frame, e.now, e.junk);
    LastChunk(s, e.frame, e.now, x, base, at, toggle, start);
  }

  // ---------------------------------------------------------------- all frames of a transfer

  ghost predicate Carries(events: seq<Event>, frames: seq<Frame>) {
    |events| == |frames| && forall k | 0 <= k < |frames| :: events[k].frame == frames[k]
  }

  ghost predicate AllInTime(events: seq<Event>, start: Timestamp) {
    forall e | e in events :: InTime(e.now, start)
  }

  /** Exactly one delivery, by the last frame, if `good`; otherwise none. */
  ghost predicate DeliversLast(log: seq<Option<Transfer>>, x: Sending, time: Timestamp, good: bool) {
    && log != [] && Silent(log[..|log| - 1])
    && log[|log| - 1].Some? == good
    && (good ==> Announces(log[|log| - 1].value, x, time))
  }

  /** The time at which the last of these events comes: what a delivery by it is stamped with. */
  function EndTime(events: seq<Event>): Timestamp {
    if events == [] then 0 else events[|events| - 1].now
  }

  /** What the transfer leaves behind. */
  predicate Settled(r: Fed, tid: byte, start: Timestamp, capacity: nat, usage: int) {
    r.view.Some? && Done(r.view.value, tid, start) && r.pool.capacity == capacity && r.pool.usage == usage
  }

  lemma {:induction false} SilentDelivers(log: seq<Option<Transfer>>, x: Sending, time: Timestamp)
    requires Silent(log)
    ensures DeliversLast([None] + log, x, time, false)
  {
  }

  /** A frame that cannot be stored drops the transfer. */
  lemma {:induction false} MiddleDropped(s: RxState, pool: Pool, e: Event, x: Sending, base: nat, at: nat, n: nat,
                                         toggle: bool, start: Timestamp)
    requires base <= at && at + n <= |x.payload| && n <= 7 && at + n <= MAX_PAYLOAD
    requires Mid(s, x, base, at, toggle, start) && InTime(e.now, start)
    requires e.frame == Piece(x, at, n, false, toggle)
    requires After(|s.blocks|, at, n) - |s.blocks| > pool.capacity - pool.usage && pool.usage <= pool.capacity
    ensures var o := Receive(s, pool, e.frame, e.now, e.junk);
      && o.code == OUT_OF_MEMORY && o.delivered == None && Done(o.state, x.tid, start) && Past(o.state, x.tid & 0x1F)
      && o.pool.capacity == pool.capacity && o.pool.usage == pool.usage - |s.blocks|
  {
    PieceTail(x, at, n, false, toggle);
    ContinuationProceeds(s, pool, e.frame, e.now, e.junk);
    TidIsTid(x.tid);
    PushNeeds(s, x.payload[at..at + n], pool, e.junk.block);
    PushAccounts(s, x.payload[at..at + n], pool, e.junk.block);
  }

  /** The events left after the first frame of a continuation. */
  lemma {:induction false} PiecesRest(events: seq<Event>, x: Sending, at: nat, lens: seq<nat>, toggle: bool,
                                      start: Timestamp)
    requires at <= |x.payload| && lens != [] && Cuts(lens, |x.payload| - at)
    requires Carries(events, Pieces(x, at, lens, toggle)) && AllInTime(events, start)
    ensures lens[0] <= 7 && at + lens[0] <= |x.payload| && Cuts(lens[1..], |x.payload| - at - lens[0])
    ensures events != [] && events[0].frame == Piece(x, at, lens[0], |lens| == 1, toggle)
    ensures InTime(events[0].now, start)
    ensures Carries(events[1..], Pieces(x, at + lens[0], lens[1..], !toggle)) && AllInTime(events[1..], start)
  {
    var frames := Pieces(x, at, lens, toggle);
    assert frames[1..] == Pieces(x, at + lens[0], lens[1..], !toggle);
    assert events[0] in events;
  }

  predicate Continuation(f: Frame) {
    f.data != [] && !IsStart(TailOf(f))
  }

  /** A later frame of the transfer, in time. */
  predicate Later(e: Event, x: Sending, start: Timestamp) {
    Replay(e, x.id, x.tid & 0x1F, start) && Continuation(e.frame)
  }

  lemma {:induction false} PieceIsLater(e: Event, x: Sending, at: nat, n: nat, end: bool, toggle: bool,
                                        start: Timestamp)
    requires n <= 7 && at + n <= |x.payload| && e.frame == Piece(x, at, n, end, toggle) && InTime(e.now, start)
    ensures Later(e, x, start)
  {
    PieceTail(x, at, n, end, toggle);
  }

  lemma {:induction false} FirstOrLater(events: seq<Event>, e: Event)
    requires e in events
    ensures e == events[0] || e in events[1..]
  {
    var k :| 0 <= k < |events| && events[k] == e;
    if k > 0 {
      assert events[1..][k - 1] == e;
    }
  }

  lemma {:induction false} NoPieces(events: seq<Event>, x: Sending, at: nat, toggle: bool)
    requires at <= |x.payload| && Cuts([], |x.payload| - at) && Carries(events, Pieces(x, at, [], toggle))
    ensures events == []
  {
  }

  lemma {:induction false} PiecesAreLater(events: seq<Event>, x: Sending, at: nat, lens: seq<nat>, toggle: bool,
                                          start: Timestamp)
    requires at <= |x.payload| && Cuts(lens, |x.payload| - at)
    requires Carries(events, Pieces(x, at, lens, toggle)) && AllInTime(events, start)
    ensures forall e | e in events :: Later(e, x, start)
    decreases |lens|
  {
    hide *;
    if lens == [] {
      NoPieces(events, x, at, toggle);
    } else {
      PiecesRest(events, x, at, lens, toggle, start);
      PieceIsLater(events[0], x, at, lens[0], |lens| == 1, toggle, start);
      PiecesAreLater(events[1..], x, at + lens[0], lens[1..], !toggle, start);
      forall e | e in events ensures Later(e, x, start) {
        FirstOrLater(events, e);
      }
    }
  }

  /** The frames after a drop are refused like replays. */
  lemma {:induction false} DroppedStaysSilent(s: RxState, pool: Pool, nodeId: byte, events: seq<Event>,
                                              accept: Acceptance, x: Sending, start: Timestamp)
    requires Done(s, x.tid, start) && Past(s, x.tid & 0x1F)
    requires forall e | e in events :: Later(e, x, start)
    ensures var r := Feed(Some(s), pool, nodeId, events, accept);
      Silent(r.log) && Settled(r, x.tid, start, pool.capacity, pool.usage)
  {
    assert forall e | e in events :: Replay(e, x.id, x.tid & 0x1F, start);
    ReplayRejected(s, pool, nodeId, events, accept, x.id, x.tid & 0x1F);
  }

  predicate Good(x: Sending) {
    x.crc == TransferCrc(x.signature, x.payload)
  }

  lemma {:induction false} FeedStep(view: Option<RxState>, pool: Pool, nodeId: byte, events: seq<Event>,
                                    accept: Acceptance)
    requires events != []
    ensures var r := OnFrame(view, pool, nodeId, events[0], accept);
      var rest := Feed(r.view, r.pool, nodeId, events[1..], accept);
      Feed(view, pool, nodeId, events, accept) == Fed(rest.view, rest.pool, [r.delivered] + rest.log)
  {
  }

  /** A run that settles, having delivered the transfer by its last frame, at `time`, if `good` and nothing otherwise.
      */
  ghost predicate Ends(r: Fed, x: Sending, start: Timestamp, time: Timestamp, good: bool, capacity: nat, usage: int) {
    DeliversLast(r.log, x, time, good) && Settled(r, x.tid, start, capacity, usage)
  }

  /** A frame that delivers nothing does not change how the run ends. */
  lemma {:induction false} EndsLater(view: Option<RxState>, pool: Pool, nodeId: byte, events: seq<Event>,
                                     accept: Acceptance, x: Sending, start: Timestamp, good: bool, capacity: nat,
                                     usage: int)
    requires events != []
    requires var r := OnFrame(view, pool, nodeId, events[0], accept);
      && r.delivered == None
      && Ends(Feed(r.view, r.pool, nodeId, events[1..], accept), x, start, EndTime(events[1..]), good, capacity, usage)
    ensures Ends(Feed(view, pool, nodeId, events, accept), x, start, EndTime(events), good, capacity, usage)
  {
  }

  /** The situation after `at` bytes: the receiver and the events that bring the rest. */
  ghost predicate Continuing(s: RxState, nodeId: byte, events: seq<Event>, accept: Acceptance, x: Sending, base: nat,
                             at: nat, lens: seq<nat>, toggle: bool, start: Timestamp) {
    && base <= at <= |x.payload| && lens != [] && Cuts(lens, |x.payload| - at) && BeforeEnd(x, lens) <= MAX_PAYLOAD
    && Mid(s, x, base, at, toggle, start) && Wanted(x, nodeId, accept)
    && Carries(events, Pieces(x, at, lens, toggle)) && AllInTime(events, start)
  }

  lemma {:induction false} EndsNow(s: RxState, pool: Pool, nodeId: byte, events: seq<Event>, accept: Acceptance,
                                   x: Sending, base: nat, at: nat, lens: seq<nat>, toggle: bool, start: Timestamp)
    requires Continuing(s, nodeId, events, accept, x, base, at, lens, toggle, start) && |lens| == 1
    ensures Ends(Feed(Some(s), pool, nodeId, events, accept), x, start, EndTime(events), Checks(x, base), pool.capacity,
                 pool.usage - |s.blocks|)
  {
    PiecesRest(events, x, at, lens, toggle, start);
    assert lens[1..] == [];
    PieceTail(x, at, lens[0], true, toggle);
    WantedContinuation(s, pool, nodeId, events[0], accept, x);
    LastTaken(s, pool, events[0], x, base, at, toggle, start);
    FeedStep(Some(s), pool, nodeId, events, accept);
  }

  lemma {:induction false} NotYetEnd(x: Sending, at: nat, lens: seq<nat>)
    requires at <= |x.payload| && |lens| > 1 && Cuts(lens, |x.payload| - at) && BeforeEnd(x, lens) <= MAX_PAYLOAD
    ensures lens[0] <= 7 && at + lens[0] <= |x.payload| && Cuts(lens[1..], |x.payload| - at - lens[0])
    ensures at + lens[0] <= MAX_PAYLOAD && BeforeEnd(x, lens[1..]) == BeforeEnd(x, lens)
  {
    LastInSum(lens[1..]);
  }

  lemma {:induction false} LastInSum(lens: seq<nat>)
    requires lens != []
    ensures lens[|lens| - 1] <= Sum(lens)
    decreases |lens|
  {
    if |lens| > 1 {
      LastInSum(lens[1..]);
    }
  }

  /** A middle frame that cannot be stored, and the frames that come after it. */
  lemma {:induction false} Drops(s: RxState, pool: Pool, nodeId: byte, events: seq<Event>, accept: Acceptance,
                                 x: Sending, base: nat, at: nat, lens: seq<nat>, toggle: bool, start: Timestamp)
    requires Continuing(s, nodeId, events, accept, x, base, at, lens, toggle, start) && |lens| > 1
    requires pool.usage <= pool.capacity && After(|s.blocks|, at, lens[0]) - |s.blocks| > pool.capacity - pool.usage
    ensures events != [] && events[0].frame.data != []
    ensures var o := Receive(s, pool, events[0].frame, events[0].now, events[0].junk);
      && OnFrame(Some(s), pool, nodeId, events[0], accept) == FromOutcome(o) && o.delivered == None
      && Done(o.state, x.tid, start) && Past(o.state, x.tid & 0x1F)
      && o.pool.capacity == pool.capacity && o.pool.usage == pool.usage - |s.blocks|
    ensures forall e | e in events[1..] :: Later(e, x, start)
  {
    hide Mid;
    hide After;
    hide Receive;
    hide OnFrame;
    hide Later;
    hide Past;
    hide Done;
    hide Wanted;
    hide Pieces;
    hide Piece;
    hide Cuts;
    hide Carries;
    hide AllInTime;
    hide InTime;
    PiecesRest(events, x, at, lens, toggle, start);
    NotYetEnd(x, at, lens);
    PieceTail(x, at, lens[0], false, toggle);
    WantedContinuation(s, pool, nodeId, events[0], accept, x);
    MiddleDropped(s, pool, events[0], x, base, at, lens[0], toggle, start);
    PiecesAreLater(events[1..], x, at + lens[0], lens[1..], !toggle, start);
  }

  lemma {:induction false} EndsDropped(s: RxState, pool: Pool, nodeId: byte, events: seq<Event>, accept: Acceptance,
                                       x: Sending, base: nat, at: nat, lens: seq<nat>, toggle: bool, start: Timestamp)
    requires Continuing(s, nodeId, events, accept, x, base, at, lens, toggle, start) && |lens| > 1
    requires pool.usage <= pool.capacity && After(|s.blocks|, at, lens[0]) - |s.blocks| > pool.capacity - pool.usage
    ensures Ends(Feed(Some(s), pool, nodeId, events, accept), x, start, EndTime(events), false, pool.capacity,
                 pool.usage - |s.blocks|)
  {
    Drops(s, pool, nodeId, events, accept, x, base, at, lens, toggle, start);
    hide Continuing;
    hide After;
    hide Receive;
    hide OnFrame;
    hide Later;
    hide Past;
    hide Done;
    hide Feed;
    var o := Receive(s, pool, events[0].frame, events[0].now, events[0].junk);
    DroppedStaysSilent(o.state, o.pool, nodeId, events[1..], accept, x, start);
    FeedStep(Some(s), pool, nodeId, events, accept);
    SilentDelivers(Feed(Some(o.state), o.pool, nodeId, events[1..], accept).log, x, EndTime(events));
    hide Silent;
  }

  /** A middle frame that can be stored. */
  lemma {:induction false} Continues(s: RxState, pool: Pool, nodeId: byte, events: seq<Event>, accept: Acceptance,
                                     x: Sending, base: nat, at: nat, lens: seq<nat>, toggle: bool, start: Timestamp)
    requires Continuing(s, nodeId, events, accept, x, base, at, lens, toggle, start) && |lens| > 1
    requires After(|s.blocks|, at, lens[0]) - |s.blocks| <= pool.capacity - pool.usage
    ensures events != [] && events[0].frame.data != []
    ensures var o := Receive(s, pool, events[0].frame, events[0].now, events[0].junk);
      && OnFrame(Some(s), pool, nodeId, events[0], accept) == FromOutcome(o) && o.delivered == None
      && Continuing(o.state, nodeId, events[1..], accept, x, base, at + lens[0], lens[1..], !toggle, start)
      && |o.state.blocks| == After(|s.blocks|, at, lens[0])
      && o.pool.capacity == pool.capacity && o.pool.usage == pool.usage + |o.state.blocks| - |s.blocks|
  {
    hide OnFrame;
    hide Receive;
    hide Mid;
    hide Wanted;
    hide After;
    hide Pieces;
    hide Piece;
    hide Cuts;
    hide Carries;
    hide AllInTime;
    hide InTime;
    PiecesRest(events, x, at, lens, toggle, start);
    NotYetEnd(x, at, lens);
    PieceTail(x, at, lens[0], false, toggle);
    WantedContinuation(s, pool, nodeId, events[0], accept, x);
    MiddleTaken(s, pool, events[0], x, base, at, lens[0], toggle, start);
  }

  /** The blocks still needed can be allocated. */
  predicate Enough(pool: Pool, k: nat, at: nat, lens: seq<nat>) {
    ChainAt(k, at, lens) - k <= pool.capacity - pool.usage
  }

  /** The rest of a transfer: delivered by its last frame exactly if the CRC matches and the blocks can be had. */
  lemma {:induction false} RestDelivered(s: RxState, pool: Pool, nodeId: byte, events: seq<Event>, accept: Acceptance,
                                         x: Sending, base: nat, at: nat, lens: seq<nat>, toggle: bool, start: Timestamp)
    requires Continuing(s, nodeId, events, accept, x, base, at, lens, toggle, start) && pool.usage <= pool.capacity
    ensures Ends(Feed(Some(s), pool, nodeId, events, accept), x, start, EndTime(events),
                 Checks(x, base) && Enough(pool, |s.blocks|, at, lens), pool.capacity, pool.usage - |s.blocks|)
    decreases |lens|, 1
  {
    if |lens| == 1 {
      EndsNow(s, pool, nodeId, events, accept, x, base, at, lens, toggle, start);
    } else if After(|s.blocks|, at, lens[0]) - |s.blocks| <= pool.capacity - pool.usage {
      MiddleDelivered(s, pool, nodeId, events, accept, x, base, at, lens, toggle, start);
    } else {
      EndsDropped(s, pool, nodeId, events, accept, x, base, at, lens, toggle, start);
    }
  }

  lemma {:induction false} MiddleDelivered(s: RxState, pool: Pool, nodeId: byte, events: seq<Event>, accept: Acceptance,
                                           x: Sending, base: nat, at: nat, lens: seq<nat>, toggle: bool,
                                           start: Timestamp)
    requires Continuing(s, nodeId, events, accept, x, base, at, lens, toggle, start) && pool.usage <= pool.capacity
    requires |lens| > 1 && After(|s.blocks|, at, lens[0]) - |s.blocks| <= pool.capacity - pool.usage
    ensures Ends(Feed(Some(s), pool, nodeId, events, accept), x, start, EndTime(events),
                 Checks(x, base) && Enough(pool, |s.blocks|, at, lens), pool.capacity, pool.usage - |s.blocks|)
    decreases |lens|, 0
  {
    hide OnFrame;
    hide Receive;
    hide Pieces;
    hide Mid;
    hide Wanted;
    hide Feed;
    hide Ends;
    hide After;
    hide Checks;
    Continues(s, pool, nodeId, events, accept, x, base, at, lens, toggle, start);
    var o := Receive(s, pool, events[0].frame, events[0].now, events[0].junk);
    RestDelivered(o.state, o.pool, nodeId, events[1..], accept, x, base, at + lens[0], lens[1..], !toggle, start);
    assert Enough(o.pool, |o.state.blocks|, at + lens[0], lens[1..]) == Enough(pool, |s.blocks|, at, lens);
    EndsLater(Some(s), pool, nodeId, events, accept, x, start, Checks(x, base) && Enough(pool, |s.blocks|, at, lens),
              pool.capacity, pool.usage - |s.blocks|);
  }

  /** The frames of a whole transfer, in time. */
  ghost predicate Conveys(events: seq<Event>, x: Sending, lens: seq<nat>) {
    Cut(x, lens) && Carries(events, CutFrames(x, lens)) && events != [] && AllInTime(events, events[0].now)
  }

  lemma {:induction false} FirstPiece(events: seq<Event>, x: Sending, lens: seq<nat>)
    requires Conveys(events, x, lens)
    ensures lens[0] <= |x.payload| && events[0].frame == StartPiece(x, lens[0])
    ensures Cuts(lens[1..], |x.payload| - lens[0])
    ensures BeforeEnd(x, lens[1..]) == BeforeEnd(x, lens)
    ensures Carries(events[1..], Pieces(x, lens[0], lens[1..], true)) && AllInTime(events[1..], events[0].now)
  {
    var frames := CutFrames(x, lens);
    assert frames[1..] == Pieces(x, lens[0], lens[1..], true);
  }

  lemma {:induction false} Starts(view: Option<RxState>, pool: Pool, nodeId: byte, events: seq<Event>,
                                  accept: Acceptance, x: Sending, lens: seq<nat>)
    requires Conveys(events, x, lens) && BeforeEnd(x, lens) <= MAX_PAYLOAD
    requires Wanted(x, nodeId, accept) && Receptive(view, x.tid, events[0].now)
    requires pool.usage + Opening(view) <= pool.capacity
    ensures lens != [] && events != []
    ensures var r := OnFrame(view, pool, nodeId, events[0], accept);
      && r.delivered == None && r.view.Some? && r.view.value.blocks == []
      && Continuing(r.view.value, nodeId, events[1..], accept, x, 0, lens[0], lens[1..], true, events[0].now)
      && r.pool.capacity == pool.capacity && r.pool.usage == pool.usage + Opening(view)
  {
    FirstPiece(events, x, lens);
    StartTaken(view, pool, nodeId, events[0], accept, x, lens[0]);
    hide OnFrame;
    hide Mid;
    hide Receptive;
    hide Wanted;
    hide Pieces;
    hide CutFrames;
    hide StartPiece;
  }

  /** The blocks a transfer cut like this needs, besides the state itself, are there. */
  predicate RoomFor(pool: Pool, view: Option<RxState>, lens: seq<nat>)
    requires lens != []
  {
    ChainAt(0, lens[0], lens[1..]) <= pool.capacity - pool.usage - Opening(view)
  }

  /** However its sender cut it, with up to 1023 bytes before the final frame: a transfer fed in order to a receptive
      receiver is delivered exactly once, by the last frame, with the payload that was sent, exactly if the carried CRC
      is right and the blocks can be had; either way the state is left idle and every block but that of the state itself
      is back in the pool. */
  lemma {:induction false} CutDelivered(view: Option<RxState>, pool: Pool, nodeId: byte, events: seq<Event>,
                                        accept: Acceptance, x: Sending, lens: seq<nat>)
    requires Conveys(events, x, lens) && BeforeEnd(x, lens) <= MAX_PAYLOAD
    requires Wanted(x, nodeId, accept) && Receptive(view, x.tid, events[0].now)
    requires pool.usage + Opening(view) <= pool.capacity
    ensures Ends(Feed(view, pool, nodeId, events, accept), x, events[0].now, EndTime(events),
                 Good(x) && RoomFor(pool, view, lens), pool.capacity, pool.usage + Opening(view))
  {
    hide *;
    Starts(view, pool, nodeId, events, accept, x, lens);
    var r := OnFrame(view, pool, nodeId, events[0], accept);
    RestDelivered(r.view.value, r.pool, nodeId, events[1..], accept, x, 0, lens[0], lens[1..], true, events[0].now);
    AllGood(x, pool, r.pool, view, lens);
    EndsLater(view, pool, nodeId, events, accept, x, events[0].now, Good(x) && RoomFor(pool, view, lens), pool.capacity,
              pool.usage + Opening(view));
  }

  /** The whole transfer, seen after its first frame. */
  lemma {:induction false} AllGood(x: Sending, pool: Pool, later: Pool, view: Option<RxState>, lens: seq<nat>)
    requires lens != [] && later.capacity == pool.capacity && later.usage == pool.usage + Opening(view)
    ensures Checks(x, 0) <==> Good(x)
    ensures Enough(later, 0, lens[0], lens[1..]) <==> RoomFor(pool, view, lens)
  {
    assert x.payload[0..] == x.payload;
    hide TransferCrc;
    hide ChainAt;
    hide Opening;
  }
}
