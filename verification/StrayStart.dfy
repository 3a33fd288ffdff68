/** A start frame of a transfer's own descriptor in the middle of it: refused, it overwrites the running CRC; taken for
    a continuation, its bytes are stored again. */
module StrayStart {
  import opened Types
  import opened CanId
  import CrcRegister
  import opened Crc
  import opened Fragment
  import opened RxBuffer
  import opened Receiver
  import opened Reassembly

  /** A start frame of the descriptor that a half-received transfer refuses: in time and not at an unrelated transfer
      ID, so that nothing restarts, but with the wrong toggle, the previous transfer ID, or too short. */
  predicate Stray(s: RxState, e: Event, x: Sending) {
    var f := e.frame;
    && f.id == x.id && f.data != [] && IsStart(TailOf(f)) && !IsEnd(TailOf(f))
    && !NeedsRestart(s, TailOf(f), e.now)
    && (Toggle(TailOf(f)) != s.core.nextToggle || TransferIdOf(TailOf(f)) != s.core.transferId || |f.data| <= 3)
  }

  /** The start frame of the transfer itself, once more, when the next frame is due with the toggle set. */
  lemma {:induction false} RepeatedStartIsStray(s: RxState, e: Event, x: Sending, base: nat, at: nat, n: nat,
                                                start: Timestamp)
    requires base <= at <= |x.payload| && n <= 5 && n <= |x.payload|
    requires Mid(s, x, base, at, true, start) && InTime(e.now, start) && e.frame == StartPiece(x, n)
    ensures Stray(s, e, x)
  {
    StartTail(x.tid);
    SameTid(x.tid & 0x1F);
    hide Layout;
    hide Contents;
  }

  lemma {:induction false} SameTid(k: byte)
    ensures !(ForwardDistance(k, k) > 1)
  {
  }

  lemma {:induction false} StrayRefused(s: RxState, pool: Pool, nodeId: byte, e: Event, accept: Acceptance, x: Sending)
    requires Stray(s, e, x) && Wanted(x, nodeId, accept)
    ensures var r := OnFrame(Some(s), pool, nodeId, e, accept);
      r.view == Some(WithCrc(s, SignatureCrc(x.signature))) && r.pool == pool && r.delivered == None && r.code < 0
  {
    hide SignatureCrc;
    WantedStart(Some(s), pool, nodeId, e, accept, x);
    var s1 := Opened(Some(s), x.id, x.signature, e.junk);
    assert Receive(s1, pool, e.frame, e.now, e.junk) == Proceed(s1, pool, e.frame, e.now, e.junk);
  }

  /** From then on the register counts from the byte where the stray frame came. */
  lemma {:induction false} StrayRebases(s: RxState, nodeId: byte, events: seq<Event>, accept: Acceptance, x: Sending,
                                        base: nat, at: nat, lens: seq<nat>, toggle: bool, start: Timestamp)
    requires Continuing(s, nodeId, events, accept, x, base, at, lens, toggle, start)
    ensures Continuing(WithCrc(s, SignatureCrc(x.signature)), nodeId, events, accept, x, at, at, lens, toggle, start)
  {
    assert x.payload[at..at] == [];
    hide Wanted;
    hide Pieces;
    hide Cuts;
    hide SignatureCrc;
    var r := WithCrc(s, SignatureCrc(x.signature));
    assert Contents(r) == Contents(s);
  }

  lemma {:induction false} CrcAddInjective(x: bv16, y: bv16, bytes: seq<byte>)
    requires CrcAdd(x, bytes) == CrcAdd(y, bytes)
    ensures x == y
  {
    CrcAddIsBitwise(x, bytes);
    CrcAddIsBitwise(y, bytes);
    CrcRegister.CrcBitsInjective(x, y, Bits(bytes));
  }

  /** A sound transfer still checks exactly if its first `at` bytes happen to bring the register back to where it began.
      */
  lemma {:induction false} ChecksFrom(x: Sending, at: nat)
    requires at <= |x.payload| && Good(x)
    ensures Checks(x, at) <==> TransferCrc(x.signature, x.payload[..at]) == SignatureCrc(x.signature)
  {
    hide CrcAdd;
    CrcAddConcat(SignatureCrc(x.signature), x.payload[..at], x.payload[at..]);
    assert x.payload[..at] + x.payload[at..] == x.payload;
    if Checks(x, at) {
      CrcAddInjective(SignatureCrc(x.signature), TransferCrc(x.signature, x.payload[..at]), x.payload[at..]);
    }
  }

  /** After a stray start frame at byte `at` the rest of a sound transfer, with memory for it, is delivered if and only
      if the CRC of its first `at` bytes is that of no bytes at all. */
  lemma {:induction false} StrayExactly(s: RxState, pool: Pool, nodeId: byte, events: seq<Event>, accept: Acceptance,
                                        x: Sending, at: nat, lens: seq<nat>, toggle: bool, start: Timestamp)
    requires events != [] && Stray(s, events[0], x)
    requires Continuing(s, nodeId, events[1..], accept, x, 0, at, lens, toggle, start) && Good(x)
    requires pool.usage <= pool.capacity && Enough(pool, |s.blocks|, at, lens)
    ensures Ends(Feed(Some(s), pool, nodeId, events, accept), x, start, EndTime(events),
                 TransferCrc(x.signature, x.payload[..at]) == SignatureCrc(x.signature), pool.capacity,
                 pool.usage - |s.blocks|)
  {
    hide Mid;
    hide Feed;
    hide Ends;
    hide OnFrame;
    hide Stray;
    hide Checks;
    hide Good;
    hide Enough;
    StrayRefused(s, pool, nodeId, events[0], accept, x);
    StrayRebases(s, nodeId, events[1..], accept, x, 0, at, lens, toggle, start);
    var r := WithCrc(s, SignatureCrc(x.signature));
    RestDelivered(r, pool, nodeId, events[1..], accept, x, at, at, lens, toggle, start);
    ChecksFrom(x, at);
    EndsLater(Some(s), pool, nodeId, events, accept, x, start, Checks(x, at), pool.capacity, pool.usage - |s.blocks|);
  }

  // ---------------------------------------------------------------- a start frame that is taken for a continuation

  /** What the receiver puts together when a start frame of `y`, with `n` bytes, comes after `at` bytes of `x`. */
  predicate Grafted(x: Sending, y: Sending, z: Sending, at: nat, n: nat) {
    && at <= |x.payload| && n <= |y.payload| && at + n <= |z.payload|
    && z == y.(payload := z.payload) && z.payload[..at] == x.payload[..at] && z.payload[at..at + n] == y.payload[..n]
  }

  /** When a clear toggle is due, a start frame with the transfer ID that is being received passes every check and is
      stored as the next frame; the time and the CRC begin anew, and a set toggle is due. */
  lemma {:induction false} StartStored(s: RxState, pool: Pool, nodeId: byte, e: Event, accept: Acceptance, x: Sending,
                                       y: Sending, z: Sending, base: nat, at: nat, n: nat, start: Timestamp)
    requires base <= at && 1 <= n <= 5 && at + n <= MAX_PAYLOAD && Grafted(x, y, z, at, n)
    requires y.tid & 0x1F == x.tid & 0x1F && Wanted(y, nodeId, accept) && e.frame == StartPiece(y, n)
    requires Mid(s, x, base, at, false, start) && InTime(e.now, start) && pool.usage <= pool.capacity
    requires After(|s.blocks|, at, n) - |s.blocks| <= pool.capacity - pool.usage
    ensures var r := OnFrame(Some(s), pool, nodeId, e, accept);
      && r.code == OK && r.delivered == None && r.view.Some?
      && Mid(r.view.value, z, at, at + n, true, e.now) && |r.view.value.blocks| == After(|s.blocks|, at, n)
      && r.pool.capacity == pool.capacity && r.pool.usage == pool.usage + |r.view.value.blocks| - |s.blocks|
  {
    hide Mid;
    hide OnFrame;
    hide Receive;
    hide Store;
    hide After;
    hide SignatureCrc;
    var s1 := WithCrc(s, SignatureCrc(y.signature));
    var s2 := s1.(core := s1.core.(timestamp := e.now));
    StartTail(y.tid);
    SameTid(x.tid & 0x1F);
    WantedStart(Some(s), pool, nodeId, e, accept, y);
    StartProceeds(s1, s, pool, e, x, y, base, at, n, start);
    GraftedMid(s, x, y, z, base, at, n, start, e.now);
    StoreChunk(s2, pool, z, at, at, n, false, e.now, e.junk);
  }

  lemma {:induction false} StartProceeds(s1: RxState, s: RxState, pool: Pool, e: Event, x: Sending, y: Sending,
                                         base: nat, at: nat, n: nat, start: Timestamp)
    requires base <= at <= |x.payload| && 1 <= n <= 5 && n <= |y.payload| && e.frame == StartPiece(y, n)
    requires y.tid & 0x1F == x.tid & 0x1F && s1 == WithCrc(s, SignatureCrc(y.signature))
    requires Mid(s, x, base, at, false, start) && InTime(e.now, start)
    ensures Receive(s1, pool, e.frame, e.now, e.junk)
         == Store(s1.(core := s1.core.(timestamp := e.now)), pool, y.payload[..n], y.crc, e.junk)
  {
    hide Store;
    hide SignatureCrc;
    hide Contents;
    hide Layout;
    StartTail(y.tid);
    SameTid(x.tid & 0x1F);
    CrcBytesJoin(y.crc);
    var f := e.frame;
    assert f.data[2..|f.data| - 1] == y.payload[..n];
    assert CarriedCrc(f) == y.crc;
    hide CarriedCrc;
    assert !NeedsRestart(s1, TailOf(f), e.now);
    assert Receive(s1, pool, f, e.now, e.junk) == Proceed(s1, pool, f, e.now, e.junk);
  }

  /** The state seen as part of what is being put together now. */
  lemma {:induction false} GraftedMid(s: RxState, x: Sending, y: Sending, z: Sending, base: nat, at: nat, n: nat,
                                      start: Timestamp, now: Timestamp)
    requires base <= at && Grafted(x, y, z, at, n) && y.tid & 0x1F == x.tid & 0x1F
    requires Mid(s, x, base, at, false, start)
    ensures var s1 := WithCrc(s, SignatureCrc(y.signature)); var s2 := s1.(core := s1.core.(timestamp := now));
      Mid(s2.(core := s2.core.(payloadCrc := z.crc)), z, at, at, false, now)
  {
    hide SignatureCrc;
    assert z.payload[at..at] == [];
    var s1 := WithCrc(s, SignatureCrc(y.signature));
    var s2 := s1.(core := s1.core.(timestamp := now, payloadCrc := z.crc));
    assert Contents(s2) == Contents(s);
  }

  // ---------------------------------------------------------------- the first frame once more

  /** What the receiver has and gets when the first `n` bytes come again after `at` bytes and the next frame, of `lost`
      bytes, is refused. */
  function Doubled(x: Sending, at: nat, n: nat, lost: nat): Sending
    requires at + lost <= |x.payload| && n <= |x.payload|
  {
    x.(payload := x.payload[..at] + x.payload[..n] + x.payload[at + lost..])
  }

  /** When a clear toggle is due, the transfer's own first frame is stored as the next one. */
  lemma {:induction false} RepeatedStartTaken(s: RxState, pool: Pool, nodeId: byte, e: Event, accept: Acceptance,
                                              x: Sending, base: nat, at: nat, n: nat, lost: nat, start: Timestamp)
    requires base <= at && at + lost <= |x.payload| && 1 <= n <= 5 && n <= |x.payload| && at + n <= MAX_PAYLOAD
    requires Mid(s, x, base, at, false, start) && InTime(e.now, start) && e.frame == StartPiece(x, n)
    requires Wanted(x, nodeId, accept) && pool.usage <= pool.capacity
    requires After(|s.blocks|, at, n) - |s.blocks| <= pool.capacity - pool.usage
    ensures var r := OnFrame(Some(s), pool, nodeId, e, accept);
      && r.code == OK && r.delivered == None && r.view.Some?
      && Mid(r.view.value, Doubled(x, at, n, lost), at, at + n, true, e.now)
      && |r.view.value.blocks| == After(|s.blocks|, at, n)
      && r.pool.capacity == pool.capacity && r.pool.usage == pool.usage + |r.view.value.blocks| - |s.blocks|
  {
    hide Mid;
    hide OnFrame;
    hide After;
    hide Wanted;
    hide StartPiece;
    assert Grafted(x, x, Doubled(x, at, n, lost), at, n);
    StartStored(s, pool, nodeId, e, accept, x, x, Doubled(x, at, n, lost), base, at, n, start);
  }

  /** The next genuine frame carries a clear toggle and is refused; nothing changes. */
  lemma {:induction false} WrongToggleRefused(s: RxState, pool: Pool, nodeId: byte, e: Event, accept: Acceptance,
                                              x: Sending, y: Sending, base: nat, at: nat, held: nat, n: nat, end: bool,
                                              start: Timestamp)
    requires base <= held <= |y.payload| && at + n <= |x.payload| && n <= 7
    requires Mid(s, y, base, held, true, start) && InTime(e.now, start)
    requires e.frame == Piece(x, at, n, end, false) && Wanted(x, nodeId, accept)
    ensures OnFrame(Some(s), pool, nodeId, e, accept) == Reply(-RX_WRONG_TOGGLE, Some(s), pool, None)
  {
    PieceTail(x, at, n, end, false);
    WantedContinuation(s, pool, nodeId, e, accept, x);
    hide OnFrame;
    hide Contents;
    hide Layout;
    hide SignatureCrc;
  }

  /** The frames behind the refused one are frames of what is being put together. */
  lemma {:induction false} SamePieces(x: Sending, y: Sending, i: nat, j: nat, lens: seq<nat>, toggle: bool)
    requires i <= |x.payload| && j <= |y.payload| && x.payload[i..] == y.payload[j..] && x.id == y.id && x.tid == y.tid
    requires Cuts(lens, |x.payload| - i)
    ensures |y.payload| - j == |x.payload| - i && Pieces(x, i, lens, toggle) == Pieces(y, j, lens, toggle)
    decreases |lens|
  {
    var p, q := x.payload, y.payload;
    assert |p[i..]| == |q[j..]|;
    if lens != [] {
      var n := lens[0];
      assert p[i..i + n] == p[i..][..n] == q[j..][..n] == q[j..j + n];
      assert p[i + n..] == p[i..][n..] == q[j..][n..] == q[j + n..];
      SamePieces(x, y, i + lens[0], j + lens[0], lens[1..], !toggle);
    }
  }

  /** A half-received transfer with a clear toggle due, its first frame once more, and the rest of its frames. */
  ghost predicate Repeats(s: RxState, nodeId: byte, events: seq<Event>, accept: Acceptance, x: Sending, at: nat, n: nat,
                          lens: seq<nat>, start: Timestamp) {
    && at <= |x.payload| && lens != [] && Cuts(lens, |x.payload| - at) && 1 <= n <= 5 && n <= |x.payload|
    && at + n <= MAX_PAYLOAD && Mid(s, x, 0, at, false, start) && Wanted(x, nodeId, accept)
    && events != [] && events[0].frame == StartPiece(x, n) && InTime(events[0].now, start)
    && Carries(events[1..], Pieces(x, at, lens, false)) && AllInTime(events[1..], events[0].now)
  }

  /** The first two of these frames. */
  lemma {:induction false} RepeatsTwo(s: RxState, pool: Pool, nodeId: byte, events: seq<Event>, accept: Acceptance,
                                      x: Sending, at: nat, n: nat, lens: seq<nat>, start: Timestamp)
    requires Repeats(s, nodeId, events, accept, x, at, n, lens, start) && pool.usage <= pool.capacity
    requires After(|s.blocks|, at, n) - |s.blocks| <= pool.capacity - pool.usage
    ensures |events| > 1 && lens[0] <= 7 && at + lens[0] <= |x.payload| && Cuts(lens[1..], |x.payload| - at - lens[0])
    ensures var y := Doubled(x, at, n, lens[0]);
      var r := OnFrame(Some(s), pool, nodeId, events[0], accept);
      && r.delivered == None && r.view.Some? && Mid(r.view.value, y, at, at + n, true, events[0].now)
      && |r.view.value.blocks| == After(|s.blocks|, at, n)
      && r.pool.capacity == pool.capacity && r.pool.usage == pool.usage + |r.view.value.blocks| - |s.blocks|
      && OnFrame(r.view, r.pool, nodeId, events[1], accept) == Reply(-RX_WRONG_TOGGLE, r.view, r.pool, None)
    ensures Carries(events[2..], Pieces(x, at + lens[0], lens[1..], true)) && AllInTime(events[2..], events[0].now)
  {
    hide Mid;
    hide OnFrame;
    hide Pieces;
    hide Cuts;
    hide After;
    hide Wanted;
    hide StartPiece;
    hide Doubled;
    PiecesRest(events[1..], x, at, lens, false, events[0].now);
    assert events[1..][1..] == events[2..] && events[1..][0] == events[1];
    RepeatedStartTaken(s, pool, nodeId, events[0], accept, x, 0, at, n, lens[0], start);
    var r := OnFrame(Some(s), pool, nodeId, events[0], accept);
    DoubledLength(x, at, n, lens[0]);
    WrongToggleRefused(r.view.value, r.pool, nodeId, events[1], accept, x, Doubled(x, at, n, lens[0]), at, at, at + n,
                       lens[0], |lens| == 1, events[0].now);
  }

  lemma {:induction false} DoubledLength(x: Sending, at: nat, n: nat, lost: nat)
    requires at + lost <= |x.payload| && n <= |x.payload|
    ensures var y := Doubled(x, at, n, lost);
      && |y.payload| == |x.payload| + n - lost && y.payload[at + n..] == x.payload[at + lost..]
      && y.payload[at..] == x.payload[..n] + x.payload[at + lost..]
      && y.id == x.id && y.tid == x.tid && y.signature == x.signature && y.crc == x.crc
  {
  }

  /** The situation after these two frames, when there are more. */
  lemma {:induction false} DoubledContinues(r: RxState, nodeId: byte, events: seq<Event>, accept: Acceptance,
                                            x: Sending, at: nat, n: nat, lens: seq<nat>, start: Timestamp)
    requires |lens| > 1 && lens[0] <= 7 && at + lens[0] <= |x.payload| && n <= |x.payload|
    requires Cuts(lens[1..], |x.payload| - at - lens[0]) && Wanted(x, nodeId, accept)
    requires BeforeEnd(Doubled(x, at, n, lens[0]), lens) <= MAX_PAYLOAD
    requires Mid(r, Doubled(x, at, n, lens[0]), at, at + n, true, start)
    requires Carries(events, Pieces(x, at + lens[0], lens[1..], true)) && AllInTime(events, start)
    ensures Continuing(r, nodeId, events, accept, Doubled(x, at, n, lens[0]), at, at + n, lens[1..], true, start)
  {
    hide Mid;
    hide Pieces;
    DoubledLength(x, at, n, lens[0]);
    SamePieces(x, Doubled(x, at, n, lens[0]), at + lens[0], at + n, lens[1..], true);
    hide Doubled;
    hide Cuts;
  }

  /** Both steps, then the rest. */
  lemma {:induction false} TwoQuiet(s: RxState, pool: Pool, nodeId: byte, events: seq<Event>, accept: Acceptance,
                                    x: Sending, start: Timestamp, good: bool, capacity: nat, usage: int)
    requires |events| > 1
    requires var a := OnFrame(Some(s), pool, nodeId, events[0], accept);
      var b := OnFrame(a.view, a.pool, nodeId, events[1], accept);
      && a.delivered == None && b.delivered == None
      && Ends(Feed(b.view, b.pool, nodeId, events[2..], accept), x, start, EndTime(events[2..]), good, capacity, usage)
    ensures Ends(Feed(Some(s), pool, nodeId, events, accept), x, start, EndTime(events), good, capacity, usage)
  {
    hide OnFrame;
    hide Feed;
    hide Ends;
    var a := OnFrame(Some(s), pool, nodeId, events[0], accept);
    assert events[1..][1..] == events[2..] && events[1..][0] == events[1];
    EndsLater(a.view, a.pool, nodeId, events[1..], accept, x, start, good, capacity, usage);
    EndsLater(Some(s), pool, nodeId, events, accept, x, start, good, capacity, usage);
  }

  /** A sound transfer still checks, after its first `n` bytes have taken the place of what came up to byte `at`,
      exactly if those make the same CRC. */
  lemma {:induction false} DoubledChecks(x: Sending, at: nat, n: nat, lost: nat)
    requires at + lost <= |x.payload| && n <= |x.payload| && Good(x)
    ensures at <= |Doubled(x, at, n, lost).payload|
    ensures Checks(Doubled(x, at, n, lost), at)
       <==> TransferCrc(x.signature, x.payload[..n]) == TransferCrc(x.signature, x.payload[..at + lost])
  {
    hide CrcAdd;
    hide Doubled;
    DoubledLength(x, at, n, lost);
    var rest := x.payload[at + lost..];
    CrcAddConcat(SignatureCrc(x.signature), x.payload[..n], rest);
    CrcAddConcat(SignatureCrc(x.signature), x.payload[..at + lost], rest);
    assert x.payload[..at + lost] + rest == x.payload;
    if Checks(Doubled(x, at, n, lost), at) {
      CrcAddInjective(TransferCrc(x.signature, x.payload[..n]), TransferCrc(x.signature, x.payload[..at + lost]), rest);
    }
  }

  /** When more than one frame is still to come, a sound transfer whose first frame is stored once more ends with a
      delivery if and only if, besides the memory, the CRC of those first bytes is that of everything up to and with the
      refused frame; and then it delivers these bytes twice and the refused ones not at all. */
  lemma {:induction false} RepeatedStartExactly(s: RxState, pool: Pool, nodeId: byte, events: seq<Event>,
                                                accept: Acceptance, x: Sending, at: nat, n: nat, lens: seq<nat>,
                                                start: Timestamp)
    requires Repeats(s, nodeId, events, accept, x, at, n, lens, start) && |lens| > 1 && Good(x)
    requires at + lens[0] <= |x.payload| && BeforeEnd(Doubled(x, at, n, lens[0]), lens) <= MAX_PAYLOAD
    requires pool.usage <= pool.capacity && After(|s.blocks|, at, n) - |s.blocks| <= pool.capacity - pool.usage
    ensures Ends(Feed(Some(s), pool, nodeId, events, accept), Doubled(x, at, n, lens[0]), events[0].now,
                 EndTime(events),
                 TransferCrc(x.signature, x.payload[..n]) == TransferCrc(x.signature, x.payload[..at + lens[0]])
                 && ChainAt(After(|s.blocks|, at, n), at + n, lens[1..]) - |s.blocks| <= pool.capacity - pool.usage,
                 pool.capacity, pool.usage - |s.blocks|)
  {
    hide Mid;
    hide OnFrame;
    hide Feed;
    hide Ends;
    hide Pieces;
    hide Cuts;
    hide After;
    hide ChainAt;
    hide Wanted;
    hide Doubled;
    hide Checks;
    hide TransferCrc;
    hide Good;
    RepeatsTwo(s, pool, nodeId, events, accept, x, at, n, lens, start);
    var y, r := Doubled(x, at, n, lens[0]), OnFrame(Some(s), pool, nodeId, events[0], accept);
    DoubledContinues(r.view.value, nodeId, events[2..], accept, x, at, n, lens, events[0].now);
    RestDelivered(r.view.value, r.pool, nodeId, events[2..], accept, y, at, at + n, lens[1..], true, events[0].now);
    DoubledChecks(x, at, n, lens[0]);
    var good := Checks(y, at) && Enough(r.pool, |r.view.value.blocks|, at + n, lens[1..]);
    TwoQuiet(s, pool, nodeId, events, accept, y, events[0].now, good, pool.capacity, pool.usage - |s.blocks|);
  }

  /** When only the final frame is still to come, that is the refused one: nothing is delivered, and what was received
      stays half-received. */
  lemma {:induction false} RepeatedStartHangs(s: RxState, pool: Pool, nodeId: byte, events: seq<Event>,
                                              accept: Acceptance, x: Sending, at: nat, n: nat, lens: seq<nat>,
                                              start: Timestamp)
    requires Repeats(s, nodeId, events, accept, x, at, n, lens, start) && |lens| == 1
    requires pool.usage <= pool.capacity && After(|s.blocks|, at, n) - |s.blocks| <= pool.capacity - pool.usage
    ensures at + lens[0] == |x.payload|
    ensures var r := Feed(Some(s), pool, nodeId, events, accept);
      Silent(r.log) && r.view.Some? && Mid(r.view.value, Doubled(x, at, n, lens[0]), at, at + n, true, events[0].now)
  {
    hide Mid;
    hide OnFrame;
    hide After;
    hide Wanted;
    hide Doubled;
    assert Sum(lens) == lens[0] + Sum(lens[1..]) && lens[1..] == [];
    RepeatsTwo(s, pool, nodeId, events, accept, x, at, n, lens, start);
    hide Pieces;
    hide Cuts;
    assert events[1..][1..] == events[2..] == [] && events[1..][0] == events[1];
    var a := OnFrame(Some(s), pool, nodeId, events[0], accept);
    FeedStep(Some(s), pool, nodeId, events, accept);
    FeedStep(a.view, a.pool, nodeId, events[1..], accept);
  }
}
