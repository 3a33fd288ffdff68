/** A second transfer under the same descriptor whose frames come in the middle of the first: exactly when the first one
    survives, and what is delivered. */
module Preemption {
  import opened Types
  import opened CanId
  import opened Crc
  import opened Fragment
  import opened RxBuffer
  import opened Receiver
  import opened Reassembly
  import opened RoundTrip
  import opened Halfway
  import opened StrayStart
  import opened SharedCounter

  // ---------------------------------------------------------------- frames that nothing waits for

  /** No frame of transfer `t` but a start frame can go on from here. */
  predicate Adrift(s: RxState, t: byte) {
    s.core.transferId != t && !s.core.nextToggle
  }

  lemma {:induction false} NextIsOther(t: byte)
    requires IsTid(t)
    ensures NextTid(t) != t
  {
  }

  lemma {:induction false} AdriftFrame(s: RxState, pool: Pool, f: Frame, now: Timestamp, junk: Junk, t: byte)
    requires f.data != [] && !IsStart(TailOf(f)) && TransferIdOf(TailOf(f)) == t && IsTid(t)
    requires Adrift(s, t) || NeedsRestart(s, TailOf(f), now)
    ensures var o := Receive(s, pool, f, now, junk); o.delivered == None && Adrift(o.state, t)
  {
    NextIsOther(t);
  }

  /** The later frames of a transfer that nothing waits for deliver nothing, whenever they come. */
  lemma {:induction false} AdriftRest(s: RxState, pool: Pool, nodeId: byte, events: seq<Event>, accept: Acceptance,
                                      x: Sending, at: nat, lens: seq<nat>, toggle: bool)
    requires at <= |x.payload| && Cuts(lens, |x.payload| - at) && Wanted(x, nodeId, accept)
    requires Carries(events, Pieces(x, at, lens, toggle)) && Adrift(s, x.tid & 0x1F)
    ensures var r := Feed(Some(s), pool, nodeId, events, accept);
      Silent(r.log) && r.view.Some? && Adrift(r.view.value, x.tid & 0x1F)
    decreases |lens|
  {
    hide Wanted;
    hide OnFrame;
    hide Pieces;
    hide Cuts;
    if lens == [] {
      NoPieces(events, x, at, toggle);
      FeedNothing(Some(s), pool, nodeId, accept);
      hide Carries;
    } else {
      hide Receive;
      hide Carries;
      hide Adrift;
      hide Feed;
      var t := x.tid & 0x1F;
      StaleNext(events, x, at, lens, toggle);
      WantedContinuation(s, pool, nodeId, events[0], accept, x);
      TidIsTid(x.tid);
      AdriftFrame(s, pool, events[0].frame, events[0].now, events[0].junk, t);
      var o := Receive(s, pool, events[0].frame, events[0].now, events[0].junk);
      AdriftRest(o.state, o.pool, nodeId, events[1..], accept, x, at + lens[0], lens[1..], !toggle);
      FeedStep(Some(s), pool, nodeId, events, accept);
    }
  }

  // ---------------------------------------------------------------- frames that are taken for others

  /** The receiver waits for a frame with this toggle and transfer ID, or for none of that transfer. */
  predicate Locked(s: RxState, t: byte, toggle: bool) {
    (s.core.transferId == t && s.core.nextToggle == toggle) || Adrift(s, t)
  }

  lemma {:induction false} StoreLocks(s: RxState, pool: Pool, chunk: seq<byte>, crc: bv16, junk: Junk, t: byte,
                                      toggle: bool)
    requires s.core.transferId == t && s.core.nextToggle == toggle && IsTid(t)
    ensures var o := Store(s, pool, chunk, crc, junk); o.delivered == None && Locked(o.state, t, !toggle)
  {
    hide PushBytes;
    hide CrcAdd;
    NextIsOther(t);
    PushAccounts(s, chunk, pool, junk.block);
  }

  /** A later frame of that transfer keeps step, whatever its bytes; the last one leaves nothing to wait for. */
  lemma {:induction false} LockedFrame(s: RxState, pool: Pool, f: Frame, now: Timestamp, junk: Junk, t: byte,
                                       toggle: bool)
    requires f.data != [] && !IsStart(TailOf(f)) && TransferIdOf(TailOf(f)) == t && IsTid(t)
    requires Locked(s, t, toggle) && Toggle(TailOf(f)) == toggle
    ensures var o := Receive(s, pool, f, now, junk);
      if IsEnd(TailOf(f)) then Adrift(o.state, t) else o.delivered == None && Locked(o.state, t, !toggle)
  {
    hide Store;
    hide CrcAdd;
    hide Splice;
    NextIsOther(t);
    if Adrift(s, t) || NeedsRestart(s, TailOf(f), now) {
      AdriftFrame(s, pool, f, now, junk, t);
    } else if !IsEnd(TailOf(f)) {
      StoreLocks(s, pool, f.data[..|f.data| - 1], s.core.payloadCrc, junk, t, toggle);
    }
  }

  /** All of them. */
  lemma {:induction false} LockedRest(s: RxState, pool: Pool, nodeId: byte, events: seq<Event>, accept: Acceptance,
                                      y: Sending, at: nat, lens: seq<nat>, toggle: bool)
    requires at <= |y.payload| && lens != [] && Cuts(lens, |y.payload| - at) && Wanted(y, nodeId, accept)
    requires Carries(events, Pieces(y, at, lens, toggle)) && Locked(s, y.tid & 0x1F, toggle)
    ensures var r := Feed(Some(s), pool, nodeId, events, accept); r.view.Some? && Adrift(r.view.value, y.tid & 0x1F)
    decreases |lens|
  {
    hide Wanted;
    hide OnFrame;
    hide Pieces;
    hide Cuts;
    hide Receive;
    hide Carries;
    hide Adrift;
    hide Locked;
    hide Feed;
    var t := y.tid & 0x1F;
    StaleNext(events, y, at, lens, toggle);
    FlagsNext(events, y, at, lens, toggle);
    WantedContinuation(s, pool, nodeId, events[0], accept, y);
    TidIsTid(y.tid);
    LockedFrame(s, pool, events[0].frame, events[0].now, events[0].junk, t, toggle);
    var o := Receive(s, pool, events[0].frame, events[0].now, events[0].junk);
    FeedStep(Some(s), pool, nodeId, events, accept);
    if |lens| > 1 {
      LockedRest(o.state, o.pool, nodeId, events[1..], accept, y, at + lens[0], lens[1..], !toggle);
    } else {
      NoPieces(events[1..], y, at + lens[0], !toggle);
      FeedNothing(Some(o.state), o.pool, nodeId, accept);
    }
  }

  lemma {:induction false} FlagsNext(events: seq<Event>, y: Sending, at: nat, lens: seq<nat>, toggle: bool)
    requires at <= |y.payload| && lens != [] && Cuts(lens, |y.payload| - at)
    requires Carries(events, Pieces(y, at, lens, toggle))
    ensures events != [] && events[0].frame.data != []
    ensures Toggle(TailOf(events[0].frame)) == toggle && (IsEnd(TailOf(events[0].frame)) <==> |lens| == 1)
    ensures |lens| == 1 ==> lens[1..] == []
  {
    var frames := Pieces(y, at, lens, toggle);
    assert frames[0] == Piece(y, at, lens[0], |lens| == 1, toggle);
    PieceTail(y, at, lens[0], |lens| == 1, toggle);
  }

  // ---------------------------------------------------------------- frames that are refused

  /** A later frame of another transfer, in time: refused, and nothing changes. */
  lemma {:induction false} OtherRefused(s: RxState, pool: Pool, f: Frame, now: Timestamp, junk: Junk)
    requires f.data != [] && !IsStart(TailOf(f)) && TransferIdOf(TailOf(f)) != s.core.transferId
    requires InTime(now, s.core.timestamp)
    ensures var o := Receive(s, pool, f, now, junk); o.state == s && o.pool == pool && o.delivered == None
  {
  }

  lemma {:induction false} OthersRefused(s: RxState, pool: Pool, nodeId: byte, events: seq<Event>, accept: Acceptance,
                                         y: Sending, at: nat, lens: seq<nat>, toggle: bool)
    requires at <= |y.payload| && Cuts(lens, |y.payload| - at) && Wanted(y, nodeId, accept)
    requires Carries(events, Pieces(y, at, lens, toggle)) && AllInTime(events, s.core.timestamp)
    requires y.tid & 0x1F != s.core.transferId
    ensures var r := Feed(Some(s), pool, nodeId, events, accept); r.view == Some(s) && r.pool == pool && Silent(r.log)
    decreases |lens|
  {
    hide Wanted;
    hide OnFrame;
    hide Pieces;
    hide Cuts;
    hide InTime;
    if lens == [] {
      NoPieces(events, y, at, toggle);
      FeedNothing(Some(s), pool, nodeId, accept);
      hide Carries;
    } else {
      hide Receive;
      hide Carries;
      hide Feed;
      StaleNext(events, y, at, lens, toggle);
      assert events[0] in events;
      WantedContinuation(s, pool, nodeId, events[0], accept, y);
      OtherRefused(s, pool, events[0].frame, events[0].now, events[0].junk);
      OthersRefused(s, pool, nodeId, events[1..], accept, y, at + lens[0], lens[1..], !toggle);
      FeedStep(Some(s), pool, nodeId, events, accept);
    }
  }

  // ---------------------------------------------------------------- one transfer in the middle of another

  /** The frames `ys` of `y` come when `x` has been received up to byte `at`, and then the rest `xs` of `x`, all in
      time. */
  ghost predicate Interrupted(s: RxState, nodeId: byte, ys: seq<Event>, xs: seq<Event>, accept: Acceptance, x: Sending,
                              y: Sending, at: nat, lens: seq<nat>, toggle: bool, cut: seq<nat>, start: Timestamp) {
    && Continuing(s, nodeId, xs, accept, x, 0, at, lens, toggle, start)
    && Conveys(ys, y, cut) && BeforeEnd(y, cut) <= MAX_PAYLOAD && Wanted(y, nodeId, accept)
    && DescriptorOf(y.id) == DescriptorOf(x.id) && AllInTime(ys, start)
  }

  /** How far the transfer ID of `y` is behind that of `x`, modulo 32. */
  function Lag(x: Sending, y: Sending): byte {
    ForwardDistance(x.tid & 0x1F, y.tid & 0x1F)
  }

  lemma {:induction false} Distances(a: byte, b: byte)
    requires IsTid(a) && IsTid(b)
    ensures ForwardDistance(a, b) == 0 <==> a == b
    ensures ForwardDistance(a, b) != 1 ==> NextTid(b) != a
  {
  }

  /** Both transfers have the signature of their data type. */
  lemma {:induction false} OneSignature(nodeId: byte, accept: Acceptance, x: Sending, y: Sending)
    requires Wanted(x, nodeId, accept) && Wanted(y, nodeId, accept) && DescriptorOf(y.id) == DescriptorOf(x.id)
    ensures y.signature == x.signature
  {
    SevenBits(x.id);
    SevenBits(y.id);
    DescriptorInjective(Fields(DataTypeOf(x.id), TypeOf(x.id), SourceOf(x.id), AddresseeOf(x.id)),
                        Fields(DataTypeOf(y.id), TypeOf(y.id), SourceOf(y.id), AddresseeOf(y.id)));
    hide MakeDescriptor;
    hide DataTypeOf;
    hide TypeOf;
    hide SourceOf;
    hide AddresseeOf;
  }

  lemma {:induction false} SevenBits(id: bv32)
    ensures SourceOf(id) < 128 && AddresseeOf(id) < 128
  {
  }

  /** What is known when the first frame of `y` comes. */
  lemma {:induction false} Interruption(s: RxState, nodeId: byte, ys: seq<Event>, xs: seq<Event>, accept: Acceptance,
                                        x: Sending, y: Sending, at: nat, lens: seq<nat>, toggle: bool, cut: seq<nat>,
                                        start: Timestamp)
    requires Interrupted(s, nodeId, ys, xs, accept, x, y, at, lens, toggle, cut, start)
    ensures at <= |x.payload| && lens != [] && Cuts(lens, |x.payload| - at) && Carries(xs, Pieces(x, at, lens, toggle))
    ensures Wanted(x, nodeId, accept) && y.signature == x.signature && xs != [] && ys != [] && InTime(ys[0].now, start)
    ensures s.core.transferId == x.tid & 0x1F && s.core.nextToggle == toggle && s.core.timestamp == start
    ensures cut != [] && cut[0] <= |y.payload| && ys[0].frame == StartPiece(y, cut[0]) && ys[0].frame.data != []
    ensures cut[1..] != [] && Cuts(cut[1..], |y.payload| - cut[0])
    ensures Carries(ys[1..], Pieces(y, cut[0], cut[1..], true)) && AllInTime(ys[1..], start)
    ensures InTime(ys[0].now, s.core.timestamp) && AllInTime(ys[1..], s.core.timestamp)
  {
    hide Wanted;
    hide Contents;
    hide Layout;
    hide TransferCrc;
    hide DescriptorOf;
    hide Pieces;
    OneSignature(nodeId, accept, x, y);
    FirstPiece(ys, y, cut);
    hide Conveys;
    hide StartPiece;
    assert ys[0] in ys;
  }

  /** Only `z` was delivered, by the last of the first `n` frames, if `good`. */
  ghost predicate Displaced(log: seq<Option<Transfer>>, n: nat, z: Sending, time: Timestamp, good: bool)
    requires n <= |log|
  {
    DeliversLast(log[..n], z, time, good) && Silent(log[n..])
  }

  /** After the frames of `y` nothing waits for those of `x`. */
  lemma {:induction false} RestSilent(s: RxState, pool: Pool, nodeId: byte, ys: seq<Event>, xs: seq<Event>,
                                      accept: Acceptance, x: Sending, at: nat, lens: seq<nat>, toggle: bool)
    requires at <= |x.payload| && Cuts(lens, |x.payload| - at) && Carries(xs, Pieces(x, at, lens, toggle))
    requires Wanted(x, nodeId, accept)
    requires var r := Feed(Some(s), pool, nodeId, ys, accept); r.view.Some? && Adrift(r.view.value, x.tid & 0x1F)
    ensures var r, q := Feed(Some(s), pool, nodeId, ys, accept), Feed(Some(s), pool, nodeId, ys + xs, accept);
      q.log[..|ys|] == r.log && Silent(q.log[|ys|..])
  {
    hide Feed;
    hide Wanted;
    hide Pieces;
    hide Adrift;
    hide Cuts;
    hide Carries;
    hide Silent;
    var r := Feed(Some(s), pool, nodeId, ys, accept);
    AdriftRest(r.view.value, r.pool, nodeId, xs, accept, x, at, lens, toggle);
    FeedConcat(Some(s), pool, nodeId, ys, xs, accept);
    var q := Feed(r.view, r.pool, nodeId, xs, accept);
    assert (r.log + q.log)[..|ys|] == r.log && (r.log + q.log)[|ys|..] == q.log;
  }

  lemma {:induction false} OtherReceptive(s: RxState, tid: byte, now: Timestamp)
    requires ForwardDistance(s.core.transferId, tid & 0x1F) > 1
    ensures Receptive(Some(s), tid, now)
  {
  }

  /** After `y` the receiver waits for neither. */
  lemma {:induction false} EndsAdrift(r: Fed, x: Sending, y: Sending, start: Timestamp, time: Timestamp, good: bool,
                                      capacity: nat, usage: int)
    requires Ends(r, y, start, time, good, capacity, usage) && Lag(x, y) != 1
    ensures r.view.Some? && Adrift(r.view.value, x.tid & 0x1F) && DeliversLast(r.log, y, time, good)
  {
    hide DeliversLast;
    TidIsTid(x.tid);
    TidIsTid(y.tid);
    Distances(x.tid & 0x1F, y.tid & 0x1F);
  }

  /** A transfer ID that is neither that of `x` nor the one before: `y` is delivered and `x` is lost. */
  lemma {:induction false} ByAnother(s: RxState, pool: Pool, nodeId: byte, ys: seq<Event>, xs: seq<Event>,
                                     accept: Acceptance, x: Sending, y: Sending, at: nat, lens: seq<nat>, toggle: bool,
                                     cut: seq<nat>, start: Timestamp)
    requires Interrupted(s, nodeId, ys, xs, accept, x, y, at, lens, toggle, cut, start) && Lag(x, y) > 1
    requires pool.usage <= pool.capacity
    ensures cut != []
         && Displaced(Feed(Some(s), pool, nodeId, ys + xs, accept).log, |ys|, y, EndTime(ys),
                      Good(y) && RoomFor(pool, Some(s), cut))
  {
    hide Feed;
    hide Wanted;
    hide Pieces;
    hide Cuts;
    hide Carries;
    hide Good;
    hide RoomFor;
    hide Continuing;
    hide AllInTime;
    hide StartPiece;
    hide DescriptorOf;
    hide Ends;
    hide DeliversLast;
    hide Silent;
    hide Conveys;
    hide Receptive;
    hide Adrift;
    Interruption(s, nodeId, ys, xs, accept, x, y, at, lens, toggle, cut, start);
    OtherReceptive(s, y.tid, ys[0].now);
    CutDelivered(Some(s), pool, nodeId, ys, accept, y, cut);
    EndsAdrift(Feed(Some(s), pool, nodeId, ys, accept), x, y, ys[0].now, EndTime(ys),
               Good(y) && RoomFor(pool, Some(s), cut), pool.capacity, pool.usage + Opening(Some(s)));
    RestSilent(s, pool, nodeId, ys, xs, accept, x, at, lens, toggle);
  }

  /** The start frame of `y` is refused; the CRC begins anew. */
  lemma {:induction false} StartRefused(s: RxState, pool: Pool, nodeId: byte, e: Event, accept: Acceptance, y: Sending,
                                        n: nat)
    requires 1 <= n <= 5 && n <= |y.payload| && e.frame == StartPiece(y, n) && Wanted(y, nodeId, accept)
    requires InTime(e.now, s.core.timestamp) && ForwardDistance(s.core.transferId, y.tid & 0x1F) <= 1
    requires s.core.nextToggle || s.core.transferId != y.tid & 0x1F
    ensures var r := OnFrame(Some(s), pool, nodeId, e, accept);
      r.view == Some(WithCrc(s, SignatureCrc(y.signature))) && r.pool == pool && r.delivered == None
  {
    hide Wanted;
    StartTail(y.tid);
    assert Stray(s, e, y);
    StrayRefused(s, pool, nodeId, e, accept, y);
    hide OnFrame;
    hide SignatureCrc;
  }

  /** All frames of `y` are refused. */
  lemma {:induction false} PreviousRefused(s: RxState, pool: Pool, nodeId: byte, ys: seq<Event>, accept: Acceptance,
                                           y: Sending, cut: seq<nat>)
    requires Conveys(ys, y, cut) && Wanted(y, nodeId, accept)
    requires InTime(ys[0].now, s.core.timestamp) && AllInTime(ys[1..], s.core.timestamp)
    requires ForwardDistance(s.core.transferId, y.tid & 0x1F) == 1 && IsTid(s.core.transferId)
    ensures var r := Feed(Some(s), pool, nodeId, ys, accept);
      Silent(r.log) && r.view == Some(WithCrc(s, SignatureCrc(y.signature))) && r.pool == pool
  {
    hide Wanted;
    hide OnFrame;
    hide Pieces;
    hide Feed;
    hide SignatureCrc;
    hide InTime;
    FirstPiece(ys, y, cut);
    TidIsTid(y.tid);
    Distances(s.core.transferId, y.tid & 0x1F);
    StartRefused(s, pool, nodeId, ys[0], accept, y, cut[0]);
    var r := WithCrc(s, SignatureCrc(y.signature));
    OthersRefused(r, pool, nodeId, ys[1..], accept, y, cut[0], cut[1..], true);
    FeedStep(Some(s), pool, nodeId, ys, accept);
  }

  /** The transfer ID before that of `x`: `y` is lost, and `x` is delivered if and only if the CRC of its bytes so far
      is that of no bytes. */
  lemma {:induction false} ByPrevious(s: RxState, pool: Pool, nodeId: byte, ys: seq<Event>, xs: seq<Event>,
                                      accept: Acceptance, x: Sending, y: Sending, at: nat, lens: seq<nat>, toggle: bool,
                                      cut: seq<nat>, start: Timestamp)
    requires Interrupted(s, nodeId, ys, xs, accept, x, y, at, lens, toggle, cut, start) && Lag(x, y) == 1
    requires Good(x) && pool.usage <= pool.capacity && Enough(pool, |s.blocks|, at, lens)
    ensures at <= |x.payload|
    ensures var log := Feed(Some(s), pool, nodeId, ys + xs, accept).log;
      && Silent(log[..|ys|])
      && DeliversLast(log[|ys|..], x, EndTime(xs),
                      TransferCrc(x.signature, x.payload[..at]) == SignatureCrc(x.signature))
  {
    hide Feed;
    hide Wanted;
    hide Pieces;
    hide Cuts;
    hide Carries;
    hide Good;
    hide Mid;
    hide AllInTime;
    hide InTime;
    hide StartPiece;
    hide DescriptorOf;
    hide TransferCrc;
    hide SignatureCrc;
    hide Silent;
    Interruption(s, nodeId, ys, xs, accept, x, y, at, lens, toggle, cut, start);
    TidIsTid(x.tid);
    PreviousRefused(s, pool, nodeId, ys, accept, y, cut);
    hide Conveys;
    StrayRebases(s, nodeId, xs, accept, x, 0, at, lens, toggle, start);
    hide Continuing;
    var r := WithCrc(s, SignatureCrc(x.signature));
    RestDelivered(r, pool, nodeId, xs, accept, x, at, at, lens, toggle, start);
    hide DeliversLast;
    hide Enough;
    ChecksFrom(x, at);
    hide Checks;
    FeedConcat(Some(s), pool, nodeId, ys, xs, accept);
    var a, b := Feed(Some(s), pool, nodeId, ys, accept).log, Feed(Some(r), pool, nodeId, xs, accept).log;
    assert (a + b)[..|ys|] == a && (a + b)[|ys|..] == b;
  }

  /** The transfer ID of `x` itself: the frames of `y` keep step with those of `x`, and its last one ends the transfer.
      */
  lemma {:induction false} BySame(s: RxState, pool: Pool, nodeId: byte, ys: seq<Event>, xs: seq<Event>,
                                  accept: Acceptance, x: Sending, y: Sending, at: nat, lens: seq<nat>, toggle: bool,
                                  cut: seq<nat>, start: Timestamp)
    requires Interrupted(s, nodeId, ys, xs, accept, x, y, at, lens, toggle, cut, start) && Lag(x, y) == 0
    ensures Silent(Feed(Some(s), pool, nodeId, ys + xs, accept).log[|ys|..])
  {
    hide Feed;
    hide Wanted;
    hide Pieces;
    hide Cuts;
    hide Carries;
    hide OnFrame;
    hide InTime;
    hide DescriptorOf;
    hide Silent;
    hide Locked;
    hide Adrift;
    Interruption(s, nodeId, ys, xs, accept, x, y, at, lens, toggle, cut, start);
    hide Continuing;
    TidIsTid(x.tid);
    TidIsTid(y.tid);
    Distances(x.tid & 0x1F, y.tid & 0x1F);
    SameStart(s, pool, nodeId, ys[0], accept, y, cut[0]);
    var r := OnFrame(Some(s), pool, nodeId, ys[0], accept);
    LockedRest(r.view.value, r.pool, nodeId, ys[1..], accept, y, cut[0], cut[1..], true);
    FeedStep(Some(s), pool, nodeId, ys, accept);
    RestSilent(s, pool, nodeId, ys, xs, accept, x, at, lens, toggle);
  }

  /** Its start frame is refused when a set toggle is due, and stored otherwise; a set toggle is due after it. */
  lemma {:induction false} SameStart(s: RxState, pool: Pool, nodeId: byte, e: Event, accept: Acceptance, y: Sending,
                                     n: nat)
    requires 1 <= n <= 5 && n <= |y.payload| && e.frame == StartPiece(y, n) && Wanted(y, nodeId, accept)
    requires InTime(e.now, s.core.timestamp) && s.core.transferId == y.tid & 0x1F
    ensures var r := OnFrame(Some(s), pool, nodeId, e, accept);
      r.view.Some? && r.delivered == None && Locked(r.view.value, y.tid & 0x1F, true)
  {
    hide Store;
    hide Wanted;
    hide CarriedCrc;
    hide SignatureCrc;
    StartTail(y.tid);
    TidIsTid(y.tid);
    SameTid(y.tid & 0x1F);
    if s.core.nextToggle {
      StartRefused(s, pool, nodeId, e, accept, y, n);
    } else {
      WantedStart(Some(s), pool, nodeId, e, accept, y);
      var s1 := WithCrc(s, SignatureCrc(y.signature));
      var s2 := s1.(core := s1.core.(timestamp := e.now));
      StoreLocks(s2, pool, e.frame.data[2..|e.frame.data| - 1], CarriedCrc(e.frame), e.junk, y.tid & 0x1F, false);
      assert Receive(s1, pool, e.frame, e.now, e.junk) == Proceed(s1, pool, e.frame, e.now, e.junk);
    }
    hide OnFrame;
  }

  lemma {:induction false} SilentIsLost(log: seq<Option<Transfer>>, x: Sending, time: Timestamp)
    requires log != [] && Silent(log)
    ensures DeliversLast(log, x, time, false)
  {
  }

  /** When a transfer in several frames comes in the middle of another one of its descriptor, the rest of a sound first
      one, with memory for it, is delivered if and only if the second one has the transfer ID before it, so that all its
      frames are refused, and the CRC of the bytes received until then is that of no bytes. */
  lemma {:induction false} SurvivesExactly(s: RxState, pool: Pool, nodeId: byte, ys: seq<Event>, xs: seq<Event>,
                                           accept: Acceptance, x: Sending, y: Sending, at: nat, lens: seq<nat>,
                                           toggle: bool, cut: seq<nat>, start: Timestamp)
    requires Interrupted(s, nodeId, ys, xs, accept, x, y, at, lens, toggle, cut, start)
    requires Good(x) && pool.usage <= pool.capacity && Enough(pool, |s.blocks|, at, lens)
    ensures at <= |x.payload|
    ensures DeliversLast(Feed(Some(s), pool, nodeId, ys + xs, accept).log[|ys|..], x, EndTime(xs),
                         Lag(x, y) == 1
                         && TransferCrc(x.signature, x.payload[..at]) == SignatureCrc(x.signature))
  {
    hide Feed;
    hide DeliversLast;
    hide Silent;
    hide Good;
    hide Enough;
    hide TransferCrc;
    hide SignatureCrc;
    hide Lag;
    Interruption(s, nodeId, ys, xs, accept, x, y, at, lens, toggle, cut, start);
    hide Pieces;
    hide Cuts;
    hide Carries;
    hide Wanted;
    hide AllInTime;
    hide Interrupted;
    var log := Feed(Some(s), pool, nodeId, ys + xs, accept).log;
    if Lag(x, y) > 1 {
      ByAnother(s, pool, nodeId, ys, xs, accept, x, y, at, lens, toggle, cut, start);
      SilentIsLost(log[|ys|..], x, EndTime(xs));
    } else if Lag(x, y) == 1 {
      ByPrevious(s, pool, nodeId, ys, xs, accept, x, y, at, lens, toggle, cut, start);
    } else {
      BySame(s, pool, nodeId, ys, xs, accept, x, y, at, lens, toggle, cut, start);
      SilentIsLost(log[|ys|..], x, EndTime(xs));
    }
  }

  lemma {:induction false} SingleAdrift(s: RxState, pool: Pool, f: Frame, now: Timestamp, junk: Junk, t: byte)
    requires f.data != [] && IsStart(TailOf(f)) && IsEnd(TailOf(f)) && InTime(now, s.core.timestamp)
    requires s.core.transferId == t && IsTid(t)
    ensures var o := Receive(s, pool, f, now, junk); Adrift(o.state, t)
  {
    var u := TransferIdOf(TailOf(f));
    NextIsOther(t);
    Distances(t, u);
    hide MakeTransfer;
  }

  /** A single-frame transfer in the middle of another one is delivered, whatever its transfer ID, and the other one is
      lost. */
  lemma {:induction false} SingleDisplaces(s: RxState, pool: Pool, nodeId: byte, e: Event, xs: seq<Event>,
                                           accept: Acceptance, x: Sending, y: Sending, at: nat, lens: seq<nat>,
                                           toggle: bool, start: Timestamp)
    requires Continuing(s, nodeId, xs, accept, x, 0, at, lens, toggle, start) && Wanted(y, nodeId, accept)
    requires |y.payload| < 8 && e.frame == SingleFrame(y.id, y.tid, y.payload) && InTime(e.now, start)
    ensures Displaced(Feed(Some(s), pool, nodeId, [e] + xs, accept).log, 1, y, e.now, true)
  {
    hide Announces;
    hide Wanted;
    hide Pieces;
    hide Receive;
    hide OnFrame;
    hide Layout;
    hide Contents;
    hide TransferCrc;
    TailByteFields(true, true, false, y.tid);
    TidIsTid(x.tid);
    SingleDelivered(Some(s), pool, nodeId, e, accept, y);
    WantedStart(Some(s), pool, nodeId, e, accept, y);
    var s1 := Opened(Some(s), y.id, y.signature, e.junk);
    SingleAdrift(s1, pool, e.frame, e.now, e.junk, x.tid & 0x1F);
    OneFrameFed(s, pool, nodeId, e, accept);
    RestSilent(s, pool, nodeId, [e], xs, accept, x, at, lens, toggle);
  }

  lemma {:induction false} OneFrameFed(s: RxState, pool: Pool, nodeId: byte, e: Event, accept: Acceptance)
    ensures var r := OnFrame(Some(s), pool, nodeId, e, accept);
      Feed(Some(s), pool, nodeId, [e], accept) == Fed(r.view, r.pool, [r.delivered])
  {
    hide OnFrame;
    var r := OnFrame(Some(s), pool, nodeId, e, accept);
    assert [e][1..] == [];
    FeedStep(Some(s), pool, nodeId, [e], accept);
    FeedNothing(r.view, r.pool, nodeId, accept);
  }

  // ---------------------------------------------------------------- what is delivered under the same transfer ID

  /** The bytes of `x` received so far, and all of `y`. */
  function Joined(x: Sending, y: Sending, at: nat): Sending
    requires at <= |x.payload|
  {
    y.(payload := x.payload[..at] + y.payload)
  }

  lemma {:induction false} JoinedLength(x: Sending, y: Sending, at: nat, n: nat)
    requires at <= |x.payload| && n <= |y.payload|
    ensures var z := Joined(x, y, at);
      && |z.payload| == at + |y.payload| && z.payload[at + n..] == y.payload[n..] && z.payload[at..] == y.payload
      && Grafted(x, y, z, at, n) && z.id == y.id && z.tid == y.tid && z.signature == y.signature && z.crc == y.crc
  {
  }

  /** Under the same transfer ID, when a clear toggle is due: `y` is delivered behind the bytes received before, and the
      CRC checks. In particular when `y` is `x` itself, sent once more. */
  lemma {:induction false} JoinedDelivered(s: RxState, pool: Pool, nodeId: byte, ys: seq<Event>, accept: Acceptance,
                                           x: Sending, y: Sending, base: nat, at: nat, cut: seq<nat>, start: Timestamp)
    requires base <= at <= |x.payload| && Mid(s, x, base, at, false, start)
    requires Conveys(ys, y, cut) && at + BeforeEnd(y, cut) <= MAX_PAYLOAD && Wanted(y, nodeId, accept)
    requires y.tid & 0x1F == x.tid & 0x1F && InTime(ys[0].now, start)
    requires pool.usage <= pool.capacity && After(|s.blocks|, at, cut[0]) - |s.blocks| <= pool.capacity - pool.usage
    ensures Ends(Feed(Some(s), pool, nodeId, ys, accept), Joined(x, y, at), ys[0].now, EndTime(ys),
                 Good(y) && ChainAt(After(|s.blocks|, at, cut[0]), at + cut[0], cut[1..]) - |s.blocks|
                            <= pool.capacity - pool.usage,
                 pool.capacity, pool.usage - |s.blocks|)
  {
    hide *;
    CutFirst(ys, y, cut);
    FirstPiece(ys, y, cut);
    var z, n := Joined(x, y, at), cut[0];
    JoinedLength(x, y, at, n);
    BoundFirst(at, n, y, cut);
    StartStored(s, pool, nodeId, ys[0], accept, x, y, z, base, at, n, start);
    var r := OnFrame(Some(s), pool, nodeId, ys[0], accept);
    SamePieces(y, z, n, at + n, cut[1..], true);
    SameWanted(y, z, nodeId, accept);
    AsContinuing(r.view.value, nodeId, ys[1..], accept, z, at, at + n, cut[1..], ys[0].now);
    RestDelivered(r.view.value, r.pool, nodeId, ys[1..], accept, z, at, at + n, cut[1..], true, ys[0].now);
    JoinedGood(x, y, at, r.pool, |r.view.value.blocks|, n, cut);
    var good := Checks(z, at) && Enough(r.pool, |r.view.value.blocks|, at + n, cut[1..]);
    EndsLater(Some(s), pool, nodeId, ys, accept, z, ys[0].now, good, pool.capacity, pool.usage - |s.blocks|);
  }

  lemma {:induction false} AsContinuing(s: RxState, nodeId: byte, events: seq<Event>, accept: Acceptance, z: Sending,
                                        base: nat, at: nat, lens: seq<nat>, start: Timestamp)
    requires base <= at <= |z.payload| && lens != [] && Cuts(lens, |z.payload| - at)
    requires BeforeEnd(z, lens) <= MAX_PAYLOAD && Mid(s, z, base, at, true, start) && Wanted(z, nodeId, accept)
    requires Carries(events, Pieces(z, at, lens, true)) && AllInTime(events, start)
    ensures Continuing(s, nodeId, events, accept, z, base, at, lens, true, start)
  {
  }

  lemma {:induction false} CutFirst(ys: seq<Event>, y: Sending, cut: seq<nat>)
    requires Conveys(ys, y, cut)
    ensures ys != [] && |cut| >= 2 && 1 <= cut[0] <= 5 && cut[1..] != []
  {
  }

  /** The last frame is behind the first. */
  lemma {:induction false} BoundFirst(at: nat, n: nat, y: Sending, cut: seq<nat>)
    requires |cut| >= 2 && n == cut[0] <= |y.payload| && Cuts(cut[1..], |y.payload| - n)
    requires at + BeforeEnd(y, cut) <= MAX_PAYLOAD
    ensures at + n <= MAX_PAYLOAD
    ensures forall z: Sending :: |z.payload| == at + |y.payload| ==> BeforeEnd(z, cut[1..]) <= MAX_PAYLOAD
  {
    LastInSum(cut[1..]);
    assert cut[1..][|cut[1..]| - 1] == cut[|cut| - 1];
  }

  lemma {:induction false} JoinedGood(x: Sending, y: Sending, at: nat, pool: Pool, k: nat, n: nat, cut: seq<nat>)
    requires at <= |x.payload| && n <= |y.payload| && cut != []
    ensures at <= |Joined(x, y, at).payload| && (Checks(Joined(x, y, at), at) <==> Good(y))
    ensures Enough(pool, k, at + n, cut[1..])
       <==> ChainAt(k, at + n, cut[1..]) - k <= pool.capacity - pool.usage
  {
    JoinedLength(x, y, at, n);
    hide Joined;
    hide TransferCrc;
  }

  lemma {:induction false} SameWanted(y: Sending, z: Sending, nodeId: byte, accept: Acceptance)
    requires Wanted(y, nodeId, accept) && z.id == y.id && z.signature == y.signature
    ensures Wanted(z, nodeId, accept)
  {
  }

  /** The bytes of `x` received so far, and those of `y` behind its first frame, under the CRC of `x`. */
  function Tacked(x: Sending, y: Sending, at: nat, n: nat): Sending
    requires at <= |x.payload| && n <= |y.payload|
  {
    y.(crc := x.crc, payload := x.payload[..at] + y.payload[n..])
  }

  lemma {:induction false} TackedLength(x: Sending, y: Sending, at: nat, n: nat)
    requires at <= |x.payload| && n <= |y.payload|
    ensures var z := Tacked(x, y, at, n);
      && |z.payload| == at + |y.payload| - n && z.payload[at..] == y.payload[n..]
      && z.id == y.id && z.tid == y.tid && z.signature == y.signature && z.crc == x.crc
  {
  }

  lemma {:induction false} TackedMid(s: RxState, x: Sending, y: Sending, base: nat, at: nat, n: nat, start: Timestamp)
    requires base <= at <= |x.payload| && n <= |y.payload| && Mid(s, x, base, at, true, start)
    requires y.tid & 0x1F == x.tid & 0x1F
    ensures Mid(WithCrc(s, SignatureCrc(y.signature)), Tacked(x, y, at, n), at, at, true, start)
  {
    hide SignatureCrc;
    var z, r := Tacked(x, y, at, n), WithCrc(s, SignatureCrc(y.signature));
    assert z.payload[..at] == x.payload[..at] && z.payload[at..at] == [];
    assert Contents(r) == Contents(s);
  }

  /** The first frame of `y` is refused, and the receiver is in the middle of the transfer that its others complete. */
  lemma {:induction false} TackedBegins(s: RxState, pool: Pool, nodeId: byte, ys: seq<Event>, accept: Acceptance,
                                        x: Sending, y: Sending, base: nat, at: nat, cut: seq<nat>, start: Timestamp)
    requires base <= at <= |x.payload| && Mid(s, x, base, at, true, start)
    requires Conveys(ys, y, cut) && at + BeforeEnd(y, cut) - cut[0] <= MAX_PAYLOAD && Wanted(y, nodeId, accept)
    requires y.tid & 0x1F == x.tid & 0x1F && AllInTime(ys, start)
    ensures ys != [] && |cut| >= 2 && cut[0] <= |y.payload|
    ensures var r, o := WithCrc(s, SignatureCrc(y.signature)), OnFrame(Some(s), pool, nodeId, ys[0], accept);
      && o.view == Some(r) && o.pool == pool && o.delivered == None && |r.blocks| == |s.blocks|
      && Continuing(r, nodeId, ys[1..], accept, Tacked(x, y, at, cut[0]), at, at, cut[1..], true, start)
  {
    hide OnFrame;
    hide Pieces;
    hide Wanted;
    hide StartPiece;
    hide Tacked;
    hide InTime;
    hide SignatureCrc;
    hide Contents;
    hide Layout;
    hide Tight;
    var n := cut[0];
    FirstPiece(ys, y, cut);
    assert ys[0] in ys;
    LastInSum(cut[1..]);
    assert cut[1..][|cut[1..]| - 1] == cut[|cut| - 1];
    SameTid(x.tid & 0x1F);
    StartRefused(s, pool, nodeId, ys[0], accept, y, n);
    TackedMid(s, x, y, base, at, n, start);
    hide Mid;
    var z := Tacked(x, y, at, n);
    TackedLength(x, y, at, n);
    SamePieces(y, z, n, at, cut[1..], true);
    SameWanted(y, z, nodeId, accept);
  }

  lemma {:induction false} TackedChecks(x: Sending, y: Sending, at: nat, n: nat)
    requires at <= |x.payload| && n <= |y.payload|
    ensures at <= |Tacked(x, y, at, n).payload|
    ensures Checks(Tacked(x, y, at, n), at) <==> x.crc == TransferCrc(y.signature, y.payload[n..])
  {
    TackedLength(x, y, at, n);
    hide Tacked;
    hide TransferCrc;
  }

  /** When a set toggle is due: the first frame of `y` is refused, and its others are delivered behind the bytes
      received before if and only if the CRC of those others alone is that of `x`. */
  lemma {:induction false} TackedDelivered(s: RxState, pool: Pool, nodeId: byte, ys: seq<Event>, accept: Acceptance,
                                           x: Sending, y: Sending, base: nat, at: nat, cut: seq<nat>, start: Timestamp)
    requires base <= at <= |x.payload| && Mid(s, x, base, at, true, start)
    requires Conveys(ys, y, cut) && at + BeforeEnd(y, cut) - cut[0] <= MAX_PAYLOAD && Wanted(y, nodeId, accept)
    requires y.tid & 0x1F == x.tid & 0x1F && AllInTime(ys, start) && pool.usage <= pool.capacity
    ensures cut[0] <= |y.payload|
    ensures Ends(Feed(Some(s), pool, nodeId, ys, accept), Tacked(x, y, at, cut[0]), start, EndTime(ys),
                 x.crc == TransferCrc(y.signature, y.payload[cut[0]..]) && Enough(pool, |s.blocks|, at, cut[1..]),
                 pool.capacity, pool.usage - |s.blocks|)
  {
    hide *;
    TackedBegins(s, pool, nodeId, ys, accept, x, y, base, at, cut, start);
    var n := cut[0];
    TackedChecks(x, y, at, n);
    var z, r := Tacked(x, y, at, n), WithCrc(s, SignatureCrc(y.signature));
    RestDelivered(r, pool, nodeId, ys[1..], accept, z, at, at, cut[1..], true, start);
    EndsLater(Some(s), pool, nodeId, ys, accept, z, start, Checks(z, at) && Enough(pool, |s.blocks|, at, cut[1..]),
              pool.capacity, pool.usage - |s.blocks|);
  }
}
