/** Where the final frame of a transfer continues in the storage, for every length and every way of cutting the transfer
    into frames. */
module FinalFrame {
  import opened Types
  import opened Fragment
  import opened RxBuffer
  import opened Receiver
  import opened Reassembly
  import opened RoundTrip
  import opened LongTransfers

  /** What the source asserts when the final frame comes: its first byte goes into the head, behind the head when there
      is no block, or to a position inside the last block. */
  predicate PositionInside(s: RxState) {
    s.core.payloadLen < HEAD_SIZE || s.blocks == [] || SpliceIndex(s) < BLOCK_SIZE
  }

  /** With `k` blocks the end of `len` bytes lies in the head, behind the head, or inside the last block. */
  predicate InsideAt(k: nat, len: nat) {
    len < HEAD_SIZE || k == 0 || HEAD_SIZE + BLOCK_SIZE * (k - 1) <= len < HEAD_SIZE + BLOCK_SIZE * k
  }

  /** So many bytes fill the head and one or more blocks exactly. */
  predicate FillsBlocks(n: int) {
    n > HEAD_SIZE && (n - HEAD_SIZE) % BLOCK_SIZE == 0
  }

  const MOST_BLOCKS := 0xFFFF

  lemma {:induction false} PositionIs(s: RxState)
    requires |s.blocks| <= MOST_BLOCKS
    ensures PositionInside(s) <==> InsideAt(|s.blocks|, s.core.payloadLen)
  {
  }

  // ---------------------------------------------------------------- the receiver just before the final frame

  ghost predicate Ready(r: Fed, len: int, k: nat) {
    r.view.Some? && Silent(r.log) && r.view.value.core.payloadLen == len && |r.view.value.blocks| == k
  }

  lemma {:induction false} ReadyLater(view: Option<RxState>, pool: Pool, nodeId: byte, events: seq<Event>,
                                      accept: Acceptance, len: int, k: nat)
    requires events != []
    requires var r := OnFrame(view, pool, nodeId, events[0], accept);
      r.delivered == None && Ready(Feed(r.view, r.pool, nodeId, events[1..], accept), len, k)
    ensures Ready(Feed(view, pool, nodeId, events, accept), len, k)
  {
  }

  lemma {:induction false} Front(view: Option<RxState>, pool: Pool, nodeId: byte, events: seq<Event>,
                                 accept: Acceptance, len: int, k: nat)
    requires |events| >= 2
    requires var r := OnFrame(view, pool, nodeId, events[0], accept);
      && r.delivered == None
      && Ready(Feed(r.view, r.pool, nodeId, events[1..][..|events[1..]| - 1], accept), len, k)
    ensures Ready(Feed(view, pool, nodeId, events[..|events| - 1], accept), len, k)
  {
    hide OnFrame;
    hide Feed;
    hide Ready;
    assert events[..|events| - 1][1..] == events[1..][..|events[1..]| - 1];
    ReadyLater(view, pool, nodeId, events[..|events| - 1], accept, len, k);
  }

  lemma {:induction false} ReadyNow(s: RxState, pool: Pool, nodeId: byte, events: seq<Event>, accept: Acceptance,
                                    x: Sending, at: nat, lens: seq<nat>, toggle: bool, start: Timestamp)
    requires Coming(s, nodeId, events, accept, x, at, lens, toggle, start) && |lens| == 1
    ensures events != []
    ensures Ready(Feed(Some(s), pool, nodeId, events[..|events| - 1], accept), BeforeEnd(x, lens) % WRAP_LENGTH,
                  HeldAt(|s.blocks|, at, lens))
  {
    assert Sum(lens) == lens[0] + Sum(lens[1..]) && lens[1..] == [];
    assert events[..|events| - 1] == [];
    assert BeforeEnd(x, lens) == at;
    hide Wanted;
    hide Pieces;
    hide Cuts;
  }

  lemma {:induction false} SomeLeft(s: RxState, nodeId: byte, events: seq<Event>, accept: Acceptance, x: Sending,
                                    at: nat, lens: seq<nat>, toggle: bool, start: Timestamp)
    requires Coming(s, nodeId, events, accept, x, at, lens, toggle, start)
    ensures events != [] && lens != []
    ensures |lens| > 1 ==> BeforeEnd(x, lens[1..]) == BeforeEnd(x, lens)
  {
  }

  lemma {:induction false} HeldOnward(k: nat, at: nat, lens: seq<nat>)
    requires |lens| > 1
    ensures HeldAt(k, at, lens) == HeldAt(Grown(k, at % WRAP_LENGTH, lens[0]), at + lens[0], lens[1..])
  {
  }

  lemma {:induction false} RestReady(s: RxState, pool: Pool, nodeId: byte, events: seq<Event>, accept: Acceptance,
                                     x: Sending, at: nat, lens: seq<nat>, toggle: bool, start: Timestamp)
    requires Coming(s, nodeId, events, accept, x, at, lens, toggle, start) && pool.usage <= pool.capacity
    requires Fits(pool, |s.blocks|, at, lens)
    ensures lens != [] && events != []
    ensures Ready(Feed(Some(s), pool, nodeId, events[..|events| - 1], accept), BeforeEnd(x, lens) % WRAP_LENGTH,
                  HeldAt(|s.blocks|, at, lens))
    decreases |lens|
  {
    hide Coming;
    hide Ready;
    hide Feed;
    hide OnFrame;
    hide Announcing;
    hide Announced;
    hide Fits;
    hide Grown;
    hide HeldAt;
    hide CanGrow;
    SomeLeft(s, nodeId, events, accept, x, at, lens, toggle, start);
    if |lens| == 1 {
      ReadyNow(s, pool, nodeId, events, accept, x, at, lens, toggle, start);
    } else {
      ShortLengths(s, nodeId, events, accept, x, at, lens, toggle, start);
      hide Cuts;
      hide Counting;
      hide Wanted;
      FitsFirst(pool, |s.blocks|, at, lens);
      var o := Middle(s, pool, nodeId, events, accept, x, at, lens, toggle, start);
      FitsOnward(pool, o.pool, |s.blocks|, at, lens);
      HeldOnward(|s.blocks|, at, lens);
      SomeLeft(o.state, nodeId, events[1..], accept, x, at + lens[0], lens[1..], !toggle, start);
      RestReady(o.state, o.pool, nodeId, events[1..], accept, x, at + lens[0], lens[1..], !toggle, start);
      Front(Some(s), pool, nodeId, events, accept, BeforeEnd(x, lens) % WRAP_LENGTH, HeldAt(|s.blocks|, at, lens));
    }
  }

  /** A transfer of any length and cut whose blocks can be had, at a receptive receiver. */
  ghost predicate Received(view: Option<RxState>, pool: Pool, nodeId: byte, events: seq<Event>, accept: Acceptance,
                           x: Sending, lens: seq<nat>) {
    && Conveys(events, x, lens) && Wanted(x, nodeId, accept) && Receptive(view, x.tid, events[0].now)
    && 0 <= pool.usage + Opening(view) <= pool.capacity <= MOST_BLOCKS && HasBlocks(pool, view, lens)
  }

  /** All its frames but the last. */
  lemma {:induction false} BeforeLast(view: Option<RxState>, pool: Pool, nodeId: byte, events: seq<Event>,
                                      accept: Acceptance, x: Sending, lens: seq<nat>)
    requires Received(view, pool, nodeId, events, accept, x, lens)
    ensures lens != [] && events != [] && HeldAt(0, lens[0], lens[1..]) <= MOST_BLOCKS
    ensures Ready(Feed(view, pool, nodeId, events[..|events| - 1], accept), BeforeEnd(x, lens) % WRAP_LENGTH,
                  HeldAt(0, lens[0], lens[1..]))
  {
    hide Ready;
    hide Feed;
    hide OnFrame;
    hide Receptive;
    hide Wanted;
    hide HeldAt;
    FirstCounts(view, pool, nodeId, events, accept, x, lens);
    FirstPiece(events, x, lens);
    var r := OnFrame(view, pool, nodeId, events[0], accept);
    assert Fits(r.pool, 0, lens[0], lens[1..]);
    SomeLeft(r.view.value, nodeId, events[1..], accept, x, lens[0], lens[1..], true, events[0].now);
    RestReady(r.view.value, r.pool, nodeId, events[1..], accept, x, lens[0], lens[1..], true, events[0].now);
    Front(view, pool, nodeId, events, accept, BeforeEnd(x, lens) % WRAP_LENGTH, HeldAt(0, lens[0], lens[1..]));
  }

  // ---------------------------------------------------------------- up to 1023 bytes before the final frame

  lemma {:induction false} NotWrapped(at: nat)
    requires at <= MAX_PAYLOAD
    ensures at % WRAP_LENGTH == at
  {
  }

  lemma {:induction false} AfterIsGrown(k: nat, at: nat, n: nat)
    requires Tight(k, at) && n <= 7 && at + n <= MAX_PAYLOAD
    ensures Grown(k, at, n) == After(k, at, n)
  {
  }

  /** Up to 1023 bytes the two ways of counting the blocks agree. */
  lemma {:induction false} HeldIsChain(k: nat, x: Sending, at: nat, lens: seq<nat>)
    requires at <= |x.payload| && lens != [] && Cuts(lens, |x.payload| - at) && BeforeEnd(x, lens) <= MAX_PAYLOAD
    requires Tight(k, at)
    ensures BeforeEnd(x, lens) >= 0 && HeldAt(k, at, lens) == ChainAt(k, at, lens)
    ensures Tight(ChainAt(k, at, lens), BeforeEnd(x, lens))
    decreases |lens|
  {
    hide Grown;
    hide After;
    hide Tight;
    if |lens| == 1 {
      assert lens[1..] == [] && Sum(lens) == lens[0];
    } else {
      NotYetEnd(x, at, lens);
      hide Cuts;
      NotWrapped(at);
      AfterIsGrown(k, at, lens[0]);
      AfterIsTight(k, at, lens[0]);
      HeldIsChain(After(k, at, lens[0]), x, at + lens[0], lens[1..]);
    }
  }

  lemma {:induction false} TightInside(k: nat, n: nat)
    requires Tight(k, n)
    ensures InsideAt(k, n) <==> !FillsBlocks(n)
  {
  }

  lemma {:induction false} ShortInside(x: Sending, lens: seq<nat>)
    requires Cut(x, lens) && BeforeEnd(x, lens) <= MAX_PAYLOAD
    ensures BeforeEnd(x, lens) >= 0
    ensures InsideAt(HeldAt(0, lens[0], lens[1..]), BeforeEnd(x, lens)) <==> !FillsBlocks(BeforeEnd(x, lens))
  {
    NotYetEnd(x, 0, lens);
    HeldIsChain(0, x, lens[0], lens[1..]);
    hide HeldAt;
    hide ChainAt;
    hide InsideAt;
    hide FillsBlocks;
    TightInside(HeldAt(0, lens[0], lens[1..]), BeforeEnd(x, lens));
  }

  /** The assertion about the position holds when the final frame comes, if and only if the counters that the lengths of
      the frames lead to say so; with at most 1023 bytes before the final frame, if and only if these do not fill the
      head and one or more blocks exactly. */
  lemma {:induction false} PositionExactly(view: Option<RxState>, pool: Pool, nodeId: byte, events: seq<Event>,
                                           accept: Acceptance, x: Sending, lens: seq<nat>)
    requires Received(view, pool, nodeId, events, accept, x, lens)
    ensures var s := Feed(view, pool, nodeId, events[..|events| - 1], accept).view;
      && s.Some?
      && (PositionInside(s.value) <==> InsideAt(HeldAt(0, lens[0], lens[1..]), BeforeEnd(x, lens) % WRAP_LENGTH))
      && (BeforeEnd(x, lens) <= MAX_PAYLOAD ==> (PositionInside(s.value) <==> !FillsBlocks(BeforeEnd(x, lens))))
  {
    hide Feed;
    hide PositionInside;
    hide FillsBlocks;
    hide InsideAt;
    hide HeldAt;
    BeforeLast(view, pool, nodeId, events, accept, x, lens);
    PositionIs(Feed(view, pool, nodeId, events[..|events| - 1], accept).view.value);
    if BeforeEnd(x, lens) <= MAX_PAYLOAD {
      ShortInside(x, lens);
    }
  }

  // ---------------------------------------------------------------- transfers of this library

  /** The blocks held after `at` bytes in frames of this library: as many as the bytes need until the length wraps, and
      then more than the length field could ever need, but for the beginning. */
  predicate OwnHeld(k: nat, at: nat) {
    && at % 7 == 5
    && if at <= MAX_PAYLOAD then k == BlocksFor(at)
       else k >= 38 || (k == 37 && at % WRAP_LENGTH <= 31 && at % WRAP_LENGTH % 7 == 3)
  }

  lemma {:induction false} OwnGrown(k: nat, at: nat)
    requires OwnHeld(k, at)
    ensures OwnHeld(Grown(k, at % WRAP_LENGTH, 7), at + 7)
  {
    hide Grown;
    if at + 7 <= MAX_PAYLOAD {
      NotWrapped(at);
      AfterIsGrown(k, at, 7);
      FullFrame(at);
      hide After;
    } else if at <= MAX_PAYLOAD {
      assert at == 1020;
      NotWrapped(at);
      OwnAtWrap();
    } else {
      GrowsByOne(k, at % WRAP_LENGTH, 7);
      if k == 37 {
        OwnAfterWrap(at % WRAP_LENGTH);
        NextLength(at);
      }
    }
  }

  lemma {:induction false} OwnAtWrap()
    ensures BlocksFor(1020) == 37 && Grown(37, 1020, 7) == 37
  {
  }

  lemma {:induction false} NextLength(at: nat)
    requires at % WRAP_LENGTH <= 31
    ensures (at + 7) % WRAP_LENGTH == at % WRAP_LENGTH + 7
  {
  }

  lemma {:induction false} OwnAfterWrap(len: nat)
    requires len <= 31 && len % 7 == 3
    ensures Grown(37, len, 7) == if len == 31 then 38 else 37
  {
    assert len == 3 || len == 10 || len == 17 || len == 24 || len == 31;
  }

  lemma {:induction false} LengthsHeld(k: nat, at: nat, n: nat)
    requires at < n && OwnHeld(k, at)
    ensures OwnHeld(HeldAt(k, at, Lengths(at, n)), BufferedFrom(at, n))
    decreases n - at
  {
    hide OwnHeld;
    hide Grown;
    hide Lengths;
    if n <= at + 7 {
      OneLength(at, n);
    } else {
      MoreLengths(at, n);
      OwnGrown(k, at);
      BufferedOnward(at, n);
      assert Lengths(at, n)[1..] == Lengths(at + 7, n);
      HeldOnward(k, at, Lengths(at, n));
      hide HeldAt;
      hide BufferedFrom;
      LengthsHeld(Grown(k, at % WRAP_LENGTH, 7), at + 7, n);
    }
  }

  /** Where the final frame of `n` bytes continues. */
  predicate OwnInside(n: nat)
    requires n >= 8
  {
    Buffered(n) <= MAX_PAYLOAD || Buffered(n) % WRAP_LENGTH < HEAD_SIZE
  }

  lemma {:induction false} HeldInside(k: nat, at: nat)
    requires OwnHeld(k, at)
    ensures InsideAt(k, at % WRAP_LENGTH) <==> at <= MAX_PAYLOAD || at % WRAP_LENGTH < HEAD_SIZE
  {
  }

  lemma {:induction false} OwnHeldInside(n: nat)
    requires n >= 8
    ensures InsideAt(HeldAt(0, 5, Lengths(5, n)), Buffered(n) % WRAP_LENGTH) <==> OwnInside(n)
  {
    LengthsHeld(0, 5, n);
    hide Lengths;
    hide OwnHeld;
    hide InsideAt;
    HeldInside(HeldAt(0, 5, Lengths(5, n)), Buffered(n));
  }

  lemma {:induction false} SomeOwnLengths()
    ensures forall n | 8 <= n <= LONGEST :: OwnInside(n)
    ensures !OwnInside(1035) && !FillsBlocks(Buffered(1035))
  {
  }

  /** For a transfer of this library the assertion holds if and only if at most 1023 bytes come before the final frame,
      or the length field has just wrapped and reads less than six; so it holds up to 1027 bytes and fails, for one, at
      1035 bytes, which fill no block exactly. A sound transfer is delivered either way. */
  lemma {:induction false} OwnFramesExactly(view: Option<RxState>, pool: Pool, nodeId: byte, events: seq<Event>,
                                            accept: Acceptance, x: Sending)
    requires |x.payload| >= 8 && Carries(events, Frames(x.id, x.tid, x.crc, x.payload)) && events != []
    requires AllInTime(events, events[0].now) && Wanted(x, nodeId, accept) && Receptive(view, x.tid, events[0].now)
    requires 0 <= pool.usage + Opening(view) <= pool.capacity <= MOST_BLOCKS
    requires HasBlocks(pool, view, OwnLengths(|x.payload|))
    ensures var s := Feed(view, pool, nodeId, events[..|events| - 1], accept).view;
      s.Some? && (PositionInside(s.value) <==> OwnInside(|x.payload|))
    ensures Announcing(Feed(view, pool, nodeId, events, accept).log, OwnAnnounced(|x.payload|), Good(x))
    ensures (|x.payload| <= LONGEST ==> OwnInside(|x.payload|)) && !OwnInside(1035)
  {
    hide Feed;
    hide PositionInside;
    hide InsideAt;
    hide Announcing;
    hide Lengths;
    hide Receptive;
    hide Wanted;
    hide HasBlocks;
    hide Good;
    hide OwnInside;
    SomeOwnLengths();
    OwnFramesCut(x);
    assert OwnLengths(|x.payload|)[1..] == Lengths(5, |x.payload|);
    OwnHeldInside(|x.payload|);
    OwnLengthAnnounced(view, pool, nodeId, events, accept, x);
    hide Frames;
    hide HeldAt;
    hide Buffered;
    PositionExactly(view, pool, nodeId, events, accept, x, OwnLengths(|x.payload|));
  }

  // ---------------------------------------------------------------- a transfer of another sender

  /** Frames of 5, 7, 7, 7, 7 and 1 bytes, then a final one: an input on which the assertion fails. */
  const WITNESS: seq<nat> := [5, 7, 7, 7, 7, 1]

  lemma {:induction false} Onward(k: nat, at: nat, n: nat, lens: seq<nat>)
    requires lens != []
    ensures Sum([n] + lens) == n + Sum(lens) && HeldAt(k, at, [n] + lens) == HeldAt(Grown(k, at % WRAP_LENGTH, n),
                                                                                    at + n, lens)
  {
    assert ([n] + lens)[1..] == lens;
  }

  lemma {:induction false} WitnessGrows()
    ensures Grown(0, 5, 7) == Grown(1, 12, 7) == Grown(1, 19, 7) == Grown(1, 26, 7) == Grown(1, 33, 1) == 1
    ensures 5 % WRAP_LENGTH == 5 && 12 % WRAP_LENGTH == 12 && 19 % WRAP_LENGTH == 19 && 26 % WRAP_LENGTH == 26
    ensures 33 % WRAP_LENGTH == 33
  {
  }

  lemma {:induction false} WitnessSums(n: nat)
    ensures Sum(WITNESS + [n]) == 34 + n && HeldAt(0, 5, (WITNESS + [n])[1..]) == 1
  {
    hide Sum;
    hide HeldAt;
    hide Grown;
    WitnessGrows();
    Onward(1, 33, 1, [n]);
    Onward(1, 26, 7, [1] + [n]);
    Onward(1, 19, 7, [7] + ([1] + [n]));
    Onward(1, 12, 7, [7] + ([7] + ([1] + [n])));
    Onward(0, 5, 7, [7] + ([7] + ([7] + ([1] + [n]))));
    Onward(0, 0, 5, [7] + ([7] + ([7] + ([7] + ([1] + [n])))));
    assert WITNESS + [n] == [5] + ([7] + ([7] + ([7] + ([7] + ([1] + [n])))));
    assert (WITNESS + [n])[1..] == [7] + ([7] + ([7] + ([7] + ([1] + [n]))));
    LastOne(1, 34, n);
  }

  lemma {:induction false} LastOne(k: nat, at: nat, n: nat)
    ensures Sum([n]) == n && HeldAt(k, at, [n]) == k
  {
    assert [n][1..] == [];
  }

  /** On a node that knows nothing of the sender and has two free blocks the position is one past the end of the block;
      the transfer is delivered all the same. */
  lemma {:induction false} WitnessOutside(pool: Pool, nodeId: byte, events: seq<Event>, accept: Acceptance, x: Sending)
    requires 34 <= |x.payload| && Conveys(events, x, WITNESS + [|x.payload| - 34]) && Wanted(x, nodeId, accept)
    requires Good(x) && 0 <= pool.usage && pool.usage + 2 <= pool.capacity <= MOST_BLOCKS
    ensures var s := Feed(None, pool, nodeId, events[..|events| - 1], accept).view;
      s.Some? && s.value.blocks != [] && SpliceIndex(s.value) == BLOCK_SIZE
    ensures DeliversLast(Feed(None, pool, nodeId, events, accept).log, x, EndTime(events), true)
  {
    hide Feed;
    hide DeliversLast;
    hide HeldAt;
    hide ChainAt;
    hide CutFrames;
    hide Wanted;
    hide Good;
    var lens := WITNESS + [|x.payload| - 34];
    WitnessSums(|x.payload| - 34);
    BeforeLast(None, pool, nodeId, events, accept, x, lens);
    assert BeforeEnd(x, lens) == 34;
    NotYetEnd(x, 0, lens);
    HeldIsChain(0, x, lens[0], lens[1..]);
    hide Cuts;
    CutDelivered(None, pool, nodeId, events, accept, x, lens);
  }
}
