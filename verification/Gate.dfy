/** What a node does not take in: frames that are none of its kind or none of its business, whole runs of them, and the
    code of every refusal, from the bare numbers of the frame. */
module Gate {
  import opened Types
  import opened CanId
  import opened Crc
  import opened Fragment
  import opened RxBuffer
  import opened Receiver
  import opened Reassembly
  import opened Streams
  import opened TxQueue
  import opened Library
  import opened Words
  import opened Wire

  // ---------------------------------------------------------------- frames that are turned away

  /** No extended frame, a remote or an error frame, or one without data: bit 31 is clear, bit 30 or 29 is set. */
  predicate Unusable(f: Frame) {
    var n := f.id as nat;
    n / 0x8000_0000 == 0 || n / 0x4000_0000 % 2 == 1 || n / 0x2000_0000 % 2 == 1 || |f.data| == 0
  }

  /** A service frame, bit 7 being set, whose destination, bits 8 to 14, is another node. */
  predicate ForAnother(f: Frame, nodeId: byte) {
    var n := f.id as nat;
    n / 0x80 % 2 == 1 && n / 0x100 % 0x80 != nodeId as nat
  }

  predicate TurnedAway(f: Frame, nodeId: byte) {
    Unusable(f) || ForAnother(f, nodeId)
  }

  lemma {:induction false} CompatibleExactly(f: Frame)
    ensures Compatible(f) <==> !Unusable(f)
  {
    FlagReads(f.id);
    TopBit(f.id as nat, f.id);
  }

  lemma {:induction false} TopBit(n: nat, id: bv32)
    requires n == id as nat
    ensures n / 0x8000_0000 <= 1
  {
    hide *;
    var q := Words.BytesOf(id);
    HighParts(id);
  }

  lemma {:induction false} AddressedExactly(f: Frame, nodeId: byte)
    ensures Addressed(f, nodeId) <==> !ForAnother(f, nodeId)
  {
    hide TypeOf;
    hide DestinationOf;
    IdReads(f.id);
    ByteNumbers(DestinationOf(f.id), nodeId);
  }

  lemma {:induction false} Refused(view: Option<RxState>, pool: Pool, nodeId: byte, e: Event, accept: Acceptance)
    ensures var r := OnFrame(view, pool, nodeId, e, accept);
      && (!Compatible(e.frame) ==> r == Reply(-10, view, pool, None))
      && (Compatible(e.frame) && !Addressed(e.frame, nodeId) ==> r == Reply(-11, view, pool, None))
  {
    hide Receive;
    hide Opened;
    hide Compatible;
    hide Addressed;
  }

  lemma {:induction false} Passed(view: Option<RxState>, pool: Pool, nodeId: byte, e: Event, accept: Acceptance)
    requires Compatible(e.frame) && Addressed(e.frame, nodeId)
    ensures OnFrame(view, pool, nodeId, e, accept).code in {0, 3, 17, -3, -12, -13, -14, -15, -16}
  {
    var f := e.frame;
    if IsStart(TailOf(f)) && Signature(accept, f.id).Some? {
      AnyCode(e, Opened(view, f.id, Signature(accept, f.id).value, e.junk), if view.Some? then pool else pool.Take());
    } else if view.Some? {
      AnyCode(e, view.value, pool);
    }
    hide Receive;
    hide Opened;
    hide Addressed;
  }

  /** Frames of the wrong kind get the code -10, those for other nodes -11, and both leave everything as it was; no
      other frame gets these codes. */
  lemma {:induction false} GateExactly(view: Option<RxState>, pool: Pool, nodeId: byte, e: Event, accept: Acceptance)
    ensures var r := OnFrame(view, pool, nodeId, e, accept);
      && (r.code == -10 <==> Unusable(e.frame))
      && (r.code == -11 <==> !Unusable(e.frame) && ForAnother(e.frame, nodeId))
      && (r.code == -10 || r.code == -11 ==> r.view == view && r.pool == pool && r.delivered == None)
  {
    hide *;
    CompatibleExactly(e.frame);
    AddressedExactly(e.frame, nodeId);
    Refused(view, pool, nodeId, e, accept);
    if Compatible(e.frame) && Addressed(e.frame, nodeId) {
      Passed(view, pool, nodeId, e, accept);
    }
  }

  lemma {:induction false} AnyCode(e: Event, s: RxState, pool: Pool)
    ensures e.frame.data != [] ==> Receive(s, pool, e.frame, e.now, e.junk).code in {0, 3, 17, -13, -14, -15, -16}
  {
    hide PushBytes;
    hide Splice;
    hide CrcAdd;
  }

  // ---------------------------------------------------------------- nodes and runs

  lemma {:induction false} UpdateNothing(rx: seq<RxState>, d: bv32)
    ensures Update(rx, d, Lookup(rx, d)) == rx
  {
  }

  /** A frame that is turned away changes nothing on the node and delivers nothing, whatever states the node has. */
  lemma {:induction false} NodeUntouched(n: Node, e: Event, accept: Acceptance)
    requires TurnedAway(e.frame, n.nodeId)
    ensures HandleRx(n, e, accept) == Handled(if Unusable(e.frame) then -10 else -11, n, None)
  {
    var d := DescriptorOf(e.frame.id);
    GateExactly(Lookup(n.rx, d), n.pool, n.nodeId, e, accept);
    UpdateNothing(n.rx, d);
    hide OnFrame;
    hide DescriptorOf;
    hide Unusable;
    hide ForAnother;
    hide Lookup;
    hide Update;
  }

  /** The frames that come through. */
  function Through(events: seq<Event>, nodeId: byte): seq<Event> {
    if events == [] then []
    else (if TurnedAway(events[0].frame, nodeId) then [] else [events[0]]) + Through(events[1..], nodeId)
  }

  /** A descriptor's state, the pool and the deliveries after any frames are those of the frames that come through
      alone. */
  lemma {:induction false} FeedThrough(view: Option<RxState>, pool: Pool, nodeId: byte, events: seq<Event>,
                                       accept: Acceptance)
    ensures var r, q := Feed(view, pool, nodeId, events, accept), Feed(view, pool, nodeId, Through(events, nodeId),
                                                                       accept);
      r.view == q.view && r.pool == q.pool && Deliveries(r.log) == Deliveries(q.log)
    decreases |events|
  {
    hide *;
    if events == [] {
      NoneThrough(nodeId);
    } else {
      var e, rest := events[0], events[1..];
      assert events == [e] + rest;
      ThroughOne(e, rest, nodeId);
      GateExactly(view, pool, nodeId, e, accept);
      Either(e.frame, nodeId);
      var o := OnFrame(view, pool, nodeId, e, accept);
      FeedThrough(o.view, o.pool, nodeId, rest, accept);
      FeedOne(view, pool, nodeId, e, rest, accept);
      if TurnedAway(e.frame, nodeId) {
        NoDelivery();
        assert [] + Through(rest, nodeId) == Through(rest, nodeId);
        assert [] + Deliveries(Feed(view, pool, nodeId, rest, accept).log)
            == Deliveries(Feed(view, pool, nodeId, rest, accept).log);
      } else {
        FeedOne(view, pool, nodeId, e, Through(rest, nodeId), accept);
      }
    }
  }

  lemma {:induction false} Either(f: Frame, nodeId: byte)
    ensures TurnedAway(f, nodeId) <==> Unusable(f) || ForAnother(f, nodeId)
  {
  }

  lemma {:induction false} NoDelivery()
    ensures Streams.Delivery(None) == []
  {
  }

  lemma {:induction false} NoneThrough(nodeId: byte)
    ensures Through([], nodeId) == []
  {
  }

  lemma {:induction false} ThroughOne(e: Event, rest: seq<Event>, nodeId: byte)
    ensures Through([e] + rest, nodeId) == (if TurnedAway(e.frame, nodeId) then [] else [e]) + Through(rest, nodeId)
  {
    assert ([e] + rest)[1..] == rest;
    hide TurnedAway;
  }

  lemma {:induction false} FeedOne(view: Option<RxState>, pool: Pool, nodeId: byte, e: Event, rest: seq<Event>,
                                   accept: Acceptance)
    ensures var o := OnFrame(view, pool, nodeId, e, accept); var r := Feed(o.view, o.pool, nodeId, rest, accept);
      var all := Feed(view, pool, nodeId, [e] + rest, accept);
      all.view == r.view && all.pool == r.pool && Deliveries(all.log) == Streams.Delivery(o.delivered)
          + Deliveries(r.log)
  {
    assert ([e] + rest)[1..] == rest;
    var o := OnFrame(view, pool, nodeId, e, accept);
    var r := Feed(o.view, o.pool, nodeId, rest, accept);
    hide OnFrame;
    assert ([o.delivered] + r.log)[1..] == r.log;
  }

  /** The calls without the frames that are turned away. */
  function Admitted(calls: seq<Call>, nodeId: byte): seq<Call> {
    if calls == [] then []
    else (if calls[0].FrameIn? && TurnedAway(calls[0].event.frame, nodeId) then [] else [calls[0]])
         + Admitted(calls[1..], nodeId)
  }

  function HandedBy(d: Library.Delivery): seq<Library.Delivery> {
    if d.delivered.Some? then [d] else []
  }

  /** What a node handed to its application, and under which descriptors. */
  function Handed(log: seq<Library.Delivery>): seq<Library.Delivery> {
    if log == [] then [] else HandedBy(log[0]) + Handed(log[1..])
  }

  lemma {:induction false} HandedConcat(a: seq<Library.Delivery>, b: seq<Library.Delivery>)
    ensures Handed(a + b) == Handed(a) + Handed(b)
    decreases |a|
  {
    hide HandedBy;
    if a == [] {
      assert a + b == b;
    } else {
      assert (a + b)[0] == a[0] && (a + b)[1..] == a[1..] + b;
      HandedConcat(a[1..], b);
    }
  }

  lemma {:induction false} SameAddress(n: Node, c: Call, accept: Acceptance)
    ensures Perform(n, c, accept).node.nodeId == n.nodeId
  {
    hide OnFrame;
    hide Update;
    hide InsertAll;
    hide Live;
    hide MessageFrames;
    hide ServiceFrames;
    hide AnonymousFrames;
  }

  /** A run of calls leaves the same node, with the same queue, states, blocks and statistics, and hands over the same
      transfers in the same order, as the run without the frames that are turned away. */
  lemma {:induction false} RunThrough(n: Node, calls: seq<Call>, accept: Acceptance)
    ensures var r, q := RunCalls(n, calls, accept), RunCalls(n, Admitted(calls, n.nodeId), accept);
      r.node == q.node && Handed(r.log) == Handed(q.log) && r.starved == q.starved
    decreases |calls|
  {
    hide *;
    if calls == [] {
      NoneAdmitted(n.nodeId);
    } else {
      var c, rest := calls[0], calls[1..];
      assert calls == [c] + rest;
      AdmittedOne(c, rest, n.nodeId);
      SameAddress(n, c, accept);
      RunThrough(Perform(n, c, accept).node, rest, accept);
      RunOne(n, c, rest, accept);
      if c.FrameIn? && TurnedAway(c.event.frame, n.nodeId) {
        CallUntouched(n, c, accept);
        assert [] + Admitted(rest, n.nodeId) == Admitted(rest, n.nodeId);
        assert [] + Handed(RunCalls(n, rest, accept).log) == Handed(RunCalls(n, rest, accept).log);
      } else {
        RunOne(n, c, Admitted(rest, n.nodeId), accept);
      }
    }
  }

  lemma {:induction false} NoneAdmitted(nodeId: byte)
    ensures Admitted([], nodeId) == []
  {
  }

  lemma {:induction false} AdmittedOne(c: Call, rest: seq<Call>, nodeId: byte)
    ensures Admitted([c] + rest, nodeId)
         == (if c.FrameIn? && TurnedAway(c.event.frame, nodeId) then [] else [c]) + Admitted(rest, nodeId)
  {
    assert ([c] + rest)[1..] == rest;
    hide TurnedAway;
  }

  lemma {:induction false} CallUntouched(n: Node, c: Call, accept: Acceptance)
    requires c.FrameIn? && TurnedAway(c.event.frame, n.nodeId)
    ensures var s := Perform(n, c, accept); s.node == n && Handed(s.log) == [] && !OutOfMemory(s.code)
  {
    NodeUntouched(n, c.event, accept);
    hide HandleRx;
    hide TurnedAway;
    hide Unusable;
  }

  lemma {:induction false} RunOne(n: Node, c: Call, rest: seq<Call>, accept: Acceptance)
    ensures var s := Perform(n, c, accept); var r, all := RunCalls(s.node, rest, accept),
      RunCalls(n, [c] + rest, accept);
      && all.node == r.node && Handed(all.log) == Handed(s.log) + Handed(r.log)
      && (all.starved <==> (c.FrameIn? && OutOfMemory(s.code)) || r.starved)
  {
    assert ([c] + rest)[1..] == rest;
    hide Perform;
    HandedConcat(Perform(n, c, accept).log, RunCalls(Perform(n, c, accept).node, rest, accept).log);
    hide Handed;
  }

  // ---------------------------------------------------------------- the code of every refusal

  /** The time between two time stamps on a 64-bit clock. */
  function Age(since: Timestamp, now: Timestamp): nat {
    (now - since) % 0x1_0000_0000_0000_0000
  }

  /** A state is out of date after two seconds. */
  lemma {:induction false} TimedOutExactly(s: RxState, now: Timestamp)
    ensures TimedOut(s, now) <==> Age(s.core.timestamp, now) > 2000000
  {
  }

  /** The transfer ID of a frame is, modulo 32, neither the one that is due nor the one before. */
  predicate Astray(due: byte, tail: nat) {
    tail % 32 != due as nat % 32 && (tail + 1) % 32 != due as nat % 32
  }

  lemma {:induction false} NextNumber(t: byte)
    ensures NextTid(t) as nat == (t as nat + 1) % 32
  {
  }

  lemma {:induction false} DistanceBits(a: byte, b: byte)
    ensures ForwardDistance(a, b) > 1 <==> TransferIdOf(a) != TransferIdOf(b) && TransferIdOf(a) != NextTid(b)
  {
  }

  lemma {:induction false} AstrayExactly(s: RxState, tail: byte)
    ensures NotPreviousTid(s, tail) <==> Astray(s.core.transferId, tail as nat)
  {
    DistanceOf(s, tail);
    hide *;
    var due := s.core.transferId;
    DistanceBits(due, TransferIdOf(tail));
    SameTid(due, tail);
    NextIs(due, tail);
    AstrayNumbers(due, tail as nat);
  }

  lemma {:induction false} SameTid(due: byte, tail: byte)
    ensures TransferIdOf(due) == TransferIdOf(TransferIdOf(tail)) <==> tail as nat % 32 == due as nat % 32
  {
    TidOfTid(tail);
    hide *;
    TailReads(due);
    TailReads(tail);
    ByteNumbers(TransferIdOf(due), TransferIdOf(tail));
  }

  lemma {:induction false} TidOfTid(tail: byte)
    ensures TransferIdOf(TransferIdOf(tail)) == TransferIdOf(tail)
  {
  }

  lemma {:induction false} NextIs(due: byte, tail: byte)
    ensures TransferIdOf(due) == NextTid(TransferIdOf(tail)) <==> (tail as nat % 32 + 1) % 32 == due as nat % 32
  {
    hide *;
    TailReads(due);
    TailReads(tail);
    NextNumber(TransferIdOf(tail));
    ByteNumbers(TransferIdOf(due), NextTid(TransferIdOf(tail)));
  }

  lemma {:induction false} AstrayNumbers(due: byte, tail: nat)
    ensures Astray(due, tail) <==> tail % 32 != due as nat % 32 && (tail % 32 + 1) % 32 != due as nat % 32
  {
    OneMore(tail, tail / 32, tail % 32);
  }

  lemma {:induction false} OneMore(t: nat, k: nat, x: nat)
    requires t == 32 * k + x && x < 32
    ensures (t + 1) % 32 == (x + 1) % 32
  {
    if x == 31 {
      assert t + 1 == 32 * (k + 1);
    }
  }

  lemma {:induction false} DistanceOf(s: RxState, tail: byte)
    ensures NotPreviousTid(s, tail) <==> ForwardDistance(s.core.transferId, TransferIdOf(tail)) > 1
  {
    hide ForwardDistance;
    hide TransferIdOf;
  }

  /** The state does not go on with this frame. */
  predicate Anew(s: RxState, tail: nat, now: Timestamp) {
    s.core.timestamp == 0 || Age(s.core.timestamp, now) > 2000000 || (tail >= 128 && Astray(s.core.transferId, tail))
  }

  lemma {:induction false} AnewExactly(s: RxState, tail: byte, now: Timestamp)
    ensures NeedsRestart(s, tail, now) <==> Anew(s, tail as nat, now)
  {
    TimedOutExactly(s, now);
    AstrayExactly(s, tail);
    StartReads(tail);
    hide TimedOut;
    hide NotPreviousTid;
    hide IsStart;
    hide Astray;
    hide Age;
  }

  /** The code of a frame that comes to a state, from the numbers of both; 0 if it is not refused out of hand. */
  function StateVerdict(s: RxState, f: Frame, now: Timestamp): int
    requires f.data != []
  {
    var t := f.data[|f.data| - 1] as nat;
    var start, end, toggle, tid := t >= 128, t / 64 % 2 == 1, t / 32 % 2 == 1, t % 32;
    var anew := Anew(s, t, now);
    if anew && !start then -13
    else if start && end then 0
    else if toggle != (!anew && s.core.nextToggle) then -14
    else if !anew && s.core.transferId as nat != tid then -15
    else if start && |f.data| <= 3 then -16
    else 0
  }

  /** The final frame of a transfer in several frames passes the CRC check. */
  predicate Checked(s: RxState, f: Frame) {
    f.data != [] && CrcAdd(s.core.calculatedCrc, f.data[..|f.data| - 1]) == s.core.payloadCrc
  }

  /** What comes of a frame: a negative code and nothing, or 3 for want of memory, 17 for a wrong CRC, 0 otherwise; a
      delivery exactly for a single frame, and for a final frame that passes the CRC check. */
  predicate Judged(o: Outcome, v: int, s: RxState, f: Frame) {
    && f.data != []
    && var t := f.data[|f.data| - 1] as nat;
       var start, end := t >= 128, t / 64 % 2 == 1;
       && (v < 0 ==> o.code == v && o.delivered == None)
       && (v == 0 ==> o.code == 0 || o.code == 3 || o.code == 17)
       && (v == 0 && o.code == 3 ==> !end)
       && (v == 0 ==> (o.code == 17 <==> !start && end && !Checked(s, f)))
       && (v == 0 ==> (o.delivered.Some? <==> end && (start || Checked(s, f))))
  }

  lemma {:induction false} JudgedExactly(s: RxState, pool: Pool, f: Frame, now: Timestamp, junk: Junk)
    requires f.data != []
    ensures Judged(Receive(s, pool, f, now, junk), StateVerdict(s, f, now), s, f)
  {
    var tail := TailOf(f);
    AnewExactly(s, tail, now);
    TailReads(tail);
    ByteNumbers(TransferIdOf(tail), s.core.transferId);
    hide NeedsRestart;
    hide Anew;
    hide IsStart;
    hide IsEnd;
    hide Toggle;
    hide TransferIdOf;
    hide PushBytes;
    hide Splice;
    hide CrcAdd;
  }

  /** The state is empty and waits for a first frame under the transfer ID after that of the frame; its blocks are back
      in the pool. */
  predicate Awaits(o: Outcome, s: RxState, pool: Pool, tail: nat) {
    && o.state.blocks == [] && o.state.core.payloadLen == 0 && !o.state.core.nextToggle
    && o.state.core.transferId as nat == (tail + 1) % 32 && o.pool.usage == pool.usage - |s.blocks|
  }

  lemma {:induction false} NextOfTail(tail: byte)
    ensures NextTid(TransferIdOf(tail)) as nat == (tail as nat + 1) % 32
  {
    hide *;
    NextNumber(TransferIdOf(tail));
    TailReads(tail);
    OneMore(tail as nat, tail as nat / 32, tail as nat % 32);
  }

  /** Nothing is kept of the transfer after a missed start, for want of memory, after a wrong CRC, and once it has been
      delivered by its final frame. */
  predicate Over(o: Outcome, tail: nat) {
    o.code == -13 || o.code == 3 || o.code == 17 || (o.delivered.Some? && tail < 128)
  }

  lemma {:induction false} ProceedAwaits(s: RxState, pool: Pool, f: Frame, now: Timestamp, junk: Junk)
    requires f.data != [] && Over(Proceed(s, pool, f, now, junk), f.data[|f.data| - 1] as nat)
    ensures Awaits(Proceed(s, pool, f, now, junk), s, pool, f.data[|f.data| - 1] as nat)
  {
    var tail := TailOf(f);
    StartReads(tail);
    NextOfTail(tail);
    if IsStart(tail) {
      if |f.data| > 3 {
        StoreEmpties(s.(core := s.core.(timestamp := now)), pool, f.data[2..|f.data| - 1], CarriedCrc(f), junk);
      }
    } else {
      StoreEmpties(s, pool, f.data[..|f.data| - 1], s.core.payloadCrc, junk);
    }
    hide IsStart;
    hide IsEnd;
    hide Toggle;
    hide TransferIdOf;
    hide NextTid;
    hide Store;
    hide Splice;
    hide CrcAdd;
    hide CarriedCrc;
  }

  /** When a transfer is over, the state is empty and the next one is awaited. */
  lemma {:induction false} AwaitsNext(s: RxState, pool: Pool, f: Frame, now: Timestamp, junk: Junk)
    requires f.data != [] && Over(Receive(s, pool, f, now, junk), f.data[|f.data| - 1] as nat)
    ensures Awaits(Receive(s, pool, f, now, junk), s, pool, f.data[|f.data| - 1] as nat)
  {
    var tail := TailOf(f);
    NextOfTail(tail);
    hide NeedsRestart;
    hide IsStart;
    hide TransferIdOf;
    hide NextTid;
    hide Proceed;
    hide Over;
    if !NeedsRestart(s, tail, now) {
      ProceedAwaits(s, pool, f, now, junk);
    } else if IsStart(tail) {
      ProceedAwaits(Restarted(s, tail), pool.Return(|s.blocks|), f, now, junk);
    }
  }

  /** Without memory everything is given back. */
  lemma {:induction false} StoreEmpties(s: RxState, pool: Pool, chunk: seq<byte>, crc: bv16, junk: Junk)
    ensures Emptied(s, Store(s, pool, chunk, crc, junk), pool)
  {
    PushAccounts(s, chunk, pool, junk.block);
    hide PushBytes;
    hide NextTid;
    hide CrcAdd;
  }

  predicate Emptied(s: RxState, o: Outcome, pool: Pool) {
    && o.delivered == None && (o.code == 0 || o.code == 3)
    && (o.code == 3 ==>
          && o.state.blocks == [] && o.state.core.payloadLen == 0 && !o.state.core.nextToggle
          && o.state.core.transferId == NextTid(s.core.transferId) && o.pool.usage == pool.usage - |s.blocks|)
  }

  /** The code of a frame that comes to a node, from the numbers of the frame; 0 if it is not refused out of hand. */
  function Verdict(view: Option<RxState>, pool: Pool, nodeId: byte, e: Event, accept: Acceptance): int {
    var f := e.frame;
    if Unusable(f) then -10
    else if ForAnother(f, nodeId) then -11
    else
      var start := f.data[|f.data| - 1] as nat >= 128;
      if start && Signature(accept, f.id) == None then -12
      else if view.None? then if !start then -13 else if pool.Full() then -3 else StateVerdict(Blank(e), f, e.now)
      else StateVerdict(view.value, f, e.now)
  }

  /** A state that has just been made. */
  function Blank(e: Event): RxState {
    NewState(DescriptorOf(e.frame.id), e.junk)
  }

  lemma {:induction false} OpenedVerdict(view: Option<RxState>, e: Event, signature: bv64)
    requires e.frame.data != []
    ensures var s := Opened(view, e.frame.id, signature, e.junk);
      StateVerdict(s, e.frame, e.now) == StateVerdict(if view.Some? then view.value else Blank(e), e.frame, e.now)
  {
    hide SignatureCrc;
    hide DescriptorOf;
    hide Age;
    hide Astray;
  }

  /** How the verdict and the reply are made up for a frame that is taken in. */
  lemma {:induction false} TakenIn(view: Option<RxState>, pool: Pool, nodeId: byte, e: Event, accept: Acceptance)
    requires !Unusable(e.frame) && !ForAnother(e.frame, nodeId)
    ensures Consistent(view, pool, nodeId, e, accept)
  {
    var f := e.frame;
    CompatibleExactly(f);
    AddressedExactly(f, nodeId);
    StartReads(TailOf(f));
    hide Unusable;
    hide ForAnother;
    hide Compatible;
    hide Addressed;
    hide IsStart;
    hide Signature;
    if IsStart(TailOf(f)) {
      TakenStart(view, pool, e, accept);
      hide Answer;
      hide StateVerdict;
    } else {
      if view.Some? {
        JudgedCode(view.value, pool, f, e.now, e.junk);
      }
      hide Receive;
      hide StateVerdict;
    }
  }

  /** The answer to a start frame that is taken in, and its verdict. */
  function Answer(view: Option<RxState>, pool: Pool, e: Event, accept: Acceptance): Reply
    requires e.frame.data != []
  {
    match Signature(accept, e.frame.id)
    case None => Reply(-RX_NOT_WANTED, view, pool, None)
    case Some(signature) =>
      if view.None? && pool.Full() then Reply(-OUT_OF_MEMORY, view, pool, None)
      else FromOutcome(Receive(Opened(view, e.frame.id, signature, e.junk), if view.Some? then pool else pool.Take(),
                               e.frame, e.now, e.junk))
  }

  lemma {:induction false} TakenStart(view: Option<RxState>, pool: Pool, e: Event, accept: Acceptance)
    requires e.frame.data != []
    ensures var r := Answer(view, pool, e, accept); var wanted := Signature(accept, e.frame.id).Some?;
      var v := StateVerdict(if view.Some? then view.value else Blank(e), e.frame, e.now);
      && (!wanted ==> r == Reply(-12, view, pool, None))
      && (wanted && view.None? && pool.Full() ==> r == Reply(-3, view, pool, None))
      && (wanted && !(view.None? && pool.Full()) ==> Follows(r, v))
  {
    if Signature(accept, e.frame.id).Some? {
      var signature := Signature(accept, e.frame.id).value;
      OpenedVerdict(view, e, signature);
      JudgedCode(Opened(view, e.frame.id, signature, e.junk), if view.Some? then pool else pool.Take(), e.frame, e.now,
                 e.junk);
    }
    hide Receive;
    hide Opened;
    hide Blank;
    hide StateVerdict;
    hide Signature;
  }

  predicate Follows(r: Reply, v: int) {
    && (v < 0 ==> r.code == v && r.delivered == None) && (v == 0 ==> r.code == 0 || r.code == 3 || r.code == 17)
    && (v == 0 || v <= -13)
  }

  lemma {:induction false} JudgedCode(s: RxState, pool: Pool, f: Frame, now: Timestamp, junk: Junk)
    requires f.data != []
    ensures var o, v := Receive(s, pool, f, now, junk), StateVerdict(s, f, now);
      && (v < 0 ==> o.code == v && o.delivered == None) && (v == 0 ==> o.code == 0 || o.code == 3 || o.code == 17)
      && (v == 0 || v <= -13)
  {
    JudgedExactly(s, pool, f, now, junk);
    hide Receive;
    hide Anew;
    hide Checked;
  }

  ghost predicate Consistent(view: Option<RxState>, pool: Pool, nodeId: byte, e: Event, accept: Acceptance) {
    var r, v := OnFrame(view, pool, nodeId, e, accept), Verdict(view, pool, nodeId, e, accept);
    && (v < 0 ==> r.code == v && r.delivered == None) && (v == 0 ==> r.code == 0 || r.code == 3 || r.code == 17)
    && (-13 < v < 0 ==> r.view == view && r.pool == pool) && v <= 0
  }

  /** Every frame that is refused out of hand is answered with its code and delivers nothing; of the others, a single
      frame is delivered. */
  lemma {:induction false} VerdictExactly(view: Option<RxState>, pool: Pool, nodeId: byte, e: Event, accept: Acceptance)
    ensures Consistent(view, pool, nodeId, e, accept)
  {
    if Unusable(e.frame) || ForAnother(e.frame, nodeId) {
      GateExactly(view, pool, nodeId, e, accept);
      hide OnFrame;
      hide Unusable;
      hide ForAnother;
      hide StateVerdict;
    } else {
      hide *;
      TakenIn(view, pool, nodeId, e, accept);
    }
  }

  // ---------------------------------------------------------------- what every delivery says

  /** Time, priority, source, transfer ID, kind and type of a delivery, from the call that brings its last frame. */
  predicate Labelled(t: Transfer, e: Event) {
    && e.frame.data != [] && t.timestamp == e.now
    && var n, tail := e.frame.id as nat, e.frame.data[|e.frame.data| - 1] as nat;
       && t.priority as nat == n / 0x100_0000 % 32 && t.source as nat == n % 0x80 && t.transferId as nat == tail % 32
       && (t.ttype == CanId.Broadcast <==> n / 0x80 % 2 == 0)
       && (t.ttype == CanId.Request <==> n / 0x80 % 2 == 1 && n / 0x8000 % 2 == 1)
       && t.dataTypeId as nat == if n / 0x80 % 2 == 1 then n / 0x1_0000 % 0x100
                                 else if n % 0x80 == 0 then n / 0x100 % 4 else n / 0x100 % 0x1_0000
  }

  /** Whatever any frame makes the receiver deliver, from any state. */
  lemma {:induction false} DeliveryLabelled(view: Option<RxState>, pool: Pool, nodeId: byte, e: Event,
                                            accept: Acceptance)
    ensures var r := OnFrame(view, pool, nodeId, e, accept); r.delivered.Some? ==> Labelled(r.delivered.value, e)
  {
    if OnFrame(view, pool, nodeId, e, accept).delivered.Some? {
      DeliveredBy(view, pool, nodeId, e, accept);
      hide *;
      LabelsAre(OnFrame(view, pool, nodeId, e, accept).delivered.value, e);
    }
  }

  predicate Copied(t: Transfer, e: Event) {
    && e.frame.data != [] && t.timestamp == e.now && t.priority == PriorityOf(e.frame.id)
    && t.source == SourceOf(e.frame.id) && t.transferId == TransferIdOf(TailOf(e.frame))
    && t.ttype == TypeOf(e.frame.id) && t.dataTypeId == DataTypeOf(e.frame.id)
  }

  lemma {:induction false} LabelsAre(t: Transfer, e: Event)
    requires Copied(t, e)
    ensures Labelled(t, e)
  {
    IdReads(e.frame.id);
    DataTypeReads(e.frame.id);
    TailReads(TailOf(e.frame));
    hide PriorityOf;
    hide SourceOf;
    hide TransferIdOf;
    hide TypeOf;
    hide DataTypeOf;
  }

  lemma {:induction false} DeliveredBy(view: Option<RxState>, pool: Pool, nodeId: byte, e: Event, accept: Acceptance)
    requires OnFrame(view, pool, nodeId, e, accept).delivered.Some?
    ensures Copied(OnFrame(view, pool, nodeId, e, accept).delivered.value, e)
  {
    var f := e.frame;
    if IsStart(TailOf(f)) && Signature(accept, f.id).Some? {
      var s := Opened(view, f.id, Signature(accept, f.id).value, e.junk);
      ReceivedBy(s, if view.Some? then pool else pool.Take(), e);
    } else if view.Some? {
      ReceivedBy(view.value, pool, e);
    }
    hide Receive;
    hide Opened;
    hide Addressed;
    hide Copied;
  }

  lemma {:induction false} ReceivedBy(s: RxState, pool: Pool, e: Event)
    requires e.frame.data != []
    ensures var o := Receive(s, pool, e.frame, e.now, e.junk); o.delivered.Some? ==> Copied(o.delivered.value, e)
  {
    hide PushBytes;
    hide Splice;
    hide CrcAdd;
    hide NeedsRestart;
    hide PriorityOf;
    hide SourceOf;
    hide TypeOf;
    hide DataTypeOf;
    hide CarriedCrc;
  }
}
