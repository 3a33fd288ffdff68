/** Whatever frames arrive, in whatever state: a delivered transfer has storage behind every byte it announces. */
module Deliveries {
  import opened Types
  import opened CanId
  import opened Crc
  import opened Fragment
  import opened RxBuffer
  import opened Receiver
  import opened Reassembly
  import opened Library
  import opened Interleaving

  /** Head and chain reach as far as the length says; they may reach further. */
  predicate Backed(s: RxState) {
    s.core.payloadLen <= HEAD_SIZE + BLOCK_SIZE * |s.blocks|
  }

  predicate BackedView(view: Option<RxState>) {
    view.Some? ==> Backed(view.value)
  }

  predicate StockedIf(d: Option<Transfer>) {
    d.Some? ==> Stocked(d.value)
  }

  /** Where writing starts, seen from the blocks there are then. */
  lemma {:induction false} StartsFarEnough(s: RxState, n: nat)
    requires Backed(s) && n <= 7 && !FitsHead(s, n)
    ensures var k := |s.blocks| + (if Grows(s, n) then 1 else 0);
      k > 0 && s.core.payloadLen <= HEAD_SIZE + BLOCK_SIZE * (k - 1) + StartIndex(s)
  {
  }

  /** The chain always reaches behind the bytes a frame adds. */
  lemma {:induction false} BeyondBacked(s: RxState, data: seq<byte>, pool: Pool, junk: Block)
    requires Backed(s) && |data| <= 7 && !FitsHead(s, |data|)
    ensures var w := PushBeyond(s, data, pool, junk);
      |w.blocks| >= |s.blocks| && (w.ok ==> s.core.payloadLen + |data| <= HEAD_SIZE + BLOCK_SIZE * |w.blocks|)
  {
    StartsFarEnough(s, |data|);
    if !Grows(s, |data|) {
      WriteBlocksCounts(s.blocks, StartIndex(s), BeyondHead(s, data), pool, junk);
    } else if !pool.Full() {
      WriteBlocksCounts(s.blocks + [junk], StartIndex(s), BeyondHead(s, data), pool.Take(), junk);
    }
    hide Grows;
    hide StartIndex;
    hide WriteBlocks;
  }

  lemma {:induction false} PushBacked(s: RxState, data: seq<byte>, pool: Pool, junk: Block)
    requires Backed(s) && |data| <= 7
    ensures Backed(PushBytes(s, data, pool, junk).state)
  {
    if !FitsHead(s, |data|) {
      BeyondBacked(s, data, pool, junk);
      hide PushBeyond;
      hide FitsHead;
    }
  }

  lemma {:induction false} StoreBacked(s: RxState, pool: Pool, chunk: seq<byte>, crc: bv16, junk: Junk)
    requires Backed(s) && |chunk| <= 7
    ensures Backed(Store(s, pool, chunk, crc, junk).state) && Store(s, pool, chunk, crc, junk).delivered == None
  {
    PushBacked(s, chunk, pool, junk.block);
    hide PushBytes;
    hide CrcAdd;
  }

  /** However the final frame is shared out. */
  lemma {:induction false} LastStocked(s: RxState, pool: Pool, f: Frame, now: Timestamp)
    requires f.data != [] && Backed(s)
    ensures Backed(ReceiveLast(s, pool, f, now).state) && StockedIf(ReceiveLast(s, pool, f, now).delivered)
  {
    hide CrcAdd;
    hide Overlay;
  }

  lemma {:induction false} ProceedStocked(s: RxState, pool: Pool, f: Frame, now: Timestamp, junk: Junk)
    requires f.data != [] && Backed(s)
    ensures var o := Proceed(s, pool, f, now, junk); Backed(o.state) && StockedIf(o.delivered)
  {
    hide Store;
    hide ReceiveLast;
    var tail := TailOf(f);
    if (IsStart(tail) && IsEnd(tail)) || Toggle(tail) != s.core.nextToggle || TransferIdOf(tail) != s.core.transferId {
    } else if IsStart(tail) {
      if |f.data| > 3 {
        StoreBacked(s.(core := s.core.(timestamp := now)), pool, f.data[2..|f.data| - 1], CarriedCrc(f), junk);
      }
    } else if !IsEnd(tail) {
      StoreBacked(s, pool, f.data[..|f.data| - 1], s.core.payloadCrc, junk);
    } else {
      LastStocked(s, pool, f, now);
    }
  }

  lemma {:induction false} ReceiveStocked(s: RxState, pool: Pool, f: Frame, now: Timestamp, junk: Junk)
    requires f.data != [] && Backed(s)
    ensures var o := Receive(s, pool, f, now, junk); Backed(o.state) && StockedIf(o.delivered)
  {
    hide Proceed;
    var tail := TailOf(f);
    if !NeedsRestart(s, tail, now) {
      ProceedStocked(s, pool, f, now, junk);
    } else if IsStart(tail) {
      ProceedStocked(Restarted(s, tail), pool.Return(|s.blocks|), f, now, junk);
    }
  }

  /** Any frame, whatever the receiver holds. */
  lemma {:induction false} FrameStocked(view: Option<RxState>, pool: Pool, nodeId: byte, e: Event, accept: Acceptance)
    requires BackedView(view)
    ensures var r := OnFrame(view, pool, nodeId, e, accept); BackedView(r.view) && StockedIf(r.delivered)
  {
    hide Receive;
    var f := e.frame;
    if Compatible(f) && Addressed(f, nodeId) {
      if !IsStart(TailOf(f)) {
        if view.Some? {
          ReceiveStocked(view.value, pool, f, e.now, e.junk);
        }
      } else if Signature(accept, f.id).Some? {
        ReceiveStocked(Opened(view, f.id, Signature(accept, f.id).value, e.junk),
                       if view.Some? then pool else pool.Take(), f, e.now, e.junk);
      }
    }
  }

  ghost predicate AllStocked(log: seq<Option<Transfer>>) {
    forall i | 0 <= i < |log| :: StockedIf(log[i])
  }

  lemma {:induction false} FeedStocked(view: Option<RxState>, pool: Pool, nodeId: byte, events: seq<Event>,
                                       accept: Acceptance)
    requires BackedView(view)
    ensures AllStocked(Feed(view, pool, nodeId, events, accept).log)
    decreases |events|
  {
    if events != [] {
      hide OnFrame;
      hide StockedIf;
      FrameStocked(view, pool, nodeId, events[0], accept);
      var r := OnFrame(view, pool, nodeId, events[0], accept);
      FeedStocked(r.view, r.pool, nodeId, events[1..], accept);
    }
  }

  // ---------------------------------------------------------------- the whole node

  ghost predicate AllBacked(n: Node) {
    forall s | s in n.rx :: Backed(s)
  }

  ghost predicate LogStocked(log: seq<Delivery>) {
    forall i | 0 <= i < |log| :: StockedIf(log[i].delivered)
  }

  lemma {:induction false} HandleStocked(n: Node, e: Event, accept: Acceptance)
    requires AllBacked(n)
    ensures AllBacked(HandleRx(n, e, accept).node) && StockedIf(HandleRx(n, e, accept).delivered)
  {
    hide OnFrame;
    hide StockedIf;
    FrameStocked(Lookup(n.rx, DescriptorOf(e.frame.id)), n.pool, n.nodeId, e, accept);
  }

  lemma {:induction false} CallStocked(n: Node, c: Call, accept: Acceptance)
    requires AllBacked(n)
    ensures AllBacked(Perform(n, c, accept).node) && LogStocked(Perform(n, c, accept).log)
  {
    hide StockedIf;
    hide HandleRx;
    hide Enqueue;
    if c.FrameIn? {
      HandleStocked(n, c.event, accept);
    } else if c.CleanUp? {
      LiveSubset(n.rx, c.now);
    } else {
      SendingLeavesRx(n, c, accept);
    }
  }

  /** From initialisation on, whatever calls follow: the application can read every byte of every delivered transfer. */
  lemma {:induction false} RunStocked(n: Node, calls: seq<Call>, accept: Acceptance)
    requires AllBacked(n)
    ensures AllBacked(RunCalls(n, calls, accept).node) && LogStocked(RunCalls(n, calls, accept).log)
    decreases |calls|
  {
    if calls != [] {
      hide Perform;
      hide AllBacked;
      CallStocked(n, calls[0], accept);
      RunStocked(Perform(n, calls[0], accept).node, calls[1..], accept);
    }
  }
}
