/** The node under any interleaving of frames: what every frame keeps, and why streams do not disturb each other. */
module Interleaving {
  import opened Types
  import opened CanId
  import opened Crc
  import opened Fragment
  import opened RxBuffer
  import opened Receiver
  import opened Reassembly
  import opened RoundTrip
  import opened TxQueue
  import opened Library

  // ---------------------------------------------------------------- the pool pays for what is held

  /** Blocks held for one descriptor: the state and its chain. */
  function Holding(view: Option<RxState>): nat {
    if view.None? then 0 else 1 + |view.value.blocks|
  }

  function Held(rx: seq<RxState>): nat {
    if rx == [] then 0 else 1 + |rx[0].blocks| + Held(rx[1..])
  }

  predicate Bounded(p: Pool) {
    0 <= p.usage <= p.capacity && p.usage <= p.peak
  }

  lemma {:induction false} WriteBlocksPeak(blocks: seq<Block>, at: nat, data: seq<byte>, pool: Pool, junk: Block)
    requires blocks != [] && at < BLOCK_SIZE && pool.usage <= pool.peak
    ensures var w := WriteBlocks(blocks, at, data, pool, junk);
      w.pool.peak == Max(pool.peak, w.pool.usage)
    decreases |data|
  {
    var n := Room(BLOCK_SIZE, at, |data|);
    WriteBlocksCounts(blocks, at, data, pool, junk);
    if n < |data| && !pool.Full() {
      var filled := blocks[|blocks| - 1 := Overlay(blocks[|blocks| - 1], at, data)];
      WriteBlocksPeak(filled + [junk], 0, data[n..], pool.Take(), junk);
      WriteBlocksCounts(filled + [junk], 0, data[n..], pool.Take(), junk);
    }
  }

  lemma {:induction false} PushPeak(s: RxState, data: seq<byte>, pool: Pool, junk: Block)
    requires pool.usage <= pool.peak
    ensures var r := PushBytes(s, data, pool, junk); r.pool.peak == Max(pool.peak, r.pool.usage)
  {
    if !FitsHead(s, |data|) {
      if !Grows(s, |data|) {
        WriteBlocksPeak(s.blocks, StartIndex(s), BeyondHead(s, data), pool, junk);
      } else if !pool.Full() {
        WriteBlocksPeak(s.blocks + [junk], StartIndex(s), BeyondHead(s, data), pool.Take(), junk);
        WriteBlocksCounts(s.blocks + [junk], StartIndex(s), BeyondHead(s, data), pool.Take(), junk);
      }
    }
  }

  /** What one frame may do to a state and the pool, whatever frame it is. */
  predicate Pays(s: RxState, pool: Pool, o: Outcome) {
    && o.state.core.descriptor == s.core.descriptor
    && o.pool.capacity == pool.capacity
    && o.pool.usage - |o.state.blocks| == pool.usage - |s.blocks|
    && (|s.blocks| <= pool.usage && Bounded(pool) ==> |o.state.blocks| <= o.pool.usage && Bounded(o.pool))
    && pool.peak <= o.pool.peak
  }

  lemma {:induction false} StorePays(s: RxState, pool: Pool, chunk: seq<byte>, payloadCrc: bv16, junk: Junk)
    requires Bounded(pool)
    ensures Pays(s, pool, Store(s, pool, chunk, payloadCrc, junk))
  {
    PushAccounts(s, chunk, pool, junk.block);
    PushPeak(s, chunk, pool, junk.block);
  }

  lemma {:induction false} ProceedPays(s: RxState, pool: Pool, f: Frame, now: Timestamp, junk: Junk)
    requires f.data != [] && Bounded(pool) && |s.blocks| <= pool.usage
    ensures Pays(s, pool, Proceed(s, pool, f, now, junk))
  {
    var tail := TailOf(f);
    if IsStart(tail) && !IsEnd(tail) && |f.data| > 3 {
      StorePays(s.(core := s.core.(timestamp := now)), pool, f.data[2..|f.data| - 1], CarriedCrc(f), junk);
    } else if !IsStart(tail) && !IsEnd(tail) {
      StorePays(s, pool, f.data[..|f.data| - 1], s.core.payloadCrc, junk);
    }
  }

  lemma {:induction false} ReceivePays(s: RxState, pool: Pool, f: Frame, now: Timestamp, junk: Junk)
    requires f.data != [] && Bounded(pool) && |s.blocks| <= pool.usage
    ensures Pays(s, pool, Receive(s, pool, f, now, junk))
  {
    var tail := TailOf(f);
    if NeedsRestart(s, tail, now) {
      ProceedPays(Restarted(s, tail), pool.Return(|s.blocks|), f, now, junk);
    } else {
      ProceedPays(s, pool, f, now, junk);
    }
  }

  /** A view of descriptor `d`. */
  predicate Of(view: Option<RxState>, d: bv32) {
    view.Some? ==> view.value.core.descriptor == d
  }

  /** Every frame, wanted or not, complete or not, with or without memory: the pool is charged exactly for what is held.
      */
  lemma {:induction false} OnFramePays(view: Option<RxState>, pool: Pool, nodeId: byte, e: Event, accept: Acceptance)
    requires Bounded(pool) && Holding(view) <= pool.usage && Of(view, DescriptorOf(e.frame.id))
    ensures var r := OnFrame(view, pool, nodeId, e, accept);
      && Of(r.view, DescriptorOf(e.frame.id)) && r.pool.capacity == pool.capacity && pool.peak <= r.pool.peak
      && r.pool.usage - Holding(r.view) == pool.usage - Holding(view)
      && Bounded(r.pool) && Holding(r.view) <= r.pool.usage
      && (view.Some? ==> r.view.Some?)
  {
    if Compatible(e.frame) && Addressed(e.frame, nodeId) {
      if !IsStart(TailOf(e.frame)) {
        if view.Some? {
          ReceivePays(view.value, pool, e.frame, e.now, e.junk);
        }
      } else if Signature(accept, e.frame.id).Some? && (view.Some? || !pool.Full()) {
        ReceivePays(Opened(view, e.frame.id, Signature(accept, e.frame.id).value, e.junk),
                    if view.Some? then pool else pool.Take(), e.frame, e.now, e.junk);
      }
    }
  }

  // ---------------------------------------------------------------- the list of states

  ghost predicate Distinct(rx: seq<RxState>) {
    forall i, j | 0 <= i < j < |rx| :: rx[i].core.descriptor != rx[j].core.descriptor
  }

  lemma {:induction false} LookupHeld(rx: seq<RxState>, d: bv32)
    ensures Holding(Lookup(rx, d)) <= Held(rx)
    ensures Of(Lookup(rx, d), d)
  {
    if rx != [] && rx[0].core.descriptor != d {
      LookupHeld(rx[1..], d);
    }
  }

  lemma {:induction false} UpdateHeld(rx: seq<RxState>, d: bv32, view: Option<RxState>)
    requires Lookup(rx, d).Some? ==> view.Some?
    ensures Held(Update(rx, d, view)) == Held(rx) - Holding(Lookup(rx, d)) + Holding(view)
  {
    if view.Some? {
      var i := IndexOf(rx, d);
      if i < |rx| {
        ReplaceHeld(rx, i, view.value);
      }
    }
  }

  lemma {:induction false} ReplaceHeld(rx: seq<RxState>, i: nat, s: RxState)
    requires i < |rx|
    ensures Held(rx[i := s]) == Held(rx) - |rx[i].blocks| + |s.blocks|
  {
    if i > 0 {
      assert rx[i := s][1..] == rx[1..][i - 1 := s];
      ReplaceHeld(rx[1..], i - 1, s);
    } else {
      assert rx[i := s][1..] == rx[1..];
    }
  }

  lemma {:induction false} IndexIs(rx: seq<RxState>, d: bv32, i: nat)
    requires i <= |rx| && (i < |rx| ==> rx[i].core.descriptor == d)
    requires forall j | 0 <= j < i :: rx[j].core.descriptor != d
    ensures IndexOf(rx, d) == i
  {
  }

  /** Storing the state of one descriptor is read back, and leaves every other descriptor alone. */
  lemma {:induction false} UpdateLookup(rx: seq<RxState>, d: bv32, view: Option<RxState>, d': bv32)
    requires Of(view, d) && (Lookup(rx, d).Some? ==> view.Some?)
    ensures Lookup(Update(rx, d, view), d') == if d' == d then view else Lookup(rx, d')
  {
    if view.Some? {
      var i, i' := IndexOf(rx, d), IndexOf(rx, d');
      var u := Update(rx, d, view);
      if i < |rx| {
        IndexIs(u, d', i');
      } else if d' == d {
        IndexIs(u, d', 0);
      } else {
        IndexIs(u, d', i' + 1);
      }
    }
  }

  lemma {:induction false} UpdateDistinct(rx: seq<RxState>, d: bv32, view: Option<RxState>)
    requires Distinct(rx) && Of(view, d)
    ensures Distinct(Update(rx, d, view))
  {
  }

  // ---------------------------------------------------------------- the node

  /** The descriptors are distinct, and the pool is charged one block for each queued frame, each state and each buffer
      block. */
  ghost predicate Sound(n: Node) {
    Distinct(n.rx) && Bounded(n.pool) && n.pool.usage == |n.tx| + Held(n.rx)
  }

  /** Every frame, on every path, keeps the node sound; the states of other descriptors, the queue and the capacity
      stay. */
  lemma {:induction false} HandleRxSound(n: Node, e: Event, accept: Acceptance, d': bv32)
    requires Sound(n)
    ensures var h := HandleRx(n, e, accept);
      && Sound(h.node) && h.node.tx == n.tx && h.node.nodeId == n.nodeId && h.node.pool.capacity == n.pool.capacity
      && (d' != DescriptorOf(e.frame.id) ==> Lookup(h.node.rx, d') == Lookup(n.rx, d'))
      && (d' == DescriptorOf(e.frame.id) ==>
            Lookup(h.node.rx, d') == OnFrame(Lookup(n.rx, d'), n.pool, n.nodeId, e, accept).view)
  {
    var d := DescriptorOf(e.frame.id);
    LookupHeld(n.rx, d);
    OnFramePays(Lookup(n.rx, d), n.pool, n.nodeId, e, accept);
    var view := OnFrame(Lookup(n.rx, d), n.pool, n.nodeId, e, accept).view;
    UpdateHeld(n.rx, d, view);
    UpdateLookup(n.rx, d, view, d');
    UpdateDistinct(n.rx, d, view);
  }

  // ---------------------------------------------------------------- more memory changes nothing but failures

  predicate NoLessFree(p: Pool, q: Pool) {
    p.capacity - p.usage <= q.capacity - q.usage
  }

  lemma {:induction false} WriteBlocksAnyPool(blocks: seq<Block>, at: nat, data: seq<byte>, p: Pool, q: Pool,
                                              junk: Block)
    requires blocks != [] && at < BLOCK_SIZE && NoLessFree(p, q) && WriteBlocks(blocks, at, data, p, junk).ok
    ensures var w, v := WriteBlocks(blocks, at, data, p, junk), WriteBlocks(blocks, at, data, q, junk);
      v.ok && v.blocks == w.blocks
    decreases |data|
  {
    var n := Room(BLOCK_SIZE, at, |data|);
    if n < |data| {
      var filled := blocks[|blocks| - 1 := Overlay(blocks[|blocks| - 1], at, data)];
      WriteBlocksAnyPool(filled + [junk], 0, data[n..], p.Take(), q.Take(), junk);
    }
  }

  lemma {:induction false} PushAnyPool(s: RxState, data: seq<byte>, p: Pool, q: Pool, junk: Block)
    requires NoLessFree(p, q) && PushBytes(s, data, p, junk).ok
    ensures PushBytes(s, data, q, junk).ok && PushBytes(s, data, q, junk).state == PushBytes(s, data, p, junk).state
  {
    if !FitsHead(s, |data|) {
      if !Grows(s, |data|) {
        WriteBlocksAnyPool(s.blocks, StartIndex(s), BeyondHead(s, data), p, q, junk);
      } else {
        WriteBlocksAnyPool(s.blocks + [junk], StartIndex(s), BeyondHead(s, data), p.Take(), q.Take(), junk);
      }
    }
  }

  /** The same answer but for the pool. */
  predicate SameAnswer(o: Outcome, o': Outcome) {
    o'.code == o.code && o'.state == o.state && o'.delivered == o.delivered
  }

  lemma {:induction false} StoreAnyPool(s: RxState, p: Pool, q: Pool, chunk: seq<byte>, crc: bv16, junk: Junk)
    requires NoLessFree(p, q) && !OutOfMemory(Store(s, p, chunk, crc, junk).code)
    ensures SameAnswer(Store(s, p, chunk, crc, junk), Store(s, q, chunk, crc, junk))
  {
    PushAnyPool(s, chunk, p, q, junk.block);
  }

  lemma {:induction false} ProceedAnyPool(s: RxState, p: Pool, q: Pool, f: Frame, now: Timestamp, junk: Junk)
    requires f.data != [] && NoLessFree(p, q) && !OutOfMemory(Proceed(s, p, f, now, junk).code)
    ensures SameAnswer(Proceed(s, p, f, now, junk), Proceed(s, q, f, now, junk))
  {
    var tail := TailOf(f);
    if (IsStart(tail) && IsEnd(tail)) || Toggle(tail) != s.core.nextToggle || TransferIdOf(tail) != s.core.transferId {
    } else if IsStart(tail) {
      if |f.data| > 3 {
        StoreAnyPool(s.(core := s.core.(timestamp := now)), p, q, f.data[2..|f.data| - 1], CarriedCrc(f), junk);
      }
    } else if !IsEnd(tail) {
      StoreAnyPool(s, p, q, f.data[..|f.data| - 1], s.core.payloadCrc, junk);
    }
  }

  lemma {:induction false} ReceiveAnyPool(s: RxState, p: Pool, q: Pool, f: Frame, now: Timestamp, junk: Junk)
    requires f.data != [] && NoLessFree(p, q) && !OutOfMemory(Receive(s, p, f, now, junk).code)
    ensures SameAnswer(Receive(s, p, f, now, junk), Receive(s, q, f, now, junk))
  {
    var tail := TailOf(f);
    if !NeedsRestart(s, tail, now) {
      ProceedAnyPool(s, p, q, f, now, junk);
    } else if IsStart(tail) {
      ProceedAnyPool(Restarted(s, tail), p.Return(|s.blocks|), q.Return(|s.blocks|), f, now, junk);
    }
  }

  lemma {:induction false} OnFrameAnyPool(view: Option<RxState>, p: Pool, q: Pool, nodeId: byte, e: Event,
                                          accept: Acceptance)
    requires NoLessFree(p, q) && !OutOfMemory(OnFrame(view, p, nodeId, e, accept).code)
    ensures var r, r' := OnFrame(view, p, nodeId, e, accept), OnFrame(view, q, nodeId, e, accept);
      r'.code == r.code && r'.view == r.view && r'.delivered == r.delivered
  {
    if Compatible(e.frame) && Addressed(e.frame, nodeId) {
      if !IsStart(TailOf(e.frame)) {
        if view.Some? {
          ReceiveAnyPool(view.value, p, q, e.frame, e.now, e.junk);
        }
      } else if Signature(accept, e.frame.id).Some? {
        ReceiveAnyPool(Opened(view, e.frame.id, Signature(accept, e.frame.id).value, e.junk),
                       if view.Some? then p else p.Take(), if view.Some? then q else q.Take(), e.frame, e.now, e.junk);
      }
    }
  }

  // ---------------------------------------------------------------- the other calls

  lemma {:induction false} EnqueueSound(n: Node, frames: seq<Frame>)
    requires Sound(n)
    ensures Sound(Enqueue(n, frames).0)
  {
    InsertAllContents(n.tx, frames[..Affordable(n.pool, |frames|)]);
  }

  lemma {:induction false} LiveSubset(rx: seq<RxState>, now: Timestamp)
    ensures forall s | s in Live(rx, now) :: s in rx
    ensures Held(Live(rx, now)) + StaleBlocks(rx, now) == Held(rx)
  {
    if rx != [] {
      LiveSubset(rx[1..], now);
    }
  }

  lemma {:induction false} LiveDistinct(rx: seq<RxState>, now: Timestamp)
    requires Distinct(rx)
    ensures Distinct(Live(rx, now))
  {
    if rx != [] {
      LiveDistinct(rx[1..], now);
      LiveSubset(rx[1..], now);
      assert forall s | s in rx[1..] :: s.core.descriptor != rx[0].core.descriptor;
    }
  }

  lemma {:induction false} CleanupSound(n: Node, now: Timestamp)
    requires Sound(n)
    ensures Sound(Cleanup(n, now))
  {
    LiveSubset(n.rx, now);
    LiveDistinct(n.rx, now);
  }

  /** What a call keeps. */
  ghost predicate Keeps(n: Node, n': Node) {
    Sound(n') && n'.pool.capacity == n.pool.capacity && n.pool.peak <= n'.pool.peak && n'.nodeId == n.nodeId
  }

  lemma {:induction false} FrameKeeps(n: Node, e: Event, accept: Acceptance)
    requires Sound(n)
    ensures Keeps(n, HandleRx(n, e, accept).node)
  {
    var d := DescriptorOf(e.frame.id);
    HandleRxSound(n, e, accept, d);
    LookupHeld(n.rx, d);
    OnFramePays(Lookup(n.rx, d), n.pool, n.nodeId, e, accept);
  }

  lemma {:induction false} EnqueueKeeps(n: Node, frames: seq<Frame>)
    requires Sound(n)
    ensures Keeps(n, Enqueue(n, frames).0)
  {
    EnqueueSound(n, frames);
  }

  lemma {:induction false} MessageKeeps(n: Node, signature: bv64, dtid: bv16, tid: byte, priority: byte,
                                        payload: seq<byte>)
    requires Sound(n)
    ensures Keeps(n, SendMessage(n, signature, dtid, tid, priority, payload).node)
  {
    if n.nodeId == 0 {
      EnqueueKeeps(n, AnonymousFrames(priority, dtid, tid, payload));
    } else {
      EnqueueKeeps(n, MessageFrames(n.nodeId, signature, dtid, tid, priority, payload));
    }
  }

  lemma {:induction false} ServiceKeeps(n: Node, destination: byte, signature: bv64, dtid: byte, tid: byte,
                                        priority: byte, request: bool, payload: seq<byte>)
    requires Sound(n)
    ensures Keeps(n, SendService(n, destination, signature, dtid, tid, priority, request, payload).node)
  {
    EnqueueKeeps(n, ServiceFrames(n.nodeId, destination, signature, dtid, tid, priority, request, payload));
  }

  lemma {:induction false} PopKeeps(n: Node)
    requires Sound(n)
    ensures Keeps(n, PopTx(n))
  {
    hide Held;
  }

  lemma {:induction false} CleanupKeeps(n: Node, now: Timestamp)
    requires Sound(n)
    ensures Keeps(n, Cleanup(n, now))
  {
    CleanupSound(n, now);
    hide Sound;
  }

  /** Every call keeps the node sound, whatever its arguments and whether or not it fails; the peak never falls. */
  lemma {:induction false} PerformKeeps(n: Node, c: Call, accept: Acceptance)
    requires Sound(n)
    ensures Keeps(n, Perform(n, c, accept).node)
  {
    hide Keeps;
    hide Sound;
    hide SendMessage;
    hide SendService;
    hide HandleRx;
    hide PopTx;
    hide Cleanup;
    match c
    case FrameIn(e) => FrameKeeps(n, e, accept);
    case Message(signature, dtid, tid, priority, payload) => MessageKeeps(n, signature, dtid, tid, priority, payload);
    case Service(destination, signature, dtid, tid, priority, request, payload) =>
      ServiceKeeps(n, destination, signature, dtid, tid, priority, request, payload);
    case Pop => PopKeeps(n);
    case CleanUp(now) => CleanupKeeps(n, now);
  }

  /** From initialisation on, whatever calls follow: descriptors distinct, usage exactly what is held, never beyond
      capacity. */
  lemma {:induction false} RunKeeps(n: Node, calls: seq<Call>, accept: Acceptance)
    requires Sound(n)
    ensures Keeps(n, RunCalls(n, calls, accept).node)
    decreases |calls|
  {
    if calls != [] {
      PerformKeeps(n, calls[0], accept);
      RunKeeps(Perform(n, calls[0], accept).node, calls[1..], accept);
    }
  }

  // ---------------------------------------------------------------- non-interference

  /** What a cleanup does to one descriptor. */
  function Expired(view: Option<RxState>, now: Timestamp): Option<RxState> {
    if view.Some? && TimedOut(view.value, now) then None else view
  }

  /** The life of one descriptor on a node of its own: its frames and the cleanups, nothing else. */
  datatype Followed = Followed(view: Option<RxState>, log: seq<Option<Transfer>>)

  function Alone(view: Option<RxState>, capacity: nat): Pool {
    Pool(capacity, Holding(view), Holding(view))
  }

  function Follow(view: Option<RxState>, capacity: nat, nodeId: byte, calls: seq<Call>, d: bv32,
                  accept: Acceptance): Followed
    decreases |calls|
  {
    if calls == [] then Followed(view, [])
    else match calls[0]
      case FrameIn(e) =>
        if DescriptorOf(e.frame.id) != d then Follow(view, capacity, nodeId, calls[1..], d, accept)
        else
          var r := OnFrame(view, Alone(view, capacity), nodeId, e, accept);
          var rest := Follow(r.view, capacity, nodeId, calls[1..], d, accept);
          Followed(rest.view, [r.delivered] + rest.log)
      case CleanUp(now) => Follow(Expired(view, now), capacity, nodeId, calls[1..], d, accept)
      case _ => Follow(view, capacity, nodeId, calls[1..], d, accept)
  }

  /** The part of a log that concerns one descriptor. */
  function Select(log: seq<Delivery>, d: bv32): seq<Option<Transfer>> {
    if log == [] then [] else (if log[0].descriptor == d then [log[0].delivered] else []) + Select(log[1..], d)
  }

  lemma {:induction false} LiveLookup(rx: seq<RxState>, now: Timestamp, d: bv32)
    requires Distinct(rx)
    ensures Lookup(Live(rx, now), d) == Expired(Lookup(rx, d), now)
  {
    if rx != [] {
      LiveLookup(rx[1..], now, d);
      LiveSubset(rx[1..], now);
      if rx[0].core.descriptor == d {
        NotFound(rx[1..], d);
        NotFound(Live(rx[1..], now), d);
      }
    }
  }

  lemma {:induction false} NotFound(rx: seq<RxState>, d: bv32)
    requires forall s | s in rx :: s.core.descriptor != d
    ensures Lookup(rx, d) == None
  {
  }

  /** The deliveries and the final state of descriptor `d` are those of its own frames on a node of its own. */
  ghost predicate Agrees(n: Node, calls: seq<Call>, d: bv32, accept: Acceptance) {
    var r := RunCalls(n, calls, accept);
    var f := Follow(Lookup(n.rx, d), n.pool.capacity, n.nodeId, calls, d, accept);
    Select(r.log, d) == f.log && Lookup(r.node.rx, d) == f.view
  }

  lemma {:induction false} SelectConcat(a: seq<Delivery>, b: seq<Delivery>, d: bv32)
    ensures Select(a + b, d) == Select(a, d) + Select(b, d)
    decreases |a|
  {
    if a == [] {
      assert a + b == b;
    } else {
      assert (a + b)[0] == a[0] && (a + b)[1..] == a[1..] + b;
      SelectConcat(a[1..], b, d);
    }
  }

  /** A run after a call that delivers nothing to `d`. */
  lemma {:induction false} QuietCall(n: Node, calls: seq<Call>, d: bv32, accept: Acceptance)
    requires calls != [] && Select(Perform(n, calls[0], accept).log, d) == []
    ensures Select(RunCalls(n, calls, accept).log, d)
        == Select(RunCalls(Perform(n, calls[0], accept).node, calls[1..], accept).log, d)
    ensures RunCalls(n, calls, accept).node == RunCalls(Perform(n, calls[0], accept).node, calls[1..], accept).node
  {
    var s := Perform(n, calls[0], accept);
    SelectConcat(s.log, RunCalls(s.node, calls[1..], accept).log, d);
  }

  lemma {:induction false} OtherFrameAgrees(n: Node, calls: seq<Call>, d: bv32, accept: Acceptance)
    requires Sound(n) && calls != [] && calls[0].FrameIn? && DescriptorOf(calls[0].event.frame.id) != d
    requires Agrees(Perform(n, calls[0], accept).node, calls[1..], d, accept)
    ensures Agrees(n, calls, d, accept)
  {
    HandleRxSound(n, calls[0].event, accept, d);
    QuietCall(n, calls, d, accept);
  }

  /** Sending and popping do not touch the receive states. */
  lemma {:induction false} SendingLeavesRx(n: Node, c: Call, accept: Acceptance)
    requires !c.FrameIn? && !c.CleanUp?
    ensures var s := Perform(n, c, accept);
      s.node.rx == n.rx && s.node.pool.capacity == n.pool.capacity && s.node.nodeId == n.nodeId && s.log == []
  {
  }

  lemma {:induction false} SendingAgrees(n: Node, calls: seq<Call>, d: bv32, accept: Acceptance)
    requires Sound(n) && calls != [] && !calls[0].FrameIn? && !calls[0].CleanUp?
    requires Agrees(Perform(n, calls[0], accept).node, calls[1..], d, accept)
    ensures Agrees(n, calls, d, accept)
  {
    SendingLeavesRx(n, calls[0], accept);
    QuietCall(n, calls, d, accept);
  }

  lemma {:induction false} CleanupAgrees(n: Node, calls: seq<Call>, d: bv32, accept: Acceptance)
    requires Sound(n) && calls != [] && calls[0].CleanUp?
    requires Agrees(Perform(n, calls[0], accept).node, calls[1..], d, accept)
    ensures Agrees(n, calls, d, accept)
  {
    LiveLookup(n.rx, calls[0].now, d);
    QuietCall(n, calls, d, accept);
  }

  lemma {:induction false} FrameAgrees(n: Node, calls: seq<Call>, d: bv32, accept: Acceptance)
    requires Sound(n) && calls != [] && calls[0].FrameIn? && DescriptorOf(calls[0].event.frame.id) == d
    requires !OutOfMemory(Perform(n, calls[0], accept).code)
    requires Agrees(Perform(n, calls[0], accept).node, calls[1..], d, accept)
    ensures Agrees(n, calls, d, accept)
  {
    var e, view := calls[0].event, Lookup(n.rx, d);
    var s := Perform(n, calls[0], accept);
    HandleRxSound(n, e, accept, d);
    LookupHeld(n.rx, d);
    OnFrameAnyPool(view, n.pool, Alone(view, n.pool.capacity), n.nodeId, e, accept);
    SelectConcat(s.log, RunCalls(s.node, calls[1..], accept).log, d);
  }

  /** Streams do not interfere: however frames of other descriptors, sends, pops and cleanups are interleaved, as long
      as no frame is refused for lack of memory, each descriptor sees what it would see on a node of its own. */
  lemma {:induction false} NonInterference(n: Node, calls: seq<Call>, d: bv32, accept: Acceptance)
    requires Sound(n) && !RunCalls(n, calls, accept).starved
    ensures Agrees(n, calls, d, accept)
    decreases |calls|
  {
    if calls != [] {
      PerformKeeps(n, calls[0], accept);
      NonInterference(Perform(n, calls[0], accept).node, calls[1..], d, accept);
      if calls[0].CleanUp? {
        CleanupAgrees(n, calls, d, accept);
      } else if calls[0].FrameIn? && DescriptorOf(calls[0].event.frame.id) == d {
        FrameAgrees(n, calls, d, accept);
      } else if calls[0].FrameIn? {
        OtherFrameAgrees(n, calls, d, accept);
      } else {
        SendingAgrees(n, calls, d, accept);
      }
    }
  }

  // ---------------------------------------------------------------- a transfer among others

  /** The received frames of one descriptor. */
  function FramesOf(calls: seq<Call>, d: bv32): seq<Event> {
    if calls == [] then []
    else if calls[0].FrameIn? && DescriptorOf(calls[0].event.frame.id) == d then
      [calls[0].event] + FramesOf(calls[1..], d)
    else FramesOf(calls[1..], d)
  }

  /** Cleanups between the frames of descriptor `d`: any of them before the first one or behind the last, and otherwise,
      once `begun`, only within the timeout of `start`. */
  predicate CleanupsInTime(calls: seq<Call>, d: bv32, begun: bool, start: Timestamp) {
    FramesOf(calls, d) == [] || (
      && (calls[0].CleanUp? && begun ==> InTime(calls[0].now, start))
      && CleanupsInTime(calls[1..], d, begun || (calls[0].FrameIn? && DescriptorOf(calls[0].event.frame.id) == d),
                        start))
  }

  /** A pool charged for one descriptor only. */
  predicate Only(q: Pool, view: Option<RxState>, capacity: nat) {
    q.capacity == capacity && q.usage == Holding(view) && Bounded(q)
  }

  lemma {:induction false} FollowNothing(view: Option<RxState>, capacity: nat, nodeId: byte, calls: seq<Call>, d: bv32,
                                         accept: Acceptance)
    requires FramesOf(calls, d) == []
    ensures Follow(view, capacity, nodeId, calls, d, accept).log == []
    decreases |calls|
  {
    if calls != [] {
      hide OnFrame;
      match calls[0]
      case FrameIn(e) => FollowNothing(view, capacity, nodeId, calls[1..], d, accept);
      case CleanUp(now) => FollowNothing(Expired(view, now), capacity, nodeId, calls[1..], d, accept);
      case _ => FollowNothing(view, capacity, nodeId, calls[1..], d, accept);
    }
  }

  /** Only a start frame sets the time of a transfer. */
  lemma {:induction false} TimeKept(s: RxState, pool: Pool, nodeId: byte, e: Event, accept: Acceptance)
    requires Continuation(e.frame)
    ensures var r := OnFrame(Some(s), pool, nodeId, e, accept);
      r.view.Some? && r.view.value.core.timestamp == s.core.timestamp
  {
    hide PushBytes;
    hide CrcAdd;
    hide Splice;
    if !NeedsRestart(s, TailOf(e.frame), e.now) && !IsEnd(TailOf(e.frame)) {
      PushAccounts(s, e.frame.data[..|e.frame.data| - 1], pool, e.junk.block);
    }
  }

  /** A transfer under way: its later frames and the cleanups are still to come. */
  ghost predicate UnderWay(view: Option<RxState>, calls: seq<Call>, d: bv32, start: Timestamp) {
    && view.Some? && view.value.core.timestamp == start && CleanupsInTime(calls, d, true, start)
    && forall e | e in FramesOf(calls, d) :: Continuation(e.frame)
  }

  lemma {:induction false} UnderWayOnward(view: Option<RxState>, calls: seq<Call>, d: bv32, start: Timestamp)
    requires UnderWay(view, calls, d, start) && FramesOf(calls, d) != []
    ensures calls != [] && CleanupsInTime(calls[1..], d, true, start)
    ensures forall e | e in FramesOf(calls[1..], d) :: Continuation(e.frame)
    ensures calls[0].CleanUp? ==> Expired(view, calls[0].now) == view
    ensures calls[0].FrameIn? && DescriptorOf(calls[0].event.frame.id) == d ==> Continuation(calls[0].event.frame)
  {
    if calls[0].FrameIn? && DescriptorOf(calls[0].event.frame.id) == d {
      assert calls[0].event in FramesOf(calls, d);
      assert FramesOf(calls, d)[1..] == FramesOf(calls[1..], d);
    }
  }

  /** A call that is no frame of `d`, seen from `d`. */
  lemma {:induction false} OtherCall(n: Node, calls: seq<Call>, d: bv32, accept: Acceptance)
    requires Sound(n) && !RunCalls(n, calls, accept).starved && calls != []
    requires !(calls[0].FrameIn? && DescriptorOf(calls[0].event.frame.id) == d)
    ensures var n' := Perform(n, calls[0], accept).node;
      var view' := if calls[0].CleanUp? then Expired(Lookup(n.rx, d), calls[0].now) else Lookup(n.rx, d);
      && Sound(n') && !RunCalls(n', calls[1..], accept).starved && n'.nodeId == n.nodeId
      && n'.pool.capacity == n.pool.capacity && Lookup(n'.rx, d) == view'
      && FramesOf(calls, d) == FramesOf(calls[1..], d)
      && Follow(Lookup(n.rx, d), n.pool.capacity, n.nodeId, calls, d, accept)
         == Follow(view', n.pool.capacity, n.nodeId, calls[1..], d, accept)
  {
    hide Sound;
    hide OnFrame;
    PerformKeeps(n, calls[0], accept);
    if calls[0].CleanUp? {
      SoundIsDistinct(n);
      LiveLookup(n.rx, calls[0].now, d);
    } else if calls[0].FrameIn? {
      HandleRxSound(n, calls[0].event, accept, d);
    } else {
      SendingLeavesRx(n, calls[0], accept);
    }
    hide HandleRx;
    hide Lookup;
  }

  lemma {:induction false} SoundIsDistinct(n: Node)
    requires Sound(n)
    ensures Distinct(n.rx)
  {
  }

  /** Without failures the pool of the single stream does not matter beyond its charge, and a cleanup in time does
      nothing. */
  lemma {:induction false} FollowIsFeed(n: Node, calls: seq<Call>, d: bv32, accept: Acceptance, q: Pool,
                                        start: Timestamp)
    requires Sound(n) && !RunCalls(n, calls, accept).starved && UnderWay(Lookup(n.rx, d), calls, d, start)
    requires Only(q, Lookup(n.rx, d), n.pool.capacity)
    ensures Follow(Lookup(n.rx, d), n.pool.capacity, n.nodeId, calls, d, accept).log
         == Feed(Lookup(n.rx, d), q, n.nodeId, FramesOf(calls, d), accept).log
    decreases |calls|, 1
  {
    if FramesOf(calls, d) == [] {
      FollowNothing(Lookup(n.rx, d), n.pool.capacity, n.nodeId, calls, d, accept);
    } else {
      UnderWayOnward(Lookup(n.rx, d), calls, d, start);
      hide CleanupsInTime;
      hide Perform;
      hide Follow;
      hide Feed;
      hide Lookup;
      hide Expired;
      if calls[0].FrameIn? && DescriptorOf(calls[0].event.frame.id) == d {
        FollowFrame(n, calls, d, accept, q, start);
      } else {
        OtherCall(n, calls, d, accept);
        FollowIsFeed(Perform(n, calls[0], accept).node, calls[1..], d, accept, q, start);
      }
    }
  }

  lemma {:induction false} FollowFrame(n: Node, calls: seq<Call>, d: bv32, accept: Acceptance, q: Pool,
                                       start: Timestamp)
    requires Sound(n) && !RunCalls(n, calls, accept).starved && UnderWay(Lookup(n.rx, d), calls, d, start)
    requires Only(q, Lookup(n.rx, d), n.pool.capacity)
    requires calls != [] && calls[0].FrameIn? && DescriptorOf(calls[0].event.frame.id) == d
    ensures Follow(Lookup(n.rx, d), n.pool.capacity, n.nodeId, calls, d, accept).log
         == Feed(Lookup(n.rx, d), q, n.nodeId, FramesOf(calls, d), accept).log
    decreases |calls|, 0
  {
    var e, view := calls[0].event, Lookup(n.rx, d);
    hide OnFrame;
    hide Wanted;
    UnderWayOnward(view, calls, d, start);
    var r := OnFrame(view, q, n.nodeId, e, accept);
    SameFrame(n, calls, d, accept, q);
    TimeKept(view.value, q, n.nodeId, e, accept);
    FollowIsFeed(Perform(n, calls[0], accept).node, calls[1..], d, accept, r.pool, start);
    FeedStep(view, q, n.nodeId, FramesOf(calls, d), accept);
  }

  /** A frame of `d` on the node, on the node of its own, and with any other pool charged for `d` alone. */
  lemma {:induction false} SameFrame(n: Node, calls: seq<Call>, d: bv32, accept: Acceptance, q: Pool)
    requires Sound(n) && !RunCalls(n, calls, accept).starved && Only(q, Lookup(n.rx, d), n.pool.capacity)
    requires calls != [] && calls[0].FrameIn? && DescriptorOf(calls[0].event.frame.id) == d
    ensures var e, view, n' := calls[0].event, Lookup(n.rx, d), Perform(n, calls[0], accept).node;
      var r := OnFrame(view, q, n.nodeId, e, accept);
      var a := OnFrame(view, Alone(view, n.pool.capacity), n.nodeId, e, accept);
      && Sound(n') && !RunCalls(n', calls[1..], accept).starved && n'.nodeId == n.nodeId
      && n'.pool.capacity == n.pool.capacity
      && a.delivered == r.delivered && a.view == r.view == Lookup(n'.rx, d) && Only(r.pool, r.view, n.pool.capacity)
  {
    var e, view := calls[0].event, Lookup(n.rx, d);
    LookupHeld(n.rx, d);
    HandleRxSound(n, e, accept, d);
    PerformKeeps(n, calls[0], accept);
    OnFrameAnyPool(view, n.pool, Alone(view, n.pool.capacity), n.nodeId, e, accept);
    OnFrameAnyPool(view, n.pool, q, n.nodeId, e, accept);
    OnFramePays(view, q, n.nodeId, e, accept);
  }

  predicate NoCleanups(calls: seq<Call>) {
    forall c | c in calls :: !c.CleanUp?
  }

  /** Without cleanups, a descriptor followed among all calls is a run of its frames alone. */
  lemma {:induction false} FollowIsFed(n: Node, calls: seq<Call>, d: bv32, accept: Acceptance, q: Pool)
    requires Sound(n) && !RunCalls(n, calls, accept).starved && NoCleanups(calls)
    requires Only(q, Lookup(n.rx, d), n.pool.capacity)
    ensures Follow(Lookup(n.rx, d), n.pool.capacity, n.nodeId, calls, d, accept).log
         == Feed(Lookup(n.rx, d), q, n.nodeId, FramesOf(calls, d), accept).log
    decreases |calls|
  {
    hide OnFrame;
    hide Perform;
    hide Lookup;
    hide Only;
    if calls != [] {
      assert calls[0] in calls;
      var view := Lookup(n.rx, d);
      hide NoCleanups;
      NoLaterCleanups(calls);
      if calls[0].FrameIn? && DescriptorOf(calls[0].event.frame.id) == d {
        var r := OnFrame(view, q, n.nodeId, calls[0].event, accept);
        SameFrame(n, calls, d, accept, q);
        FollowIsFed(Perform(n, calls[0], accept).node, calls[1..], d, accept, r.pool);
        FeedStep(view, q, n.nodeId, FramesOf(calls, d), accept);
      } else {
        OtherCall(n, calls, d, accept);
        hide Follow;
        hide Feed;
        FollowIsFed(Perform(n, calls[0], accept).node, calls[1..], d, accept, q);
      }
    }
  }

  lemma {:induction false} NoLaterCleanups(calls: seq<Call>)
    requires NoCleanups(calls) && calls != []
    ensures NoCleanups(calls[1..]) && !calls[0].CleanUp?
  {
    assert calls[0] in calls;
  }

  /** A transfer on its way to a node that can take it. */
  ghost predicate Expected(n: Node, calls: seq<Call>, accept: Acceptance, x: Sending) {
    var d := DescriptorOf(x.id);
    var events := FramesOf(calls, d);
    && 8 <= |x.payload| <= LONGEST && Good(x) && n.pool.capacity >= 1 + BlocksFor(Buffered(|x.payload|))
    && Carries(events, Frames(x.id, x.tid, x.crc, x.payload)) && AllInTime(events, events[0].now)
    && Receptive(Lookup(n.rx, d), x.tid, events[0].now) && Wanted(x, n.nodeId, accept)
    && CleanupsInTime(calls, d, false, events[0].now)
  }

  lemma {:induction false} ExpectedStarts(n: Node, calls: seq<Call>, accept: Acceptance, x: Sending)
    requires Expected(n, calls, accept, x)
    requires calls != [] && calls[0].FrameIn? && DescriptorOf(calls[0].event.frame.id) == DescriptorOf(x.id)
    ensures var d := DescriptorOf(x.id); var events := FramesOf(calls, d);
      && events != [] && events[0] == calls[0].event && events[1..] == FramesOf(calls[1..], d)
      && CleanupsInTime(calls[1..], d, true, events[0].now)
      && 8 <= |x.payload| && n.pool.capacity >= 1 && Wanted(x, n.nodeId, accept)
      && Carries(events, Frames(x.id, x.tid, x.crc, x.payload)) && AllInTime(events, events[0].now)
      && Receptive(Lookup(n.rx, d), x.tid, events[0].now)
  {
  }

  /** Its first frame. */
  lemma {:induction false} StartFollowed(n: Node, calls: seq<Call>, accept: Acceptance, x: Sending)
    requires Sound(n) && !RunCalls(n, calls, accept).starved && Expected(n, calls, accept, x)
    requires calls != [] && calls[0].FrameIn? && DescriptorOf(calls[0].event.frame.id) == DescriptorOf(x.id)
    ensures var d := DescriptorOf(x.id);
      Follow(Lookup(n.rx, d), n.pool.capacity, n.nodeId, calls, d, accept).log
      == Feed(Lookup(n.rx, d), Alone(Lookup(n.rx, d), n.pool.capacity), n.nodeId, FramesOf(calls, d), accept).log
  {
    hide *;
    var d := DescriptorOf(x.id);
    var e, view, events := calls[0].event, Lookup(n.rx, d), FramesOf(calls, d);
    var q := Alone(view, n.pool.capacity);
    ExpectedStarts(n, calls, accept, x);
    AloneOnly(n, d);
    SameFrame(n, calls, d, accept, q);
    FirstStarts(view, q, n.nodeId, events, accept, x);
    var r := OnFrame(view, q, n.nodeId, e, accept);
    NowUnderWay(r, calls, d, x, e.now);
    FollowIsFeed(Perform(n, calls[0], accept).node, calls[1..], d, accept, r.pool, e.now);
    FollowFirst(n, calls, d, accept);
    FeedStep(view, q, n.nodeId, events, accept);
  }

  lemma {:induction false} AloneOnly(n: Node, d: bv32)
    requires Sound(n)
    ensures var view := Lookup(n.rx, d); var q := Alone(view, n.pool.capacity);
      && Only(q, view, n.pool.capacity) && Holding(view) <= n.pool.capacity
      && q.usage == Holding(view) && q.capacity == n.pool.capacity
  {
    LookupHeld(n.rx, d);
    hide Lookup;
    hide Distinct;
  }

  lemma {:induction false} FollowFirst(n: Node, calls: seq<Call>, d: bv32, accept: Acceptance)
    requires calls != [] && calls[0].FrameIn? && DescriptorOf(calls[0].event.frame.id) == d
    ensures var view := Lookup(n.rx, d);
      var r := OnFrame(view, Alone(view, n.pool.capacity), n.nodeId, calls[0].event, accept);
      Follow(view, n.pool.capacity, n.nodeId, calls, d, accept).log
      == [r.delivered] + Follow(r.view, n.pool.capacity, n.nodeId, calls[1..], d, accept).log
  {
    hide OnFrame;
    hide Lookup;
  }

  /** It is taken, and the others are its later frames. */
  lemma {:induction false} FirstStarts(view: Option<RxState>, q: Pool, nodeId: byte, events: seq<Event>,
                                       accept: Acceptance, x: Sending)
    requires 8 <= |x.payload| && Carries(events, Frames(x.id, x.tid, x.crc, x.payload)) && events != []
    requires AllInTime(events, events[0].now) && Receptive(view, x.tid, events[0].now) && Wanted(x, nodeId, accept)
    requires q.usage == Holding(view) && q.capacity >= 1
    ensures var r := OnFrame(view, q, nodeId, events[0], accept);
      && r.view.Some? && r.view.value.core.timestamp == events[0].now
      && forall e | e in events[1..] :: Continuation(e.frame)
  {
    hide Receptive;
    hide Wanted;
    hide OnFrame;
    hide Contents;
    hide Layout;
    hide TransferCrc;
    hide Pieces;
    hide Lengths;
    OwnFramesCut(x);
    FirstPiece(events, x, OwnLengths(|x.payload|));
    StartTaken(view, q, nodeId, events[0], accept, x, 5);
    PiecesAreLater(events[1..], x, 5, OwnLengths(|x.payload|)[1..], true, events[0].now);
    hide Replay;
  }

  lemma {:induction false} NowUnderWay(r: Reply, calls: seq<Call>, d: bv32, x: Sending, start: Timestamp)
    requires calls != [] && r.view.Some? && r.view.value.core.timestamp == start
    requires CleanupsInTime(calls[1..], d, true, start)
    requires forall e | e in FramesOf(calls[1..], d) :: Continuation(e.frame)
    ensures UnderWay(r.view, calls[1..], d, start)
  {
    hide CleanupsInTime;
    hide Continuation;
  }

  /** Before its first frame, and then all of it. */
  lemma {:induction false} FollowDelivers(n: Node, calls: seq<Call>, accept: Acceptance, x: Sending)
    requires Sound(n) && !RunCalls(n, calls, accept).starved && Expected(n, calls, accept, x)
    ensures var d := DescriptorOf(x.id);
      DeliversLast(Follow(Lookup(n.rx, d), n.pool.capacity, n.nodeId, calls, d, accept).log, x,
                   EndTime(FramesOf(calls, d)), true)
    decreases |calls|
  {
    hide Follow;
    hide Perform;
    hide Lookup;
    hide DeliversLast;
    hide RunCalls;
    var d := DescriptorOf(x.id);
    ExpectsCall(n, calls, accept, x);
    if calls[0].FrameIn? && DescriptorOf(calls[0].event.frame.id) == d {
      StartFollowed(n, calls, accept, x);
      ExpectedDelivered(n, calls, accept, x);
    } else {
      OtherCall(n, calls, d, accept);
      StillExpected(n, calls, accept, x, Perform(n, calls[0], accept).node);
      hide Expected;
      FollowDelivers(Perform(n, calls[0], accept).node, calls[1..], accept, x);
    }
  }

  lemma {:induction false} ExpectsCall(n: Node, calls: seq<Call>, accept: Acceptance, x: Sending)
    requires Expected(n, calls, accept, x)
    ensures calls != [] && FramesOf(calls, DescriptorOf(x.id)) != []
  {
  }

  lemma {:induction false} ExpectedDelivered(n: Node, calls: seq<Call>, accept: Acceptance, x: Sending)
    requires Sound(n) && Expected(n, calls, accept, x)
    ensures var d := DescriptorOf(x.id); var view := Lookup(n.rx, d);
      DeliversLast(Feed(view, Alone(view, n.pool.capacity), n.nodeId, FramesOf(calls, d), accept).log, x,
                   EndTime(FramesOf(calls, d)), true)
  {
    var d := DescriptorOf(x.id);
    var view := Lookup(n.rx, d);
    LookupHeld(n.rx, d);
    hide Lookup;
    hide Feed;
    hide DeliversLast;
    TransferDelivered(view, Alone(view, n.pool.capacity), n.nodeId, FramesOf(calls, d), accept, x);
  }

  lemma {:induction false} StillExpected(n: Node, calls: seq<Call>, accept: Acceptance, x: Sending, n': Node)
    requires Expected(n, calls, accept, x) && calls != []
    requires var d := DescriptorOf(x.id);
      && !(calls[0].FrameIn? && DescriptorOf(calls[0].event.frame.id) == d)
      && FramesOf(calls, d) == FramesOf(calls[1..], d)
      && n'.nodeId == n.nodeId && n'.pool.capacity == n.pool.capacity
      && (Lookup(n'.rx, d) == Lookup(n.rx, d) || Lookup(n'.rx, d) == None)
    ensures Expected(n', calls[1..], accept, x)
  {
    hide Lookup;
    hide Wanted;
    hide Good;
    hide FramesOf;
  }

  /** A multi-frame transfer arriving among frames of other descriptors, sends, pops and cleanups is delivered exactly
      once, by its last frame, with its own payload, on any node that does not run out of memory; only a cleanup between
      its frames must come within the timeout. */
  lemma {:induction false} InterleavedTransferDelivered(n: Node, calls: seq<Call>, accept: Acceptance, x: Sending)
    requires Sound(n) && !RunCalls(n, calls, accept).starved && Expected(n, calls, accept, x)
    ensures DeliversLast(Select(RunCalls(n, calls, accept).log, DescriptorOf(x.id)), x,
                         EndTime(FramesOf(calls, DescriptorOf(x.id))), true)
  {
    hide DeliversLast;
    hide Follow;
    hide RunCalls;
    NonInterference(n, calls, DescriptorOf(x.id), accept);
    FollowDelivers(n, calls, accept, x);
  }
}
