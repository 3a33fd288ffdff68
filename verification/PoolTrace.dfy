/** The pool statistics as a history of allocations and frees: what every call does to them, and what the peak means. */
module PoolTrace {
  import opened Types
  import opened CanId
  import opened Fragment
  import opened RxBuffer
  import opened Receiver
  import opened TxQueue
  import opened Library

  // ---------------------------------------------------------------- the statistics

  datatype PoolOp = Allocate | GiveBack

  /** `allocateBlock` and `freeBlock` as the statistics see them; a failed allocation changes nothing. */
  function After(p: Pool, op: PoolOp): Pool {
    match op
    case Allocate => if p.Full() then p else p.Take()
    case GiveBack => p.Return(1)
  }

  function RunPool(p: Pool, ops: seq<PoolOp>): Pool
    decreases |ops|
  {
    if ops == [] then p else RunPool(After(p, ops[0]), ops[1..])
  }

  /** The pool of an arena of `capacity` blocks after all operations since its initialisation. */
  ghost predicate Recorded(capacity: nat, history: seq<PoolOp>, p: Pool) {
    RunPool(Pool(capacity, 0, 0), history) == p
  }

  lemma {:induction false} RecordedMore(capacity: nat, history: seq<PoolOp>, p: Pool, op: PoolOp)
    requires Recorded(capacity, history, p)
    ensures Recorded(capacity, history + [op], After(p, op))
  {
    RunPoolConcat(Pool(capacity, 0, 0), history, [op]);
    assert [op][1..] == [];
  }

  /** The peak is the largest usage after any part of the history. */
  lemma {:induction false} RecordedPeak(capacity: nat, history: seq<PoolOp>, p: Pool)
    requires Recorded(capacity, history, p)
    ensures forall k | 0 <= k <= |history| :: RunPool(Pool(capacity, 0, 0), history[..k]).usage <= p.peak
    ensures exists k | 0 <= k <= |history| :: RunPool(Pool(capacity, 0, 0), history[..k]).usage == p.peak
  {
    PeakIsMaximum(Pool(capacity, 0, 0), history);
    if p.peak == 0 {
      assert history[..0] == [];
    }
  }

  /** The peak is at least the usage after every prefix of a run, and it is reached. */
  lemma {:induction false} PeakIsMaximum(p: Pool, ops: seq<PoolOp>)
    requires p.usage <= p.peak
    ensures forall k | 0 <= k <= |ops| :: RunPool(p, ops[..k]).usage <= RunPool(p, ops).peak
    ensures RunPool(p, ops).peak == p.peak || exists k | 0 <= k <= |ops| ::
      RunPool(p, ops[..k]).usage == RunPool(p, ops).peak
    ensures RunPool(p, ops).peak >= p.peak
    decreases |ops|
  {
    if ops == [] {
      assert ops[..0] == ops;
    } else {
      var q := After(p, ops[0]);
      PeakIsMaximum(q, ops[1..]);
      forall k | 0 <= k <= |ops| ensures RunPool(p, ops[..k]).usage <= RunPool(p, ops).peak {
        if k > 0 {
          PrefixStep(p, ops, k);
        }
      }
      PrefixStep(p, ops, 1);
      if RunPool(p, ops).peak != q.peak {
        var k :| 0 <= k <= |ops[1..]| && RunPool(q, ops[1..][..k]).usage == RunPool(q, ops[1..]).peak;
        PrefixStep(p, ops, k + 1);
        assert RunPool(p, ops[..k + 1]).usage == RunPool(p, ops).peak;
      } else if q.peak != p.peak {
        assert ops[1..][..0] == [];
        assert RunPool(p, ops[..1]).usage == RunPool(p, ops).peak;
      }
    }
  }

  lemma {:induction false} PrefixStep(p: Pool, ops: seq<PoolOp>, k: nat)
    requires 0 < k <= |ops|
    ensures RunPool(p, ops[..k]) == RunPool(After(p, ops[0]), ops[1..][..k - 1])
  {
    assert ops[..k][1..] == ops[1..][..k - 1];
  }

  lemma {:induction false} RunPoolConcat(p: Pool, a: seq<PoolOp>, b: seq<PoolOp>)
    ensures RunPool(p, a + b) == RunPool(RunPool(p, a), b)
    decreases |a|
  {
    if a == [] {
      assert a + b == b;
    } else {
      assert (a + b)[1..] == a[1..] + b;
      RunPoolConcat(After(p, a[0]), a[1..], b);
    }
  }

  function Times(op: PoolOp, n: nat): seq<PoolOp> {
    seq(n, _ => op)
  }

  lemma {:induction false} GivesBack(p: Pool, n: nat)
    ensures RunPool(p, Times(GiveBack, n)) == p.Return(n)
    decreases n
  {
    if n > 0 {
      assert Times(GiveBack, n)[1..] == Times(GiveBack, n - 1);
      GivesBack(p.Return(1), n - 1);
    }
  }

  // ---------------------------------------------------------------- the allocations and frees of a received frame

  /** Writing `n` bytes from position `at` of a block: an allocation whenever a block is full, until one fails. */
  function WriteTrace(at: nat, n: nat, pool: Pool): seq<PoolOp>
    requires at < BLOCK_SIZE
    decreases n
  {
    var room := Room(BLOCK_SIZE, at, n);
    if room == n then []
    else if pool.Full() then [Allocate]
    else [Allocate] + WriteTrace(0, n - room, pool.Take())
  }

  lemma {:induction false} WriteFollows(blocks: seq<Block>, at: nat, data: seq<byte>, pool: Pool, junk: Block)
    requires blocks != [] && at < BLOCK_SIZE
    ensures RunPool(pool, WriteTrace(at, |data|, pool)) == WriteBlocks(blocks, at, data, pool, junk).pool
    decreases |data|
  {
    var n := Room(BLOCK_SIZE, at, |data|);
    if n < |data| && !pool.Full() {
      var filled := blocks[|blocks| - 1 := Overlay(blocks[|blocks| - 1], at, data)];
      WriteFollows(filled + [junk], 0, data[n..], pool.Take(), junk);
      assert WriteTrace(at, |data|, pool)[1..] == WriteTrace(0, |data| - n, pool.Take());
    }
  }

  function PushTrace(s: RxState, data: seq<byte>, pool: Pool): seq<PoolOp> {
    var rest := |BeyondHead(s, data)|;
    if FitsHead(s, |data|) then []
    else if !Grows(s, |data|) then WriteTrace(StartIndex(s), rest, pool)
    else if pool.Full() then [Allocate]
    else [Allocate] + WriteTrace(StartIndex(s), rest, pool.Take())
  }

  lemma {:induction false} PushFollows(s: RxState, data: seq<byte>, pool: Pool, junk: Block)
    ensures RunPool(pool, PushTrace(s, data, pool)) == PushBytes(s, data, pool, junk).pool
  {
    if !FitsHead(s, |data|) {
      if !Grows(s, |data|) {
        WriteFollows(s.blocks, StartIndex(s), BeyondHead(s, data), pool, junk);
      } else if !pool.Full() {
        WriteFollows(s.blocks + [junk], StartIndex(s), BeyondHead(s, data), pool.Take(), junk);
        assert PushTrace(s, data, pool)[1..] == WriteTrace(StartIndex(s), |BeyondHead(s, data)|, pool.Take());
      }
    }
  }

  /** A push, and when it fails the release of the whole chain. */
  function StoreTrace(s: RxState, pool: Pool, chunk: seq<byte>, junk: Junk): seq<PoolOp> {
    var p := PushBytes(s, chunk, pool, junk.block);
    PushTrace(s, chunk, pool) + (if p.ok then [] else Times(GiveBack, |p.state.blocks|))
  }

  lemma {:induction false} StoreFollows(s: RxState, pool: Pool, chunk: seq<byte>, crc: bv16, junk: Junk)
    ensures RunPool(pool, StoreTrace(s, pool, chunk, junk)) == Store(s, pool, chunk, crc, junk).pool
  {
    var p := PushBytes(s, chunk, pool, junk.block);
    PushFollows(s, chunk, pool, junk.block);
    hide PushBytes;
    hide PushTrace;
    var freed := if p.ok then [] else Times(GiveBack, |p.state.blocks|);
    RunPoolConcat(pool, PushTrace(s, chunk, pool), freed);
    GivesBack(p.pool, |p.state.blocks|);
  }

  function ProceedTrace(s: RxState, pool: Pool, f: Frame, now: Timestamp, junk: Junk): seq<PoolOp>
    requires f.data != []
  {
    var tail := TailOf(f);
    if IsStart(tail) && IsEnd(tail) then []
    else if Toggle(tail) != s.core.nextToggle || TransferIdOf(tail) != s.core.transferId then []
    else if IsStart(tail) then
      if |f.data| <= 3 then []
      else StoreTrace(s.(core := s.core.(timestamp := now)), pool, f.data[2..|f.data| - 1], junk)
    else if !IsEnd(tail) then StoreTrace(s, pool, f.data[..|f.data| - 1], junk)
    else Times(GiveBack, |s.blocks|)
  }

  lemma {:induction false} ProceedFollows(s: RxState, pool: Pool, f: Frame, now: Timestamp, junk: Junk)
    requires f.data != []
    ensures RunPool(pool, ProceedTrace(s, pool, f, now, junk)) == Proceed(s, pool, f, now, junk).pool
  {
    hide Store;
    hide StoreTrace;
    hide Splice;
    var tail := TailOf(f);
    if (IsStart(tail) && IsEnd(tail)) || Toggle(tail) != s.core.nextToggle || TransferIdOf(tail) != s.core.transferId {
    } else if IsStart(tail) {
      if |f.data| > 3 {
        StoreFollows(s.(core := s.core.(timestamp := now)), pool, f.data[2..|f.data| - 1], CarriedCrc(f), junk);
      }
    } else if !IsEnd(tail) {
      StoreFollows(s, pool, f.data[..|f.data| - 1], s.core.payloadCrc, junk);
    } else {
      GivesBack(pool, |s.blocks|);
    }
  }

  /** The restart rule releases the chain first. */
  function ReceiveTrace(s: RxState, pool: Pool, f: Frame, now: Timestamp, junk: Junk): seq<PoolOp>
    requires f.data != []
  {
    var tail := TailOf(f);
    if !NeedsRestart(s, tail, now) then ProceedTrace(s, pool, f, now, junk)
    else
      Times(GiveBack, |s.blocks|)
      + (if IsStart(tail) then ProceedTrace(Restarted(s, tail), pool.Return(|s.blocks|), f, now, junk) else [])
  }

  lemma {:induction false} ReceiveFollows(s: RxState, pool: Pool, f: Frame, now: Timestamp, junk: Junk)
    requires f.data != []
    ensures RunPool(pool, ReceiveTrace(s, pool, f, now, junk)) == Receive(s, pool, f, now, junk).pool
  {
    hide Proceed;
    hide ProceedTrace;
    var tail := TailOf(f);
    if !NeedsRestart(s, tail, now) {
      ProceedFollows(s, pool, f, now, junk);
    } else {
      var q := pool.Return(|s.blocks|);
      GivesBack(pool, |s.blocks|);
      ProceedFollows(Restarted(s, tail), q, f, now, junk);
      RunPoolConcat(pool, Times(GiveBack, |s.blocks|),
                    if IsStart(tail) then ProceedTrace(Restarted(s, tail), q, f, now, junk) else []);
    }
  }

  /** A wanted start frame of an unknown descriptor allocates its state first, or fails to. */
  function FrameTrace(view: Option<RxState>, pool: Pool, nodeId: byte, e: Event, accept: Acceptance): seq<PoolOp> {
    var f := e.frame;
    if !Compatible(f) || !Addressed(f, nodeId) then []
    else if IsStart(TailOf(f)) then
      match Signature(accept, f.id)
      case None => []
      case Some(signature) =>
        var s := Opened(view, f.id, signature, e.junk);
        if view.Some? then ReceiveTrace(s, pool, f, e.now, e.junk)
        else [Allocate] + (if pool.Full() then [] else ReceiveTrace(s, pool.Take(), f, e.now, e.junk))
    else
      match view
      case None => []
      case Some(s) => ReceiveTrace(s, pool, f, e.now, e.junk)
  }

  lemma {:induction false} FrameFollows(view: Option<RxState>, pool: Pool, nodeId: byte, e: Event, accept: Acceptance)
    ensures RunPool(pool, FrameTrace(view, pool, nodeId, e, accept)) == OnFrame(view, pool, nodeId, e, accept).pool
  {
    hide Receive;
    hide ReceiveTrace;
    var f := e.frame;
    if Compatible(f) && Addressed(f, nodeId) {
      if !IsStart(TailOf(f)) {
        if view.Some? {
          ReceiveFollows(view.value, pool, f, e.now, e.junk);
        }
      } else if Signature(accept, f.id).Some? {
        var s := Opened(view, f.id, Signature(accept, f.id).value, e.junk);
        ReceiveFollows(s, if view.Some? then pool else pool.Take(), f, e.now, e.junk);
        if view.None? {
          assert FrameTrace(view, pool, nodeId, e, accept)[1..]
              == if pool.Full() then [] else ReceiveTrace(s, pool.Take(), f, e.now, e.junk);
        }
      }
    }
  }

  // ---------------------------------------------------------------- the other calls, and runs

  lemma {:induction false} Allocates(p: Pool, n: nat)
    requires n == 0 || p.usage + n <= p.capacity
    ensures RunPool(p, Times(Allocate, n)) == TakeMany(p, n)
    decreases n
  {
    if n > 0 {
      assert Times(Allocate, n)[1..] == Times(Allocate, n - 1);
      Allocates(p.Take(), n - 1);
    }
  }

  /** One allocation for each frame that is queued, and one that fails if not all are. */
  function EnqueueTrace(p: Pool, frames: seq<Frame>): seq<PoolOp> {
    var k := Affordable(p, |frames|);
    Times(Allocate, k) + (if k < |frames| then [Allocate] else [])
  }

  lemma {:induction false} EnqueueFollows(n: Node, frames: seq<Frame>)
    ensures RunPool(n.pool, EnqueueTrace(n.pool, frames)) == Enqueue(n, frames).0.pool
  {
    var k := Affordable(n.pool, |frames|);
    Allocates(n.pool, k);
    RunPoolConcat(n.pool, Times(Allocate, k), if k < |frames| then [Allocate] else []);
    hide InsertAll;
  }

  /** The frames a send tries to queue. */
  function SentFrames(n: Node, c: Call): seq<Frame> {
    match c
    case Message(signature, dtid, tid, priority, payload) =>
      if priority > PRIORITY_LOWEST then []
      else if n.nodeId == 0 then
        if |payload| > 7 || dtid & 3 != dtid then [] else AnonymousFrames(priority, dtid, tid, payload)
      else MessageFrames(n.nodeId, signature, dtid, tid, priority, payload)
    case Service(destination, signature, dtid, tid, priority, request, payload) =>
      if priority > PRIORITY_LOWEST || n.nodeId == 0 then []
      else ServiceFrames(n.nodeId, destination, signature, dtid, tid, priority, request, payload)
    case _ => []
  }

  /** Every allocation and every free of a call, in order, failed allocations included. */
  function CallTrace(n: Node, c: Call, accept: Acceptance): seq<PoolOp> {
    match c
    case FrameIn(e) => FrameTrace(Lookup(n.rx, DescriptorOf(e.frame.id)), n.pool, n.nodeId, e, accept)
    case Pop => if n.tx == [] then [] else [GiveBack]
    case CleanUp(now) => Times(GiveBack, StaleBlocks(n.rx, now))
    case _ => EnqueueTrace(n.pool, SentFrames(n, c))
  }

  lemma {:induction false} NothingQueued(p: Pool)
    ensures RunPool(p, EnqueueTrace(p, [])) == p
  {
  }

  lemma {:induction false} SendFollows(n: Node, c: Call, accept: Acceptance)
    requires c.Message? || c.Service?
    ensures RunPool(n.pool, CallTrace(n, c, accept)) == Perform(n, c, accept).node.pool
  {
    hide EnqueueTrace;
    hide Enqueue;
    hide AnonymousFrames;
    hide MessageFrames;
    hide ServiceFrames;
    NothingQueued(n.pool);
    EnqueueFollows(n, SentFrames(n, c));
  }

  /** The trace of a call accounts for what the call does to the pool. */
  lemma {:induction false} CallFollows(n: Node, c: Call, accept: Acceptance)
    ensures RunPool(n.pool, CallTrace(n, c, accept)) == Perform(n, c, accept).node.pool
  {
    match c
    case FrameIn(e) =>
      hide OnFrame;
      hide FrameTrace;
      FrameFollows(Lookup(n.rx, DescriptorOf(e.frame.id)), n.pool, n.nodeId, e, accept);
    case Pop =>
      assert [GiveBack][1..] == [];
    case CleanUp(now) =>
      GivesBack(n.pool, StaleBlocks(n.rx, now));
    case _ =>
      SendFollows(n, c, accept);
  }

  function CallsTrace(n: Node, calls: seq<Call>, accept: Acceptance): seq<PoolOp>
    decreases |calls|
  {
    if calls == [] then []
    else CallTrace(n, calls[0], accept) + CallsTrace(Perform(n, calls[0], accept).node, calls[1..], accept)
  }

  lemma {:induction false} CallsFollow(n: Node, calls: seq<Call>, accept: Acceptance)
    ensures RunPool(n.pool, CallsTrace(n, calls, accept)) == RunCalls(n, calls, accept).node.pool
    decreases |calls|
  {
    if calls != [] {
      hide Perform;
      hide CallTrace;
      CallFollows(n, calls[0], accept);
      var node := Perform(n, calls[0], accept).node;
      CallsFollow(node, calls[1..], accept);
      RunPoolConcat(n.pool, CallTrace(n, calls[0], accept), CallsTrace(node, calls[1..], accept));
    }
  }

  /** The usage after some of the operations of a run from a fresh node. */
  function UsageAfter(capacity: nat, calls: seq<Call>, accept: Acceptance, k: nat): int
    requires k <= |CallsTrace(NewNode(capacity), calls, accept)|
  {
    RunPool(Pool(capacity, 0, 0), CallsTrace(NewNode(capacity), calls, accept)[..k]).usage
  }

  /** From initialisation on, whatever calls follow, the reported peak is the largest number of blocks that were in use
      at any moment, in the middle of a call or between calls. */
  lemma {:induction false} PeakIsHighest(capacity: nat, calls: seq<Call>, accept: Acceptance)
    ensures var peak := RunCalls(NewNode(capacity), calls, accept).node.pool.peak;
      var n := |CallsTrace(NewNode(capacity), calls, accept)|;
      && (forall k | 0 <= k <= n :: UsageAfter(capacity, calls, accept, k) <= peak)
      && (exists k | 0 <= k <= n :: UsageAfter(capacity, calls, accept, k) == peak)
  {
    var ops := CallsTrace(NewNode(capacity), calls, accept);
    hide CallsTrace;
    hide RunCalls;
    CallsFollow(NewNode(capacity), calls, accept);
    PeakIsMaximum(Pool(capacity, 0, 0), ops);
    assert forall k | 0 <= k <= |ops| ::
      UsageAfter(capacity, calls, accept, k) == RunPool(Pool(capacity, 0, 0), ops[..k]).usage;
    if RunPool(Pool(capacity, 0, 0), ops).peak == 0 {
      assert ops[..0] == [];
      assert UsageAfter(capacity, calls, accept, 0) == 0;
    }
  }
}
