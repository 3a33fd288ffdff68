/** The library instance: list heads, statistics and the arena, changed in place by the calls of the source. */
module Instance {
  import opened Types
  import opened CanId
  import opened Crc
  import opened Fragment
  import opened RxBuffer
  import opened Receiver
  import opened TxQueue
  import opened Library
  import opened Arena
  import opened ArenaRx
  import opened Interleaving
  import opened Steps
  import opened Ownership
  import opened PoolTrace

  const MEM_BLOCK_SIZE := 32

  class CanardInstance {
    var nodeId: byte
    var freeList: int
    var usage: nat
    var peak: nat
    var rxStates: int
    var txQueue: int
    const next: array<int>
    const body: array<Body>

    ghost var lay: Lay
    ghost var model: Node
    ghost var history: seq<PoolOp>

    ghost function TheHeads(): Heads
      reads this
    {
      Heads(freeList, txQueue, rxStates)
    }

    ghost predicate Valid()
      reads this, next, body
    {
      && next.Length == body.Length == |lay.owner| && Good(next[..], body[..], TheHeads(), lay, model)
      && model.nodeId == nodeId && model.pool == Pool(next.Length, usage, peak)
      && Recorded(next.Length, history, model.pool)
    }

    /** `canardInit`: the arena is cut into 32-byte blocks, all free. */
    constructor (arenaSize: nat)
      ensures Valid() && fresh(next) && fresh(body)
      ensures model == NewNode(Min(arenaSize / MEM_BLOCK_SIZE, 0xFFFF)) && Sound(model)
    {
      var n := arenaSize / MEM_BLOCK_SIZE;
      if n > 0xFFFF {
        n := 0xFFFF;
      }
      next := new int[n];
      body := new Body[n](_ => Raw);
      nodeId, usage, peak := 0, 0, 0;
      rxStates, txQueue, freeList := NULL, NULL, NULL;
      new;
      InitPool();
    }

    /** Between calls the lists of the instance partition the arena, and the statistics are right. */
    lemma {:induction false} Owned()
      requires Valid() && Sound(model)
      ensures Partitions(next[..], body[..], TheHeads(), lay)
      ensures usage == next.Length - |lay.free| && usage <= peak && usage == |model.tx| + Interleaving.Held(model.rx)
    {
      ArenaPartitioned(next[..], body[..], TheHeads(), lay, model);
    }

    /** The peak is the largest usage since the instance was made, in the middle of a call or between calls. */
    lemma {:induction false} PeakReached()
      requires Valid()
      ensures forall k | 0 <= k <= |history| :: RunPool(Pool(next.Length, 0, 0), history[..k]).usage <= peak
      ensures exists k | 0 <= k <= |history| :: RunPool(Pool(next.Length, 0, 0), history[..k]).usage == peak
      ensures RunPool(Pool(next.Length, 0, 0), history).usage == usage
    {
      hide Good;
      RecordedPeak(next.Length, history, model.pool);
    }

    /** `initPoolAllocator`, on an instance whose other fields are cleared. */
    method InitPool()
      requires nodeId == 0 && usage == 0 && peak == 0 && rxStates == NULL && txQueue == NULL
      requires next.Length == body.Length
      modifies this, next
      ensures Valid() && model == NewNode(next.Length) && history == []
    {
      LinkPool();
      ghost var free: seq<int> := seq(next.Length, k => k);
      FreshArenaGood(next[..], body[..], free);
      lay := Lay(seq(next.Length, _ => Free), free, [], [], map[]);
      model, history := NewNode(next.Length), [];
    }

    /** Every block is linked to its successor. */
    method LinkPool()
      modifies this`freeList, next
      ensures freeList == (if next.Length == 0 then NULL else 0)
      ensures forall k | 0 <= k < next.Length :: next[k] == if k + 1 < next.Length then k + 1 else NULL
    {
      freeList := NULL;
      for i := 0 to next.Length
        invariant freeList == if i == 0 then NULL else 0
        invariant forall k | 0 <= k < i - 1 :: next[k] == k + 1
      {
        if i == 0 {
          freeList := i;
        } else {
          next[i - 1] := i;
        }
      }
      if next.Length > 0 {
        next[next.Length - 1] := NULL;
      }
    }

    /** `canardSetLocalNodeID`: once, to an address between 1 and 127. */
    method SetLocalNodeId(id: byte)
      requires Valid() && nodeId == 0 && 1 <= id && id <= 127
      modifies this
      ensures old(history) <= history
      ensures Valid() && model == old(model).(nodeId := id) && lay == old(lay)
      ensures old(Sound(model)) ==> Sound(model)
    {
      hide Good;
      nodeId := id;
      model := model.(nodeId := id);
      NodeIdGood(next[..], body[..], TheHeads(), lay, old(model), id);
    }

    // -------------------------------------------------------------- the pool

    /** `allocateBlock`: the first free block. */
    method AllocateBlock() returns (p: int)
      requires Valid()
      modifies this
      ensures old(history) <= history
      ensures Valid() && nodeId == old(nodeId) && txQueue == old(txQueue) && rxStates == old(rxStates)
      ensures old(model.pool.Full()) ==> p == NULL && lay == old(lay) && model == old(model)
      ensures !old(model.pool.Full()) ==>
        && 0 <= p < next.Length && old(lay.owner[p]) == Free
        && lay == old(lay).(owner := old(lay).owner[p := Held], free := old(lay).free[1..])
        && model == old(model).(pool := old(model).pool.Take())
      ensures history == old(history) + [Allocate]
    {
      hide Good;
      NoneFree(next[..], body[..], TheHeads(), lay, model);
      RecordedMore(next.Length, history, model.pool, Allocate);
      hide Recorded;
      history := history + [Allocate];
      if freeList == NULL {
        return NULL;
      }
      AllocateGood(next[..], body[..], TheHeads(), lay, model);
      p := freeList;
      freeList := next[freeList];
      usage := usage + 1;
      if peak < usage {
        peak := usage;
      }
      lay := Allocated(lay);
      model := model.(pool := model.pool.Take());
    }

    /** `freeBlock`: only the link word of the block is overwritten. */
    method FreeBlock(p: int)
      requires Valid() && 0 <= p < next.Length && lay.owner[p] == Held
      modifies this, next
      ensures old(history) <= history
      ensures Valid() && nodeId == old(nodeId) && txQueue == old(txQueue) && rxStates == old(rxStates)
      ensures lay == Freed(old(lay), p)
      ensures model == old(model).(pool := old(model).pool.Return(1))
      ensures next[..] == old(next[..])[p := old(freeList)]
      ensures history == old(history) + [GiveBack]
    {
      hide Good;
      RecordedMore(next.Length, history, model.pool, GiveBack);
      hide Recorded;
      history := history + [GiveBack];
      FreeGood(next[..], body[..], TheHeads(), lay, model, p);
      InUse(next[..], body[..], TheHeads(), lay, model, p);
      next[p] := freeList;
      freeList := p;
      usage := usage - 1;
      lay := Freed(lay, p);
      model := model.(pool := model.pool.Return(1));
    }

    // -------------------------------------------------------------- the transmission queue

    /** `createTxItem`: a cleared block. */
    method CreateTxItem() returns (p: int)
      requires Valid()
      modifies this, next, body
      ensures old(history) <= history
      ensures Valid()
      ensures old(model.pool.Full()) ==> p == NULL && lay == old(lay) && model == old(model)
      ensures !old(model.pool.Full()) ==>
        && 0 <= p < next.Length && lay.owner[p] == Held && next[p] == NULL
        && model == old(model).(pool := old(model).pool.Take())
    {
      hide Good;
      p := AllocateBlock();
      if p == NULL {
        return;
      }
      LooseGood(next[..], body[..], TheHeads(), lay, model, p, NULL, Held);
      assert Retagged(lay, p, Held) == lay;
      next[p] := NULL;
      BodyGood(next[..], body[..], TheHeads(), lay, model, p, TxBody(Frame(0, [])));
      body[p] := TxBody(Frame(0, []));
    }

    /** The walk of `pushTxQueue`: to the first frame that the new one beats, or to the end. */
    method FindPlace(f: Frame) returns (queue: int, previous: int, ghost k: nat)
      requires Valid()
      ensures k == InsertPosition(model.tx, f) && queue == At(lay.tx, InsertPosition(model.tx, f))
      ensures |lay.tx| == |model.tx|
      ensures k > 0 ==> previous == lay.tx[k - 1]
    {
      hide Good;
      queue, previous, k := txQueue, txQueue, 0;
      TxAt(next[..], body[..], TheHeads(), lay, model, 0);
      while queue != NULL
        invariant |lay.tx| == |model.tx| && 0 <= k <= |lay.tx| && queue == At(lay.tx, k)
        invariant k > 0 ==> previous == lay.tx[k - 1]
        invariant InsertPosition(model.tx, f) == k + InsertPosition(model.tx[k..], f)
        decreases |lay.tx| - k
      {
        TxAt(next[..], body[..], TheHeads(), lay, model, k);
        PositionStep(model.tx, f, k);
        if IsPriorityHigher(body[queue].frame.id, f.id) {
          return;
        }
        previous := queue;
        queue := next[queue];
        k := k + 1;
      }
      TxAt(next[..], body[..], TheHeads(), lay, model, k);
    }

    /** `pushTxQueue`: the item goes in front of the first frame it beats, or to the end. */
    method PushTxQueue(item: int)
      requires Valid() && 0 <= item < next.Length && lay.owner[item] == Held && next[item] == NULL && body[item].TxBody?
      modifies this, next
      ensures old(history) <= history
      ensures Valid() && model == old(model).(tx := Insert(old(model).tx, body[item].frame))
    {
      hide Good;
      var queue, previous, k := FindPlace(body[item].frame);
      TxInsertGood(next[..], body[..], TheHeads(), lay, model, k, item, body[item].frame);
      InsertAtPosition(model.tx, body[item].frame);
      Link(item, queue, previous, k);
      lay := TxInserted(lay, k, item);
      model := model.(tx := Insert(model.tx, body[item].frame));
    }

    /** The relinking of `pushTxQueue`: at the front, in the middle, or at the end, where the item already ends the
        list. */
    method Link(item: int, queue: int, previous: int, ghost k: nat)
      requires Valid() && 0 <= item < next.Length && lay.owner[item] == Held && next[item] == NULL
      requires k <= |lay.tx| && queue == At(lay.tx, k) && (k > 0 ==> previous == lay.tx[k - 1])
      modifies this`txQueue, next
      ensures forall i | 0 <= i < |lay.tx| :: 0 <= lay.tx[i] < next.Length
      ensures next[..] == LinkedIn(old(next[..]), lay.tx, k, item)
      ensures txQueue == if k == 0 then item else old(txQueue)
    {
      assert forall i | 0 <= i < |lay.tx| :: 0 <= lay.tx[i] < next.Length && lay.tx[i] != item;
      if queue == txQueue {
        assert k == 0;
        next[item] := queue;
        txQueue := item;
      } else {
        assert k > 0;
        next[previous] := item;
        next[item] := queue;
      }
    }

    /** The copying loop of a frame: up to seven bytes in all. */
    method FillFrame(start: seq<byte>, payload: seq<byte>, from: nat) returns (data: seq<byte>, dataIndex: nat)
      requires |start| <= 7 && from <= |payload|
      ensures dataIndex == from + Min(7 - |start|, |payload| - from)
      ensures data == start + payload[from..dataIndex]
    {
      data, dataIndex := start, from;
      while |data| < 7 && dataIndex < |payload|
        invariant from <= dataIndex <= |payload| && data == start + payload[from..dataIndex] && |data| <= 7
        decreases |payload| - dataIndex
      {
        data := data + [payload[dataIndex]];
        dataIndex := dataIndex + 1;
      }
    }

    /** One frame into the queue, unless no block is free. */
    method QueueFrame(f: Frame) returns (ok: bool)
      requires Valid()
      modifies this, next, body
      ensures old(history) <= history
      ensures Valid() && ok == !old(model.pool.Full())
      ensures model == if ok then old(model).(tx := Insert(old(model).tx, f), pool := old(model).pool.Take())
          else old(model)
    {
      hide Good;
      var item := CreateTxItem();
      if item == NULL {
        return false;
      }
      BodyGood(next[..], body[..], TheHeads(), lay, model, item, TxBody(f));
      body[item] := TxBody(f);
      PushTxQueue(item);
      return true;
    }

    /** A transfer of one frame. */
    method EnqueueSingle(id: bv32, tid: byte, crc: bv16, payload: seq<byte>) returns (result: int)
      requires Valid() && |payload| < 8
      modifies this, next, body
      ensures old(history) <= history
      ensures Valid() && (model, result) == Enqueue(old(model), Frames(id, tid, crc, payload))
    {
      hide Good;
      UsageBounded(next[..], body[..], TheHeads(), lay, model);
      SingleTail(tid);
      SingleQueued(model, SingleFrame(id, tid, payload));
      var ok := QueueFrame(Frame(id, payload + [0xC0 | (tid & 31)]));
      if !ok {
        return -OUT_OF_MEMORY;
      }
      return 1;
    }

    /** A transfer of several frames; without memory the frames queued so far stay queued. */
    method EnqueueMulti(id: bv32, tid: byte, crc: bv16, payload: seq<byte>) returns (result: int)
      requires Valid() && |payload| >= 8
      modifies this, next, body
      ensures old(history) <= history
      ensures Valid() && (model, result) == Enqueue(old(model), Frames(id, tid, crc, payload))
    {
      hide Good;
      ghost var frames, n := Frames(id, tid, crc, payload), model;
      UsageBounded(next[..], body[..], TheHeads(), lay, model);
      QueuedAll(n, frames, 0);
      result := 0;
      var dataIndex, toggle := 0, false;
      while |payload| - dataIndex != 0
        invariant old(history) <= history
        invariant Valid() && 0 <= dataIndex <= |payload| && 0 <= result <= |frames|
        invariant n.pool.usage + result <= n.pool.capacity
        invariant model == Queued(n, frames, result)
        invariant if dataIndex == 0 then result == 0 && !toggle
            else frames[result..] == FramesFrom(id, tid, payload, dataIndex, toggle)
        decreases |payload| - dataIndex
      {
        ghost var at := dataIndex;
        var data: seq<byte>;
        var start := dataIndex == 0;
        data, dataIndex := FillFrame(if start then CrcBytes(crc) else [], payload, dataIndex);
        data := data + [TailByte(start && dataIndex != |payload|, dataIndex == |payload|, toggle, tid)];
        FrameAt(id, tid, crc, payload, at, toggle, frames, result, data, dataIndex);
        QueuedAll(n, frames, result);
        QueuedMore(n, frames, result);
        var ok := QueueFrame(Frame(id, data));
        if !ok {
          return -OUT_OF_MEMORY;
        }
        result := result + 1;
        toggle := !toggle;
      }
      QueuedAll(n, frames, result);
    }

    /** `enqueueTxFrames`. */
    method EnqueueTxFrames(canId: bv32, tid: byte, crc: bv16, payload: seq<byte>) returns (result: int)
      requires Valid()
      modifies this, next, body
      ensures old(history) <= history
      ensures Valid() && (model, result) == Enqueue(old(model), Frames(canId | EFF, tid, crc, payload))
    {
      hide Good;
      if |payload| < 8 {
        result := EnqueueSingle(canId | EFF, tid, crc, payload);
      } else {
        result := EnqueueMulti(canId | EFF, tid, crc, payload);
      }
    }

    // -------------------------------------------------------------- sending

    method ComputeCrc(signature: bv64, payload: seq<byte>) returns (crc: bv16)
      ensures crc == CalculateCrc(signature, payload)
    {
      crc := 0xFFFF;
      if |payload| > 7 {
        crc := AddSignature(crc, signature);
        crc := Add(crc, payload);
      }
    }

    /** A message from a node without an address: short, and of a data type that fits two bits. */
    method BroadcastAnonymously(dtid: bv16, tid: byte, priority: byte, payload: seq<byte>) returns (code: int)
      requires Valid()
      modifies this, next, body
      ensures old(history) <= history
      ensures Valid() && (model, code) ==
        if |payload| > 7 then (old(model), -NODE_ID_NOT_SET)
        else if dtid & 3 != dtid then (old(model), -INVALID_ARGUMENT)
        else Enqueue(old(model), AnonymousFrames(priority, dtid, tid, payload))
    {
      hide Good;
      if |payload| > 7 {
        return -NODE_ID_NOT_SET;
      }
      if dtid & 3 != dtid {
        return -INVALID_ARGUMENT;
      }
      var crc := Add(0xFFFF, payload);
      code := EnqueueTxFrames(AnonymousId(priority, dtid, crc & 0x7FFE), tid, 0xFFFF, payload);
    }

    method BroadcastFromNode(signature: bv64, dtid: bv16, tid: byte, priority: byte, payload: seq<byte>)
      returns (code: int)
      requires Valid()
      modifies this, next, body
      ensures old(history) <= history
      ensures Valid()
      ensures (model, code) == Enqueue(old(model), MessageFrames(old(nodeId), signature, dtid, tid, priority, payload))
    {
      hide Good;
      var crc := ComputeCrc(signature, payload);
      code := EnqueueTxFrames(MessageId(priority, dtid, nodeId), tid, crc, payload);
    }

    /** `canardBroadcast`: refused arguments leave the transfer ID alone, everything else advances it. */
    method Broadcast(signature: bv64, dtid: bv16, tid: byte, priority: byte, payload: seq<byte>)
      returns (code: int, newTid: byte)
      requires Valid()
      modifies this, next, body
      ensures old(history) <= history
      ensures Valid() && SendMessage(old(model), signature, dtid, tid, priority, payload) == Sent(model, newTid, code)
      ensures old(Sound(model)) ==> Sound(model)
    {
      hide Good;
      hide Sound;
      if Sound(model) {
        MessageKeeps(model, signature, dtid, tid, priority, payload);
      }
      newTid := tid;
      if priority > PRIORITY_LOWEST {
        return -INVALID_ARGUMENT, tid;
      }
      if nodeId == 0 {
        code := BroadcastAnonymously(dtid, tid, priority, payload);
        if |payload| > 7 || dtid & 3 != dtid {
          return;
        }
      } else {
        code := BroadcastFromNode(signature, dtid, tid, priority, payload);
      }
      newTid := Incremented(tid);
    }

    method ServiceFromNode(destination: byte, signature: bv64, dtid: byte, tid: byte, priority: byte, request: bool,
                           payload: seq<byte>)
      returns (code: int)
      requires Valid()
      modifies this, next, body
      ensures old(history) <= history
      ensures Valid() && (model, code)
        == Enqueue(old(model), ServiceFrames(old(nodeId), destination, signature, dtid, tid, priority, request,
                                             payload))
    {
      hide Good;
      hide Enqueue;
      hide CalculateCrc;
      hide ServiceId;
      var crc := ComputeCrc(signature, payload);
      code := EnqueueTxFrames(ServiceId(priority, dtid, request, destination, nodeId), tid, crc, payload);
    }

    /** `canardRequestOrRespond`. */
    method RequestOrRespond(destination: byte, signature: bv64, dtid: byte, tid: byte, priority: byte, request: bool,
                            payload: seq<byte>)
      returns (code: int, newTid: byte)
      requires Valid()
      modifies this, next, body
      ensures old(history) <= history
      ensures Valid()
      ensures SendService(old(model), destination, signature, dtid, tid, priority, request, payload)
          == Sent(model, newTid, code)
      ensures old(Sound(model)) ==> Sound(model)
    {
      hide Good;
      hide Sound;
      hide Enqueue;
      hide ServiceFrames;
      if Sound(model) {
        ServiceKeeps(model, destination, signature, dtid, tid, priority, request, payload);
      }
      if priority > PRIORITY_LOWEST {
        return -INVALID_ARGUMENT, tid;
      }
      if nodeId == 0 {
        return -NODE_ID_NOT_SET, tid;
      }
      code := ServiceFromNode(destination, signature, dtid, tid, priority, request, payload);
      newTid := if request then Incremented(tid) else tid;
    }

    /** `canardPeekTxQueue`: the block of the first frame, or NULL. */
    method PeekTxQueue() returns (item: int)
      requires Valid()
      ensures item == NULL <==> model.tx == []
      ensures item != NULL ==> 0 <= item < body.Length && body[item] == TxBody(model.tx[0]) && item == txQueue
    {
      hide Good;
      TxAt(next[..], body[..], TheHeads(), lay, model, 0);
      return txQueue;
    }

    /** `canardPopTxQueue`: only the link word of the popped block is overwritten, so the frame can still be read. */
    method PopTxQueue()
      requires Valid() && txQueue != NULL
      modifies this, next
      ensures old(history) <= history
      ensures Valid() && old(model).tx != [] && model == PopTx(old(model))
      ensures old(Sound(model)) ==> Sound(model)
    {
      hide Good;
      TxPopGood(next[..], body[..], TheHeads(), lay, model);
      var item := txQueue;
      txQueue := next[item];
      lay := TxPopped(lay);
      model := model.(tx := model.tx[1..]);
      FreeBlock(item);
    }

    // -------------------------------------------------------------- receive states

    /** `findRxState`: the state of a descriptor, or NULL. */
    method FindRxState(d: bv32) returns (r: int, ghost k: nat)
      requires Valid()
      ensures |lay.rx| == |model.rx| && k == IndexOf(model.rx, d) && r == At(lay.rx, IndexOf(model.rx, d))
      ensures r != NULL <==> Lookup(model.rx, d).Some?
    {
      hide Good;
      r, k := rxStates, 0;
      RxAt(next[..], body[..], TheHeads(), lay, model, 0);
      while r != NULL
        invariant |lay.rx| == |model.rx| && 0 <= k <= |lay.rx| && r == At(lay.rx, k)
        invariant IndexOf(model.rx, d) == k + IndexOf(model.rx[k..], d)
        decreases |lay.rx| - k
      {
        RxAt(next[..], body[..], TheHeads(), lay, model, k);
        IndexStep(model.rx, d, k);
        if body[r].core.descriptor == d {
          return;
        }
        r := next[r];
        k := k + 1;
      }
      RxAt(next[..], body[..], TheHeads(), lay, model, k);
    }

    /** `createRxState` and `prependRxState`: a cleared state at the front of the list. */
    method PrependRxState(d: bv32, junk: Junk) returns (r: int)
      requires Valid()
      modifies this, next, body
      ensures old(history) <= history
      ensures Valid()
      ensures old(model).pool.Full() ==> r == NULL && model == old(model) && lay == old(lay)
      ensures !old(model).pool.Full() ==> model == WithNewState(old(model), d, junk) && lay.rx == [r] + old(lay).rx
    {
      hide Good;
      r := AllocateBlock();
      if r == NULL {
        return;
      }
      ghost var core := NewState(d, junk).core;
      BodyGood(next[..], body[..], TheHeads(), lay, model, r, RxBody(NULL, core));
      body[r] := RxBody(NULL, RxCore(d, 0, 0, 0, 0, false, 0, junk.head));
      RxPrependGood(next[..], body[..], TheHeads(), lay, model, r, core);
      next[r] := rxStates;
      rxStates := r;
      lay := RxPrepended(lay, r);
      model := model.(rx := [RxState(core, [])] + model.rx);
    }

    /** `traverseRxStates`: the state of a descriptor, created if there is none. */
    method TraverseRxStates(d: bv32, junk: Junk) returns (r: int, ghost k: nat)
      requires Valid()
      modifies this, next, body
      ensures old(history) <= history
      ensures Valid() && |lay.rx| == |model.rx|
      ensures r == NULL <==> Lookup(old(model).rx, d) == None && old(model).pool.Full()
      ensures r == NULL ==> model == old(model)
      ensures r != NULL ==> IsState(r, k) && k == IndexOf(model.rx, d)
      ensures r != NULL ==> model == if Lookup(old(model).rx, d).Some? then old(model)
          else WithNewState(old(model), d, junk)
    {
      hide Good;
      r, k := FindRxState(d);
      if r == NULL {
        r := PrependRxState(d, junk);
        k := 0;
        RxAt(next[..], body[..], TheHeads(), lay, model, 0);
      }
    }

    /** Block `r` is the `k`-th receive state. */
    ghost predicate IsState(r: int, k: nat)
      reads this
    {
      |lay.rx| == |model.rx| && k < |lay.rx| && lay.rx[k] == r
    }

    /** Writing the fixed fields of a state. */
    method SetCore(r: int, ghost k: nat, core: RxCore)
      requires Valid() && IsState(r, k)
      modifies this, body
      ensures old(history) <= history
      ensures Valid() && IsState(r, k) && lay == old(lay)
      ensures model == WithRx(old(model), k, old(model).rx[k].(core := core), old(model).pool)
      ensures body[..] == old(body[..])[r := old(body[r]).(core := core)]
    {
      hide Good;
      RxCoreGood(next[..], body[..], TheHeads(), lay, model, k, core);
      body[r] := body[r].(core := core);
      model := WithRx(model, k, model.rx[k].(core := core), model.pool);
    }

    /** The state that `Valid` sees at block `r`. */
    lemma {:induction false} StateIs(r: int, k: nat)
      requires Valid() && IsState(r, k)
      ensures 0 <= r < body.Length && body[r].RxBody? && body[r].core == model.rx[k].core && lay.owner[r] == Rx
      ensures body[r].chain == NULL <==> model.rx[k].blocks == []
    {
      RxAt(next[..], body[..], TheHeads(), lay, model, k);
    }

    /** The first block of a chain goes back to the pool. */
    method DropBlock(r: int, ghost k: nat)
      requires Valid() && IsState(r, k) && model.rx[k].blocks != []
      modifies this, next, body
      ensures old(history) <= history
      ensures Valid() && IsState(r, k) && lay.rx == old(lay).rx
      ensures model == WithRx(old(model), k, RxState(old(model).rx[k].core, old(model).rx[k].blocks[1..]),
                              old(model).pool.Return(1))
    {
      hide Good;
      StateIs(r, k);
      ChainPopGood(next[..], body[..], TheHeads(), lay, model, k);
      var block := body[r].chain;
      body[r] := body[r].(chain := next[block]);
      lay := ChainPopped(lay, r);
      model := WithRx(model, k, RxState(model.rx[k].core, model.rx[k].blocks[1..]), model.pool);
      FreeBlock(block);
    }

    /** `releaseStatePayload`: the whole chain goes back to the pool. */
    method ReleaseStatePayload(r: int, ghost k: nat)
      requires Valid() && IsState(r, k)
      modifies this, next, body
      ensures old(history) <= history
      ensures Valid() && IsState(r, k) && lay.rx == old(lay).rx
      ensures model == WithRx(old(model), k, Released(old(model).rx[k]),
                              old(model).pool.Return(|old(model).rx[k].blocks|))
    {
      hide Good;
      ghost var s, dropped := model.rx[k], 0;
      StateIs(r, k);
      while body[r].chain != NULL
        invariant old(history) <= history
        invariant Valid() && IsState(r, k) && lay.rx == old(lay).rx && 0 <= r < body.Length && body[r].RxBody?
        invariant body[r].core == s.core
        invariant body[r].chain == NULL <==> model.rx[k].blocks == []
        invariant 0 <= dropped <= |s.blocks|
        invariant model == WithRx(old(model), k, RxState(s.core, s.blocks[dropped..]), old(model).pool.Return(dropped))
        decreases |s.blocks| - dropped
      {
        DropBlock(r, k);
        dropped := dropped + 1;
        StateIs(r, k);
      }
      SetCore(r, k, body[r].core.(payloadLen := 0));
    }

    /** Block `b` is the last one of the chain of state `r`. */
    ghost predicate IsLast(r: int, k: nat, b: int)
      requires IsState(r, k)
      reads this
    {
      r in lay.chains && |lay.chains[r]| == |model.rx[k].blocks| > 0 && lay.chains[r][|lay.chains[r]| - 1] == b
          && b != NULL
    }

    /** `createBufferBlock`: a block that ends its chain; its data is whatever the memory holds. */
    method CreateBufferBlock(r: int, ghost k: nat, junk: Block) returns (block: int)
      requires Valid() && IsState(r, k)
      modifies this, next, body
      ensures old(history) <= history
      ensures Valid() && IsState(r, k) && lay.rx == old(lay).rx && lay.chains == old(lay).chains
      ensures old(model).pool.Full() ==> block == NULL && model == old(model)
      ensures !old(model).pool.Full() ==> model == old(model).(pool := old(model).pool.Take())
      ensures !old(model).pool.Full() ==>
        && 0 <= block < next.Length && lay.owner[block] == Held
        && next[block] == NULL && body[block] == DataBody(junk)
    {
      hide Good;
      block := AllocateBlock();
      if block == NULL {
        return;
      }
      LooseGood(next[..], body[..], TheHeads(), lay, model, block, NULL, Held);
      assert Retagged(lay, block, Held) == lay;
      next[block] := NULL;
      BodyGood(next[..], body[..], TheHeads(), lay, model, block, DataBody(junk));
      body[block] := DataBody(junk);
    }

    /** The new block is linked behind the last one of the chain, or to the state when there is none. */
    method LinkBlock(r: int, ghost k: nat, last: int, block: int, ghost junk: Block)
      requires Valid() && IsState(r, k) && (if last == NULL then model.rx[k].blocks == [] else IsLast(r, k, last))
      requires 0 <= block < next.Length && lay.owner[block] == Held && next[block] == NULL
      requires body[block] == DataBody(junk)
      modifies this, next, body
      ensures old(history) <= history
      ensures Valid() && IsState(r, k) && IsLast(r, k, block)
      ensures model == WithRx(old(model), k, RxState(old(model).rx[k].core, old(model).rx[k].blocks + [junk]),
                              old(model).pool)
    {
      hide Good;
      AppendedBlock(next[..], body[..], TheHeads(), lay, model, k, block, junk);
      if last == NULL {
        body[r] := body[r].(chain := block);
      } else {
        next[last] := block;
      }
      lay := ChainAppended(lay, r, block);
      model := WithRx(model, k, RxState(model.rx[k].core, model.rx[k].blocks + [junk]), model.pool);
    }

    method AppendBlock(r: int, ghost k: nat, last: int, junk: Block) returns (block: int)
      requires Valid() && IsState(r, k) && (if last == NULL then model.rx[k].blocks == [] else IsLast(r, k, last))
      modifies this, next, body
      ensures old(history) <= history
      ensures Valid() && IsState(r, k)
      ensures old(model).pool.Full() ==> block == NULL && model == old(model)
      ensures !old(model).pool.Full() ==> block != NULL && IsLast(r, k, block)
      ensures !old(model).pool.Full() ==>
        model == WithRx(old(model), k, RxState(old(model).rx[k].core, old(model).rx[k].blocks + [junk]),
                        old(model).pool.Take())
    {
      hide Good;
      block := CreateBufferBlock(r, k, junk);
      if block != NULL {
        LinkBlock(r, k, last, block, junk);
      }
    }

    /** Data written into the last block of the chain from position `at`, as much as fits. */
    method FillBlock(r: int, ghost k: nat, block: int, at: nat, data: seq<byte>) returns (taken: nat)
      requires Valid() && IsState(r, k) && IsLast(r, k, block)
      modifies this, body
      ensures old(history) <= history
      ensures Valid() && IsState(r, k) && IsLast(r, k, block) && taken == Room(BLOCK_SIZE, at, |data|)
      ensures var blocks := old(model).rx[k].blocks; var last := |blocks| - 1;
        model == WithRx(old(model), k, RxState(old(model).rx[k].core, blocks[last := Overlay(blocks[last], at, data)]),
                        old(model).pool)
    {
      hide Good;
      ghost var last := |model.rx[k].blocks| - 1;
      ChainAt(next[..], body[..], TheHeads(), lay, model, k, last);
      var filled: seq<byte>;
      filled, taken := Fill(body[block].data, at, data);
      ChainDataGood(next[..], body[..], TheHeads(), lay, model, k, last, filled);
      body[block] := DataBody(filled);
      model := WithRx(model, k, RxState(model.rx[k].core, model.rx[k].blocks[last := filled]), model.pool);
    }

    /** One turn of the writing loop: the last block is filled, and a new one is chained when data remains. */
    method WriteOnce(r: int, ghost k: nat, last: int, at: nat, data: seq<byte>, junk: Block)
      returns (block: int, taken: nat)
      requires Valid() && IsState(r, k) && IsLast(r, k, last) && at < BLOCK_SIZE
      modifies this, next, body
      ensures old(history) <= history
      ensures Valid() && IsState(r, k) && taken == Room(BLOCK_SIZE, at, |data|)
      ensures model == WithRx(old(model), k, RxState(old(model).rx[k].core, model.rx[k].blocks), model.pool)
      ensures var w := WriteBlocks(old(model).rx[k].blocks, at, data, old(model).pool, junk);
        if taken == |data| then w == Written(true, model.rx[k].blocks, model.pool)
        else if block == NULL then w == Written(false, model.rx[k].blocks, model.pool)
        else IsLast(r, k, block) && w == WriteBlocks(model.rx[k].blocks, 0, data[taken..], model.pool, junk)
    {
      hide Good;
      WriteStep(model.rx[k].blocks, at, data, model.pool, junk);
      taken := FillBlock(r, k, last, at, data);
      block := last;
      if taken < |data| {
        block := AppendBlock(r, k, last, junk);
      }
    }

    /** The writing loop of `bufferBlockPushBytes`: from position `at` of the last block, with new blocks as each one
        fills. */
    method WriteChain(r: int, ghost k: nat, first: int, at: nat, data: seq<byte>, junk: Block) returns (ok: bool)
      requires Valid() && IsState(r, k) && IsLast(r, k, first) && at < BLOCK_SIZE
      modifies this, next, body
      ensures old(history) <= history
      ensures Valid() && IsState(r, k)
      ensures var w := WriteBlocks(old(model).rx[k].blocks, at, data, old(model).pool, junk);
        ok == w.ok && model == WithRx(old(model), k, RxState(old(model).rx[k].core, w.blocks), w.pool)
    {
      hide Good;
      ghost var core, w := model.rx[k].core, WriteBlocks(model.rx[k].blocks, at, data, model.pool, junk);
      var block, index: nat, rest := first, at, data;
      WriteNothing(model.rx[k].blocks, at, model.pool, junk);
      while rest != []
        invariant old(history) <= history
        invariant Valid() && IsState(r, k)
        invariant model == WithRx(old(model), k, RxState(core, model.rx[k].blocks), model.pool)
        invariant rest != [] ==> index < BLOCK_SIZE && IsLast(r, k, block)
        invariant rest != [] ==> WriteBlocks(model.rx[k].blocks, index, rest, model.pool, junk) == w
        invariant rest == [] ==> w == Written(true, model.rx[k].blocks, model.pool)
        decreases |rest|
      {
        var taken;
        block, taken := WriteOnce(r, k, block, index, rest, junk);
        rest := rest[taken..];
        index := 0;
        if rest != [] && block == NULL {
          return false;
        }
      }
      return true;
    }

    /** The walk to the last block of a chain, counting. */
    method LastBlock(r: int, ghost k: nat) returns (block: int, count: nat)
      requires Valid() && IsState(r, k) && model.rx[k].blocks != []
      ensures IsLast(r, k, block) && count == |model.rx[k].blocks|
    {
      hide Good;
      ChainAt(next[..], body[..], TheHeads(), lay, model, k, 0);
      ghost var c := lay.chains[r];
      block, count := body[r].chain, 1;
      while next[block] != NULL
        invariant 1 <= count <= |c| && block == c[count - 1] && 0 <= block < next.Length && next[block] == At(c, count)
        decreases |c| - count
      {
        block, count := next[block], count + 1;
        ChainAt(next[..], body[..], TheHeads(), lay, model, k, count - 1);
      }
      ChainAt(next[..], body[..], TheHeads(), lay, model, k, count);
    }

    /** The block to write into: the last one, or a new one when there is none or the last one is full. */
    method OpenBlock(r: int, ghost k: nat, payloadLen: nat, size: nat, junk: Block) returns (block: int, index: nat)
      requires Valid() && IsState(r, k) && payloadLen == model.rx[k].core.payloadLen && payloadLen + size >= HEAD_SIZE
      modifies this, next, body
      ensures old(history) <= history
      ensures Valid() && IsState(r, k)
      ensures Grows(old(model).rx[k], size) && old(model).pool.Full() ==> block == NULL && model == old(model)
      ensures !(Grows(old(model).rx[k], size) && old(model).pool.Full())
          ==> IsLast(r, k, block) && index == StartIndex(old(model).rx[k])
      ensures !Grows(old(model).rx[k], size) ==> model == old(model)
      ensures Grows(old(model).rx[k], size) && !old(model).pool.Full() ==>
        model == WithRx(old(model), k, RxState(old(model).rx[k].core, old(model).rx[k].blocks + [junk]),
                        old(model).pool.Take())
    {
      hide Good;
      StateIs(r, k);
      index := 0;
      if body[r].chain == NULL {
        block := AppendBlock(r, k, NULL, junk);
      } else {
        var count;
        index := IndexAtLastBlock(payloadLen);
        block, count := LastBlock(r, k);
        if (payloadLen + size - HEAD_SIZE) / BLOCK_SIZE + 1 > count && index == 0 {
          block := AppendBlock(r, k, block, junk);
        }
      }
    }

    /** The part of the data that the head has room for. */
    method PushHead(r: int, ghost k: nat, data: seq<byte>) returns (taken: nat)
      requires Valid() && IsState(r, k)
      modifies this, body
      ensures old(history) <= history
      ensures Valid() && IsState(r, k) && taken == Room(HEAD_SIZE, old(model).rx[k].core.payloadLen, |data|)
      ensures model == WithRx(old(model), k, WithHead(old(model).rx[k], data), old(model).pool)
    {
      hide Good;
      StateIs(r, k);
      taken := 0;
      var core := body[r].core;
      if core.payloadLen != HEAD_SIZE {
        var head;
        head, taken := Fill(core.head, core.payloadLen, data);
        core := core.(head := head);
      }
      SetCore(r, k, core);
    }

    /** What the head has no room for goes into the chain. */
    method PushBlocks(r: int, ghost k: nat, data: seq<byte>, dataIndex: nat, junk: Block) returns (ok: bool)
      requires Valid() && IsState(r, k) && dataIndex == Room(HEAD_SIZE, model.rx[k].core.payloadLen, |data|)
      requires model.rx[k].core.payloadLen + |data| >= HEAD_SIZE
      modifies this, next, body
      ensures old(history) <= history
      ensures Valid() && IsState(r, k)
      ensures var w := PushBeyond(old(model).rx[k], data, old(model).pool, junk);
        ok == w.ok && model == WithRx(old(model), k, RxState(old(model).rx[k].core, w.blocks), w.pool)
    {
      hide Good;
      hide WriteBlocks;
      StateIs(r, k);
      var block, index := OpenBlock(r, k, body[r].core.payloadLen, |data|, junk);
      if block == NULL {
        SameRx(old(model), k);
        return false;
      }
      ok := WriteChain(r, k, block, index, data[dataIndex..], junk);
    }

    /** `bufferBlockPushBytes`. */
    method BufferBlockPushBytes(r: int, ghost k: nat, data: seq<byte>, junk: Block) returns (ok: bool)
      requires Valid() && IsState(r, k)
      modifies this, next, body
      ensures old(history) <= history
      ensures Valid() && IsState(r, k)
      ensures var p := PushBytes(old(model).rx[k], data, old(model).pool, junk);
        ok == p.ok && model == WithRx(old(model), k, p.state, p.pool)
    {
      hide Good;
      hide PushBeyond;
      ghost var s := model.rx[k];
      PushParts(s, data, model.pool, junk);
      StateIs(r, k);
      var full := body[r].core.payloadLen == HEAD_SIZE;
      var newLen := (body[r].core.payloadLen + |data|) % (MAX_PAYLOAD + 1);
      var taken := PushHead(r, k, data);
      ok := true;
      if full || taken < |data| {
        ok := PushBlocks(r, k, data, taken, junk);
      }
      if ok {
        StateIs(r, k);
        SetCore(r, k, body[r].core.(payloadLen := newLen));
      }
    }

    /** `prepareForNextTransfer`. */
    method PrepareForNext(r: int, ghost k: nat)
      requires Valid() && IsState(r, k)
      modifies this, body
      ensures old(history) <= history
      ensures Valid() && IsState(r, k) && lay == old(lay)
      ensures model == WithRx(old(model), k, ForNext(old(model).rx[k]), old(model).pool)
    {
      hide Good;
      StateIs(r, k);
      SetCore(r, k, body[r].core.(transferId := NextTid(body[r].core.transferId), payloadLen := 0,
                                  nextToggle := false));
    }

    /** A chunk of a transfer is stored and added to the CRC; without memory the whole transfer is dropped. */
    method StoreChunk(r: int, ghost k: nat, chunk: seq<byte>, payloadCrc: bv16, junk: Junk) returns (code: int)
      requires Valid() && IsState(r, k)
      modifies this, next, body
      ensures old(history) <= history
      ensures Valid() && IsState(r, k)
      ensures var o := Store(old(model).rx[k], old(model).pool, chunk, payloadCrc, junk);
        code == o.code && o.delivered == None && model == WithRx(old(model), k, o.state, o.pool)
    {
      hide Good;
      hide PushBytes;
      var ok := BufferBlockPushBytes(r, k, chunk, junk.block);
      if !ok {
        ReleaseStatePayload(r, k);
        PrepareForNext(r, k);
        return OUT_OF_MEMORY;
      }
      StateIs(r, k);
      var core := body[r].core;
      var crc := Add(core.calculatedCrc, chunk);
      SetCore(r, k, core.(payloadCrc := payloadCrc, calculatedCrc := crc, nextToggle := !core.nextToggle));
      return OK;
    }

    /** The final frame continues in the last block, at the distance of the payload length from that block's start. */
    method SpliceBlock(r: int, ghost k: nat, chunk: seq<byte>) returns (tailOffset: nat)
      requires Valid() && IsState(r, k) && model.rx[k].blocks != []
      modifies this, body
      ensures old(history) <= history
      ensures Valid() && IsState(r, k)
      ensures var s := old(model).rx[k]; var last := |s.blocks| - 1;
        var filled := Overlay(s.blocks[last], SpliceIndex(s), chunk);
        model == WithRx(old(model), k, RxState(s.core, s.blocks[last := filled]), old(model).pool)
      ensures tailOffset == Room(BLOCK_SIZE, SpliceIndex(old(model).rx[k]), |chunk|)
    {
      hide Good;
      StateIs(r, k);
      var len := body[r].core.payloadLen;
      var block, count := LastBlock(r, k);
      var offset := HEAD_SIZE + BLOCK_SIZE * (count - 1);
      var at: nat := if len >= offset then len - offset else len + 0x1_0000_0000 - offset % 0x1_0000_0000;
      tailOffset := FillBlock(r, k, block, at, chunk);
    }

    /** The start of the final frame goes into the head or the last block; `tailOffset` is where the rest begins. */
    method SpliceChunk(r: int, ghost k: nat, chunk: seq<byte>) returns (tailOffset: nat)
      requires Valid() && IsState(r, k)
      modifies this, body
      ensures old(history) <= history
      ensures Valid() && IsState(r, k) && tailOffset <= |chunk|
      ensures var s := old(model).rx[k]; var sp := Splice(s, chunk);
        model == WithRx(old(model), k, RxState(s.core.(head := sp.head), sp.blocks), old(model).pool)
            && sp.tail == chunk[tailOffset..]
    {
      hide Good;
      hide SpliceIndex;
      StateIs(r, k);
      tailOffset := 0;
      if body[r].core.payloadLen < HEAD_SIZE {
        tailOffset := PushHead(r, k, chunk);
      } else if body[r].chain != NULL {
        tailOffset := SpliceBlock(r, k, chunk);
      } else {
        SameRx(model, k);
      }
    }

    /** The chain leaves the state: from now on the transfer owns it. */
    method DetachChain(r: int, ghost k: nat) returns (middle: int, ghost ids: seq<int>)
      requires Valid() && IsState(r, k)
      modifies this, body
      ensures old(history) <= history
      ensures Valid() && IsState(r, k) && Listed(next[..], lay.owner, middle, ids, Middle)
      ensures |ids| == |old(model).rx[k].blocks|
      ensures HoldsBlocks(body[..], ids, old(model).rx[k].blocks)
      ensures model == WithRx(old(model), k, RxState(old(model).rx[k].core, []), old(model).pool)
    {
      hide Good;
      ChainAt(next[..], body[..], TheHeads(), lay, model, k, 0);
      ChainHolds(next[..], body[..], TheHeads(), lay, model, k, body[r].(chain := NULL));
      ChainDetachGood(next[..], body[..], TheHeads(), lay, model, k);
      middle, ids := body[r].chain, lay.chains[r];
      body[r] := body[r].(chain := NULL);
      lay := ChainDetached(lay, r);
      model := WithRx(model, k, RxState(model.rx[k].core, []), model.pool);
    }

    /** What an application finds that follows the links of a delivered payload, reading each block. */
    method ReadBlocks(middle: int, ghost ids: seq<int>, ghost blocks: seq<Block>) returns (read: seq<Block>)
      requires Valid() && Listed(next[..], lay.owner, middle, ids, Middle) && HoldsBlocks(body[..], ids, blocks)
      ensures read == blocks
    {
      hide Good;
      hide Listed;
      hide HoldsBlocks;
      read := [];
      var block := middle;
      ReadStep(next[..], body[..], lay.owner, middle, ids, blocks, 0);
      while block != NULL
        invariant |read| <= |ids| == |blocks| && read == blocks[..|read|] && block == At(ids, |read|)
        invariant block == NULL <==> |read| == |ids|
        decreases |ids| - |read|
      {
        ReadStep(next[..], body[..], lay.owner, middle, ids, blocks, |read|);
        read := read + [body[block].data];
        block := next[block];
        ReadStep(next[..], body[..], lay.owner, middle, ids, blocks, |read|);
      }
    }

    /** The first block of a delivered payload goes back to the pool. */
    method DropMiddle(middle: int, ghost ids: seq<int>) returns (rest: int)
      requires Valid() && middle != NULL && Listed(next[..], lay.owner, middle, ids, Middle)
      modifies this, next
      ensures old(history) <= history
      ensures Valid() && ids != [] && Listed(next[..], lay.owner, rest, ids[1..], Middle)
      ensures lay.rx == old(lay).rx && model == old(model).(pool := old(model).pool.Return(1))
    {
      MiddleFits(next[..], body[..], TheHeads(), lay, model);
      TailListed(next[..], lay.owner, middle, ids, Middle, Held);
      LooseGood(next[..], body[..], TheHeads(), lay, model, middle, next[middle], Held);
      hide Good;
      hide Listed;
      assert next[..][middle := next[middle]] == next[..];
      rest := next[middle];
      lay := Retagged(lay, middle, Held);
      ListFrame(next[..], lay.owner, middle, freeList, Free, rest, ids[1..], Middle);
      FreeBlock(middle);
    }

    /** `canardReleaseRxTransferPayload`. */
    method ReleaseTransferPayload(middle: int, ghost ids: seq<int>)
      requires Valid() && Listed(next[..], lay.owner, middle, ids, Middle)
      modifies this, next
      ensures old(history) <= history
      ensures Valid() && lay.rx == old(lay).rx && model == old(model).(pool := old(model).pool.Return(|ids|))
    {
      hide Good;
      var block := middle;
      ghost var left := ids;
      while block != NULL
        invariant old(history) <= history
        invariant Valid() && Listed(next[..], lay.owner, block, left, Middle) && |left| <= |ids|
        invariant lay.rx == old(lay).rx && model == old(model).(pool := old(model).pool.Return(|ids| - |left|))
        decreases |left|
      {
        block := DropMiddle(block, left);
        left := left[1..];
      }
    }

    // -------------------------------------------------------------- receiving

    /** The final frame is spliced in, the blocks pass to the transfer, and the CRC is completed. */
    method TakeFinal(r: int, ghost k: nat, chunk: seq<byte>)
      returns (middle: int, ghost ids: seq<int>, tailOffset: nat, good: bool)
      requires Valid() && IsState(r, k)
      modifies this, body
      ensures old(history) <= history
      ensures Valid() && IsState(r, k) && Listed(next[..], lay.owner, middle, ids, Middle) && tailOffset <= |chunk|
      ensures var s := old(model).rx[k]; var sp := Splice(s, chunk); var crc := CrcAdd(s.core.calculatedCrc, chunk);
        && HoldsBlocks(body[..], ids, sp.blocks) && sp.tail == chunk[tailOffset..] && good == (crc == s.core.payloadCrc)
        && model == WithRx(old(model), k, RxState(s.core.(head := sp.head, calculatedCrc := crc), []), old(model).pool)
    {
      hide Good;
      hide Splice;
      hide CrcAdd;
      hide Listed;
      hide HoldsBlocks;
      ghost var s := model.rx[k];
      tailOffset := SpliceChunk(r, k, chunk);
      middle, ids := DetachChain(r, k);
      StateIs(r, k);
      var crc := Add(body[r].core.calculatedCrc, chunk);
      good := crc == body[r].core.payloadCrc;
      HeldFrame(next[..], body[..], lay.owner, middle, ids, Splice(s, chunk).blocks, r,
                body[r].(core := body[r].core.(calculatedCrc := crc)));
      SetCore(r, k, body[r].core.(calculatedCrc := crc));
    }

    /** The transfer handed to the application, read from the state, from the linked blocks and from the frame. */
    method ReadTransfer(r: int, ghost k: nat, f: Frame, now: Timestamp, chunk: seq<byte>, tailOffset: nat,
                        middle: int, ghost ids: seq<int>, ghost blocks: seq<Block>)
      returns (t: Transfer)
      requires Valid() && IsState(r, k) && f.data != [] && tailOffset <= |chunk|
      requires Listed(next[..], lay.owner, middle, ids, Middle) && HoldsBlocks(body[..], ids, blocks)
      ensures var core := model.rx[k].core;
        t == MakeTransfer(f, now, core.head, blocks, chunk[tailOffset..], core.payloadLen + |chunk|)
    {
      hide Good;
      hide Listed;
      hide HoldsBlocks;
      hide MakeTransfer;
      StateIs(r, k);
      var core := body[r].core;
      var read := ReadBlocks(middle, ids, blocks);
      t := MakeTransfer(f, now, core.head, read, chunk[tailOffset..], core.payloadLen + |chunk|);
    }

    /** The end of a multi-frame transfer. `releases` tells whether the application frees the payload inside the
        callback. */
    method ReceiveFinal(r: int, ghost k: nat, f: Frame, now: Timestamp, releases: bool)
      returns (code: int, delivered: Option<Transfer>)
      requires Valid() && IsState(r, k) && f.data != []
      modifies this, next, body
      ensures old(history) <= history
      ensures Valid() && IsState(r, k)
      ensures var o := ReceiveLast(old(model).rx[k], old(model).pool, f, now);
        code == o.code && delivered == o.delivered && model == WithRx(old(model), k, o.state, o.pool)
    {
      hide Good;
      hide Splice;
      hide CrcAdd;
      hide MakeTransfer;
      hide Listed;
      ghost var s := model.rx[k];
      var chunk := f.data[..|f.data| - 1];
      var middle, ids, tailOffset, good := TakeFinal(r, k, chunk);
      SpliceKeepsBlocks(s, chunk);
      delivered := None;
      if good {
        var t := ReadTransfer(r, k, f, now, chunk, tailOffset, middle, ids, Splice(s, chunk).blocks);
        delivered := Some(t);
      }
      ReleaseDelivered(middle, ids, good && releases);
      PrepareForNext(r, k);
      code := if good then OK else RX_BAD_CRC;
    }

    /** The payload is released, whether or not the application has done it already. */
    method ReleaseDelivered(middle: int, ghost ids: seq<int>, released: bool)
      requires Valid() && Listed(next[..], lay.owner, middle, ids, Middle)
      modifies this, next
      ensures old(history) <= history
      ensures Valid() && lay.rx == old(lay).rx && model == old(model).(pool := old(model).pool.Return(|ids|))
    {
      hide Good;
      var left := middle;
      ghost var leftIds := ids;
      if released {
        ReleaseTransferPayload(middle, ids);
        left, leftIds := NULL, [];
      }
      ReleaseTransferPayload(left, leftIds);
    }

    /** A transfer of one frame is delivered at once, without toggle and transfer ID checks. */
    method ReceiveSingleFrame(r: int, ghost k: nat, f: Frame, now: Timestamp)
      returns (code: int, delivered: Option<Transfer>)
      requires Valid() && IsState(r, k) && f.data != []
      modifies this, body
      ensures old(history) <= history
      ensures Valid() && IsState(r, k)
      ensures var o := ReceiveSingle(old(model).rx[k], old(model).pool, f, now);
        code == o.code && delivered == o.delivered && model == WithRx(old(model), k, o.state, o.pool)
    {
      hide Good;
      StateIs(r, k);
      SetCore(r, k, body[r].core.(timestamp := now));
      delivered := Some(MakeTransfer(f, now, f.data, [], [], |f.data| - 1));
      PrepareForNext(r, k);
      code := OK;
    }

    /** The start of a multi-frame transfer: the CRC, then data. */
    method ReceiveStart(r: int, ghost k: nat, f: Frame, now: Timestamp, junk: Junk) returns (code: int)
      requires Valid() && IsState(r, k) && f.data != []
      modifies this, next, body
      ensures old(history) <= history
      ensures Valid() && IsState(r, k)
      ensures var o := ReceiveFirst(old(model).rx[k], old(model).pool, f, now, junk);
        code == o.code && o.delivered == None && model == WithRx(old(model), k, o.state, o.pool)
    {
      hide Good;
      hide Store;
      hide CarriedCrc;
      hide Recorded;
      if |f.data| <= 3 {
        SameRx(model, k);
        return -RX_SHORT_FRAME;
      }
      StoreDeliversNothing(model.rx[k].(core := model.rx[k].core.(timestamp := now)), model.pool,
                           f.data[2..|f.data| - 1], CarriedCrc(f), junk);
      StateIs(r, k);
      SetCore(r, k, body[r].core.(timestamp := now));
      code := StoreChunk(r, k, f.data[2..|f.data| - 1], CarriedCrc(f), junk);
    }

    /** What follows the restart rule. */
    method ProceedWith(r: int, ghost k: nat, f: Frame, now: Timestamp, junk: Junk, releases: bool)
      returns (code: int, delivered: Option<Transfer>)
      requires Valid() && IsState(r, k) && f.data != []
      modifies this, next, body
      ensures old(history) <= history
      ensures Valid() && IsState(r, k)
      ensures var o := Proceed(old(model).rx[k], old(model).pool, f, now, junk);
        code == o.code && delivered == o.delivered && model == WithRx(old(model), k, o.state, o.pool)
    {
      hide Good;
      hide Store;
      hide ReceiveFirst;
      hide ReceiveLast;
      hide ReceiveSingle;
      StateIs(r, k);
      SameRx(model, k);
      var tail := TailOf(f);
      delivered := None;
      if IsStart(tail) && IsEnd(tail) {
        code, delivered := ReceiveSingleFrame(r, k, f, now);
      } else if Toggle(tail) != body[r].core.nextToggle {
        code := -RX_WRONG_TOGGLE;
      } else if TransferIdOf(tail) != body[r].core.transferId {
        code := -RX_UNEXPECTED_TID;
      } else if IsStart(tail) {
        code := ReceiveStart(r, k, f, now, junk);
      } else if !IsEnd(tail) {
        code := StoreChunk(r, k, f.data[..|f.data| - 1], body[r].core.payloadCrc, junk);
      } else {
        code, delivered := ReceiveFinal(r, k, f, now, releases);
      }
    }

    /** The restart rule drops whatever has been received. */
    method Restart(r: int, ghost k: nat, tail: byte)
      requires Valid() && IsState(r, k)
      modifies this, next, body
      ensures old(history) <= history
      ensures Valid() && IsState(r, k)
      ensures model == WithRx(old(model), k, Restarted(old(model).rx[k], tail),
                              old(model).pool.Return(|old(model).rx[k].blocks|))
    {
      hide Good;
      StateIs(r, k);
      SetCore(r, k, body[r].core.(transferId := TransferIdOf(tail), nextToggle := false));
      ReleaseStatePayload(r, k);
    }

    /** The frame meets the state of its descriptor. */
    method ReceiveWith(r: int, ghost k: nat, f: Frame, now: Timestamp, junk: Junk, releases: bool)
      returns (code: int, delivered: Option<Transfer>)
      requires Valid() && IsState(r, k) && f.data != []
      modifies this, next, body
      ensures old(history) <= history
      ensures Valid() && IsState(r, k)
      ensures var o := Receive(old(model).rx[k], old(model).pool, f, now, junk);
        code == o.code && delivered == o.delivered && model == WithRx(old(model), k, o.state, o.pool)
    {
      hide Good;
      hide Proceed;
      StateIs(r, k);
      var tail, core := TailOf(f), body[r].core;
      var notPreviousTid := ForwardDistance(core.transferId, TransferIdOf(tail)) > 1;
      if core.timestamp == 0 || Elapsed(now, core.timestamp) > TRANSFER_TIMEOUT_USEC
          || (IsStart(tail) && notPreviousTid) {
        Restart(r, k, tail);
        if !IsStart(tail) {
          StateIs(r, k);
          SetCore(r, k, body[r].core.(transferId := NextTid(body[r].core.transferId)));
          return -RX_MISSED_START, None;
        }
      }
      code, delivered := ProceedWith(r, k, f, now, junk, releases);
    }

    /** The state a start frame works on, with the CRC of its data type; NULL without memory. */
    method OpenState(f: Frame, signature: bv64, junk: Junk) returns (r: int, ghost k: nat)
      requires Valid()
      modifies this, next, body
      ensures old(history) <= history
      ensures Valid()
      ensures r == NULL <==> Lookup(old(model).rx, DescriptorOf(f.id)) == None && old(model).pool.Full()
      ensures r == NULL ==> model == old(model)
      ensures r != NULL ==> IsState(r, k) && k == IndexOf(model.rx, DescriptorOf(f.id))
      ensures r != NULL ==> model == Opening(old(model), f, signature, junk)
    {
      hide Good;
      hide Lookup;
      hide IndexOf;
      r, k := TraverseRxStates(DescriptorOf(f.id), junk);
      if r == NULL {
        return;
      }
      OpeningIndex(model, k, DescriptorOf(f.id), SignatureCrc(signature));
      var crc := AddSignature(0xFFFF, signature);
      StateIs(r, k);
      NewIndex(old(model), DescriptorOf(f.id), junk);
      SetCore(r, k, body[r].core.(calculatedCrc := crc));
    }

    /** `canardHandleRxFrame`. */
    method HandleRxFrame(f: Frame, now: Timestamp, junk: Junk, accept: Acceptance, releases: bool)
      returns (code: int, delivered: Option<Transfer>)
      requires Valid()
      modifies this, next, body
      ensures old(history) <= history
      ensures Valid() && HandleRx(old(model), Event(f, now, junk), accept) == Handled(code, model, delivered)
      ensures old(Sound(model)) ==> Sound(model)
    {
      hide Good;
      hide Sound;
      if Sound(model) {
        FrameKeeps(model, Event(f, now, junk), accept);
      }
      hide OnFrame;
      hide Receive;
      hide Opening;
      ghost var e := Event(f, now, junk);
      delivered := None;
      Refusals(model, e, accept);
      if !Compatible(f) {
        return -RX_INCOMPATIBLE_PACKET, None;
      }
      if TypeOf(f.id) != CanId.Broadcast && DestinationOf(f.id) != nodeId {
        return -RX_WRONG_ADDRESS, None;
      }
      var r; ghost var k;
      if IsStart(TailOf(f)) {
        var signature := accept(DataTypeOf(f.id), TypeOf(f.id), SourceOf(f.id));
        if signature == None {
          return -RX_NOT_WANTED, None;
        }
        r, k := OpenState(f, signature.value, junk);
        if r == NULL {
          return -OUT_OF_MEMORY, None;
        }
        HandledStart(old(model), e, accept, signature.value);
      } else {
        r, k := FindRxState(DescriptorOf(f.id));
        if r == NULL {
          return -RX_MISSED_START, None;
        }
        HandledLater(old(model), e, accept);
      }
      code, delivered := ReceiveWith(r, k, f, now, junk, releases);
    }

    // -------------------------------------------------------------- cleaning up

    /** A stale state leaves the list, and its blocks and its own go back to the pool. */
    method RemoveState(r: int, previous: int, ghost k: nat) returns (following: int)
      requires Valid() && IsState(r, k) && (k > 0 ==> previous == lay.rx[k - 1])
      modifies this, next, body
      ensures old(history) <= history
      ensures Valid() && lay.rx == Without(old(lay).rx, k) && |lay.rx| == |model.rx| && following == At(lay.rx, k)
      ensures model == old(model).(rx := Without(old(model).rx, k),
                                   pool := old(model).pool.Return(1 + |old(model).rx[k].blocks|))
    {
      hide Good;
      ReleaseStatePayload(r, k);
      RemovedState(next[..], body[..], TheHeads(), lay, model, k);
      following := next[r];
      if r == rxStates {
        rxStates := following;
      } else {
        next[previous] := following;
      }
      lay := RxRemoved(lay, k);
      model := model.(rx := Without(model.rx, k));
      FreeBlock(r);
    }

    /** `canardCleanupStaleTransfers`. */
    method CleanupStaleTransfers(now: Timestamp)
      requires Valid()
      modifies this, next, body
      ensures old(history) <= history
      ensures Valid() && model == Cleanup(old(model), now)
      ensures old(Sound(model)) ==> Sound(model)
    {
      hide Good;
      hide Live;
      hide StaleBlocks;
      hide Recorded;
      hide Sound;
      if Sound(model) {
        CleanupSound(model, now);
      }
      var previous, state := rxStates, rxStates;
      ghost var k, freed: nat := 0, 0;
      RxAt(next[..], body[..], TheHeads(), lay, model, 0);
      CleanupBegins(model.rx, now);
      while state != NULL
        invariant old(history) <= history
        invariant Valid() && |lay.rx| == |model.rx| && 0 <= k <= |lay.rx| && state == At(lay.rx, k)
        invariant k > 0 ==> previous == lay.rx[k - 1]
        invariant model == old(model).(rx := model.rx, pool := old(model).pool.Return(freed))
        invariant Live(old(model).rx, now) == model.rx[..k] + Live(model.rx[k..], now)
        invariant StaleBlocks(old(model).rx, now) == freed + StaleBlocks(model.rx[k..], now)
        decreases |lay.rx| - k
      {
        RxAt(next[..], body[..], TheHeads(), lay, model, k);
        CleanupStep(model.rx, k, now);
        if Elapsed(now, body[state].core.timestamp) > TRANSFER_TIMEOUT_USEC {
          freed := freed + 1 + |model.rx[k].blocks|;
          state := RemoveState(state, previous, k);
        } else {
          previous, state, k := state, next[state], k + 1;
        }
      }
      CleanupEnds(model.rx, now);
      RxAt(next[..], body[..], TheHeads(), lay, model, k);
    }
  }
}
