/** The service around the library: a fixed arena, one transfer ID, and a driver that takes every queued frame at once.
    */
module Service {
  import opened Types
  import opened CanId
  import opened Fragment
  import opened RxBuffer
  import opened Receiver
  import opened TxQueue
  import opened Library
  import opened Arena
  import opened Interleaving
  import opened Instance
  import opened EndToEnd

  const ARENA_SIZE := 2000
  const MAX_BYTES_ON_MESSAGE := 255
  const PRIORITY_HIGH: byte := 8
  const PRIORITY_LOW: byte := 24

  datatype TypeInfo = TypeInfo(signature: bv64, id: bv16, priority: byte)

  datatype Error = OnInitialization | FailOnPublish

  // ---------------------------------------------------------------- a send on a node that holds nothing

  /** Between publishes: nothing queued, nothing half-received, no block in use. */
  predicate Quiet(m: Node) {
    m.tx == [] && m.rx == [] && m.pool.usage == 0
  }

  /** Taking every frame off the queue. */
  function Drained(m: Node): Node {
    m.(tx := [], pool := m.pool.Return(|m.tx|))
  }

  /** A send that fails leaves a prefix of its frames queued; a send that succeeds, all of them. Draining makes the node
      quiet again. */
  lemma {:induction false} SendThenDrain(m: Node, info: TypeInfo, tid: byte, payload: seq<byte>)
    requires Quiet(m) && Sound(m)
    ensures var s := SendMessage(m, info.signature, info.id, tid, info.priority, payload);
      Quiet(Drained(s.node)) && s.node.nodeId == m.nodeId && s.node.pool.capacity == m.pool.capacity
  {
    MessageKeeps(m, info.signature, info.id, tid, info.priority, payload);
    hide AnonymousFrames;
    hide MessageFrames;
  }

  /** How many frames a payload makes. */
  function FrameCount(n: nat): nat {
    if n < 8 then 1 else 1 + (n - 5 + 6) / 7
  }

  lemma {:induction false} CountFrames(id: bv32, tid: byte, crc: bv16, payload: seq<byte>)
    ensures |Frames(id, tid, crc, payload)| == FrameCount(|payload|)
  {
    if |payload| >= 8 {
      FragmentationShape(id, tid, crc, payload);
    }
  }

  /** On a quiet node with an address, a send succeeds exactly when its frames fit the arena, and then the queue is the
      transfer. */
  lemma {:induction false} SendFits(m: Node, info: TypeInfo, tid: byte, payload: seq<byte>)
    requires Quiet(m) && m.nodeId != 0 && info.priority < 32
    ensures var s := SendMessage(m, info.signature, info.id, tid, info.priority, payload);
      && (s.code >= 0 <==> FrameCount(|payload|) <= m.pool.capacity)
      && (s.code >= 0 ==> s.node.tx == MessageFrames(m.nodeId, info.signature, info.id, tid, info.priority, payload)
                          && s.node.pool.peak == Max(m.pool.peak, FrameCount(|payload|)))
  {
    var id, crc := MessageId(info.priority, info.id, m.nodeId) | EFF, CalculateCrc(info.signature, payload);
    EnqueueWhole(m, id, tid, crc, payload);
    CountFrames(id, tid, crc, payload);
    PriorityFits(info.priority);
    hide Frames;
    hide InsertAll;
    hide MessageId;
    hide CalculateCrc;
  }

  // ---------------------------------------------------------------- the wrapper

  /** `Canard`: an instance with its arena and the one transfer ID that all its messages share. */
  class Canard {
    const instance: CanardInstance
    var transferId: byte

    ghost predicate Valid()
      reads this, instance, instance.next, instance.body
    {
      instance.Valid() && Sound(instance.model)
    }

    /** The transfer ID is not initialised: it starts as `garbage`. */
    constructor (arenaSize: nat, garbage: byte)
      ensures Valid() && fresh(instance) && fresh(instance.next) && fresh(instance.body)
      ensures instance.model == NewNode(Min(arenaSize / MEM_BLOCK_SIZE, 0xFFFF)) && transferId == garbage
    {
      instance := new CanardInstance(arenaSize);
      transferId := garbage;
    }

    method SetNodeId(id: byte)
      requires Valid() && instance.nodeId == 0 && 1 <= id && id <= 127
      modifies instance
      ensures Valid() && instance.model == old(instance.model).(nodeId := id)
    {
      instance.SetLocalNodeId(id);
    }

    method Broadcast(info: TypeInfo, data: seq<byte>) returns (code: int)
      requires Valid()
      modifies this, instance, instance.next, instance.body
      ensures Valid()
      ensures SendMessage(old(instance.model), info.signature, info.id, old(transferId), info.priority, data)
           == Sent(instance.model, transferId, code)
    {
      hide Good;
      hide SendMessage;
      var newTid;
      code, newTid := instance.Broadcast(info.signature, info.id, transferId, info.priority, data);
      transferId := newTid;
    }

    method PeekTxQueue() returns (item: int)
      requires Valid()
      ensures item == NULL <==> instance.model.tx == []
      ensures item != NULL ==> 0 <= item < instance.body.Length && instance.body[item] == TxBody(instance.model.tx[0])
    {
      item := instance.PeekTxQueue();
    }

    method PopTxQueue()
      requires Valid() && instance.model.tx != []
      modifies instance, instance.next
      ensures Valid() && instance.model == PopTx(old(instance.model))
    {
      var item := instance.PeekTxQueue();
      instance.PopTxQueue();
    }

    method IsTxQueueEmpty() returns (empty: bool)
      requires Valid()
      ensures empty <==> instance.model.tx == []
    {
      var item := instance.PeekTxQueue();
      return item == NULL;
    }
  }

  /** The driver: whether the `k`-th send succeeds is not known here. */
  class CanBusAdaptor {
    const succeeds: nat -> bool
    var count: nat
    ghost var offered: seq<Frame>

    constructor (succeeds: nat -> bool)
      ensures offered == [] && count == 0 && this.succeeds == succeeds
    {
      this.succeeds, count, offered := succeeds, 0, [];
    }

    method SendFrame(f: Frame) returns (ok: bool)
      modifies this
      ensures offered == old(offered) + [f] && ok == succeeds(old(count)) && count == old(count) + 1
    {
      ok := succeeds(count);
      count := count + 1;
      offered := offered + [f];
    }
  }

  // ---------------------------------------------------------------- publishing

  /** The error reports of `n` sends, counting from the `first` one ever. */
  function Reports(succeeds: nat -> bool, first: nat, n: nat): seq<Error> {
    if n == 0 then [] else Reports(succeeds, first, n - 1) + (if succeeds(first + n - 1) then [] else [FailOnPublish])
  }

  lemma {:induction false} ReportsMore(succeeds: nat -> bool, first: nat, n: nat)
    ensures Reports(succeeds, first, n + 1) == Reports(succeeds, first, n) + Reports(succeeds, first + n, 1)
  {
  }

  lemma {:induction false} NoReports(succeeds: nat -> bool, first: nat)
    ensures Reports(succeeds, first, 0) == []
  {
  }

  lemma {:induction false} ReportsConcat(succeeds: nat -> bool, first: nat, m: nat, n: nat)
    ensures Reports(succeeds, first, m + n) == Reports(succeeds, first, m) + Reports(succeeds, first + m, n)
  {
    if n > 0 {
      ReportsConcat(succeeds, first, m, n - 1);
    }
  }

  function PartlyDrained(m: Node, k: nat): Node
    requires k <= |m.tx|
  {
    m.(tx := m.tx[k..], pool := m.pool.Return(k))
  }

  lemma {:induction false} DrainStep(m: Node, k: nat)
    requires k < |m.tx|
    ensures PartlyDrained(m, k).tx != [] && PartlyDrained(m, k).tx[0] == m.tx[k]
    ensures PopTx(PartlyDrained(m, k)) == PartlyDrained(m, k + 1)
    ensures m.tx[..k + 1] == m.tx[..k] + [m.tx[k]]
  {
  }

  lemma {:induction false} DrainEnds(m: Node)
    ensures PartlyDrained(m, 0) == m && PartlyDrained(m, |m.tx|) == Drained(m)
  {
  }

  lemma {:induction false} StillQueued(m: Node, k: nat)
    requires k <= |m.tx|
    ensures PartlyDrained(m, k).tx == [] <==> k == |m.tx|
  {
  }

  class ServiceBase {
    const canard: Canard
    const driver: CanBusAdaptor
    var isHealthy: bool
    ghost var errors: seq<Error>

    ghost predicate Valid()
      reads this, canard, canard.instance, canard.instance.next, canard.instance.body
    {
      canard.Valid()
    }

    ghost function Model(): Node
      reads this, canard, canard.instance
    {
      canard.instance.model
    }

    constructor (nodeId: byte, garbage: byte, succeeds: nat -> bool)
      requires 1 <= nodeId && nodeId <= 127
      ensures Valid() && fresh(canard) && fresh(canard.instance) && fresh(canard.instance.next)
      ensures fresh(canard.instance.body) && fresh(driver)
      ensures Quiet(Model()) && Model().nodeId == nodeId && Model().pool == Pool(62, 0, 0) && isHealthy && errors == []
      ensures driver.offered == []
    {
      canard := new Canard(ARENA_SIZE, garbage);
      driver := new CanBusAdaptor(succeeds);
      isHealthy, errors := true, [];
      new;
      hide Good;
      hide Sound;
      canard.SetNodeId(nodeId);
    }

    /** The outcome is kept in a local variable of the same name, so a failed send is reported but not remembered. */
    method TrySendFrame(f: Frame)
      modifies this`errors, driver
      ensures driver.offered == old(driver.offered) + [f] && driver.count == old(driver.count) + 1
      ensures errors == old(errors) + Reports(driver.succeeds, old(driver.count), 1)
    {
      var healthy := driver.SendFrame(f);
      if !healthy {
        errors := errors + [FailOnPublish];
      }
    }

    /** One turn of the drain loop; the frame is read after its block is freed. */
    method SendFirst()
      requires Valid() && Model().tx != []
      modifies this`errors, driver, canard.instance, canard.instance.next
      ensures Valid() && Model() == PopTx(old(Model())) && driver.offered == old(driver.offered) + [old(Model()).tx[0]]
      ensures driver.count == old(driver.count) + 1
      ensures errors == old(errors) + Reports(driver.succeeds, old(driver.count), 1)
    {
      hide Good;
      hide Sound;
      var frame := canard.PeekTxQueue();
      canard.PopTxQueue();
      TrySendFrame(canard.instance.body[frame].frame);
    }

    /** `send_pending_CAN_frames`: every queued frame is offered once, in queue order, and every failed send is
        reported. */
    method SendPendingFrames()
      requires Valid()
      modifies this`errors, driver, canard.instance, canard.instance.next
      ensures Valid() && Model() == Drained(old(Model()))
      ensures driver.offered == old(driver.offered) + old(Model()).tx
      ensures errors == old(errors) + Reports(driver.succeeds, old(driver.count), |old(Model()).tx|)
      ensures driver.count == old(driver.count) + |old(Model()).tx|
    {
      hide Canard.Valid;
      hide Reports;
      hide PartlyDrained;
      hide PopTx;
      hide Drained;
      ghost var m, sent: nat := Model(), 0;
      NoReports(driver.succeeds, driver.count);
      DrainEnds(m);
      var empty := canard.IsTxQueueEmpty();
      while !empty
        invariant Valid() && 0 <= sent <= |m.tx| && (empty <==> sent == |m.tx|) && Model() == PartlyDrained(m, sent)
        invariant driver.offered == old(driver.offered) + m.tx[..sent] && driver.count == old(driver.count) + sent
        invariant errors == old(errors) + Reports(driver.succeeds, old(driver.count), sent)
        decreases |m.tx| - sent
      {
        DrainStep(m, sent);
        SendFirst();
        ReportsMore(driver.succeeds, old(driver.count), sent);
        sent := sent + 1;
        empty := canard.IsTxQueueEmpty();
        StillQueued(m, sent);
      }
      assert m.tx[..|m.tx|] == m.tx;
    }

    method TryBroadcast(info: TypeInfo, data: seq<byte>)
      requires Valid()
      modifies this, canard, canard.instance, canard.instance.next, canard.instance.body
      ensures Valid()
      ensures var s := SendMessage(old(Model()), info.signature, info.id, old(canard.transferId), info.priority, data);
        && Model() == s.node && canard.transferId == s.tid && isHealthy == (s.code >= 0)
        && errors == if s.code >= 0 then old(errors) else old(errors) + [FailOnPublish]
    {
      hide Good;
      hide SendMessage;
      var code := canard.Broadcast(info, data);
      isHealthy := code >= 0;
      if !isHealthy {
        errors := errors + [FailOnPublish];
      }
    }

    /** `publish_generic_message`: whatever the driver and the memory do, the node is quiet again, everything that could
        be queued has been offered once in order, and the health is that of the broadcast. */
    method PublishGenericMessage(info: TypeInfo, data: seq<byte>)
      requires Valid() && Quiet(Model())
      modifies this, driver, canard, canard.instance, canard.instance.next, canard.instance.body
      ensures Valid() && Quiet(Model())
      ensures var s := SendMessage(old(Model()), info.signature, info.id, old(canard.transferId), info.priority, data);
        && Model() == Drained(s.node) && canard.transferId == s.tid && isHealthy == (s.code >= 0)
        && driver.offered == old(driver.offered) + s.node.tx
        && errors == (if s.code >= 0 then old(errors) else old(errors) + [FailOnPublish])
                     + Reports(driver.succeeds, old(driver.count), |s.node.tx|)
        && driver.count == old(driver.count) + |s.node.tx|
    {
      hide Good;
      SendThenDrain(Model(), info, canard.transferId, data);
      hide SendMessage;
      hide Sound;
      TryBroadcast(info, data);
      SendPendingFrames();
    }
  }
}
