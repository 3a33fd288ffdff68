/** What single steps of the calls do to the lists and to the specification: the facts the methods of the instance rely
    on. */
module Steps {
  import opened Types
  import opened CanId
  import opened Crc
  import opened Fragment
  import opened RxBuffer
  import opened Receiver
  import opened TxQueue
  import opened Library
  import opened Arena
  import opened ArenaRx
  import opened Interleaving

  /** Where a frame goes: behind everything it does not beat. */
  function InsertPosition(q: seq<Frame>, f: Frame): (i: nat)
    ensures i <= |q|
  {
    if q == [] || IsPriorityHigher(q[0].id, f.id) then 0 else 1 + InsertPosition(q[1..], f)
  }

  lemma {:induction false} InsertAtPosition(q: seq<Frame>, f: Frame)
    ensures Insert(q, f) == q[..InsertPosition(q, f)] + [f] + q[InsertPosition(q, f)..]
  {
    if q != [] && !IsPriorityHigher(q[0].id, f.id) {
      InsertAtPosition(q[1..], f);
      assert q == [q[0]] + q[1..];
    }
  }

  lemma {:induction false} PositionStep(q: seq<Frame>, f: Frame, k: nat)
    requires k < |q|
    ensures InsertPosition(q[k..], f) == if IsPriorityHigher(q[k].id, f.id) then 0
        else 1 + InsertPosition(q[k + 1..], f)
  {
  }

  /** The queue at position `k`. */
  lemma {:induction false} TxAt(next: seq<int>, body: seq<Body>, h: Heads, lay: Lay, m: Node, k: nat)
    requires Good(next, body, h, lay, m)
    ensures |lay.tx| == |m.tx| && h.tx == At(lay.tx, 0)
    ensures k < |lay.tx| ==>
      0 <= lay.tx[k] < |next| && next[lay.tx[k]] == At(lay.tx, k + 1) && body[lay.tx[k]] == TxBody(m.tx[k])
  {
  }

  // ---------------------------------------------------------------- queueing the frames of a transfer

  /** The node after the first `k` frames have been queued. */
  function Queued(n: Node, frames: seq<Frame>, k: nat): Node
    requires k <= |frames|
  {
    n.(tx := InsertAll(n.tx, frames[..k]), pool := TakeMany(n.pool, k))
  }

  lemma {:induction false} InsertAllSnoc(q: seq<Frame>, fs: seq<Frame>, f: Frame)
    ensures InsertAll(q, fs + [f]) == Insert(InsertAll(q, fs), f)
    decreases |fs|
  {
    if fs == [] {
      assert fs + [f] == [f];
      assert InsertAll(Insert(q, f), [f][1..]) == Insert(q, f);
    } else {
      assert (fs + [f])[1..] == fs[1..] + [f];
      InsertAllSnoc(Insert(q, fs[0]), fs[1..], f);
    }
  }

  lemma {:induction false} QueuedMore(n: Node, frames: seq<Frame>, k: nat)
    requires k < |frames|
    ensures var m := Queued(n, frames, k);
      Queued(n, frames, k + 1) == m.(tx := Insert(m.tx, frames[k]), pool := m.pool.Take())
  {
    assert frames[..k + 1] == frames[..k] + [frames[k]];
    InsertAllSnoc(n.tx, frames[..k], frames[k]);
  }

  /** Where queueing stops is what `Enqueue` says. */
  lemma {:induction false} QueuedAll(n: Node, frames: seq<Frame>, k: nat)
    requires k <= |frames| && n.pool.usage + k <= n.pool.capacity
    ensures Queued(n, frames, 0) == n
    ensures k == |frames| ==> Enqueue(n, frames) == (Queued(n, frames, k), k)
    ensures k < |frames| && Queued(n, frames, k).pool.Full() ==> Enqueue(n, frames) == (Queued(n, frames, k),
                                                                                        -OUT_OF_MEMORY)
  {
  }

  lemma {:induction false} UsageBounded(next: seq<int>, body: seq<Body>, h: Heads, lay: Lay, m: Node)
    requires Good(next, body, h, lay, m)
    ensures m.pool.usage <= m.pool.capacity
  {
  }

  lemma {:induction false} NoneFree(next: seq<int>, body: seq<Body>, h: Heads, lay: Lay, m: Node)
    requires Good(next, body, h, lay, m)
    ensures h.free == NULL <==> m.pool.Full()
  {
  }

  lemma {:induction false} SingleQueued(n: Node, f: Frame)
    requires n.pool.usage <= n.pool.capacity
    ensures Enqueue(n, [f]) == if n.pool.Full() then (n, -OUT_OF_MEMORY)
        else (n.(tx := Insert(n.tx, f), pool := n.pool.Take()), 1)
  {
    QueuedAll(n, [f], 0);
    if !n.pool.Full() {
      QueuedMore(n, [f], 0);
      QueuedAll(n, [f], 1);
    }
  }

  lemma {:induction false} SingleTail(tid: byte)
    ensures 0xC0 | (tid & 31) == TailByte(true, true, false, tid)
  {
  }

  /** The frame assembled from byte `at` on is the next frame of the transfer. */
  lemma {:induction false} FrameAt(id: bv32, tid: byte, crc: bv16, payload: seq<byte>, at: nat, toggle: bool,
                                   frames: seq<Frame>, k: nat, data: seq<byte>, dataIndex: nat)
    requires |payload| >= 8 && at < |payload| && frames == Frames(id, tid, crc, payload) && k <= |frames|
    requires if at == 0 then k == 0 && !toggle else frames[k..] == FramesFrom(id, tid, payload, at, toggle)
    requires var start := if at == 0 then CrcBytes(crc) else [];
      && dataIndex == at + Min(7 - |start|, |payload| - at)
      && data == start + payload[at..dataIndex] + [TailByte(at == 0 && dataIndex != |payload|, dataIndex == |payload|,
                                                            toggle, tid)]
    ensures |data| <= 8 && k < |frames| && frames[k] == Frame(id, data)
    ensures frames[k + 1..] == FramesFrom(id, tid, payload, dataIndex, !toggle)
  {
    if at == 0 {
      assert frames[1..] == FramesFrom(id, tid, payload, 5, true);
      assert payload[0..5] == payload[..5];
    } else {
      var rest := FramesFrom(id, tid, payload, at, toggle);
      assert rest[0] == NextFrame(id, tid, payload, at, toggle);
      assert frames[k] == frames[k..][0];
      assert frames[k + 1..] == frames[k..][1..];
    }
  }

  // ---------------------------------------------------------------- receive states

  lemma {:induction false} IndexStep(rx: seq<RxState>, d: bv32, k: nat)
    requires k < |rx|
    ensures IndexOf(rx[k..], d) == if rx[k].core.descriptor == d then 0 else 1 + IndexOf(rx[k + 1..], d)
  {
  }

  /** The state list at position `k`. */
  lemma {:induction false} RxAt(next: seq<int>, body: seq<Body>, h: Heads, lay: Lay, m: Node, k: nat)
    requires Good(next, body, h, lay, m)
    ensures |lay.rx| == |m.rx| && h.rx == At(lay.rx, 0)
    ensures k < |lay.rx| ==> var r := lay.rx[k];
      && 0 <= r < |next| && next[r] == At(lay.rx, k + 1) && body[r].RxBody? && body[r].core == m.rx[k].core
      && r in lay.chains && |lay.chains[r]| == |m.rx[k].blocks| && (body[r].chain == NULL <==> m.rx[k].blocks == [])
  {
    if k < |lay.rx| {
      assert StateAt(body, lay, lay.rx[k], m.rx[k]) && lay.rx[k] in lay.rx && Chained(next, body, lay, lay.rx[k]);
    }
  }

  function WithRx(m: Node, k: nat, s: RxState, p: Pool): Node
    requires k < |m.rx|
  {
    m.(rx := m.rx[k := s], pool := p)
  }

  function WithNewState(m: Node, d: bv32, junk: Junk): Node {
    m.(pool := m.pool.Take(), rx := [NewState(d, junk)] + m.rx)
  }

  /** The chain of the `k`-th state at position `j`. */
  lemma {:induction false} ChainAt(next: seq<int>, body: seq<Body>, h: Heads, lay: Lay, m: Node, k: nat, j: nat)
    requires Good(next, body, h, lay, m) && k < |lay.rx|
    ensures var r := lay.rx[k];
      && 0 <= r < |next| && r in lay.chains && |lay.chains[r]| == |m.rx[k].blocks| && body[r].RxBody?
         && body[r].chain == At(lay.chains[r], 0)
    ensures j < |m.rx[k].blocks| ==> var b := lay.chains[lay.rx[k]][j];
      0 <= b < |next| && b != lay.rx[k] && next[b] == At(lay.chains[lay.rx[k]], j + 1)
          && body[b] == DataBody(m.rx[k].blocks[j])
  {
    assert StateAt(body, lay, lay.rx[k], m.rx[k]) && lay.rx[k] in lay.rx && Chained(next, body, lay, lay.rx[k]);
    if j < |m.rx[k].blocks| {
      ChainApart(next, body, h, lay, lay.rx[k], j);
    }
  }

  /** The listed blocks hold `blocks`, in order. */
  ghost predicate HoldsBlocks(body: seq<Body>, ids: seq<int>, blocks: seq<Block>) {
    && |ids| == |blocks|
    && forall j {:trigger ids[j]} | 0 <= j < |ids| :: 0 <= ids[j] < |body| && body[ids[j]] == DataBody(blocks[j])
  }

  /** The chain of a state holds its blocks, whatever is written into the state itself. */
  lemma {:induction false} ChainHolds(next: seq<int>, body: seq<Body>, h: Heads, lay: Lay, m: Node, k: nat, b: Body)
    requires Good(next, body, h, lay, m) && k < |lay.rx|
    ensures var r := lay.rx[k];
      0 <= r < |body| && r in lay.chains && HoldsBlocks(body[r := b], lay.chains[r], m.rx[k].blocks)
  {
    assert StateAt(body, lay, lay.rx[k], m.rx[k]) && lay.rx[k] in lay.rx && Chained(next, body, lay, lay.rx[k]);
  }

  /** One step along a delivered payload. */
  lemma {:induction false} ReadStep(next: seq<int>, body: seq<Body>, owner: seq<Owner>, head: int, ids: seq<int>,
                                    blocks: seq<Block>, k: nat)
    requires Listed(next, owner, head, ids, Middle) && HoldsBlocks(body, ids, blocks) && |next| == |owner| && k <= |ids|
    ensures |ids| == |blocks| && head == At(ids, 0) && (At(ids, k) == NULL <==> k == |ids|)
    ensures k < |ids| ==>
      && 0 <= ids[k] < |next| && ids[k] < |body| && next[ids[k]] == At(ids, k + 1)
         && body[ids[k]] == DataBody(blocks[k])
      && blocks[..k + 1] == blocks[..k] + [blocks[k]]
  {
    hide Listed;
    ListedHead(next, owner, head, ids, Middle);
    if k < |ids| {
      ListedAt(next, owner, head, ids, Middle, k);
    }
  }

  /** Writing into a receive state leaves the blocks of a delivered payload alone. */
  lemma {:induction false} HeldFrame(next: seq<int>, body: seq<Body>, owner: seq<Owner>, head: int, ids: seq<int>,
                                     blocks: seq<Block>, r: int, b: Body)
    requires Listed(next, owner, head, ids, Middle) && HoldsBlocks(body, ids, blocks) && 0 <= r < |body| == |owner|
    requires owner[r] == Rx
    ensures HoldsBlocks(body[r := b], ids, blocks)
  {
  }

  /** A data block in hand becomes the last of a chain. */
  lemma {:induction false} AppendedBlock(next: seq<int>, body: seq<Body>, h: Heads, lay: Lay, m: Node, k: nat, b: int,
                                         d: Block)
    requires Good(next, body, h, lay, m) && k < |lay.rx| && 0 <= b < |next| && lay.owner[b] == Held && next[b] == NULL
    requires body[b] == DataBody(d)
    ensures var r := lay.rx[k];
      && 0 <= r < |body| && body[r].RxBody? && r in lay.chains && |lay.chains[r]| == |m.rx[k].blocks|
      && (forall j | 0 <= j < |lay.chains[r]| :: 0 <= lay.chains[r][j] < |next| && lay.chains[r][j] != b)
    ensures var r := lay.rx[k]; var c := lay.chains[r];
      Good(if c == [] then next else next[c[|c| - 1] := b], if c == [] then body[r := body[r].(chain := b)] else body,
           h, ChainAppended(lay, r, b), WithRx(m, k, RxState(m.rx[k].core, m.rx[k].blocks + [d]), m.pool))
  {
    var r := lay.rx[k];
    ChainAt(next, body, h, lay, m, k, 0);
    var c := lay.chains[r];
    forall j | 0 <= j < |c| ensures 0 <= c[j] < |next| && c[j] != b {
      ChainApart(next, body, h, lay, r, j);
    }
    ChainAppendGood(next, body, h, lay, m, k, b, d);
    assert LinkedIn(next, c, |c|, b) == if c == [] then next else next[c[|c| - 1] := b];
    assert c != [] ==> body[r := body[r].(chain := At(c + [b], 0))] == body;
  }

  lemma {:induction false} WriteStep(blocks: seq<Block>, at: nat, data: seq<byte>, pool: Pool, junk: Block)
    requires blocks != [] && at < BLOCK_SIZE
    ensures var n := Room(BLOCK_SIZE, at, |data|); var last := |blocks| - 1;
      var filled := blocks[last := Overlay(blocks[last], at, data)];
      WriteBlocks(blocks, at, data, pool, junk)
      == if n == |data| then Written(true, filled, pool)
         else if pool.Full() then Written(false, filled, pool)
         else WriteBlocks(filled + [junk], 0, data[n..], pool.Take(), junk)
  {
  }

  lemma {:induction false} WriteNothing(blocks: seq<Block>, at: nat, pool: Pool, junk: Block)
    requires blocks != [] && at < BLOCK_SIZE
    ensures WriteBlocks(blocks, at, [], pool, junk) == Written(true, blocks, pool)
  {
    assert Overlay(blocks[|blocks| - 1], at, []) == blocks[|blocks| - 1];
  }

  function WithHead(s: RxState, data: seq<byte>): RxState {
    s.(core := s.core.(head := Overlay(s.core.head, s.core.payloadLen, data)))
  }

  lemma {:induction false} SameRx(m: Node, k: nat)
    requires k < |m.rx|
    ensures m == WithRx(m, k, m.rx[k], m.pool)
  {
  }

  lemma {:induction false} MiddleFits(next: seq<int>, body: seq<Body>, h: Heads, lay: Lay, m: Node)
    requires Good(next, body, h, lay, m)
    ensures |lay.owner| == |next|
  {
  }

  lemma {:induction false} SpliceKeepsBlocks(s: RxState, chunk: seq<byte>)
    ensures |Splice(s, chunk).blocks| == |s.blocks|
  {
  }

  lemma {:induction false} StoreDeliversNothing(s: RxState, pool: Pool, chunk: seq<byte>, payloadCrc: bv16, junk: Junk)
    ensures Store(s, pool, chunk, payloadCrc, junk).delivered == None
  {
  }

  // ---------------------------------------------------------------- receiving

  /** The node when a start frame meets its state: created if it was not there, its CRC started anew. */
  function Opening(n: Node, f: Frame, signature: bv64, junk: Junk): Node {
    var d := DescriptorOf(f.id);
    var m := if Lookup(n.rx, d).Some? then n else WithNewState(n, d, junk);
    var k := IndexOf(m.rx, d);
    if k < |m.rx| then WithRx(m, k, WithCrc(m.rx[k], SignatureCrc(signature)), m.pool) else m
  }

  lemma {:induction false} NewIndex(n: Node, d: bv32, junk: Junk)
    ensures Lookup(n.rx, d) == None ==> IndexOf(WithNewState(n, d, junk).rx, d) == 0
  {
  }

  /** Only the fixed fields other than the descriptor change, so the state is found where it was. */
  lemma {:induction false} OpeningIndex(m: Node, k: nat, d: bv32, crc: bv16)
    requires k == IndexOf(m.rx, d) && k < |m.rx|
    ensures IndexOf(m.rx[k := WithCrc(m.rx[k], crc)], d) == k
  {
    IndexIs(m.rx[k := WithCrc(m.rx[k], crc)], d, k);
  }

  /** The frames that meet no state. */
  lemma {:induction false} Refusals(n: Node, e: Event, accept: Acceptance)
    ensures var h := HandleRx(n, e, accept); var f := e.frame; var d := DescriptorOf(f.id);
      && (!Compatible(f) ==> h == Handled(-RX_INCOMPATIBLE_PACKET, n, None))
      && (Compatible(f) && !Addressed(f, n.nodeId) ==> h == Handled(-RX_WRONG_ADDRESS, n, None))
      && (Compatible(f) && Addressed(f, n.nodeId) && IsStart(TailOf(f)) && Signature(accept, f.id) == None
          ==> h == Handled(-RX_NOT_WANTED, n, None))
      && (Compatible(f) && Addressed(f, n.nodeId) && IsStart(TailOf(f)) && Signature(accept, f.id).Some?
          && Lookup(n.rx, d) == None && n.pool.Full()
          ==> h == Handled(-OUT_OF_MEMORY, n, None))
      && (Compatible(f) && Addressed(f, n.nodeId) && !IsStart(TailOf(f)) && Lookup(n.rx, d) == None
          ==> h == Handled(-RX_MISSED_START, n, None))
  {
  }

  /** `HandleRx` as one step on the state at its place in the list. */
  ghost predicate StepsOn(n: Node, e: Event, accept: Acceptance, m: Node) {
    var k := IndexOf(m.rx, DescriptorOf(e.frame.id));
    && k < |m.rx| && e.frame.data != []
    && var o := Receive(m.rx[k], m.pool, e.frame, e.now, e.junk);
       HandleRx(n, e, accept) == Handled(o.code, WithRx(m, k, o.state, o.pool), o.delivered)
  }

  /** What `OnFrame` does with a start frame that is wanted and finds or gets a state. */
  lemma {:induction false} StartFrame(view: Option<RxState>, pool: Pool, nodeId: byte, e: Event, accept: Acceptance,
                                      signature: bv64)
    requires Compatible(e.frame) && Addressed(e.frame, nodeId) && IsStart(TailOf(e.frame))
    requires Signature(accept, e.frame.id) == Some(signature)
    requires view.Some? || !pool.Full()
    ensures OnFrame(view, pool, nodeId, e, accept)
         == FromOutcome(Receive(Opened(view, e.frame.id, signature, e.junk), if view.Some? then pool else pool.Take(),
                                e.frame, e.now, e.junk))
  {
  }

  /** What holds of the node on which a start frame has found or got its state: storing a result there is storing it
      under the descriptor. */
  ghost predicate StoresBack(n: Node, m: Node, d: bv32, found: RxState, s: RxState) {
    && IndexOf(m.rx, d) < |m.rx| && m.rx[IndexOf(m.rx, d)] == found
    && WithRx(m, IndexOf(m.rx, d), s, n.pool) == n.(rx := Update(n.rx, d, Some(s)))
  }

  lemma {:induction false} StoredKnown(n: Node, d: bv32, crc: bv16, s: RxState)
    requires Lookup(n.rx, d).Some?
    ensures StoresBack(n, WithRx(n, IndexOf(n.rx, d), WithCrc(n.rx[IndexOf(n.rx, d)], crc), n.pool), d,
                       WithCrc(Lookup(n.rx, d).value, crc), s)
  {
    OpeningIndex(n, IndexOf(n.rx, d), d, crc);
  }

  lemma {:induction false} StoredNew(n: Node, d: bv32, crc: bv16, junk: Junk, s: RxState)
    requires Lookup(n.rx, d) == None
    ensures var m := WithNewState(n, d, junk);
      StoresBack(n, WithRx(m, 0, WithCrc(m.rx[0], crc), m.pool), d, WithCrc(NewState(d, junk), crc), s)
  {
    NewIndex(n, d, junk);
    OpeningIndex(WithNewState(n, d, junk), 0, d, crc);
  }

  lemma {:induction false} StoredBack(n: Node, f: Frame, signature: bv64, junk: Junk, s: RxState)
    ensures var m := Opening(n, f, signature, junk); var d := DescriptorOf(f.id);
      && StoresBack(n, m, d, Opened(Lookup(n.rx, d), f.id, signature, junk), s)
      && m.pool == (if Lookup(n.rx, d).Some? then n.pool else n.pool.Take())
  {
    hide SignatureCrc;
    hide DescriptorOf;
    hide StoresBack;
    var d := DescriptorOf(f.id);
    if Lookup(n.rx, d).Some? {
      StoredKnown(n, d, SignatureCrc(signature), s);
    } else {
      StoredNew(n, d, SignatureCrc(signature), junk, s);
      NewIndex(n, d, junk);
    }
  }

  lemma {:induction false} HandledStart(n: Node, e: Event, accept: Acceptance, signature: bv64)
    requires Compatible(e.frame) && Addressed(e.frame, n.nodeId) && IsStart(TailOf(e.frame))
    requires Signature(accept, e.frame.id) == Some(signature)
    requires Lookup(n.rx, DescriptorOf(e.frame.id)).Some? || !n.pool.Full()
    ensures StepsOn(n, e, accept, Opening(n, e.frame, signature, e.junk))
  {
    var d := DescriptorOf(e.frame.id);
    var view := Lookup(n.rx, d);
    StartFrame(view, n.pool, n.nodeId, e, accept, signature);
    hide Receive;
    hide OnFrame;
    hide Opening;
    hide Opened;
    hide Lookup;
    hide Update;
    hide IndexOf;
    hide Compatible;
    hide Addressed;
    hide Signature;
    hide DescriptorOf;
    hide IsStart;
    var o := Receive(Opened(view, e.frame.id, signature, e.junk), if view.Some? then n.pool else n.pool.Take(), e.frame,
                     e.now, e.junk);
    StoredBack(n, e.frame, signature, e.junk, o.state);
  }

  lemma {:induction false} HandledLater(n: Node, e: Event, accept: Acceptance)
    requires Compatible(e.frame) && Addressed(e.frame, n.nodeId) && !IsStart(TailOf(e.frame))
    requires Lookup(n.rx, DescriptorOf(e.frame.id)).Some?
    ensures StepsOn(n, e, accept, n)
  {
  }

  // ---------------------------------------------------------------- cleaning up

  lemma {:induction false} CleanupStep(rx: seq<RxState>, k: nat, now: Timestamp)
    requires k < |rx|
    ensures TimedOut(rx[k], now) ==>
      && Live(rx[k..], now) == Live(Without(rx, k)[k..], now) && Without(rx, k)[..k] == rx[..k]
      && StaleBlocks(rx[k..], now) == 1 + |rx[k].blocks| + StaleBlocks(Without(rx, k)[k..], now)
    ensures !TimedOut(rx[k], now) ==>
      && rx[..k] + Live(rx[k..], now) == rx[..k + 1] + Live(rx[k + 1..], now)
      && StaleBlocks(rx[k..], now) == StaleBlocks(rx[k + 1..], now)
  {
  }

  lemma {:induction false} CleanupBegins(rx: seq<RxState>, now: Timestamp)
    ensures Live(rx, now) == rx[..0] + Live(rx[0..], now) && StaleBlocks(rx, now) == StaleBlocks(rx[0..], now)
  {
    assert rx[0..] == rx;
  }

  lemma {:induction false} CleanupEnds(rx: seq<RxState>, now: Timestamp)
    ensures rx[..|rx|] + Live(rx[|rx|..], now) == rx && StaleBlocks(rx[|rx|..], now) == 0
  {
  }

  /** A state without blocks leaves the list. */
  lemma {:induction false} RemovedState(next: seq<int>, body: seq<Body>, h: Heads, lay: Lay, m: Node, k: nat)
    requires Good(next, body, h, lay, m) && k < |lay.rx|
    ensures var r := lay.rx[k];
      && 0 <= r < |next| && r < |lay.owner| && |lay.rx| == |m.rx| && next[r] == At(lay.rx, k + 1)
         && (k == 0 <==> r == h.rx)
      && (k > 0 ==> 0 <= lay.rx[k - 1] < |next|)
      && Good(if k == 0 then next else next[lay.rx[k - 1] := next[r]], body, h.(rx := if k == 0 then next[r] else h.rx),
              RxRemoved(lay, k), m.(rx := Without(m.rx, k)))
  {
    RxAt(next, body, h, lay, m, k);
    StatesDistinct(next, body, h, lay, k);
    RxRemoveGood(next, body, h, lay, m, k);
    if k > 0 {
      RxAt(next, body, h, lay, m, k - 1);
    }
  }

  /** A push in two parts: first the head, then the chain. */
  lemma {:induction false} PushParts(s: RxState, data: seq<byte>, pool: Pool, junk: Block)
    ensures var h := WithHead(s, data); var newLen := (s.core.payloadLen + |data|) % (MAX_PAYLOAD + 1);
      PushBytes(s, data, pool, junk)
      == if s.core.payloadLen != HEAD_SIZE && Room(HEAD_SIZE, s.core.payloadLen, |data|) >= |data|
         then Pushed(true, h.(core := h.core.(payloadLen := newLen)), pool)
         else var w := PushBeyond(h, data, pool, junk);
              Pushed(w.ok, RxState(if w.ok then h.core.(payloadLen := newLen) else h.core, w.blocks), w.pool)
  {
  }

  /** `cells` filled from position `at`, byte by byte, until either is used up. */
  method Fill(cells: seq<byte>, at: nat, data: seq<byte>) returns (filled: seq<byte>, taken: nat)
    ensures filled == Overlay(cells, at, data) && taken == Room(|cells|, at, |data|)
  {
    filled, taken := cells, 0;
    var i := at;
    while i < |cells| && taken < |data|
      invariant |filled| == |cells| && i == at + taken && taken <= Room(|cells|, at, |data|)
      invariant forall j | 0 <= j < |cells| :: filled[j] == if at <= j < i then data[j - at] else cells[j]
    {
      filled := filled[i := data[taken]];
      i, taken := i + 1, taken + 1;
    }
  }

  /** A whole arena on the free list. */
  lemma {:induction false} FreshArenaGood(next: seq<int>, body: seq<Body>, free: seq<int>)
    requires |next| == |body| == |free| && forall k | 0 <= k < |free| :: free[k] == k && next[k] == At(free, k + 1)
    ensures Good(next, body, Heads(At(free, 0), NULL, NULL), Lay(seq(|next|, _ => Free), free, [], [], map[]),
                 NewNode(|next|))
  {
  }
}
