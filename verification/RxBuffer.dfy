/** The scattered storage of a half-received transfer: a six-byte head and a chain of 28-byte blocks. */
module RxBuffer {
  import opened Types

  const HEAD_SIZE := 6
  const BLOCK_SIZE := 28
  const MAX_PAYLOAD := 1023

  type Block = b: seq<byte> | |b| == 28 witness seq(28, _ => 0)
  type Head = h: seq<byte> | |h| == 6 witness seq(6, _ => 0)

  // ---------------------------------------------------------------- the block pool, counted

  datatype Pool = Pool(capacity: nat, usage: int, peak: int) {
    predicate Full() {
      usage >= capacity
    }

    function Take(): Pool {
      this.(usage := usage + 1, peak := Max(peak, usage + 1))
    }

    function Return(n: nat): Pool {
      this.(usage := usage - n)
    }
  }

  // ---------------------------------------------------------------- the receive state

  /** The fixed fields of `CanardRxState`; `payloadLen` is a ten-bit field. */
  datatype RxCore = RxCore(descriptor: bv32, timestamp: Timestamp, calculatedCrc: bv16, payloadLen: nat,
                           transferId: byte, nextToggle: bool, payloadCrc: bv16, head: Head)

  datatype RxState = RxState(core: RxCore, blocks: seq<Block>)

  datatype Pushed = Pushed(ok: bool, state: RxState, pool: Pool)

  datatype Written = Written(ok: bool, blocks: seq<Block>, pool: Pool)

  /** `cells` with `data` written from position `at`, as far as there is room. */
  function Overlay(cells: seq<byte>, at: nat, data: seq<byte>): (r: seq<byte>)
    ensures |r| == |cells|
    ensures forall i | 0 <= i < |cells| :: r[i] == if at <= i < at + |data| then data[i - at] else cells[i]
  {
    if at >= |cells| then cells
    else
      var n := Min(|data|, |cells| - at);
      cells[..at] + data[..n] + cells[at + n..]
  }

  /** How many bytes `Overlay` takes. */
  function Room(size: nat, at: nat, n: nat): nat {
    if at >= size then 0 else Min(n, size - at)
  }

  /** Writing into the last block from `at`, chaining new blocks as each one fills; `junk` is what a new block holds. */
  function WriteBlocks(blocks: seq<Block>, at: nat, data: seq<byte>, pool: Pool, junk: Block): Written
    requires blocks != [] && at < BLOCK_SIZE
    decreases |data|
  {
    var last := |blocks| - 1;
    var filled := blocks[last := Overlay(blocks[last], at, data)];
    var n := Room(BLOCK_SIZE, at, |data|);
    if n == |data| then Written(true, filled, pool)
    else if pool.Full() then Written(false, filled, pool)
    else WriteBlocks(filled + [junk], 0, data[n..], pool.Take(), junk)
  }

  /** Where the next byte goes in the last block, in the 32-bit unsigned arithmetic of the source. */
  function IndexAtLastBlock(payloadLen: nat): nat {
    (if payloadLen >= HEAD_SIZE then payloadLen - HEAD_SIZE else payloadLen + 0x1_0000_0000 - HEAD_SIZE) % BLOCK_SIZE
  }

  /** The head has room and takes all the data. */
  predicate FitsHead(s: RxState, n: nat) {
    s.core.payloadLen != HEAD_SIZE && Room(HEAD_SIZE, s.core.payloadLen, n) >= n
  }

  /** A block is allocated before anything is written beyond the head. */
  predicate Grows(s: RxState, n: nat) {
    || s.blocks == []
    || ((s.core.payloadLen + n - HEAD_SIZE) / BLOCK_SIZE + 1 > |s.blocks| && IndexAtLastBlock(s.core.payloadLen) == 0)
  }

  /** The position of the first write in the last block. */
  function StartIndex(s: RxState): nat {
    if s.blocks == [] then 0 else IndexAtLastBlock(s.core.payloadLen)
  }

  /** The part of `data` that does not go into the head. */
  function BeyondHead(s: RxState, data: seq<byte>): seq<byte> {
    data[Room(HEAD_SIZE, s.core.payloadLen, |data|)..]
  }

  /** The writes beyond the head. */
  function PushBeyond(s: RxState, data: seq<byte>, pool: Pool, junk: Block): Written {
    var rest := BeyondHead(s, data);
    if !Grows(s, |data|) then WriteBlocks(s.blocks, StartIndex(s), rest, pool, junk)
    else if pool.Full() then Written(false, s.blocks, pool)
    else WriteBlocks(s.blocks + [junk], StartIndex(s), rest, pool.Take(), junk)
  }

  /** `bufferBlockPushBytes`: fill the head, then the blocks; on a failed allocation the length is left as it was. */
  function PushBytes(s: RxState, data: seq<byte>, pool: Pool, junk: Block): Pushed {
    var head := Overlay(s.core.head, s.core.payloadLen, data);
    var newLen := (s.core.payloadLen + |data|) % (MAX_PAYLOAD + 1);
    if FitsHead(s, |data|) then
      Pushed(true, RxState(s.core.(head := head, payloadLen := newLen), s.blocks), pool)
    else
      var w := PushBeyond(s, data, pool, junk);
      Pushed(w.ok, RxState(s.core.(head := head, payloadLen := if w.ok then newLen else s.core.payloadLen), w.blocks),
             w.pool)
  }

  // ---------------------------------------------------------------- what the storage stands for

  function Flat(blocks: seq<Block>): (r: seq<byte>)
    ensures |r| == BLOCK_SIZE * |blocks|
  {
    if blocks == [] then [] else blocks[0] + Flat(blocks[1..])
  }

  /** The storage is laid out for its length: no more blocks than needed, except that the last one may still be empty.
      */
  predicate Layout(s: RxState) {
    var k, len := |s.blocks|, s.core.payloadLen;
    if k == 0 then len <= HEAD_SIZE else BLOCK_SIZE * (k - 1) <= len - HEAD_SIZE <= BLOCK_SIZE * k
  }

  /** The payload received so far. */
  function Contents(s: RxState): (r: seq<byte>)
    requires Layout(s)
    ensures |r| == s.core.payloadLen
  {
    (s.core.head + Flat(s.blocks))[..s.core.payloadLen]
  }

  function BlocksFor(len: int): int {
    if len <= HEAD_SIZE then 0 else (len - HEAD_SIZE + BLOCK_SIZE - 1) / BLOCK_SIZE
  }

  lemma {:induction false} FlatConcat(a: seq<Block>, b: seq<Block>)
    ensures Flat(a + b) == Flat(a) + Flat(b)
  {
    if a == [] {
      assert a + b == b;
    } else {
      assert (a + b)[1..] == a[1..] + b;
      FlatConcat(a[1..], b);
    }
  }

  lemma {:induction false} FlatLast(blocks: seq<Block>)
    requires blocks != []
    ensures Flat(blocks) == Flat(blocks[..|blocks| - 1]) + blocks[|blocks| - 1]
  {
    var k := |blocks| - 1;
    assert blocks == blocks[..k] + [blocks[k]];
    FlatConcat(blocks[..k], [blocks[k]]);
    assert Flat([blocks[k]]) == blocks[k] + Flat([]);
  }

  /** How many bytes of the chain are in use when the last block is filled up to `at`. */
  function Used(blocks: seq<Block>, at: nat): nat
    requires blocks != []
  {
    BLOCK_SIZE * (|blocks| - 1) + at
  }

  function BlocksToHold(n: int): int {
    (n + BLOCK_SIZE - 1) / BLOCK_SIZE
  }

  lemma {:induction false} WriteBlocksCounts(blocks: seq<Block>, at: nat, data: seq<byte>, pool: Pool, junk: Block)
    requires blocks != [] && at < BLOCK_SIZE
    ensures var w := WriteBlocks(blocks, at, data, pool, junk);
      && w.pool.usage - pool.usage == |w.blocks| - |blocks| >= 0 && w.pool.capacity == pool.capacity
      && (pool.usage <= pool.capacity ==> w.pool.usage <= w.pool.capacity)
      && (w.ok ==> |w.blocks| == Max(|blocks|, BlocksToHold(Used(blocks, at) + |data|)))
      && (w.ok <==> |data| + at <= BLOCK_SIZE
                    || Max(|blocks|, BlocksToHold(Used(blocks, at) + |data|)) - |blocks| <= pool.capacity - pool.usage)
    decreases |data|
  {
    var n := Room(BLOCK_SIZE, at, |data|);
    if n < |data| && !pool.Full() {
      var filled := blocks[|blocks| - 1 := Overlay(blocks[|blocks| - 1], at, data)];
      WriteBlocksCounts(filled + [junk], 0, data[n..], pool.Take(), junk);
    }
  }

  lemma {:induction false} OverlayLast(blocks: seq<Block>, at: nat, data: seq<byte>)
    requires blocks != [] && at < BLOCK_SIZE
    ensures var n := Room(BLOCK_SIZE, at, |data|);
      var filled := blocks[|blocks| - 1 := Overlay(blocks[|blocks| - 1], at, data)];
      Flat(filled)[..Used(blocks, at) + n] == Flat(blocks)[..Used(blocks, at)] + data[..n]
  {
    var k := |blocks| - 1;
    var filled := blocks[k := Overlay(blocks[k], at, data)];
    FlatLast(blocks);
    FlatLast(filled);
    assert filled[..k] == blocks[..k];
  }

  /** Writing appends: the first `Used` bytes of the chain, then `data`. */
  lemma {:induction false} WriteBlocksAppends(blocks: seq<Block>, at: nat, data: seq<byte>, pool: Pool, junk: Block)
    requires blocks != [] && at < BLOCK_SIZE
    requires WriteBlocks(blocks, at, data, pool, junk).ok
    ensures var w := WriteBlocks(blocks, at, data, pool, junk).blocks;
      Used(blocks, at) + |data| <= |Flat(w)| && Flat(w)[..Used(blocks, at) + |data|]
          == Flat(blocks)[..Used(blocks, at)] + data
    decreases |data|
  {
    hide Flat;
    hide Overlay;
    var n := Room(BLOCK_SIZE, at, |data|);
    OverlayLast(blocks, at, data);
    if n == |data| {
      assert data[..n] == data;
    } else {
      var filled := blocks[|blocks| - 1 := Overlay(blocks[|blocks| - 1], at, data)];
      WriteBlocksAppends(filled + [junk], 0, data[n..], pool.Take(), junk);
      FlatConcat(filled, [junk]);
      assert Used(filled + [junk], 0) == Used(blocks, at) + n == |Flat(filled)|;
      assert (Flat(filled) + Flat([junk]))[..|Flat(filled)|] == Flat(filled);
      assert data == data[..n] + data[n..];
    }
  }

  /** Every push, from any state: the pool pays for exactly the new blocks, and they stay reachable from the state even
      when an allocation fails; nothing but the length and the head changes in the fixed fields. */
  lemma {:induction false} PushAccounts(s: RxState, data: seq<byte>, pool: Pool, junk: Block)
    ensures var r := PushBytes(s, data, pool, junk);
      && r.pool.usage - pool.usage == |r.state.blocks| - |s.blocks| >= 0 && r.pool.capacity == pool.capacity
      && (pool.usage <= pool.capacity ==> r.pool.usage <= r.pool.capacity)
      && r.state.core == s.core.(payloadLen := r.state.core.payloadLen, head := r.state.core.head)
      && (!r.ok ==> r.state.core.payloadLen == s.core.payloadLen)
  {
    if !Grows(s, |data|) {
      WriteBlocksCounts(s.blocks, StartIndex(s), BeyondHead(s, data), pool, junk);
    } else if !pool.Full() {
      WriteBlocksCounts(s.blocks + [junk], StartIndex(s), BeyondHead(s, data), pool.Take(), junk);
    }
  }

  /** Blocks in the chain after a push that succeeds. */
  function BlocksAfter(s: RxState, n: nat): int {
    if s.core.payloadLen == HEAD_SIZE && n == 0 && s.blocks == [] then 1
    else Max(|s.blocks|, BlocksFor(s.core.payloadLen + n))
  }

  /** What a push asks of the caller: a laid-out state, less than a block of data, and room in the ten-bit length. */
  predicate Pushable(s: RxState, n: nat) {
    Layout(s) && n < BLOCK_SIZE && s.core.payloadLen + n <= MAX_PAYLOAD
  }

  /** The index arithmetic finds the end of the payload, and grows the chain exactly when its last block is full. */
  lemma {:induction false} WriteStartsAtEnd(s: RxState, n: nat)
    requires Pushable(s, n) && !FitsHead(s, n)
    ensures Grows(s, n) <==> s.blocks == [] || s.core.payloadLen == HEAD_SIZE + BLOCK_SIZE * |s.blocks|
    ensures BLOCK_SIZE * (|s.blocks| + (if Grows(s, n) then 1 else 0) - 1) + StartIndex(s)
        == Max(s.core.payloadLen - HEAD_SIZE, 0)
  {
  }

  /** A push succeeds exactly when the pool has the blocks it needs, and then the chain has exactly those. */
  lemma {:induction false} PushNeeds(s: RxState, data: seq<byte>, pool: Pool, junk: Block)
    requires Pushable(s, |data|)
    ensures var r := PushBytes(s, data, pool, junk);
      && (r.ok <==>
            BlocksAfter(s, |data|) == |s.blocks| || BlocksAfter(s, |data|) - |s.blocks| <= pool.capacity - pool.usage)
      && (r.ok ==> |r.state.blocks| == BlocksAfter(s, |data|))
  {
    if !FitsHead(s, |data|) {
      WriteStartsAtEnd(s, |data|);
      if !Grows(s, |data|) {
        WriteBlocksCounts(s.blocks, StartIndex(s), BeyondHead(s, data), pool, junk);
      } else if !pool.Full() {
        WriteBlocksCounts(s.blocks + [junk], StartIndex(s), BeyondHead(s, data), pool.Take(), junk);
      }
    }
  }

  lemma {:induction false} ContentsInHead(s: RxState)
    requires Layout(s) && s.core.payloadLen <= HEAD_SIZE
    ensures Contents(s) == s.core.head[..s.core.payloadLen]
  {
  }

  lemma {:induction false} ContentsBeyondHead(s: RxState)
    requires Layout(s) && s.core.payloadLen >= HEAD_SIZE
    ensures Contents(s) == s.core.head + Flat(s.blocks)[..s.core.payloadLen - HEAD_SIZE]
  {
  }

  /** The bytes a push puts into the blocks land right behind those already there. */
  lemma {:induction false} BeyondAppends(s: RxState, data: seq<byte>, pool: Pool, junk: Block)
    requires Pushable(s, |data|) && !FitsHead(s, |data|) && PushBeyond(s, data, pool, junk).ok
    ensures var old', rest := Max(s.core.payloadLen - HEAD_SIZE, 0), BeyondHead(s, data);
      var flat := Flat(PushBeyond(s, data, pool, junk).blocks);
      old' + |rest| <= |flat| && flat[..old' + |rest|] == Flat(s.blocks)[..old'] + rest
  {
    WriteStartsAtEnd(s, |data|);
    if Grows(s, |data|) {
      WriteBlocksAppends(s.blocks + [junk], StartIndex(s), BeyondHead(s, data), pool.Take(), junk);
      FlatConcat(s.blocks, [junk]);
      var old' := Max(s.core.payloadLen - HEAD_SIZE, 0);
      assert (Flat(s.blocks) + Flat([junk]))[..old'] == Flat(s.blocks)[..old'];
    } else {
      WriteBlocksAppends(s.blocks, StartIndex(s), BeyondHead(s, data), pool, junk);
    }
  }

  lemma {:induction false} PushStaysInHead(s: RxState, data: seq<byte>, pool: Pool, junk: Block)
    requires Pushable(s, |data|) && FitsHead(s, |data|)
    ensures var r := PushBytes(s, data, pool, junk).state;
      r.core.payloadLen == s.core.payloadLen + |data| && Layout(r) && Contents(r) == Contents(s) + data
  {
  }

  /** A push that succeeds appends exactly its data to the payload. */
  lemma {:induction false} PushAppends(s: RxState, data: seq<byte>, pool: Pool, junk: Block)
    requires Pushable(s, |data|) && PushBytes(s, data, pool, junk).ok
    ensures var r := PushBytes(s, data, pool, junk).state;
      r.core.payloadLen == s.core.payloadLen + |data| && Layout(r) && Contents(r) == Contents(s) + data
  {
    hide WriteBlocks;
    hide Flat;
    hide Overlay;
    var r := PushBytes(s, data, pool, junk).state;
    if FitsHead(s, |data|) {
      PushStaysInHead(s, data, pool, junk);
    } else {
      PushNeeds(s, data, pool, junk);
      BeyondAppends(s, data, pool, junk);
      ContentsBeyondHead(r);
      if s.core.payloadLen < HEAD_SIZE {
        ContentsInHead(s);
        var taken := HEAD_SIZE - s.core.payloadLen;
        assert r.core.head == s.core.head[..s.core.payloadLen] + data[..taken];
        assert data == data[..taken] + BeyondHead(s, data);
      } else {
        ContentsBeyondHead(s);
        assert r.core.head == s.core.head;
        assert data == BeyondHead(s, data);
      }
    }
  }
}
