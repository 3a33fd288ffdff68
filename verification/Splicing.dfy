/** Chunks into scattered storage, and the transfer that the final frame completes. */
module Splicing {
  import opened Types
  import opened Crc
  import opened RxBuffer
  import opened Receiver

  lemma {:induction false} SpliceInBounds(s: RxState)
    requires Layout(s) && s.blocks != []
    ensures SpliceIndex(s) == s.core.payloadLen - HEAD_SIZE - BLOCK_SIZE * (|s.blocks| - 1)
    ensures 0 <= SpliceIndex(s) <= BLOCK_SIZE
    ensures SpliceIndex(s) < BLOCK_SIZE <==> s.core.payloadLen != HEAD_SIZE + BLOCK_SIZE * |s.blocks|
  {
  }

  /** The part of a chunk that found room, then the rest. */
  lemma {:induction false} JoinTail(cells: seq<byte>, old': seq<byte>, chunk: seq<byte>, taken: nat)
    requires taken <= |chunk| && |old'| + taken <= |cells|
    requires cells[..|old'| + taken] == old' + chunk[..taken]
    requires taken < |chunk| ==> |old'| + taken == |cells|
    ensures (cells + chunk[taken..])[..|old'| + |chunk|] == old' + chunk
  {
  }

  lemma {:induction false} OverlayWhole(cells: seq<byte>, at: nat, data: seq<byte>)
    requires at >= |cells|
    ensures Overlay(cells, at, data) == cells
  {
  }

  lemma {:induction false} SpliceIntoBlock(s: RxState, chunk: seq<byte>)
    requires Layout(s) && s.blocks != []
    ensures var sp := Splice(s, chunk); var n := s.core.payloadLen - HEAD_SIZE;
      && |sp.blocks| == |s.blocks| && sp.head == s.core.head
      && (sp.tail == [] ==> n + |chunk| <= BLOCK_SIZE * |s.blocks|)
      && (sp.tail != [] ==> n + |chunk| == BLOCK_SIZE * |s.blocks| + |sp.tail|)
      && (Flat(sp.blocks) + sp.tail)[..n + |chunk|] == Flat(s.blocks)[..n] + chunk
  {
    SpliceInBounds(s);
    var sp, at, n := Splice(s, chunk), SpliceIndex(s), s.core.payloadLen - HEAD_SIZE;
    var taken := Room(BLOCK_SIZE, at, |chunk|);
    SplicedIs(s, chunk);
    hide Splice;
    hide SpliceIndex;
    hide Flat;
    SplicedFlat(s.blocks, at, chunk, n);
    JoinTail(Flat(sp.blocks), Flat(s.blocks)[..n], chunk, taken);
  }

  lemma {:induction false} SplicedIs(s: RxState, chunk: seq<byte>)
    requires s.blocks != [] && s.core.payloadLen >= HEAD_SIZE
    ensures var at, last := SpliceIndex(s), |s.blocks| - 1;
      Splice(s, chunk) == Spliced(s.core.head, s.blocks[last := Overlay(s.blocks[last], at, chunk)],
                                  chunk[Room(BLOCK_SIZE, at, |chunk|)..])
  {
    hide SpliceIndex;
    hide Overlay;
  }

  /** The blocks after the splice: what they held, and as much of the chunk as found room. */
  lemma {:induction false} SplicedFlat(blocks: seq<Block>, at: nat, chunk: seq<byte>, n: nat)
    requires blocks != [] && at <= BLOCK_SIZE && n == BLOCK_SIZE * (|blocks| - 1) + at
    ensures var last, taken := |blocks| - 1, Room(BLOCK_SIZE, at, |chunk|);
      Flat(blocks[last := Overlay(blocks[last], at, chunk)])[..n + taken] == Flat(blocks)[..n] + chunk[..taken]
  {
    hide Flat;
    if at < BLOCK_SIZE {
      OverlayLast(blocks, at, chunk);
    } else {
      OverlayWhole(blocks[|blocks| - 1], at, chunk);
      assert blocks[|blocks| - 1 := blocks[|blocks| - 1]] == blocks;
    }
    hide Overlay;
  }

  /** The transfer a final frame completes. */
  function Finished(s: RxState, f: Frame, now: Timestamp): Transfer
    requires f.data != []
  {
    var chunk := f.data[..|f.data| - 1];
    var sp := Splice(s, chunk);
    MakeTransfer(f, now, sp.head, sp.blocks, sp.tail, s.core.payloadLen + |chunk|)
  }

  lemma {:induction false} Behind(head: seq<byte>, rest: seq<byte>, n: nat)
    requires n <= |rest|
    ensures (head + rest)[..|head| + n] == head + rest[..n]
  {
  }

  predicate Holds(t: Transfer, payload: seq<byte>) {
    WellStored(t) && Payload(t) == payload
  }

  lemma {:induction false} FinishedInHead(s: RxState, f: Frame, now: Timestamp)
    requires Layout(s) && f.data != [] && s.core.payloadLen < HEAD_SIZE
    ensures Holds(Finished(s, f, now), Contents(s) + f.data[..|f.data| - 1])
  {
  }

  lemma {:induction false} FinishedBehindHead(s: RxState, f: Frame, now: Timestamp)
    requires Layout(s) && f.data != [] && s.core.payloadLen == HEAD_SIZE && s.blocks == []
    ensures Holds(Finished(s, f, now), Contents(s) + f.data[..|f.data| - 1])
  {
  }

  /** A full head, and behind it what was kept and the chunk, in blocks and tail. */
  lemma {:induction false} HeldBehind(t: Transfer, kept: seq<byte>, chunk: seq<byte>)
    requires |t.head| == HEAD_SIZE && t.middle != [] && t.payloadLen == HEAD_SIZE + |kept| + |chunk|
    requires |kept| + |chunk| <= |Flat(t.middle) + t.tail|
    requires (Flat(t.middle) + t.tail)[..|kept| + |chunk|] == kept + chunk
    requires t.tail == [] ==> BLOCK_SIZE * (|t.middle| - 1) <= |kept| + |chunk| <= BLOCK_SIZE * |t.middle|
    requires t.tail != [] ==> |kept| + |chunk| == BLOCK_SIZE * |t.middle| + |t.tail|
    ensures Holds(t, t.head + kept + chunk)
  {
    hide Flat;
    assert Stored(t) == t.head + (Flat(t.middle) + t.tail);
    Behind(t.head, Flat(t.middle) + t.tail, |kept| + |chunk|);
    assert t.head + (kept + chunk) == t.head + kept + chunk;
  }

  lemma {:induction false} FinishedInBlocks(s: RxState, f: Frame, now: Timestamp)
    requires Layout(s) && f.data != [] && s.blocks != []
    ensures Holds(Finished(s, f, now), Contents(s) + f.data[..|f.data| - 1])
  {
    hide Splice;
    hide Flat;
    hide Contents;
    hide SpliceIndex;
    hide Holds;
    var chunk := f.data[..|f.data| - 1];
    SpliceIntoBlock(s, chunk);
    ContentsBeyondHead(s);
    HeldBehind(Finished(s, f, now), Flat(s.blocks)[..s.core.payloadLen - HEAD_SIZE], chunk);
  }

  /** However a laid-out state and the final frame share the bytes, the transfer holds all of them and nothing else. */
  lemma {:induction false} FinishedTransfer(s: RxState, f: Frame, now: Timestamp)
    requires Layout(s) && f.data != []
    ensures Holds(Finished(s, f, now), Contents(s) + f.data[..|f.data| - 1])
  {
    if s.core.payloadLen < HEAD_SIZE {
      FinishedInHead(s, f, now);
    } else if s.blocks == [] {
      FinishedBehindHead(s, f, now);
    } else {
      FinishedInBlocks(s, f, now);
    }
  }

  /** Storing a chunk, when the pool has the blocks for it. */
  lemma {:induction false} StoreAppends(s: RxState, pool: Pool, chunk: seq<byte>, crc: bv16, junk: Junk)
    requires Pushable(s, |chunk|)
    requires BlocksAfter(s, |chunk|) - |s.blocks| <= pool.capacity - pool.usage || BlocksAfter(s, |chunk|) == |s.blocks|
    ensures var o := Store(s, pool, chunk, crc, junk);
      && o.code == OK && o.delivered == None
      && Layout(o.state) && Contents(o.state) == Contents(s) + chunk
      && |o.state.blocks| == BlocksAfter(s, |chunk|)
      && o.pool.capacity == pool.capacity && o.pool.usage == pool.usage + |o.state.blocks| - |s.blocks|
      && o.state.core == s.core.(payloadLen := s.core.payloadLen + |chunk|, head := o.state.core.head,
                                 payloadCrc := crc, calculatedCrc := CrcAdd(s.core.calculatedCrc, chunk),
                                 nextToggle := !s.core.nextToggle)
  {
    PushNeeds(s, chunk, pool, junk.block);
    PushAccounts(s, chunk, pool, junk.block);
    PushAppends(s, chunk, pool, junk.block);
    var p := PushBytes(s, chunk, pool, junk.block).state;
    assert Contents(Store(s, pool, chunk, crc, junk).state) == Contents(p);
  }
}
