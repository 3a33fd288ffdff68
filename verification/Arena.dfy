/** The memory arena: blocks linked by index, and who owns each of them. */
module Arena {
  import opened Types
  import opened RxBuffer
  import opened Receiver

  const NULL := -1

  /** What a block holds besides its link word, by its current use. */
  datatype Body =
    | Raw
    | TxBody(frame: Frame)
    | RxBody(chain: int, core: RxCore)
    | DataBody(data: Block)

  /** The structure a block belongs to; `Held` blocks are between two structures, `Middle` blocks belong to a delivered
      transfer. */
  datatype Owner = Free | Tx | Rx | Chain(state: int) | Held | Middle

  /** The lists of blocks, in order; `chains` gives the buffer blocks of each receive state. */
  datatype Lay = Lay(owner: seq<Owner>, free: seq<int>, tx: seq<int>, rx: seq<int>, chains: map<int, seq<int>>)

  /** The list heads kept in the instance. */
  datatype Heads = Heads(free: int, tx: int, rx: int)

  function At(ids: seq<int>, k: nat): int {
    if k < |ids| then ids[k] else NULL
  }

  /** `ids` is the list linked from `head`: in the arena, owned by `tag`, ending in NULL, without repetition. */
  ghost predicate Listed(next: seq<int>, owner: seq<Owner>, head: int, ids: seq<int>, tag: Owner) {
    && head == At(ids, 0)
    && (forall k {:trigger ids[k]} | 0 <= k < |ids| ::
          0 <= ids[k] < |next| && ids[k] < |owner| && owner[ids[k]] == tag && next[ids[k]] == At(ids, k + 1))
    && (forall i, j | 0 <= i < j < |ids| :: ids[i] != ids[j])
  }

  /** Block `r` holds a receive state. */
  predicate StateBlock(body: seq<Body>, lay: Lay, r: int) {
    0 <= r < |body| && 0 <= r < |lay.owner| && lay.owner[r] == Rx && body[r].RxBody? && r in lay.chains
  }

  ghost predicate Chained(next: seq<int>, body: seq<Body>, lay: Lay, r: int) {
    StateBlock(body, lay, r) && Listed(next, lay.owner, body[r].chain, lay.chains[r], Chain(r))
  }

  /** Every list is in order, except perhaps the one owned by `skip`. */
  ghost predicate ListsBut(next: seq<int>, body: seq<Body>, h: Heads, lay: Lay, skip: Owner) {
    && |next| == |body| == |lay.owner|
    && (skip != Free ==> Listed(next, lay.owner, h.free, lay.free, Free))
    && (skip != Tx ==> Listed(next, lay.owner, h.tx, lay.tx, Tx))
    && (skip != Rx ==> Listed(next, lay.owner, h.rx, lay.rx, Rx))
    && (forall r | r in lay.rx :: StateBlock(body, lay, r))
    && (forall r | r in lay.rx && skip != Chain(r) :: Chained(next, body, lay, r))
  }

  ghost predicate Linked(next: seq<int>, body: seq<Body>, h: Heads, lay: Lay) {
    ListsBut(next, body, h, lay, Held)
  }

  /** Block `r` and its chain hold the receive state `s`. */
  ghost predicate StateAt(body: seq<Body>, lay: Lay, r: int, s: RxState) {
    && 0 <= r < |body| && body[r].RxBody? && body[r].core == s.core && r in lay.chains && |lay.chains[r]| == |s.blocks|
    && forall j {:trigger lay.chains[r][j]} | 0 <= j < |s.blocks| ::
      0 <= lay.chains[r][j] < |body| && body[lay.chains[r][j]] == DataBody(s.blocks[j])
  }

  /** The arena holds the queue and the receive states of `m`. */
  ghost predicate Represents(body: seq<Body>, lay: Lay, m: Node) {
    && |m.tx| == |lay.tx| && |m.rx| == |lay.rx|
    && (forall k {:trigger lay.tx[k]} | 0 <= k < |lay.tx| ::
          0 <= lay.tx[k] < |body| && body[lay.tx[k]] == TxBody(m.tx[k]))
    && (forall k {:trigger lay.rx[k]} | 0 <= k < |lay.rx| :: StateAt(body, lay, lay.rx[k], m.rx[k]))
  }

  ghost predicate Good(next: seq<int>, body: seq<Body>, h: Heads, lay: Lay, m: Node) {
    && Linked(next, body, h, lay) && Represents(body, lay, m)
    && m.pool.capacity == |next| && m.pool.usage == |next| - |lay.free|
  }

  // ---------------------------------------------------------------- frames

  /** Blocks that `tag` does not own can be relinked and change hands without disturbing its list. */
  lemma {:induction false} ListFrame(next: seq<int>, owner: seq<Owner>, p: int, v: int, t: Owner, head: int,
                                     ids: seq<int>, tag: Owner)
    requires Listed(next, owner, head, ids, tag) && |owner| == |next| && 0 <= p < |owner| && owner[p] != tag
    ensures Listed(next[p := v], owner[p := t], head, ids, tag)
  {
  }

  /** A block outside every list but `skip`'s. */
  predicate Loose(lay: Lay, p: int, skip: Owner) {
    0 <= p < |lay.owner| && (lay.owner[p] == skip || lay.owner[p] == Held || lay.owner[p] == Middle)
  }

  function Retagged(lay: Lay, p: int, t: Owner): Lay
    requires 0 <= p < |lay.owner|
  {
    lay.(owner := lay.owner[p := t])
  }

  /** Relinking such a block and handing it over leaves the other lists in order. */
  lemma {:induction false} ListsFrame(next: seq<int>, body: seq<Body>, h: Heads, lay: Lay, p: int, v: int, t: Owner,
                                      skip: Owner)
    requires ListsBut(next, body, h, lay, skip) && Loose(lay, p, skip) && p !in lay.rx
    ensures ListsBut(next[p := v], body, h, Retagged(lay, p, t), skip)
  {
    var lay' := Retagged(lay, p, t);
    if skip != Free { ListFrame(next, lay.owner, p, v, t, h.free, lay.free, Free); }
    if skip != Tx { ListFrame(next, lay.owner, p, v, t, h.tx, lay.tx, Tx); }
    if skip != Rx { ListFrame(next, lay.owner, p, v, t, h.rx, lay.rx, Rx); }
    forall r | r in lay.rx && skip != Chain(r) ensures Chained(next[p := v], body, lay', r) {
      assert Chained(next, body, lay, r);
      ListFrame(next, lay.owner, p, v, t, body[r].chain, lay.chains[r], Chain(r));
    }
  }

  /** Relinking a receive state block leaves the chains and the other lists in order. */
  lemma {:induction false} ListsFrameRx(next: seq<int>, body: seq<Body>, h: Heads, lay: Lay, p: int, v: int)
    requires ListsBut(next, body, h, lay, Rx) && 0 <= p < |lay.owner| && lay.owner[p] == Rx
    ensures ListsBut(next[p := v], body, h, lay, Rx)
  {
  }

  lemma {:induction false} HeldIsNoState(next: seq<int>, body: seq<Body>, h: Heads, lay: Lay, p: int, skip: Owner)
    requires ListsBut(next, body, h, lay, skip) && 0 <= p < |lay.owner| && lay.owner[p] != Rx
    ensures p !in lay.rx
  {
  }

  /** Only receive state blocks matter to the lists. */
  lemma {:induction false} BodyLists(next: seq<int>, body: seq<Body>, h: Heads, lay: Lay, p: int, b: Body, skip: Owner)
    requires ListsBut(next, body, h, lay, skip) && 0 <= p < |body| && lay.owner[p] != Rx
    ensures ListsBut(next, body[p := b], h, lay, skip)
  {
  }

  /** A held block can be filled. */
  lemma {:induction false} BodyGood(next: seq<int>, body: seq<Body>, h: Heads, lay: Lay, m: Node, p: int, b: Body)
    requires Good(next, body, h, lay, m) && 0 <= p < |body| && lay.owner[p] == Held
    ensures Good(next, body[p := b], h, lay, m)
  {
    BodyLists(next, body, h, lay, p, b, Held);
    forall k | 0 <= k < |lay.rx| ensures StateAt(body[p := b], lay, lay.rx[k], m.rx[k]) {
      assert StateAt(body, lay, lay.rx[k], m.rx[k]) && lay.rx[k] in lay.rx;
      assert Chained(next, body, lay, lay.rx[k]);
    }
  }

  /** A held or middle block can be linked anywhere and handed over within these two. */
  lemma {:induction false} LooseGood(next: seq<int>, body: seq<Body>, h: Heads, lay: Lay, m: Node, p: int, v: int,
                                     t: Owner)
    requires Good(next, body, h, lay, m) && Loose(lay, p, Held) && (t == Held || t == Middle)
    ensures Good(next[p := v], body, h, Retagged(lay, p, t), m)
  {
    HeldIsNoState(next, body, h, lay, p, Held);
    ListsFrame(next, body, h, lay, p, v, t, Held);
    RetaggedRepresents(body, lay, m, p, t);
  }

  lemma {:induction false} RetaggedRepresents(body: seq<Body>, lay: Lay, m: Node, p: int, t: Owner)
    requires Represents(body, lay, m) && 0 <= p < |lay.owner|
    ensures Represents(body, Retagged(lay, p, t), m)
  {
  }

  // ---------------------------------------------------------------- the free list

  lemma {:induction false} TailListed(next: seq<int>, owner: seq<Owner>, head: int, ids: seq<int>, tag: Owner, t: Owner)
    requires Listed(next, owner, head, ids, tag) && |owner| == |next| && ids != []
    ensures 0 <= head < |next|
    ensures Listed(next, owner[head := t], next[head], ids[1..], tag)
  {
  }

  lemma {:induction false} ConsListed(next: seq<int>, owner: seq<Owner>, head: int, ids: seq<int>, tag: Owner, p: int)
    requires Listed(next, owner, head, ids, tag) && |owner| == |next| && 0 <= p < |next| && owner[p] != tag
    ensures Listed(next[p := head], owner[p := tag], p, [p] + ids, tag)
  {
  }

  function Allocated(lay: Lay): Lay
    requires lay.free != [] && 0 <= lay.free[0] < |lay.owner|
  {
    Retagged(lay, lay.free[0], Held).(free := lay.free[1..])
  }

  lemma {:induction false} AllocateGood(next: seq<int>, body: seq<Body>, h: Heads, lay: Lay, m: Node)
    requires Good(next, body, h, lay, m) && h.free != NULL
    ensures lay.free != [] && 0 <= h.free < |next| && lay.free[0] == h.free && lay.owner[h.free] == Free
    ensures !m.pool.Full()
    ensures Good(next, body, h.(free := next[h.free]), Allocated(lay), m.(pool := m.pool.Take()))
  {
    assert lay.free != [];
    TailListed(next, lay.owner, h.free, lay.free, Free, Held);
    HeldIsNoState(next, body, h, lay, h.free, Held);
    assert ListsBut(next, body, h, lay, Free);
    ListsFrame(next, body, h, lay, h.free, next[h.free], Held, Free);
    assert next[h.free := next[h.free]] == next;
    ListsPatch(next, body, h, Retagged(lay, h.free, Held), h.(free := next[h.free]), Allocated(lay));
    RetaggedRepresents(body, lay, m, h.free, Held);
    FreeListOnly(body, Retagged(lay, h.free, Held), m, Allocated(lay));
  }

  /** Putting the free list back among the others. */
  lemma {:induction false} ListsPatch(next: seq<int>, body: seq<Body>, h: Heads, lay: Lay, h': Heads, lay': Lay)
    requires ListsBut(next, body, h, lay, Free) && h' == h.(free := h'.free) && lay' == lay.(free := lay'.free)
    requires Listed(next, lay.owner, h'.free, lay'.free, Free)
    ensures Linked(next, body, h', lay')
  {
  }

  lemma {:induction false} FreeListOnly(body: seq<Body>, lay: Lay, m: Node, lay': Lay)
    requires Represents(body, lay, m) && lay' == lay.(free := lay'.free)
    ensures Represents(body, lay', m)
  {
  }

  function Freed(lay: Lay, p: int): Lay
    requires 0 <= p < |lay.owner|
  {
    Retagged(lay, p, Free).(free := [p] + lay.free)
  }

  lemma {:induction false} FreeGood(next: seq<int>, body: seq<Body>, h: Heads, lay: Lay, m: Node, p: int)
    requires Good(next, body, h, lay, m) && 0 <= p < |next| && lay.owner[p] == Held
    ensures Good(next[p := h.free], body, h.(free := p), Freed(lay, p), m.(pool := m.pool.Return(1)))
  {
    ConsListed(next, lay.owner, h.free, lay.free, Free, p);
    HeldIsNoState(next, body, h, lay, p, Held);
    assert ListsBut(next, body, h, lay, Free);
    ListsFrame(next, body, h, lay, p, h.free, Free, Free);
    ListsPatch(next[p := h.free], body, h, Retagged(lay, p, Free), h.(free := p), Freed(lay, p));
    RetaggedRepresents(body, lay, m, p, Free);
    FreeListOnly(body, Retagged(lay, p, Free), m, Freed(lay, p));
  }

  ghost predicate NoRepeat(ids: seq<int>) {
    forall i, j | 0 <= i < j < |ids| :: ids[i] != ids[j]
  }

  /** Distinct blocks below `n` are at most `n`. */
  lemma {:induction false} Pigeonhole(ids: seq<int>, n: nat)
    requires NoRepeat(ids) && forall k | 0 <= k < |ids| :: 0 <= ids[k] < n
    ensures |ids| <= n
    decreases n
  {
    if ids != [] {
      assert 0 <= ids[0] < n;
      if n - 1 in ids {
        var i :| 0 <= i < |ids| && ids[i] == n - 1;
        var rest := ids[..i] + ids[i + 1..];
        assert forall k | 0 <= k < |rest| :: rest[k] == (if k < i then ids[k] else ids[k + 1]);
        Pigeonhole(rest, n - 1);
      } else {
        Pigeonhole(ids, n - 1);
      }
    }
  }

  /** A block in use keeps the usage positive. */
  lemma {:induction false} InUse(next: seq<int>, body: seq<Body>, h: Heads, lay: Lay, m: Node, p: int)
    requires Good(next, body, h, lay, m) && 0 <= p < |next| && lay.owner[p] != Free
    ensures |lay.free| < |next|
  {
    Pigeonhole(lay.free + [p], |next|);
  }

  // ---------------------------------------------------------------- the transmission queue

  function InsertedIds(ids: seq<int>, i: nat, p: int): seq<int>
    requires i <= |ids|
  {
    ids[..i] + [p] + ids[i..]
  }

  /** The link words after block `p` has been put at position `i`. */
  function LinkedIn(next: seq<int>, ids: seq<int>, i: nat, p: int): seq<int>
    requires i <= |ids| && 0 <= p < |next| && forall k | 0 <= k < |ids| :: 0 <= ids[k] < |next|
  {
    (if i == 0 then next else next[ids[i - 1] := p])[p := At(ids, i)]
  }

  lemma {:induction false} InsertedAt(ids: seq<int>, i: nat, p: int, k: nat)
    requires i <= |ids| && k <= |ids| + 1
    ensures At(InsertedIds(ids, i, p), k) == if k < i then At(ids, k) else if k == i then p else At(ids, k - 1)
  {
  }

  lemma {:induction false} InsertedNoRepeat(ids: seq<int>, i: nat, p: int)
    requires i <= |ids| && NoRepeat(ids) && p !in ids
    ensures NoRepeat(InsertedIds(ids, i, p))
  {
  }

  lemma {:induction false} InsertedLink(next: seq<int>, owner: seq<Owner>, head: int, ids: seq<int>, tag: Owner, i: nat,
                                        p: int, k: nat)
    requires Listed(next, owner, head, ids, tag) && |owner| == |next| && 0 <= p < |next| && owner[p] != tag
    requires i <= |ids| && k <= |ids|
    ensures var b := At(InsertedIds(ids, i, p), k);
      && 0 <= b < |next| && owner[p := tag][b] == tag
         && LinkedIn(next, ids, i, p)[b] == At(InsertedIds(ids, i, p), k + 1)
  {
  }

  lemma {:induction false} InsertListed(next: seq<int>, owner: seq<Owner>, head: int, ids: seq<int>, tag: Owner, i: nat,
                                        p: int)
    requires Listed(next, owner, head, ids, tag) && |owner| == |next| && 0 <= p < |next| && owner[p] != tag
    requires i <= |ids|
    ensures Listed(LinkedIn(next, ids, i, p), owner[p := tag], if i == 0 then p else head, InsertedIds(ids, i, p), tag)
  {
    var ids' := InsertedIds(ids, i, p);
    forall k {:trigger ids'[k]} | 0 <= k < |ids'|
      ensures 0 <= ids'[k] < |next| && owner[p := tag][ids'[k]] == tag
      ensures LinkedIn(next, ids, i, p)[ids'[k]] == At(ids', k + 1)
    {
      InsertedLink(next, owner, head, ids, tag, i, p, k);
    }
    InsertedNoRepeat(ids, i, p);
    InsertedAt(ids, i, p, 0);
  }

  function TxInserted(lay: Lay, i: nat, p: int): Lay
    requires i <= |lay.tx| && 0 <= p < |lay.owner|
  {
    Retagged(lay, p, Tx).(tx := InsertedIds(lay.tx, i, p))
  }

  /** Putting the queue back among the other lists. */
  lemma {:induction false} TxPatch(next: seq<int>, body: seq<Body>, h: Heads, lay: Lay, h': Heads, lay': Lay)
    requires ListsBut(next, body, h, lay, Tx) && h' == h.(tx := h'.tx) && lay' == lay.(tx := lay'.tx)
    requires Listed(next, lay.owner, h'.tx, lay'.tx, Tx)
    ensures Linked(next, body, h', lay')
  {
  }

  lemma {:induction false} TxRepresents(body: seq<Body>, lay: Lay, m: Node, lay': Lay, tx: seq<Frame>)
    requires Represents(body, lay, m) && lay' == lay.(owner := lay'.owner, tx := lay'.tx) && |tx| == |lay'.tx|
    requires forall k {:trigger lay'.tx[k]} | 0 <= k < |tx| ::
      0 <= lay'.tx[k] < |body| && body[lay'.tx[k]] == TxBody(tx[k])
    ensures Represents(body, lay', m.(tx := tx))
  {
  }

  lemma {:induction false} TxInsertLinked(next: seq<int>, body: seq<Body>, h: Heads, lay: Lay, i: nat, p: int)
    requires Linked(next, body, h, lay) && 0 <= p < |next| && lay.owner[p] == Held && i <= |lay.tx|
    ensures Linked(LinkedIn(next, lay.tx, i, p), body, h.(tx := if i == 0 then p else h.tx), TxInserted(lay, i, p))
  {
    InsertListed(next, lay.owner, h.tx, lay.tx, Tx, i, p);
    HeldIsNoState(next, body, h, lay, p, Held);
    assert ListsBut(next, body, h, lay, Tx);
    var n1 := if i == 0 then next else next[lay.tx[i - 1] := p];
    if i > 0 {
      HeldIsNoState(next, body, h, lay, lay.tx[i - 1], Held);
      ListsFrame(next, body, h, lay, lay.tx[i - 1], p, Tx, Tx);
      assert Retagged(lay, lay.tx[i - 1], Tx) == lay;
    }
    ListsFrame(n1, body, h, lay, p, At(lay.tx, i), Tx, Tx);
    TxPatch(n1[p := At(lay.tx, i)], body, h, Retagged(lay, p, Tx), h.(tx := if i == 0 then p else h.tx),
            TxInserted(lay, i, p));
  }

  lemma {:induction false} TxInsertRepresents(body: seq<Body>, lay: Lay, m: Node, i: nat, p: int, f: Frame)
    requires Represents(body, lay, m) && 0 <= p < |body| == |lay.owner| && body[p] == TxBody(f) && i <= |lay.tx|
    ensures Represents(body, TxInserted(lay, i, p), m.(tx := m.tx[..i] + [f] + m.tx[i..]))
  {
  }

  lemma {:induction false} TxInsertGood(next: seq<int>, body: seq<Body>, h: Heads, lay: Lay, m: Node, i: nat, p: int,
                                        f: Frame)
    requires Good(next, body, h, lay, m) && 0 <= p < |next| && lay.owner[p] == Held && body[p] == TxBody(f)
    requires i <= |lay.tx|
    ensures Good(LinkedIn(next, lay.tx, i, p), body, h.(tx := if i == 0 then p else h.tx), TxInserted(lay, i, p),
                 m.(tx := m.tx[..i] + [f] + m.tx[i..]))
  {
    TxInsertLinked(next, body, h, lay, i, p);
    TxInsertRepresents(body, lay, m, i, p, f);
  }

  function TxPopped(lay: Lay): Lay
    requires lay.tx != [] && 0 <= lay.tx[0] < |lay.owner|
  {
    Retagged(lay, lay.tx[0], Held).(tx := lay.tx[1..])
  }

  lemma {:induction false} TxPopGood(next: seq<int>, body: seq<Body>, h: Heads, lay: Lay, m: Node)
    requires Good(next, body, h, lay, m) && h.tx != NULL
    ensures lay.tx != [] && m.tx != [] && 0 <= h.tx < |next| && lay.tx[0] == h.tx && lay.owner[h.tx] == Tx
    ensures Good(next, body, h.(tx := next[h.tx]), TxPopped(lay), m.(tx := m.tx[1..]))
  {
    assert lay.tx != [];
    TailListed(next, lay.owner, h.tx, lay.tx, Tx, Held);
    HeldIsNoState(next, body, h, lay, h.tx, Held);
    assert ListsBut(next, body, h, lay, Tx);
    ListsFrame(next, body, h, lay, h.tx, next[h.tx], Held, Tx);
    assert next[h.tx := next[h.tx]] == next;
    TxPatch(next, body, h, Retagged(lay, h.tx, Held), h.(tx := next[h.tx]), TxPopped(lay));
    var ids', tx' := lay.tx[1..], m.tx[1..];
    forall k {:trigger ids'[k]} | 0 <= k < |tx'| ensures 0 <= ids'[k] < |body| && body[ids'[k]] == TxBody(tx'[k]) {
      assert ids'[k] == lay.tx[k + 1];
    }
    TxRepresents(body, lay, m, TxPopped(lay), tx');
  }
}
