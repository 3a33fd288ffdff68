/** The receive states in the arena and the chains of buffer blocks behind them. */
module ArenaRx {
  import opened Types
  import opened RxBuffer
  import opened Receiver
  import opened Arena

  // ---------------------------------------------------------------- the list of states

  lemma {:induction false} StatesDistinct(next: seq<int>, body: seq<Body>, h: Heads, lay: Lay, k: nat)
    requires Linked(next, body, h, lay) && k < |lay.rx|
    ensures lay.rx[k] in lay.rx && Chained(next, body, lay, lay.rx[k])
    ensures forall j | 0 <= j < |lay.rx| && j != k :: lay.rx[j] != lay.rx[k]
  {
  }

  /** A new state with an empty chain at the front. */
  function RxPrepended(lay: Lay, p: int): Lay
    requires 0 <= p < |lay.owner|
  {
    Retagged(lay, p, Rx).(rx := [p] + lay.rx, chains := lay.chains[p := []])
  }

  lemma {:induction false} RxPrependLinked(next: seq<int>, body: seq<Body>, h: Heads, lay: Lay, p: int, core: RxCore)
    requires Linked(next, body, h, lay) && 0 <= p < |next| && lay.owner[p] == Held && body[p] == RxBody(NULL, core)
    ensures Linked(next[p := h.rx], body, h.(rx := p), RxPrepended(lay, p))
  {
    var lay', next' := RxPrepended(lay, p), next[p := h.rx];
    HeldIsNoState(next, body, h, lay, p, Held);
    ConsListed(next, lay.owner, h.rx, lay.rx, Rx, p);
    ListFrame(next, lay.owner, p, h.rx, Rx, h.free, lay.free, Free);
    ListFrame(next, lay.owner, p, h.rx, Rx, h.tx, lay.tx, Tx);
    forall r | r in lay'.rx ensures Chained(next', body, lay', r) {
      if r != p {
        assert r in lay.rx && Chained(next, body, lay, r);
        ListFrame(next, lay.owner, p, h.rx, Rx, body[r].chain, lay.chains[r], Chain(r));
      }
    }
  }

  lemma {:induction false} RxPrependRepresents(body: seq<Body>, lay: Lay, m: Node, p: int, core: RxCore)
    requires Represents(body, lay, m) && 0 <= p < |body| == |lay.owner| && body[p] == RxBody(NULL, core) && p !in lay.rx
    ensures Represents(body, RxPrepended(lay, p), m.(rx := [RxState(core, [])] + m.rx))
  {
  }

  lemma {:induction false} RxPrependGood(next: seq<int>, body: seq<Body>, h: Heads, lay: Lay, m: Node, p: int,
                                         core: RxCore)
    requires Good(next, body, h, lay, m) && 0 <= p < |next| && lay.owner[p] == Held && body[p] == RxBody(NULL, core)
    ensures Good(next[p := h.rx], body, h.(rx := p), RxPrepended(lay, p), m.(rx := [RxState(core, [])] + m.rx))
  {
    HeldIsNoState(next, body, h, lay, p, Held);
    RxPrependLinked(next, body, h, lay, p, core);
    RxPrependRepresents(body, lay, m, p, core);
  }

  /** Changing the fixed fields of a state. */
  lemma {:induction false} RxCoreGood(next: seq<int>, body: seq<Body>, h: Heads, lay: Lay, m: Node, k: nat,
                                      core: RxCore)
    requires Good(next, body, h, lay, m) && k < |lay.rx|
    ensures 0 <= lay.rx[k] < |body| && body[lay.rx[k]].RxBody? && body[lay.rx[k]].core == m.rx[k].core
    ensures Good(next, body[lay.rx[k] := body[lay.rx[k]].(core := core)], h, lay,
                 m.(rx := m.rx[k := m.rx[k].(core := core)]))
  {
    StatesDistinct(next, body, h, lay, k);
    assert StateAt(body, lay, lay.rx[k], m.rx[k]);
    var p := lay.rx[k];
    var body' := body[p := body[p].(core := core)];
    forall r | r in lay.rx ensures Chained(next, body', lay, r) {
      assert Chained(next, body, lay, r);
    }
    var rx' := m.rx[k := m.rx[k].(core := core)];
    forall j | 0 <= j < |lay.rx| ensures StateAt(body', lay, lay.rx[j], rx'[j]) {
      assert StateAt(body, lay, lay.rx[j], m.rx[j]) && lay.rx[j] in lay.rx && Chained(next, body, lay, lay.rx[j]);
    }
  }

  // ---------------------------------------------------------------- chains

  /** Two states never share a chain block, and no chain block is in the queue. */
  lemma {:induction false} ChainApart(next: seq<int>, body: seq<Body>, h: Heads, lay: Lay, r: int, j: nat)
    requires Linked(next, body, h, lay) && r in lay.rx && r in lay.chains && j < |lay.chains[r]|
    ensures var b := lay.chains[r][j];
      && 0 <= b < |next| && lay.owner[b] == Chain(r) && b !in lay.rx && next[b] == At(lay.chains[r], j + 1)
    ensures forall i | 0 <= i < |lay.chains[r]| && i != j :: lay.chains[r][i] != lay.chains[r][j]
  {
    assert Chained(next, body, lay, r);
    HeldIsNoState(next, body, h, lay, lay.chains[r][j], Held);
  }

  /** Putting the chain of `r` back among the other lists, with its head in the state. */
  lemma {:induction false} ChainPatch(next: seq<int>, body: seq<Body>, h: Heads, lay: Lay, r: int, body': seq<Body>,
                                      lay': Lay)
    requires ListsBut(next, body, h, lay, Chain(r)) && r in lay.rx
    requires r in lay'.chains && lay' == lay.(chains := lay.chains[r := lay'.chains[r]])
    requires 0 <= r < |body| && body[r].RxBody? && body' == body[r := body[r].(chain := At(lay'.chains[r], 0))]
    requires Listed(next, lay.owner, At(lay'.chains[r], 0), lay'.chains[r], Chain(r))
    ensures Linked(next, body', h, lay')
  {
    forall q | q in lay.rx ensures Chained(next, body', lay', q) {
      assert StateBlock(body, lay, q);
      if q != r {
        assert Chained(next, body, lay, q);
      }
    }
  }

  /** The two arenas agree outside the block and the chain of state `r`, and outside what is in hand. */
  ghost predicate SameElsewhere(body: seq<Body>, body': seq<Body>, lay: Lay, r: int) {
    && |body'| == |body| == |lay.owner|
    && forall b | 0 <= b < |body| && b != r && lay.owner[b] != Chain(r) && lay.owner[b] != Held :: body'[b] == body[b]
  }

  lemma {:induction false} StateElsewhere(next: seq<int>, body: seq<Body>, lay: Lay, q: int, r: int, s: RxState,
                                          body': seq<Body>, lay': Lay)
    requires StateAt(body, lay, q, s) && Chained(next, body, lay, q) && q != r && StateBlock(body, lay, r)
    requires SameElsewhere(body, body', lay, r) && q in lay'.chains && lay'.chains[q] == lay.chains[q]
    ensures StateAt(body', lay', q, s)
  {
    var c := lay'.chains[q];
    assert body'[q] == body[q];
    forall j {:trigger c[j]} | 0 <= j < |s.blocks|
      ensures 0 <= c[j] < |body| && body'[c[j]] == DataBody(s.blocks[j])
    {
      assert lay.owner[lay.chains[q][j]] == Chain(q);
    }
  }

  lemma {:induction false} InChains(next: seq<int>, body: seq<Body>, lay: Lay, r: int)
    requires Chained(next, body, lay, r)
    ensures r in lay.chains
  {
  }

  /** Replacing the chain of one state changes that state's blocks only. */
  lemma {:induction false} ChainRepresents(next: seq<int>, body: seq<Body>, h: Heads, lay: Lay, m: Node, k: nat,
                                           body': seq<Body>, lay': Lay, blocks: seq<Block>)
    requires Linked(next, body, h, lay) && Represents(body, lay, m) && k < |lay.rx|
    requires var r := lay.rx[k];
      && r in lay'.chains && lay' == lay.(owner := lay'.owner, chains := lay.chains[r := lay'.chains[r]])
      && SameElsewhere(body, body', lay, r) && StateAt(body', lay', r, RxState(m.rx[k].core, blocks))
    ensures Represents(body', lay', m.(rx := m.rx[k := RxState(m.rx[k].core, blocks)]))
  {
    hide Linked;
    hide Listed;
    StatesDistinct(next, body, h, lay, k);
    assert StateBlock(body, lay, lay.rx[k]);
    var rx' := m.rx[k := RxState(m.rx[k].core, blocks)];
    forall j | 0 <= j < |lay.rx| ensures StateAt(body', lay', lay.rx[j], rx'[j]) {
      hide StateAt;
      hide SameElsewhere;
      StatesDistinct(next, body, h, lay, j);
      if j != k {
        InChains(next, body, lay, lay.rx[j]);
        StateElsewhere(next, body, lay, lay.rx[j], lay.rx[k], m.rx[j], body', lay');
      }
    }
    hide StateAt;
    QueueElsewhere(next, body, h, lay, m, lay.rx[k], body');
  }

  lemma {:induction false} QueueElsewhere(next: seq<int>, body: seq<Body>, h: Heads, lay: Lay, m: Node, r: int,
                                          body': seq<Body>)
    requires Linked(next, body, h, lay) && Represents(body, lay, m) && SameElsewhere(body, body', lay, r) && r in lay.rx
    ensures forall k {:trigger lay.tx[k]} | 0 <= k < |lay.tx| ::
      0 <= lay.tx[k] < |body| && body'[lay.tx[k]] == TxBody(m.tx[k])
  {
    assert StateBlock(body, lay, r);
    hide StateAt;
  }

  /** The first block of a chain, unlinked and in hand. */
  function ChainPopped(lay: Lay, r: int): Lay
    requires r in lay.chains && lay.chains[r] != [] && 0 <= lay.chains[r][0] < |lay.owner|
  {
    Retagged(lay, lay.chains[r][0], Held).(chains := lay.chains[r := lay.chains[r][1..]])
  }

  lemma {:induction false} ChainPopLinked(next: seq<int>, body: seq<Body>, h: Heads, lay: Lay, r: int)
    requires Linked(next, body, h, lay) && r in lay.rx && Chained(next, body, lay, r) && lay.chains[r] != []
    ensures 0 <= body[r].chain < |next| && lay.chains[r][0] == body[r].chain && body[r].chain != r
    ensures Linked(next, body[r := body[r].(chain := next[body[r].chain])], h, ChainPopped(lay, r))
  {
    var b := body[r].chain;
    ChainApart(next, body, h, lay, r, 0);
    TailListed(next, lay.owner, b, lay.chains[r], Chain(r), Held);
    assert ListsBut(next, body, h, lay, Chain(r));
    hide Listed;
    ListsFrame(next, body, h, lay, b, next[b], Held, Chain(r));
    hide ListsBut;
    assert next[b := next[b]] == next;
    ChainPatch(next, body, h, Retagged(lay, b, Held), r, body[r := body[r].(chain := next[b])], ChainPopped(lay, r));
  }

  lemma {:induction false} ChainPopGood(next: seq<int>, body: seq<Body>, h: Heads, lay: Lay, m: Node, k: nat)
    requires Good(next, body, h, lay, m) && k < |lay.rx|
    requires 0 <= lay.rx[k] < |body| && body[lay.rx[k]].RxBody? && body[lay.rx[k]].chain != NULL
    ensures var r := lay.rx[k]; var b := body[r].chain;
      && r in lay.chains && lay.chains[r] != [] && m.rx[k].blocks != [] && lay.chains[r][0] == b && 0 <= b < |next|
         && b != r
      && Good(next, body[r := body[r].(chain := next[b])], h, ChainPopped(lay, r),
              m.(rx := m.rx[k := RxState(m.rx[k].core, m.rx[k].blocks[1..])]))
  {
    StatesDistinct(next, body, h, lay, k);
    var r := lay.rx[k];
    assert StateAt(body, lay, r, m.rx[k]);
    ChainPopLinked(next, body, h, lay, r);
    hide ListsBut;
    hide Listed;
    var c, blocks := lay.chains[r][1..], m.rx[k].blocks[1..];
    var body' := body[r := body[r].(chain := next[body[r].chain])];
    forall j {:trigger c[j]} | 0 <= j < |blocks| ensures 0 <= c[j] < |body| && body'[c[j]] == DataBody(blocks[j]) {
      assert c[j] == lay.chains[r][j + 1];
    }
    hide Represents;
    ChainRepresents(next, body, h, lay, m, k, body', ChainPopped(lay, r), blocks);
  }

  /** A held data block at the end of a chain. */
  function ChainAppended(lay: Lay, r: int, b: int): Lay
    requires r in lay.chains && 0 <= b < |lay.owner|
  {
    Retagged(lay, b, Chain(r)).(chains := lay.chains[r := lay.chains[r] + [b]])
  }

  lemma {:induction false} LeaveChain(next: seq<int>, body: seq<Body>, h: Heads, lay: Lay, r: int)
    requires Linked(next, body, h, lay) && r in lay.rx
    ensures ListsBut(next, body, h, lay, Chain(r))
  {
  }

  /** Linking the last block of a chain to another one leaves the other lists in order. */
  lemma {:induction false} RelinkLast(next: seq<int>, body: seq<Body>, h: Heads, lay: Lay, r: int, b: int)
    requires Linked(next, body, h, lay) && r in lay.rx && r in lay.chains && lay.chains[r] != []
    ensures var last := lay.chains[r][|lay.chains[r]| - 1];
      0 <= last < |next| && ListsBut(next[last := b], body, h, lay, Chain(r))
  {
    var last := lay.chains[r][|lay.chains[r]| - 1];
    LeaveChain(next, body, h, lay, r);
    ChainApart(next, body, h, lay, r, |lay.chains[r]| - 1);
    hide Linked;
    hide ListsBut;
    ListsFrame(next, body, h, lay, last, b, Chain(r), Chain(r));
    assert Retagged(lay, last, Chain(r)) == lay;
  }

  lemma {:induction false} LinkedSizes(next: seq<int>, body: seq<Body>, h: Heads, lay: Lay, r: int)
    requires Linked(next, body, h, lay) && Chained(next, body, lay, r)
    ensures |next| == |body| == |lay.owner| && 0 <= r < |body| && body[r].RxBody? && r in lay.chains
    ensures lay.owner[r] == Rx
    ensures Listed(next, lay.owner, body[r].chain, lay.chains[r], Chain(r))
  {
  }

  lemma {:induction false} ChainAppendLinked(next: seq<int>, body: seq<Body>, h: Heads, lay: Lay, r: int, b: int)
    requires Linked(next, body, h, lay) && r in lay.rx && Chained(next, body, lay, r)
    requires 0 <= b < |next| && lay.owner[b] == Held
    ensures Linked(LinkedIn(next, lay.chains[r], |lay.chains[r]|, b),
                   body[r := body[r].(chain := At(lay.chains[r] + [b], 0))], h, ChainAppended(lay, r, b))
  {
    LinkedSizes(next, body, h, lay, r);
    HeldIsNoState(next, body, h, lay, b, Held);
    LeaveChain(next, body, h, lay, r);
    var c := lay.chains[r];
    if c != [] {
      RelinkLast(next, body, h, lay, r, b);
    }
    hide Linked;
    hide Chained;
    hide ListsBut;
    hide Listed;
    InsertListed(next, lay.owner, body[r].chain, c, Chain(r), |c|, b);
    assert InsertedIds(c, |c|, b) == c + [b];
    var n1 := if c == [] then next else next[c[|c| - 1] := b];
    ListsFrame(n1, body, h, lay, b, NULL, Chain(r), Chain(r));
    ChainPatch(n1[b := NULL], body, h, Retagged(lay, b, Chain(r)), r,
               body[r := body[r].(chain := At(c + [b], 0))], ChainAppended(lay, r, b));
  }

  lemma {:induction false} ChainAppendGood(next: seq<int>, body: seq<Body>, h: Heads, lay: Lay, m: Node, k: nat, b: int,
                                           d: Block)
    requires Good(next, body, h, lay, m) && k < |lay.rx|
    requires 0 <= b < |next| && lay.owner[b] == Held && body[b] == DataBody(d)
    ensures var r := lay.rx[k];
      && 0 <= r < |body| && body[r].RxBody? && r in lay.chains
         && (forall j | 0 <= j < |lay.chains[r]| :: 0 <= lay.chains[r][j] < |next|)
      && Good(LinkedIn(next, lay.chains[r], |lay.chains[r]|, b),
              body[r := body[r].(chain := At(lay.chains[r] + [b], 0))], h, ChainAppended(lay, r, b),
              m.(rx := m.rx[k := RxState(m.rx[k].core, m.rx[k].blocks + [d])]))
  {
    StatesDistinct(next, body, h, lay, k);
    var r := lay.rx[k];
    assert StateAt(body, lay, r, m.rx[k]);
    HeldIsNoState(next, body, h, lay, b, Held);
    ChainAppendLinked(next, body, h, lay, r, b);
    LinkedSizes(next, body, h, lay, r);
    ChainInArena(next, body, lay, r);
    hide Linked;
    hide Listed;
    hide Represents;
    var body' := body[r := body[r].(chain := At(lay.chains[r] + [b], 0))];
    AppendedStateAt(body, body', lay, r, m.rx[k], b, d);
    hide StateAt;
    hide Chained;
    ChainRepresents(next, body, h, lay, m, k, body', ChainAppended(lay, r, b), m.rx[k].blocks + [d]);
  }

  lemma {:induction false} ChainInArena(next: seq<int>, body: seq<Body>, lay: Lay, r: int)
    requires Chained(next, body, lay, r) && |next| == |lay.owner|
    ensures forall j | 0 <= j < |lay.chains[r]| :: 0 <= lay.chains[r][j] < |next| && lay.chains[r][j] != r
  {
  }

  lemma {:induction false} AppendedStateAt(body: seq<Body>, body': seq<Body>, lay: Lay, r: int, s: RxState, b: int,
                                           d: Block)
    requires StateAt(body, lay, r, s) && |body| == |lay.owner| && 0 <= b < |body| && b != r && body[b] == DataBody(d)
    requires forall j | 0 <= j < |lay.chains[r]| :: lay.chains[r][j] != r
    requires body' == body[r := body[r].(chain := At(lay.chains[r] + [b], 0))]
    ensures StateAt(body', ChainAppended(lay, r, b), r, RxState(s.core, s.blocks + [d]))
  {
    var c := lay.chains[r] + [b];
    forall j {:trigger c[j]} | 0 <= j < |s.blocks + [d]|
      ensures 0 <= c[j] < |body| && body'[c[j]] == DataBody((s.blocks + [d])[j])
    {
      if j < |s.blocks| {
        assert c[j] == lay.chains[r][j];
      }
    }
  }

  /** Writing into a chain block. */
  lemma {:induction false} ChainDataGood(next: seq<int>, body: seq<Body>, h: Heads, lay: Lay, m: Node, k: nat, j: nat,
                                         d: Block)
    requires Good(next, body, h, lay, m) && k < |lay.rx| && j < |m.rx[k].blocks|
    ensures var r := lay.rx[k];
      && r in lay.chains && j < |lay.chains[r]| && 0 <= lay.chains[r][j] < |body|
         && body[lay.chains[r][j]] == DataBody(m.rx[k].blocks[j])
      && Good(next, body[lay.chains[r][j] := DataBody(d)], h, lay,
              m.(rx := m.rx[k := RxState(m.rx[k].core, m.rx[k].blocks[j := d])]))
  {
    hide Listed;
    StatesDistinct(next, body, h, lay, k);
    var r := lay.rx[k];
    assert |next| == |body| == |lay.owner|;
    hide ListsBut;
    assert StateAt(body, lay, r, m.rx[k]);
    ChainApart(next, body, h, lay, r, j);
    hide Represents;
    var b := lay.chains[r][j];
    BodyLists(next, body, h, lay, b, DataBody(d), Held);
    ChainRepresents(next, body, h, lay, m, k, body[b := DataBody(d)], lay, m.rx[k].blocks[j := d]);
  }

  // ---------------------------------------------------------------- removing a state

  function Without<T>(s: seq<T>, k: nat): seq<T>
    requires k < |s|
  {
    s[..k] + s[k + 1..]
  }

  lemma {:induction false} WithoutAt(ids: seq<int>, k: nat, i: nat)
    requires k < |ids|
    ensures At(Without(ids, k), i) == At(ids, if i < k then i else i + 1)
  {
  }

  /** The link words after the block at position `k` has been unlinked. */
  function Unlinked(next: seq<int>, ids: seq<int>, k: nat): seq<int>
    requires k < |ids| && forall i | 0 <= i < |ids| :: 0 <= ids[i] < |next|
  {
    if k == 0 then next else next[ids[k - 1] := next[ids[k]]]
  }

  lemma {:induction false} ListedHead(next: seq<int>, owner: seq<Owner>, head: int, ids: seq<int>, tag: Owner)
    requires Listed(next, owner, head, ids, tag)
    ensures head == At(ids, 0)
  {
  }

  /** One link of a list. */
  lemma {:induction false} ListedAt(next: seq<int>, owner: seq<Owner>, head: int, ids: seq<int>, tag: Owner, k: nat)
    requires Listed(next, owner, head, ids, tag) && |owner| == |next| && k < |ids|
    ensures NoRepeat(ids) && forall i | 0 <= i < |ids| :: 0 <= ids[i] < |next|
    ensures owner[ids[k]] == tag && next[ids[k]] == At(ids, k + 1)
  {
  }

  lemma {:induction false} RemovedLink(next: seq<int>, owner: seq<Owner>, head: int, ids: seq<int>, tag: Owner, k: nat,
                                       i: nat)
    requires Listed(next, owner, head, ids, tag) && |owner| == |next| && k < |ids| && i < |ids| - 1
    ensures var b := At(Without(ids, k), i);
      && 0 <= b < |next| && owner[ids[k] := Held][b] == tag && Unlinked(next, ids, k)[b] == At(Without(ids, k), i + 1)
  {
    hide Listed;
    var at := if i < k then i else i + 1;
    ListedAt(next, owner, head, ids, tag, at);
    ListedAt(next, owner, head, ids, tag, k);
    WithoutAt(ids, k, i);
    WithoutAt(ids, k, i + 1);
    hide Without;
    if at != k - 1 {
      assert Unlinked(next, ids, k)[ids[at]] == next[ids[at]];
    }
  }

  lemma {:induction false} WithoutNoRepeat(ids: seq<int>, k: nat)
    requires k < |ids| && NoRepeat(ids)
    ensures NoRepeat(Without(ids, k))
  {
  }

  lemma {:induction false} RemoveListed(next: seq<int>, owner: seq<Owner>, head: int, ids: seq<int>, tag: Owner, k: nat)
    requires Listed(next, owner, head, ids, tag) && |owner| == |next| && k < |ids|
    ensures Listed(Unlinked(next, ids, k), owner[ids[k] := Held], if k == 0 then next[head] else head, Without(ids, k),
                   tag)
  {
    var ids' := Without(ids, k);
    forall i {:trigger ids'[i]} | 0 <= i < |ids'|
      ensures 0 <= ids'[i] < |next| && owner[ids[k] := Held][ids'[i]] == tag
      ensures Unlinked(next, ids, k)[ids'[i]] == At(ids', i + 1)
    {
      RemovedLink(next, owner, head, ids, tag, k, i);
    }
    WithoutNoRepeat(ids, k);
    if |ids| > 1 {
      WithoutAt(ids, k, 0);
    }
  }

  function RxRemoved(lay: Lay, k: nat): Lay
    requires k < |lay.rx| && 0 <= lay.rx[k] < |lay.owner|
  {
    Retagged(lay, lay.rx[k], Held).(rx := Without(lay.rx, k))
  }

  lemma {:induction false} WithoutMembers(ids: seq<int>, k: nat)
    requires k < |ids|
    ensures forall r | r in Without(ids, k) :: r in ids
    ensures (forall j | 0 <= j < |ids| && j != k :: ids[j] != ids[k]) ==> ids[k] !in Without(ids, k)
  {
  }

  /** The states that stay keep their blocks when one with an empty chain is unlinked. */
  lemma {:induction false} RxRemoveLinked(next: seq<int>, body: seq<Body>, h: Heads, lay: Lay, k: nat)
    requires Linked(next, body, h, lay) && k < |lay.rx|
    ensures forall i | 0 <= i < |lay.rx| :: 0 <= lay.rx[i] < |next|
    ensures Linked(Unlinked(next, lay.rx, k), body, h.(rx := if k == 0 then next[h.rx] else h.rx), RxRemoved(lay, k))
  {
    hide Listed;
    hide Without;
    StatesDistinct(next, body, h, lay, k);
    WithoutMembers(lay.rx, k);
    ListedAt(next, lay.owner, h.rx, lay.rx, Rx, k);
    RemoveListed(next, lay.owner, h.rx, lay.rx, Rx, k);
    var p, lay' := lay.rx[k], RxRemoved(lay, k);
    assert ListsBut(next, body, h, lay, Rx);
    var n1 := Unlinked(next, lay.rx, k);
    if k > 0 {
      ListedAt(next, lay.owner, h.rx, lay.rx, Rx, k - 1);
      ListsFrameRx(next, body, h, lay, lay.rx[k - 1], next[p]);
    }
    ListFrame(n1, lay.owner, p, n1[p], Held, h.free, lay.free, Free);
    ListFrame(n1, lay.owner, p, n1[p], Held, h.tx, lay.tx, Tx);
    assert n1[p := n1[p]] == n1;
    forall r | r in lay'.rx ensures Chained(n1, body, lay', r) {
      assert r in lay.rx && Chained(n1, body, lay, r);
      ListFrame(n1, lay.owner, p, n1[p], Held, body[r].chain, lay.chains[r], Chain(r));
    }
  }

  lemma {:induction false} RxRemoveGood(next: seq<int>, body: seq<Body>, h: Heads, lay: Lay, m: Node, k: nat)
    requires Good(next, body, h, lay, m) && k < |lay.rx|
    ensures forall i | 0 <= i < |lay.rx| :: 0 <= lay.rx[i] < |next|
    ensures Good(Unlinked(next, lay.rx, k), body, h.(rx := if k == 0 then next[h.rx] else h.rx), RxRemoved(lay, k),
                 m.(rx := Without(m.rx, k)))
  {
    hide Listed;
    assert |next| == |lay.owner|;
    hide ListsBut;
    RxRemoveLinked(next, body, h, lay, k);
    var lay', rx' := RxRemoved(lay, k), Without(m.rx, k);
    forall j | 0 <= j < |lay'.rx| ensures StateAt(body, lay', lay'.rx[j], rx'[j]) {
      var i := if j < k then j else j + 1;
      assert lay'.rx[j] == lay.rx[i] && rx'[j] == m.rx[i];
      assert StateAt(body, lay, lay.rx[i], m.rx[i]);
    }
  }

  // ---------------------------------------------------------------- handing a chain over to a transfer

  /** All blocks of one owner passed to another. */
  function Handed(owner: seq<Owner>, from: Owner, to: Owner): seq<Owner> {
    seq(|owner|, i requires 0 <= i < |owner| => if owner[i] == from then to else owner[i])
  }

  function ChainDetached(lay: Lay, r: int): Lay {
    lay.(owner := Handed(lay.owner, Chain(r), Middle), chains := lay.chains[r := []])
  }

  lemma {:induction false} HandedListed(next: seq<int>, owner: seq<Owner>, head: int, ids: seq<int>, tag: Owner,
                                        from: Owner, to: Owner)
    requires Listed(next, owner, head, ids, tag) && |owner| == |next|
    ensures Listed(next, Handed(owner, from, to), head, ids, if tag == from then to else tag)
  {
  }

  lemma {:induction false} EmptyListed(next: seq<int>, owner: seq<Owner>, tag: Owner)
    ensures Listed(next, owner, NULL, [], tag)
  {
  }

  lemma {:induction false} ChainDetachGood(next: seq<int>, body: seq<Body>, h: Heads, lay: Lay, m: Node, k: nat)
    requires Good(next, body, h, lay, m) && k < |lay.rx|
    ensures var r := lay.rx[k];
      && 0 <= r < |body| && body[r].RxBody? && r in lay.chains
      && Listed(next, ChainDetached(lay, r).owner, body[r].chain, lay.chains[r], Middle)
      && Good(next, body[r := body[r].(chain := NULL)], h, ChainDetached(lay, r),
              m.(rx := m.rx[k := RxState(m.rx[k].core, [])]))
  {
    hide Listed;
    StatesDistinct(next, body, h, lay, k);
    var r := lay.rx[k];
    var body', lay' := body[r := body[r].(chain := NULL)], ChainDetached(lay, r);
    HandedListed(next, lay.owner, h.free, lay.free, Free, Chain(r), Middle);
    HandedListed(next, lay.owner, h.tx, lay.tx, Tx, Chain(r), Middle);
    HandedListed(next, lay.owner, h.rx, lay.rx, Rx, Chain(r), Middle);
    HandedListed(next, lay.owner, body[r].chain, lay.chains[r], Chain(r), Chain(r), Middle);
    forall q | q in lay.rx ensures Chained(next, body', lay', q) {
      assert Chained(next, body, lay, q);
      HandedListed(next, lay.owner, body[q].chain, lay.chains[q], Chain(q), Chain(r), Middle);
      EmptyListed(next, lay'.owner, Chain(r));
    }
    assert StateAt(body, lay, r, m.rx[k]);
    ChainRepresents(next, body, h, lay, m, k, body', lay', []);
  }

  lemma {:induction false} NodeIdGood(next: seq<int>, body: seq<Body>, h: Heads, lay: Lay, m: Node, id: byte)
    requires Good(next, body, h, lay, m)
    ensures Good(next, body, h, lay, m.(nodeId := id))
  {
  }
}
