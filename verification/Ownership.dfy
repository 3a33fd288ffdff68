/** Who owns the arena: the lists are disjoint and nothing is lost. */
module Ownership {
  import opened RxBuffer
  import opened Receiver
  import opened Arena
  import opened Interleaving

  // ---------------------------------------------------------------- the lists together

  /** The buffer blocks of the given states, one chain after the other. */
  function Chains(chains: map<int, seq<int>>, rx: seq<int>): seq<int> {
    if rx == [] then [] else (if rx[0] in chains then chains[rx[0]] else []) + Chains(chains, rx[1..])
  }

  function Everything(lay: Lay): seq<int> {
    lay.free + lay.tx + lay.rx + Chains(lay.chains, lay.rx)
  }

  /** The free list, the queue, the list of states and all chains follow the links from their heads to the end without
      repeating a block, share no block, and together are the whole arena. */
  ghost predicate Partitions(next: seq<int>, body: seq<Body>, h: Heads, lay: Lay) {
    && Linked(next, body, h, lay)
    && NoRepeat(Everything(lay)) && |Everything(lay)| == |next|
    && (forall p | 0 <= p < |next| :: p in Everything(lay)) && (forall p | p in Everything(lay) :: 0 <= p < |next|)
  }

  lemma {:induction false} JoinNoRepeat(a: seq<int>, b: seq<int>)
    requires NoRepeat(a) && NoRepeat(b) && forall x | x in a :: x !in b
    ensures NoRepeat(a + b)
  {
    var r := a + b;
    forall i, j | 0 <= i < j < |r| ensures r[i] != r[j] {
      if i < |a| <= j {
        assert r[i] in a && r[j] == b[j - |a|] && b[j - |a|] in b;
      }
    }
  }

  /** Distinct blocks as many as the arena has are all of them. */
  lemma {:induction false} Covers(ids: seq<int>, n: nat, p: int)
    requires NoRepeat(ids) && |ids| == n && (forall x | x in ids :: 0 <= x < n) && 0 <= p < n
    ensures p in ids
  {
    if p !in ids {
      assert forall k | 0 <= k < |ids| :: ids[k] in ids;
      Pigeonhole(ids + [p], n);
    }
  }

  predicate InChainOf(owner: seq<Owner>, rx: seq<int>, b: int) {
    0 <= b < |owner| && owner[b].Chain? && owner[b].state in rx
  }

  lemma {:induction false} ChainsApart(next: seq<int>, body: seq<Body>, lay: Lay, rx: seq<int>)
    requires |next| == |lay.owner| && NoRepeat(rx) && forall r | r in rx :: Chained(next, body, lay, r)
    ensures NoRepeat(Chains(lay.chains, rx)) && forall b | b in Chains(lay.chains, rx) :: InChainOf(lay.owner, rx, b)
    decreases |rx|
  {
    if rx != [] {
      assert rx[0] in rx && Chained(next, body, lay, rx[0]);
      forall i, j | 0 <= i < j < |rx[1..]| ensures rx[1..][i] != rx[1..][j] {
        assert rx[i + 1] != rx[j + 1];
      }
      ChainsApart(next, body, lay, rx[1..]);
      assert rx[0] !in rx[1..];
      JoinNoRepeat(lay.chains[rx[0]], Chains(lay.chains, rx[1..]));
    }
  }

  /** The chains hold as many blocks as the states say. */
  lemma {:induction false} ChainsCount(body: seq<Body>, lay: Lay, rx: seq<int>, states: seq<RxState>)
    requires |rx| == |states| && forall k | 0 <= k < |rx| :: StateAt(body, lay, rx[k], states[k])
    ensures |rx| + |Chains(lay.chains, rx)| == Interleaving.Held(states)
    decreases |rx|
  {
    if rx != [] {
      assert StateAt(body, lay, rx[0], states[0]);
      forall k | 0 <= k < |rx[1..]| ensures StateAt(body, lay, rx[1..][k], states[1..][k]) {
        assert StateAt(body, lay, rx[k + 1], states[k + 1]);
      }
      ChainsCount(body, lay, rx[1..], states[1..]);
    }
  }

  lemma {:induction false} ListedOwned(next: seq<int>, owner: seq<Owner>, head: int, ids: seq<int>, tag: Owner)
    requires Listed(next, owner, head, ids, tag) && |owner| == |next|
    ensures NoRepeat(ids) && forall b | b in ids :: 0 <= b < |owner| && owner[b] == tag
  {
  }

  lemma {:induction false} EverythingDistinct(next: seq<int>, body: seq<Body>, h: Heads, lay: Lay)
    requires Linked(next, body, h, lay)
    ensures NoRepeat(Everything(lay)) && forall p | p in Everything(lay) :: 0 <= p < |next|
  {
    assert |lay.owner| == |next|;
    assert forall r | r in lay.rx :: Chained(next, body, lay, r);
    ListedOwned(next, lay.owner, h.free, lay.free, Free);
    ListedOwned(next, lay.owner, h.tx, lay.tx, Tx);
    ListedOwned(next, lay.owner, h.rx, lay.rx, Rx);
    ChainsApart(next, body, lay, lay.rx);
    hide Linked;
    hide Chained;
    hide Chains;
    JoinNoRepeat(lay.free, lay.tx);
    JoinNoRepeat(lay.free + lay.tx, lay.rx);
    JoinNoRepeat(lay.free + lay.tx + lay.rx, Chains(lay.chains, lay.rx));
  }

  /** No block is ever lost or shared: in a sound node the lists partition the arena. */
  lemma {:induction false} ArenaPartitioned(next: seq<int>, body: seq<Body>, h: Heads, lay: Lay, m: Node)
    requires Good(next, body, h, lay, m) && Sound(m)
    ensures Partitions(next, body, h, lay)
    ensures m.pool.usage == |next| - |lay.free| && m.pool.usage <= m.pool.peak
  {
    EverythingDistinct(next, body, h, lay);
    ChainsCount(body, lay, lay.rx, m.rx);
    hide Linked;
    hide Chains;
    hide Represents;
    assert |Everything(lay)| == |next|;
    hide Everything;
    forall p | 0 <= p < |next| ensures p in Everything(lay) {
      Covers(Everything(lay), |next|, p);
    }
  }
}
