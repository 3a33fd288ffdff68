/** The transmission queue: CAN arbitration, stable insertion, and what a whole run of pushes and pops delivers. */
module TxQueue {
  import opened Types
  import opened CanId

  /** What arbitration reads of an identifier: the two format flags and the 29 identifier bits as a number. */
  datatype BusId = BusId(ext: bool, rtr: bool, clean: nat)

  function BusIdOf(id: bv32): BusId {
    BusId(id & EFF != 0, id & RTR != 0, (id & EXT_ID_MASK) as nat)
  }

  /** The comparison of the source: whether `id` wins the bus over `other`. */
  predicate Outranks(other: BusId, id: BusId) {
    if id.ext != other.ext then
      var arb := if id.ext then id.clean / 0x4_0000 else id.clean;
      var otherArb := if other.ext then other.clean / 0x4_0000 else other.clean;
      if arb != otherArb then arb < otherArb else other.ext
    else if id.clean == other.clean && id.rtr != other.rtr then other.rtr
    else id.clean < other.clean
  }

  predicate IsPriorityHigher(other: bv32, id: bv32) {
    Outranks(BusIdOf(other), BusIdOf(id))
  }

  /** The arbitration field in bus order (CAN 2.0B): the base identifier, then RTR and IDE for a standard frame,
      or SRR, IDE, the identifier extension and RTR for an extended one. */
  datatype Arbitration = Arbitration(base: nat, second: nat, ide: nat, extension: nat, last: nat)

  function ArbitrationOf(b: BusId): Arbitration {
    var rtr := if b.rtr then 1 else 0;
    if b.ext then Arbitration(b.clean / 0x4_0000, 1, 1, b.clean % 0x4_0000, rtr)
    else Arbitration(b.clean, rtr, 0, 0, 0)
  }

  /** Zero is dominant: the first field that differs decides, and the smaller value wins. */
  predicate Wins(a: Arbitration, b: Arbitration) {
    if a.base != b.base then a.base < b.base
    else if a.second != b.second then a.second < b.second
    else if a.ide != b.ide then a.ide < b.ide
    else if a.extension != b.extension then a.extension < b.extension
    else a.last < b.last
  }

  /** The comparison of the source is bus arbitration, for standard, extended and mixed pairs. */
  lemma {:induction false} OutranksIsArbitration(other: BusId, id: BusId)
    ensures Outranks(other, id) <==> Wins(ArbitrationOf(id), ArbitrationOf(other))
  {
  }

  /** Being no winner over is transitive: together with irreflexivity, a strict weak order. */
  lemma {:induction false} OutranksOrder(a: BusId, b: BusId, c: BusId)
    ensures !Outranks(a, a)
    ensures Outranks(b, a) ==> !Outranks(a, b)
    ensures Outranks(b, a) && Outranks(c, b) ==> Outranks(c, a)
    ensures !Outranks(b, a) && !Outranks(c, b) ==> !Outranks(c, a)
  {
  }

  // ---------------------------------------------------------------- insertion

  /** The frames `f` must wait for: those that arrived earlier and that it does not beat. */
  function Insert(q: seq<Frame>, f: Frame): seq<Frame> {
    if q == [] then [f]
    else if IsPriorityHigher(q[0].id, f.id) then [f] + q
    else [q[0]] + Insert(q[1..], f)
  }

  function InsertAll(q: seq<Frame>, fs: seq<Frame>): seq<Frame>
    decreases |fs|
  {
    if fs == [] then q else InsertAll(Insert(q, fs[0]), fs[1..])
  }

  /** No frame is behind one that it beats. */
  ghost predicate Sorted(q: seq<Frame>) {
    forall i, j | 0 <= i < j < |q| :: !IsPriorityHigher(q[i].id, q[j].id)
  }

  /** The frames of `q` with one identifier, in order. */
  function WithId(q: seq<Frame>, id: bv32): seq<Frame> {
    if q == [] then [] else (if q[0].id == id then [q[0]] else []) + WithId(q[1..], id)
  }

  lemma {:induction false} InsertContents(q: seq<Frame>, f: Frame)
    ensures multiset(Insert(q, f)) == multiset(q) + multiset{f}
    ensures |Insert(q, f)| == |q| + 1
  {
    if q != [] && !IsPriorityHigher(q[0].id, f.id) {
      assert q == [q[0]] + q[1..];
      InsertContents(q[1..], f);
    }
  }

  lemma {:induction false} InsertMember(q: seq<Frame>, f: Frame, i: nat)
    requires i < |Insert(q, f)|
    ensures Insert(q, f)[i] == f || Insert(q, f)[i] in q
  {
    InsertContents(q, f);
    assert Insert(q, f)[i] in multiset(Insert(q, f));
  }

  lemma {:induction false} InsertSorted(q: seq<Frame>, f: Frame)
    requires Sorted(q)
    ensures Sorted(Insert(q, f))
  {
    if q == [] {
    } else if IsPriorityHigher(q[0].id, f.id) {
      forall j | 0 <= j < |q| ensures !IsPriorityHigher(f.id, q[j].id) {
        OutranksOrder(BusIdOf(q[j].id), BusIdOf(f.id), BusIdOf(q[0].id));
        OutranksOrder(BusIdOf(q[j].id), BusIdOf(q[0].id), BusIdOf(f.id));
      }
    } else {
      InsertSorted(q[1..], f);
      forall j | 0 <= j < |Insert(q[1..], f)| ensures !IsPriorityHigher(q[0].id, Insert(q[1..], f)[j].id) {
        InsertMember(q[1..], f, j);
      }
    }
  }

  /** Insertion is stable: a frame leaves after every earlier frame with its identifier. */
  lemma {:induction false} InsertStable(q: seq<Frame>, f: Frame, id: bv32)
    requires Sorted(q)
    ensures WithId(Insert(q, f), id) == WithId(q, id) + (if f.id == id then [f] else [])
  {
    if q == [] {
    } else if IsPriorityHigher(q[0].id, f.id) {
      assert ([f] + q)[1..] == q;
      if f.id == id {
        NoneBehind(q, id);
      }
    } else {
      InsertStable(q[1..], f, id);
    }
  }

  lemma {:induction false} NoneBehind(q: seq<Frame>, id: bv32)
    requires Sorted(q)
    requires q != [] ==> IsPriorityHigher(q[0].id, id)
    ensures WithId(q, id) == []
  {
    if q != [] {
      OutranksOrder(BusIdOf(id), BusIdOf(id), BusIdOf(id));
      if |q| > 1 {
        OutranksOrder(BusIdOf(q[1].id), BusIdOf(id), BusIdOf(q[0].id));
        OutranksOrder(BusIdOf(q[1].id), BusIdOf(q[0].id), BusIdOf(id));
        OutranksOrder(BusIdOf(id), BusIdOf(q[1].id), BusIdOf(q[0].id));
        OutranksOrder(BusIdOf(q[0].id), BusIdOf(q[1].id), BusIdOf(id));
      }
      NoneBehind(q[1..], id);
    }
  }

  lemma {:induction false} InsertAllContents(q: seq<Frame>, fs: seq<Frame>)
    ensures |InsertAll(q, fs)| == |q| + |fs|
    ensures multiset(InsertAll(q, fs)) == multiset(q) + multiset(fs)
    decreases |fs|
  {
    if fs != [] {
      InsertContents(q, fs[0]);
      InsertAllContents(Insert(q, fs[0]), fs[1..]);
      assert fs == [fs[0]] + fs[1..];
    }
  }

  lemma {:induction false} InsertAllStable(q: seq<Frame>, fs: seq<Frame>, id: bv32)
    requires Sorted(q)
    ensures Sorted(InsertAll(q, fs))
    ensures WithId(InsertAll(q, fs), id) == WithId(q, id) + WithId(fs, id)
    decreases |fs|
  {
    if fs != [] {
      InsertSorted(q, fs[0]);
      InsertStable(q, fs[0], id);
      InsertAllStable(Insert(q, fs[0]), fs[1..], id);
    }
  }

  lemma {:induction false} WithIdAll(fs: seq<Frame>, id: bv32)
    requires forall f | f in fs :: f.id == id
    ensures WithId(fs, id) == fs
  {
    if fs != [] {
      WithIdAll(fs[1..], id);
    }
  }

  /** Frames of one transfer entering an empty queue line up in the order they were made. */
  lemma {:induction false} InsertAllSameId(fs: seq<Frame>, id: bv32)
    requires forall f | f in fs :: f.id == id
    ensures InsertAll([], fs) == fs
  {
    InsertAllContents([], fs);
    InsertAllStable([], fs, id);
    WithIdAll(fs, id);
    var q := InsertAll([], fs);
    assert multiset(q) == multiset(fs);
    forall f | f in q ensures f.id == id {
      assert f in multiset(q);
      assert f in fs;
    }
    WithIdAll(q, id);
    assert WithId([], id) + WithId(fs, id) == WithId(fs, id);
  }

  // ---------------------------------------------------------------- whole runs

  datatype Op = Push(frame: Frame) | Pop

  /** The frames popped by a run and the queue it leaves; popping an empty queue does nothing. */
  function Run(q: seq<Frame>, ops: seq<Op>): (seq<Frame>, seq<Frame>)
    decreases |ops|
  {
    if ops == [] then ([], q)
    else match ops[0]
      case Push(f) => Run(Insert(q, f), ops[1..])
      case Pop =>
        if q == [] then Run(q, ops[1..])
        else var (popped, left) := Run(q[1..], ops[1..]); ([q[0]] + popped, left)
  }

  function Pushed(ops: seq<Op>): seq<Frame> {
    if ops == [] then [] else (if ops[0].Push? then [ops[0].frame] else []) + Pushed(ops[1..])
  }

  lemma {:induction false} WithIdConcat(a: seq<Frame>, b: seq<Frame>, id: bv32)
    ensures WithId(a + b, id) == WithId(a, id) + WithId(b, id)
  {
    if a == [] {
      assert a + b == b;
    } else {
      assert (a + b)[1..] == a[1..] + b;
      WithIdConcat(a[1..], b, id);
    }
  }

  lemma {:induction false} SortedTail(q: seq<Frame>)
    requires q != [] && Sorted(q)
    ensures Sorted(q[1..])
    ensures forall f | f in q :: !IsPriorityHigher(q[0].id, f.id)
  {
  }

  /** What left and what is left, for one identifier, is what was there and what came, in order. */
  predicate Conserves(q: seq<Frame>, ops: seq<Op>, id: bv32) {
    WithId(Run(q, ops).0, id) + WithId(Run(q, ops).1, id) == WithId(q, id) + WithId(Pushed(ops), id)
  }

  lemma {:induction false} Regroup<T>(a: seq<T>, b: seq<T>, c: seq<T>)
    ensures (a + b) + c == a + (b + c)
  {
  }

  lemma {:induction false} PushConserves(q: seq<Frame>, ops: seq<Op>, id: bv32)
    requires Sorted(q) && ops != [] && ops[0].Push? && Conserves(Insert(q, ops[0].frame), ops[1..], id)
    ensures Conserves(q, ops, id)
  {
    var f := ops[0].frame;
    InsertStable(q, f, id);
    Regroup(WithId(q, id), if f.id == id then [f] else [], WithId(Pushed(ops[1..]), id));
    assert Pushed(ops) == [f] + Pushed(ops[1..]);
    WithIdConcat([f], Pushed(ops[1..]), id);
  }

  lemma {:induction false} Prepend<T>(h: seq<T>, p: seq<T>, l: seq<T>, t: seq<T>, u: seq<T>)
    requires p + l == t + u
    ensures (h + p) + l == (h + t) + u
  {
    Regroup(h, p, l);
    Regroup(h, t, u);
  }

  lemma {:induction false} PopUnfolds(q: seq<Frame>, ops: seq<Op>, id: bv32)
    requires q != [] && ops != [] && ops[0].Pop?
    ensures WithId(Run(q, ops).0, id) == WithId([q[0]], id) + WithId(Run(q[1..], ops[1..]).0, id)
    ensures Run(q, ops).1 == Run(q[1..], ops[1..]).1
    ensures Pushed(ops) == Pushed(ops[1..])
  {
  }

  lemma {:induction false} PopConserves(q: seq<Frame>, ops: seq<Op>, id: bv32)
    requires q != [] && ops != [] && ops[0].Pop? && Conserves(q[1..], ops[1..], id)
    ensures Conserves(q, ops, id)
  {
    PopUnfolds(q, ops, id);
    assert [q[0]] + q[1..] == q;
    WithIdConcat([q[0]], q[1..], id);
    Prepend(WithId([q[0]], id), WithId(Run(q[1..], ops[1..]).0, id), WithId(Run(q[1..], ops[1..]).1, id),
            WithId(q[1..], id), WithId(Pushed(ops[1..]), id));
  }

  lemma {:induction false} IdleConserves(ops: seq<Op>, id: bv32)
    requires ops != [] && ops[0].Pop? && Conserves([], ops[1..], id)
    ensures Conserves([], ops, id)
  {
    assert Pushed(ops) == Pushed(ops[1..]);
  }

  /** Whatever is pushed and popped in whatever order, the queue stays sorted, and the frames with one identifier leave
      in the order they came, none lost and none repeated. */
  lemma {:induction false} RunIsStable(q: seq<Frame>, ops: seq<Op>, id: bv32)
    requires Sorted(q)
    ensures Sorted(Run(q, ops).1) && Conserves(q, ops, id)
    decreases |ops|
  {
    if ops != [] {
      match ops[0]
      case Push(f) =>
        InsertSorted(q, f);
        RunIsStable(Insert(q, f), ops[1..], id);
        PushConserves(q, ops, id);
      case Pop =>
        if q == [] {
          RunIsStable(q, ops[1..], id);
          IdleConserves(ops, id);
        } else {
          SortedTail(q);
          RunIsStable(q[1..], ops[1..], id);
          PopConserves(q, ops, id);
        }
    }
  }

  /** Each pop takes a frame that no queued frame beats. */
  ghost predicate PopsBest(q: seq<Frame>, ops: seq<Op>)
    decreases |ops|
  {
    ops == [] || match ops[0]
    case Push(f) => PopsBest(Insert(q, f), ops[1..])
    case Pop => q == [] || ((forall f | f in q :: !IsPriorityHigher(q[0].id, f.id)) && PopsBest(q[1..], ops[1..]))
  }

  lemma {:induction false} RunPopsBest(q: seq<Frame>, ops: seq<Op>)
    requires Sorted(q)
    ensures PopsBest(q, ops)
    decreases |ops|
  {
    if ops != [] {
      match ops[0]
      case Push(f) =>
        InsertSorted(q, f);
        RunPopsBest(Insert(q, f), ops[1..]);
      case Pop =>
        if q != [] {
          SortedTail(q);
          RunPopsBest(q[1..], ops[1..]);
        }
    }
  }
}
