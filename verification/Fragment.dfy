/** Cutting a payload into CAN frames. */
module Fragment {
  import opened Types
  import opened CanId

  /** The CRC travels low byte first. */
  function CrcBytes(crc: bv16): seq<byte> {
    [(crc & 0xFF) as byte, (crc >> 8) as byte]
  }

  function SingleFrame(id: bv32, tid: byte, payload: seq<byte>): Frame
    requires |payload| < 8
  {
    Frame(id, payload + [TailByte(true, true, false, tid)])
  }

  function FirstFrame(id: bv32, tid: byte, crc: bv16, payload: seq<byte>): Frame
    requires |payload| >= 8
  {
    Frame(id, CrcBytes(crc) + payload[..5] + [TailByte(true, false, false, tid)])
  }

  /** The frame after the first `at` bytes have been sent. */
  function NextFrame(id: bv32, tid: byte, payload: seq<byte>, at: nat, toggle: bool): Frame
    requires at < |payload|
  {
    var n := Min(7, |payload| - at);
    Frame(id, payload[at..at + n] + [TailByte(false, at + n == |payload|, toggle, tid)])
  }

  /** All frames from byte `at` on. */
  function FramesFrom(id: bv32, tid: byte, payload: seq<byte>, at: nat, toggle: bool): seq<Frame>
    requires at <= |payload|
    decreases |payload| - at
  {
    if at == |payload| then []
    else [NextFrame(id, tid, payload, at, toggle)]
         + FramesFrom(id, tid, payload, at + Min(7, |payload| - at), !toggle)
  }

  function Frames(id: bv32, tid: byte, crc: bv16, payload: seq<byte>): seq<Frame> {
    if |payload| < 8 then [SingleFrame(id, tid, payload)]
    else [FirstFrame(id, tid, crc, payload)] + FramesFrom(id, tid, payload, 5, true)
  }

  function TailOf(f: Frame): byte
    requires f.data != []
  {
    f.data[|f.data| - 1]
  }

  /** A frame of transfer `tid` with the given flags; only an end frame may be short. */
  predicate Shaped(f: Frame, id: bv32, tid: byte, start: bool, end: bool, toggle: bool) {
    && f.id == id && f.data != [] && (!end ==> |f.data| == 8)
    && IsStart(TailOf(f)) == start && IsEnd(TailOf(f)) == end
    && Toggle(TailOf(f)) == toggle && TransferIdOf(TailOf(f)) == tid & 0x1F
  }

  lemma {:induction false} TailShapes(f: Frame, id: bv32, tid: byte, start: bool, end: bool, toggle: bool)
    requires f.id == id && f.data != [] && (!end ==> |f.data| == 8) && TailOf(f) == TailByte(start, end, toggle, tid)
    ensures Shaped(f, id, tid, start, end, toggle)
  {
  }

  lemma {:induction false} FramesFromShape(id: bv32, tid: byte, payload: seq<byte>, at: nat, toggle: bool)
    requires at <= |payload|
    ensures var fs := FramesFrom(id, tid, payload, at, toggle);
      && |fs| == (|payload| - at + 6) / 7
      && forall k | 0 <= k < |fs| :: Shaped(fs[k], id, tid, false, k == |fs| - 1, toggle == (k % 2 == 0))
    decreases |payload| - at
  {
    if at < |payload| {
      var n := Min(7, |payload| - at);
      FramesFromShape(id, tid, payload, at + n, !toggle);
      TailShapes(NextFrame(id, tid, payload, at, toggle), id, tid, false, at + n == |payload|, toggle);
    }
  }

  lemma {:induction false} FirstShape(id: bv32, tid: byte, crc: bv16, payload: seq<byte>)
    requires |payload| >= 8
    ensures Shaped(FirstFrame(id, tid, crc, payload), id, tid, true, false, false)
  {
  }

  /** A payload of at least eight bytes becomes 1 + ceil((n - 5) / 7) frames with one identifier: start only on the
      first, end only on the last, toggles alternating from zero, every frame but the last full. */
  lemma {:induction false} FragmentationShape(id: bv32, tid: byte, crc: bv16, payload: seq<byte>)
    requires |payload| >= 8
    ensures var fs := Frames(id, tid, crc, payload);
      && |fs| == 1 + (|payload| - 5 + 6) / 7
      && forall k | 0 <= k < |fs| :: Shaped(fs[k], id, tid, k == 0, k == |fs| - 1, k % 2 == 1)
  {
    FramesFromShape(id, tid, payload, 5, true);
    FirstShape(id, tid, crc, payload);
    hide Shaped;
    hide FirstFrame;
    hide FramesFrom;
    var fs, rest := Frames(id, tid, crc, payload), FramesFrom(id, tid, payload, 5, true);
    forall k | 0 <= k < |fs| ensures Shaped(fs[k], id, tid, k == 0, k == |fs| - 1, k % 2 == 1) {
      if k > 0 {
        assert fs[k] == rest[k - 1];
        assert Shaped(rest[k - 1], id, tid, false, k - 1 == |rest| - 1, true == ((k - 1) % 2 == 0));
      }
    }
  }

  /** The bytes a frame carries, without CRC and tail byte. */
  function Carried(f: Frame): seq<byte>
    requires f.data != []
  {
    var body := f.data[..|f.data| - 1];
    if IsStart(TailOf(f)) && !IsEnd(TailOf(f)) && |body| >= 2 then body[2..] else body
  }

  function AllCarried(fs: seq<Frame>): seq<byte>
    requires forall f | f in fs :: f.data != []
  {
    if fs == [] then [] else Carried(fs[0]) + AllCarried(fs[1..])
  }

  lemma {:induction false} FramesFromCarry(id: bv32, tid: byte, payload: seq<byte>, at: nat, toggle: bool)
    requires at <= |payload|
    ensures forall f | f in FramesFrom(id, tid, payload, at, toggle) :: f.data != []
    ensures AllCarried(FramesFrom(id, tid, payload, at, toggle)) == payload[at..]
    decreases |payload| - at
  {
    if at < |payload| {
      var n := Min(7, |payload| - at);
      var f := NextFrame(id, tid, payload, at, toggle);
      TailByteFields(false, at + n == |payload|, toggle, tid);
      assert Carried(f) == payload[at..at + n];
      FramesFromCarry(id, tid, payload, at + n, !toggle);
      assert payload[at..] == payload[at..at + n] + payload[at + n..];
    }
  }

  /** Nothing is lost, repeated or reordered by fragmentation. */
  lemma {:induction false} FragmentationCarries(id: bv32, tid: byte, crc: bv16, payload: seq<byte>)
    ensures forall f | f in Frames(id, tid, crc, payload) :: f.data != []
    ensures AllCarried(Frames(id, tid, crc, payload)) == payload
  {
    if |payload| < 8 {
      TailByteFields(true, true, false, tid);
      assert Carried(SingleFrame(id, tid, payload)) == payload;
    } else {
      TailByteFields(true, false, false, tid);
      FramesFromCarry(id, tid, payload, 5, true);
      assert Carried(FirstFrame(id, tid, crc, payload)) == payload[..5];
      assert payload == payload[..5] + payload[5..];
    }
  }
}
