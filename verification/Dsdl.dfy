/** Messages as rows of bit fields: what the generated encoders and decoders share. */
module Dsdl {
  import opened Types
  import opened Receiver
  import opened BitCopy
  import opened Scalar

  /** One field of a message. */
  datatype Item = Item(width: nat, value: int)

  /** Where the `n`-th field begins. */
  function OffsetOf(items: seq<Item>, n: nat): nat
    requires n <= |items|
  {
    if n == 0 then 0 else OffsetOf(items, n - 1) + items[n - 1].width
  }

  lemma {:induction false} OffsetsGrow(items: seq<Item>, k: nat, n: nat)
    requires k < n <= |items|
    ensures OffsetOf(items, k) + items[k].width <= OffsetOf(items, n)
  {
    if k < n - 1 {
      OffsetsGrow(items, k, n - 1);
    }
  }

  predicate FieldIs(s: seq<byte>, items: seq<Item>, k: nat)
    requires k < |items|
  {
    OffsetOf(items, k) + items[k].width <= 8 * |s| && FieldNumber(s, OffsetOf(items, k), items[k].width)
        == Encoded(items[k].value, items[k].width)
  }

  /** The first `n` fields are in place. */
  ghost predicate Filled(s: seq<byte>, items: seq<Item>, n: nat)
    requires n <= |items|
  {
    forall k | 0 <= k < n :: FieldIs(s, items, k)
  }

  lemma {:induction false} FilledMore(old': seq<byte>, s: seq<byte>, items: seq<Item>, n: nat)
    requires n < |items| && Filled(old', items, n) && Undisturbed(old', s, OffsetOf(items, n), items[n].width)
    requires FieldIs(s, items, n)
    ensures Filled(s, items, n + 1)
  {
    forall k | 0 <= k < n + 1 ensures FieldIs(s, items, k) {
      if k < n {
        assert FieldIs(old', items, k);
        OffsetsGrow(items, k, n);
        DisjointFields(old', s, OffsetOf(items, n), items[n].width, OffsetOf(items, k), items[k].width);
      }
    }
  }

  /** Bytes behind a field are left alone. */
  lemma {:induction false} BytesBehind(old': seq<byte>, s: seq<byte>, at: nat, len: nat, from: nat)
    requires Undisturbed(old', s, at, len) && at + len <= 8 * from && from <= |s|
    ensures s[from..] == old'[from..]
  {
    forall p | from <= p < |s| ensures s[p] == old'[p] {
      forall j: nat | j < 8 ensures BitOf(s[p], j) == BitOf(old'[p], j) {
        InByte(8 * p + j, p, j);
        assert BitAt(s, 8 * p + j) == BitAt(old', 8 * p + j);
      }
      ByteExtensionality(s[p], old'[p]);
    }
  }

  /** One field written, the offset advanced. */
  method Put(buffer: array<byte>, bitOfs: nat, width: nat, value: int, bigEndian: bool, ghost items: seq<Item>,
             ghost n: nat, ghost size: nat)
    returns (next: nat)
    requires n < |items| && items[n] == Item(width, value) && 1 <= width <= 64 && bitOfs == OffsetOf(items, n)
    requires bitOfs + width <= 8 * size && size <= buffer.Length && Filled(buffer[..], items, n)
    modifies buffer
    ensures next == bitOfs + width == OffsetOf(items, n + 1) && Filled(buffer[..], items, n + 1)
    ensures buffer[size..] == old(buffer[size..])
  {
    ghost var before := buffer[..];
    EncodeScalar(buffer, bitOfs, width, value, bigEndian);
    FilledMore(before, buffer[..], items, n);
    BytesBehind(before, buffer[..], bitOfs, width, size);
    next := bitOfs + width;
  }

  /** `memset` of a buffer's beginning. */
  method Clear(buffer: array<byte>, size: nat)
    requires size <= buffer.Length
    modifies buffer
    ensures buffer[size..] == old(buffer[size..]) && forall i | 0 <= i < size :: buffer[i] == 0
  {
    for i := 0 to size
      invariant forall j | 0 <= j < i :: buffer[j] == 0
      invariant forall j | size <= j < buffer.Length :: buffer[j] == old(buffer[j])
    {
      buffer[i] := 0;
    }
  }

  // ---------------------------------------------------------------- reading

  /** A field of a received message; a field beyond the payload is not written, so the old value stays. */
  function Got(payload: seq<byte>, at: nat, width: nat, signed: bool, before: int): int
    requires 1 <= width <= 64
  {
    if at < 8 * |payload| then Decoded(payload, at, width, signed) else before
  }

  method Get(t: Transfer, at: nat, width: nat, signed: bool, bigEndian: bool, before: int) returns (value: int)
    requires Stocked(t) && 1 <= width <= 64 && (width == 1 ==> !signed)
    ensures value == Got(Payload(t), at, width, signed, before)
  {
    hide Decoded;
    var result, read := DecodeScalar(t, at, width, signed, bigEndian);
    value := if result > 0 then read else before;
  }

  /** A message whose fields are in place is read back, whatever was there before. */
  lemma {:induction false} GotBack(s: seq<byte>, items: seq<Item>, k: nat, signed: bool, before: int)
    requires k < |items| && FieldIs(s, items, k) && 1 <= items[k].width <= 64
    ensures Got(s, OffsetOf(items, k), items[k].width, signed, before) == Recovered(items[k].value, items[k].width,
                                                                                    signed)
  {
    ScalarRoundTrip(s, OffsetOf(items, k), items[k].width, items[k].value, signed);
  }

  /** A field is the same in the part of the buffer that is sent. */
  lemma {:induction false} FieldInPrefix(s: seq<byte>, size: nat, items: seq<Item>, k: nat)
    requires k < |items| && size <= |s| && FieldIs(s, items, k) && OffsetOf(items, k) + items[k].width <= 8 * size
    ensures FieldIs(s[..size], items, k)
  {
    SameField(s[..size], OffsetOf(items, k), s, OffsetOf(items, k), items[k].width);
  }

  lemma {:induction false} FilledPrefix(s: seq<byte>, size: nat, items: seq<Item>)
    requires size <= |s| && Filled(s, items, |items|) && OffsetOf(items, |items|) <= 8 * size
    ensures Filled(s[..size], items, |items|)
  {
    forall k | 0 <= k < |items| ensures FieldIs(s[..size], items, k) {
      OffsetsGrow(items, k, |items|);
      FieldInPrefix(s, size, items, k);
    }
  }
}
