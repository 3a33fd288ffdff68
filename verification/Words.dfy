/** Machine words put together from bytes, and the numbers they are. */
module Words {
  import opened Types

  function Word16(a: byte, b: byte): bv16 {
    ((a as bv16) << 8) | (b as bv16)
  }

  function Word32(a: byte, b: byte, c: byte, d: byte): bv32 {
    ((a as bv32) << 24) | ((b as bv32) << 16) | ((c as bv32) << 8) | (d as bv32)
  }

  lemma {:induction false} Joined16(a: byte, b: byte, w: bv16)
    requires w == ((a as bv16) << 8) | (b as bv16)
    ensures w as nat == a as nat * 0x100 + b as nat
  {
  }

  lemma {:induction false} Joined32(a: byte, b: byte, c: byte, d: byte, w: bv32)
    requires w == ((a as bv32) << 24) | ((b as bv32) << 16) | ((c as bv32) << 8) | (d as bv32)
    ensures w as nat == a as nat * 0x100_0000 + b as nat * 0x1_0000 + c as nat * 0x100 + d as nat
  {
  }

  lemma {:induction false} Number16(a: byte, b: byte)
    ensures Word16(a, b) as nat == a as nat * 0x100 + b as nat
  {
    Joined16(a, b, Word16(a, b));
  }

  lemma {:induction false} Number32(a: byte, b: byte, c: byte, d: byte)
    ensures Word32(a, b, c, d) as nat == a as nat * 0x100_0000 + b as nat * 0x1_0000 + c as nat * 0x100 + d as nat
  {
    Joined32(a, b, c, d, Word32(a, b, c, d));
  }

  function High(w: bv16): byte {
    (w >> 8) as byte
  }

  function Low(w: bv16): byte {
    (w & 0xFF) as byte
  }

  lemma {:induction false} Paired(w: bv16)
    ensures w == Word16(High(w), Low(w))
  {
  }

  lemma {:induction false} PairNumber(w: bv16)
    ensures w as nat == High(w) as nat * 0x100 + Low(w) as nat
    ensures High(w) as nat < 0x100 && Low(w) as nat < 0x100
  {
    hide *;
    Paired(w);
    Number16(High(w), Low(w));
    ByteFits(High(w));
    ByteFits(Low(w));
  }

  lemma {:induction false} ByteNumbers(a: byte, b: byte)
    ensures a == b <==> a as nat == b as nat
  {
  }

  lemma {:induction false} PartsOf(n: nat, h: nat, l: nat)
    requires n == h * 0x100 + l && l < 0x100
    ensures h == n / 0x100 && l == n % 0x100
  {
  }

  lemma {:induction false} Halves(w: bv16)
    ensures High(w) as nat == w as nat / 0x100 && Low(w) as nat == w as nat % 0x100
  {
    hide *;
    PairNumber(w);
    PartsOf(w as nat, High(w) as nat, Low(w) as nat);
  }

  /** Equal numbers are equal words. */
  lemma {:induction false} WordNumbers(a: bv16, b: bv16)
    ensures a == b <==> a as nat == b as nat
  {
    hide *;
    if a as nat == b as nat {
      SameHalves(a, b);
      Paired(a);
      Paired(b);
    }
  }

  lemma {:induction false} SameHalves(a: bv16, b: bv16)
    requires a as nat == b as nat
    ensures High(a) == High(b) && Low(a) == Low(b)
  {
    hide *;
    Halves(a);
    Halves(b);
    ByteNumbers(High(a), High(b));
    ByteNumbers(Low(a), Low(b));
  }

  /** The bytes of a word, the most significant one first. */
  datatype Four = Four(a: byte, b: byte, c: byte, d: byte)

  function BytesOf(w: bv32): Four {
    Four((w >> 24) as byte, ((w >> 16) & 0xFF) as byte, ((w >> 8) & 0xFF) as byte, (w & 0xFF) as byte)
  }

  lemma {:induction false} Joined(w: bv32)
    ensures var q := BytesOf(w); w == Word32(q.a, q.b, q.c, q.d)
  {
  }

  lemma {:induction false} ByteFits(b: byte)
    ensures b as nat < 0x100
  {
  }

  lemma {:induction false} BytesNumber(w: bv32)
    ensures var q := BytesOf(w);
      w as nat == q.a as nat * 0x100_0000 + q.b as nat * 0x1_0000 + q.c as nat * 0x100 + q.d as nat
  {
    hide *;
    Joined(w);
    var q := BytesOf(w);
    Number32(q.a, q.b, q.c, q.d);
  }
}
