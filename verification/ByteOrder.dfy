/** 32-bit words as four bytes, on machines of either byte order. */
module ByteOrder {
  import opened Bits

  type Byte = b: nat | b < 256

  datatype Endian = Little | Big

  /** The word with the given bytes, lowest first. */
  function Join(b0: Byte, b1: Byte, b2: Byte, b3: Byte): (x: nat)
    ensures x < WORD
  {
    b0 + 256 * (b1 + 256 * (b2 + 256 * b3))
  }

  function ByteAt(x: nat, i: nat): Byte
    requires x < WORD && i < 4
  {
    if i == 0 then x % 256 else if i == 1 then x / 256 % 256 else if i == 2 then x / 65536 % 256 else x / 16777216
  }

  lemma JoinBytes(x: nat)
    requires x < WORD
    ensures x == Join(ByteAt(x, 0), ByteAt(x, 1), ByteAt(x, 2), ByteAt(x, 3))
  {
    var x1, x2 := x / 256, x / 65536;
    assert x2 == x1 / 256 && x / 16777216 == x2 / 256;
    assert x == x % 256 + 256 * x1;
    assert x1 == x1 % 256 + 256 * x2;
    assert x2 == x2 % 256 + 256 * (x2 / 256);
  }

  lemma BytesJoin(b0: Byte, b1: Byte, b2: Byte, b3: Byte)
    ensures var x := Join(b0, b1, b2, b3);
      ByteAt(x, 0) == b0 && ByteAt(x, 1) == b1 && ByteAt(x, 2) == b2 && ByteAt(x, 3) == b3
  {
  }

  function Swap32(x: nat): (y: nat)
    requires x < WORD
    ensures y < WORD
  {
    Join(ByteAt(x, 3), ByteAt(x, 2), ByteAt(x, 1), ByteAt(x, 0))
  }

  /** `htonl` and `ntohl` are the same function on every machine. */
  function Htonl(e: Endian, x: nat): (y: nat)
    requires x < WORD
    ensures y < WORD
  {
    match e
    case Little => Swap32(x)
    case Big => x
  }

  lemma SwapTwice(x: nat)
    requires x < WORD
    ensures Swap32(Swap32(x)) == x
  {
    hide Join, ByteAt;
    BytesJoin(ByteAt(x, 3), ByteAt(x, 2), ByteAt(x, 1), ByteAt(x, 0));
    JoinBytes(x);
  }

  lemma HtonlTwice(e: Endian, x: nat)
    requires x < WORD
    ensures Htonl(e, Htonl(e, x)) == x
  {
    hide Swap32;
    SwapTwice(x);
  }

  /** The bytes of a word in memory. */
  function Store32(e: Endian, x: nat): seq<Byte>
    requires x < WORD
  {
    match e
    case Little => [ByteAt(x, 0), ByteAt(x, 1), ByteAt(x, 2), ByteAt(x, 3)]
    case Big => [ByteAt(x, 3), ByteAt(x, 2), ByteAt(x, 1), ByteAt(x, 0)]
  }

  /** Network byte order. */
  function Network32(x: nat): seq<Byte>
    requires x < WORD
  {
    [ByteAt(x, 3), ByteAt(x, 2), ByteAt(x, 1), ByteAt(x, 0)]
  }

  /** A word kept in network order has its bytes in network order, on either kind of machine. */
  lemma StoreIsNetwork(e: Endian, x: nat)
    requires x < WORD
    ensures Store32(e, Htonl(e, x)) == Network32(x)
    ensures Store32(e, x) == Network32(Htonl(e, x))
  {
    hide Join, ByteAt;
    BytesJoin(ByteAt(x, 3), ByteAt(x, 2), ByteAt(x, 1), ByteAt(x, 0));
  }

  lemma ShiftByte(a: nat)
    ensures Shl(a, 8) == 256 * a
  {
    assert Shl(a, 0) == a;
    assert Shl(a, 4) == 16 * a by { assert Shl(a, 2) == 4 * a; }
    assert Shl(a, 6) == 64 * a;
  }

  lemma PopByte(b: Byte, a: nat)
    ensures PopCount(b + 256 * a) == PopCount(b) + PopCount(a)
  {
    hide PopCount;
    ShiftByte(a);
    ShiftByte(1);
    PopSplit(a, b, 8);
  }

  /** The number of set bits does not depend on the byte order. */
  lemma PopCountSwap(x: nat)
    requires x < WORD
    ensures PopCount(Swap32(x)) == PopCount(x)
  {
    hide ByteAt, PopCount;
    var b0, b1, b2, b3 := ByteAt(x, 0), ByteAt(x, 1), ByteAt(x, 2), ByteAt(x, 3);
    JoinBytes(x);
    PopJoin(b0, b1, b2, b3);
    PopJoin(b3, b2, b1, b0);
  }

  lemma PopJoin(b0: Byte, b1: Byte, b2: Byte, b3: Byte)
    ensures PopCount(Join(b0, b1, b2, b3)) == PopCount(b0) + PopCount(b1) + PopCount(b2) + PopCount(b3)
  {
    hide PopCount;
    PopByte(b2, b3);
    PopByte(b1, b2 + 256 * b3);
    PopByte(b0, b1 + 256 * (b2 + 256 * b3));
  }

  lemma AndByte(b: Byte, a: nat, b': Byte, a': nat)
    ensures And(b + 256 * a, b' + 256 * a') == And(b, b') + 256 * And(a, a')
  {
    hide And;
    ShiftByte(a);
    ShiftByte(a');
    ShiftByte(And(a, a'));
    ShiftByte(1);
    AndSplit(a, b, a', b', 8);
  }

  lemma AndByteBound(a: Byte, b: Byte)
    ensures And(a, b) < 256
  {
    AndBound(a, b);
  }

  function AndBytes(a: Byte, b: Byte): Byte {
    AndByteBound(a, b);
    And(a, b)
  }

  lemma AndJoin(a0: Byte, a1: Byte, a2: Byte, a3: Byte, b0: Byte, b1: Byte, b2: Byte, b3: Byte)
    ensures And(Join(a0, a1, a2, a3), Join(b0, b1, b2, b3))
         == Join(AndBytes(a0, b0), AndBytes(a1, b1), AndBytes(a2, b2), AndBytes(a3, b3))
  {
    hide And;
    AndByte(a2, a3, b2, b3);
    AndByte(a1, a2 + 256 * a3, b1, b2 + 256 * b3);
    AndByte(a0, a1 + 256 * (a2 + 256 * a3), b0, b1 + 256 * (b2 + 256 * b3));
  }

  /** Masking commutes with swapping bytes. */
  lemma AndSwap(x: nat, y: nat)
    requires x < WORD && y < WORD
    ensures And(x, y) < WORD && And(Swap32(x), Swap32(y)) == Swap32(And(x, y))
  {
    hide And, ByteAt, Join, AndBytes;
    var x0, x1, x2, x3 := ByteAt(x, 0), ByteAt(x, 1), ByteAt(x, 2), ByteAt(x, 3);
    var y0, y1, y2, y3 := ByteAt(y, 0), ByteAt(y, 1), ByteAt(y, 2), ByteAt(y, 3);
    JoinBytes(x);
    JoinBytes(y);
    AndBound(x, y);
    AndJoin(x0, x1, x2, x3, y0, y1, y2, y3);
    AndJoin(x3, x2, x1, x0, y3, y2, y1, y0);
    BytesJoin(AndBytes(x0, y0), AndBytes(x1, y1), AndBytes(x2, y2), AndBytes(x3, y3));
  }

  lemma AndHtonl(e: Endian, x: nat, y: nat)
    requires x < WORD && y < WORD
    ensures And(x, y) < WORD && And(Htonl(e, x), Htonl(e, y)) == Htonl(e, And(x, y))
  {
    hide And, Swap32;
    AndSwap(x, y);
  }
}
