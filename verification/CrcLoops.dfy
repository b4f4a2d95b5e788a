/** The CRC routines of lib/bit_lib/bit_lib.c as loops over an accumulator. */
module CrcLoops {
  import opened Bytes
  import opened Bits
  import opened BitWriter
  import opened Folding
  import opened Crc
  import opened Crc16

  lemma ReversedByteBit(b: bv8, r: bv8, k: nat)
    requires IsReversed(AllBits([b]), AllBits([r]), 0, 8) && k < 8
    ensures BitAt(r, k) == BitAt(Reverse8(b), k)
  {
    hide AllBits, Reverse8, BitAt;
    AllBitsAt([b], 7 - k);
    AllBitsAt([r], k);
    Reverse8Bits(b, k);
  }

  /** Reversing a single byte in place with the general routine is the fast reversal. */
  method ReverseByte(b: bv8) returns (r: bv8)
    ensures r == Reverse8(b)
  {
    hide AllBits, Reverse8, BitAt, IsReversed;
    var cell := new bv8[1];
    cell[0] := b;
    assert cell[..] == [b];
    ReverseBits(cell, 0, 8);
    r := cell[0];
    assert cell[..] == [r];
    forall k | 0 <= k < 8 ensures BitAt(r, k) == BitAt(Reverse8(b), k) {
      ReversedByteBit(b, r, k);
    }
    SameBits(r, Reverse8(b));
  }

  /** The inner loop of bit_lib_crc8. */
  method Turn(c: bv8, poly: bv8) returns (r: bv8)
    ensures r == Turn8(poly)(c)
  {
    r := c;
    var j := 8;
    while j > 0
      invariant 0 <= j <= 8 && r == Repeat((x: bv8) => Round8(x, poly), c, 8 - j)
    {
      r := if r & 0x80 != 0 then (r << 1) ^ poly else r << 1;
      j := j - 1;
    }
  }

  lemma FoldStep<R, B>(absorb: (R, B) -> R, init: R, data: seq<B>, i: nat)
    requires i < |data|
    ensures Fold(absorb, init, data[..i + 1]) == absorb(Fold(absorb, init, data[..i]), data[i])
  {
    assert data[..i + 1][..i] == data[..i];
  }

  method ReflectByte(b: bv8, ref: bool) returns (r: bv8)
    ensures r == Reflect8(ref)(b)
  {
    r := b;
    if ref {
      r := ReverseByte(b);
    }
  }

  lemma Absorb8At(poly: bv8, refIn: bool, c: bv8, b: bv8)
    ensures Absorb8(poly, refIn)(c, b) == Turn8(poly)(Xor8(c, Reflect8(refIn)(b)))
  {
  }

  /** bit_lib_crc8. */
  method ComputeCrc8(data: seq<bv8>, poly: bv8, init: bv8, refIn: bool, refOut: bool, xorOut: bv8) returns (crc: bv8)
    ensures crc == Crc8(data, poly, init, refIn, refOut, xorOut)
  {
    crc := init;
    var i := 0;
    while i < |data|
      invariant 0 <= i <= |data| && crc == Fold(Absorb8(poly, refIn), init, data[..i])
    {
      FoldStep(Absorb8(poly, refIn), init, data, i);
      var byte := ReflectByte(data[i], refIn);
      Absorb8At(poly, refIn, crc, data[i]);
      crc := Turn(Xor8(crc, byte), poly);
      i := i + 1;
    }
    assert data[..|data|] == data;
    crc := ReflectByte(crc, refOut);
    crc := Xor8(crc, xorOut);
  }

  /** The inner loop of bit_lib_crc16. */
  method FeedByte(c: bv16, byte: bv8, poly: bv16) returns (r: bv16)
    ensures r == Turn16(poly)(Xor16(c, Lifted(byte, 0)))
  {
    r := c;
    var j := 0;
    while j < 8
      invariant 0 <= j <= 8 && r == Bits16(c, byte, poly, j)
    {
      RoundIsFeedback(r, BitAt(byte, j), poly);
      r := Round16(r, BitAt(byte, j), poly);
      j := j + 1;
    }
    ByteIsTurn(c, byte, poly);
  }

  method ReflectWord(d: bv16, ref: bool) returns (r: bv16)
    ensures r == Reflect16(ref)(d)
  {
    r := if ref then Reverse16(d) else d;
  }

  /** One turn of the outer loop of bit_lib_crc16. */
  method AbsorbByte(c: bv16, b: bv8, poly: bv16, refIn: bool) returns (r: bv16)
    ensures r == Absorb16(poly, refIn)(c, b)
  {
    var byte := if refIn then ReverseThrough16(b) else b;
    r := FeedByte(c, byte, poly);
  }

  /** One turn of the outer loop, on the register of a prefix. */
  method ExtendRegister(data: seq<bv8>, i: nat, c: bv16, poly: bv16, init: bv16, refIn: bool) returns (r: bv16)
    requires i < |data| && c == Fold(Absorb16(poly, refIn), init, data[..i])
    ensures r == Fold(Absorb16(poly, refIn), init, data[..i + 1])
  {
    r := AbsorbByte(c, data[i], poly, refIn);
    FoldStep(Absorb16(poly, refIn), init, data, i);
  }

  lemma FoldNone<R, B>(absorb: (R, B) -> R, init: R, data: seq<B>)
    ensures Fold(absorb, init, data[..0]) == init && data[..|data|] == data
  {
  }

  /** The outer loop of bit_lib_crc16. */
  method Register16(data: seq<bv8>, poly: bv16, init: bv16, refIn: bool) returns (crc: bv16)
    ensures crc == Fold(Absorb16(poly, refIn), init, data)
  {
    FoldNone(Absorb16(poly, refIn), init, data);
    crc := init;
    var i := 0;
    while i < |data|
      invariant 0 <= i <= |data| && crc == Fold(Absorb16(poly, refIn), init, data[..i])
    {
      crc := ExtendRegister(data, i, crc, poly, init, refIn);
      i := i + 1;
    }
  }

  /** bit_lib_crc16. */
  method ComputeCrc16(data: seq<bv8>, poly: bv16, init: bv16, refIn: bool, refOut: bool, xorOut: bv16) returns (crc: bv16)
    ensures crc == Crc16.Crc16(data, poly, init, refIn, refOut, xorOut)
  {
    crc := Register16(data, poly, init, refIn);
    crc := ReflectWord(crc, refOut);
    crc := Xor16(crc, xorOut);
  }
}
