/** Both CRCs are remainders of polynomial division. */
module CrcDivision {
  import opened Bytes
  import opened Bits
  import opened Folding
  import opened Polynomials
  import opened Crc
  import C16 = Crc16

  /** The bits of a byte in the order they enter the register. */
  function InOrder(b: bv8, ref: bool): (r: seq<bool>)
    ensures |r| == 8
  {
    if ref then [BitAt(b, 7), BitAt(b, 6), BitAt(b, 5), BitAt(b, 4), BitAt(b, 3), BitAt(b, 2), BitAt(b, 1), BitAt(b, 0)]
    else [BitAt(b, 0), BitAt(b, 1), BitAt(b, 2), BitAt(b, 3), BitAt(b, 4), BitAt(b, 5), BitAt(b, 6), BitAt(b, 7)]
  }

  function MessageBits(data: seq<bv8>, ref: bool): (r: seq<bool>)
    ensures |r| == 8 * |data|
  {
    if data == [] then [] else MessageBits(data[..|data| - 1], ref) + InOrder(data[|data| - 1], ref)
  }

  lemma ReflectedInOrder(b: bv8, ref: bool)
    ensures ByteBits(Reflect8(ref)(b)) == InOrder(b, ref)
  {
    hide Reverse8, BitAt;
    if ref {
      Reverse8Bits(b, 0);
      Reverse8Bits(b, 1);
      Reverse8Bits(b, 2);
      Reverse8Bits(b, 3);
      Reverse8Bits(b, 4);
      Reverse8Bits(b, 5);
      Reverse8Bits(b, 6);
      Reverse8Bits(b, 7);
    }
  }

  // --- Eight bits ----------------------------------------------------------------------------------

  lemma ShiftedXor8(a: bv8, b: bv8, n: nat)
    requires n < 8
    ensures (a ^ b) >> n == (a >> n) ^ (b >> n)
  {
  }

  lemma LowXor8(a: bv8, b: bv8)
    ensures (a ^ b) & 1 == 1 <==> (a & 1 == 1) != (b & 1 == 1)
  {
  }

  lemma XorBit8(a: bv8, b: bv8, k: nat)
    requires k < 8
    ensures BitAt(Xor8(a, b), k) == (BitAt(a, k) != BitAt(b, k))
  {
    ShiftedXor8(a, b, 7 - k);
    LowXor8(a >> (7 - k), b >> (7 - k));
  }

  lemma ByteBitAt(b: bv8, k: nat)
    requires k < 8
    ensures ByteBits(b)[k] == BitAt(b, k)
  {
    hide BitAt;
  }

  lemma XorBits8(a: bv8, b: bv8)
    ensures ByteBits(Xor8(a, b)) == Plus(ByteBits(a), ByteBits(b))
  {
    hide ByteBits, BitAt, Xor8;
    forall k | 0 <= k < 8 ensures ByteBits(Xor8(a, b))[k] == Plus(ByteBits(a), ByteBits(b))[k] {
      XorBit8(a, b, k);
      ByteBitAt(a, k);
      ByteBitAt(b, k);
      ByteBitAt(Xor8(a, b), k);
    }
  }

  lemma ShiftBits8(c: bv8)
    ensures ByteBits(c << 1) == ByteBits(c)[1..] + [false]
    ensures ByteBits(c)[0] <==> c & 0x80 != 0
  {
  }

  lemma RoundBits8(c: bv8, poly: bv8)
    ensures ByteBits(Round8(c, poly)) == Step(ByteBits(c), ByteBits(poly), false)
  {
    hide ByteBits;
    ShiftBits8(c);
    XorBits8(c << 1, poly);
  }

  lemma {:induction false} RoundsBits8(c: bv8, poly: bv8, n: nat)
    ensures ByteBits(Repeat((x: bv8) => Round8(x, poly), c, n)) == Register(ByteBits(c), ByteBits(poly), Zeros(n))
  {
    hide ByteBits, Step, Round8;
    if n > 0 {
      RoundsBits8(c, poly, n - 1);
      RoundBits8(Repeat((x: bv8) => Round8(x, poly), c, n - 1), poly);
      assert Zeros(n)[..n - 1] == Zeros(n - 1);
    }
  }

  lemma AbsorbBits8(c: bv8, b: bv8, poly: bv8, refIn: bool)
    ensures ByteBits(Absorb8(poly, refIn)(c, b)) == Register(ByteBits(c), ByteBits(poly), InOrder(b, refIn))
  {
    hide ByteBits, Step, Round8, Register, InOrder, Reflect8;
    var r := Reflect8(refIn)(b);
    ReflectedInOrder(b, refIn);
    XorBits8(c, r);
    RoundsBits8(Xor8(c, r), poly, 8);
    AllOnTop(ByteBits(c), ByteBits(poly), ByteBits(r));
    assert ByteBits(r) + Zeros(0) == ByteBits(r);
  }

  lemma {:induction false} FoldBits8(data: seq<bv8>, init: bv8, poly: bv8, refIn: bool)
    ensures ByteBits(Fold(Absorb8(poly, refIn), init, data)) == Register(ByteBits(init), ByteBits(poly), MessageBits(data, refIn))
  {
    hide ByteBits, Absorb8, InOrder, Step;
    if data != [] {
      var n := |data| - 1;
      FoldBits8(data[..n], init, poly, refIn);
      AbsorbBits8(Fold(Absorb8(poly, refIn), init, data[..n]), data[n], poly, refIn);
      RegisterInParts(ByteBits(init), ByteBits(poly), MessageBits(data[..n], refIn), InOrder(data[n], refIn));
    }
  }

  lemma ResultBits8(r: bv8, refOut: bool, xorOut: bv8, k: nat)
    requires k < 8
    ensures BitAt(Xor8(Reflect8(refOut)(r), xorOut), k) == (BitAt(r, if refOut then 7 - k else k) != BitAt(xorOut, k))
  {
    var x := Reflect8(refOut)(r);
    XorBit8(x, xorOut, k);
    hide BitAt, Reverse8;
    if refOut {
      Reverse8Bits(r, k);
    }
  }

  /**
   The register is the remainder of the message, moved up by eight, plus the initial value on its first bits, on
   division by x^8 + poly; the flags say in which order bits go in and come out, and xorOut is added at the end.
   */
  lemma Crc8IsRemainder(data: seq<bv8>, poly: bv8, init: bv8, refIn: bool, refOut: bool, xorOut: bv8) returns (r: seq<bool>)
    ensures |r| == 8
    ensures IsRemainder(Dividend(MessageBits(data, refIn), ByteBits(init)), [true] + ByteBits(poly), r)
    ensures forall k :: 0 <= k < 8 ==>
              BitAt(Crc8(data, poly, init, refIn, refOut, xorOut), k) == (r[if refOut then 7 - k else k] != BitAt(xorOut, k))
  {
    hide ByteBits, BitAt, Absorb8, Register, IsRemainder, Dividend, Reflect8;
    var c := Fold(Absorb8(poly, refIn), init, data);
    r := ByteBits(c);
    FoldBits8(data, init, poly, refIn);
    RegisterIsRemainder(ByteBits(init), ByteBits(poly), MessageBits(data, refIn));
    forall k | 0 <= k < 8
      ensures BitAt(Crc8(data, poly, init, refIn, refOut, xorOut), k) == (r[if refOut then 7 - k else k] != BitAt(xorOut, k))
    {
      ResultBits8(c, refOut, xorOut, k);
      ByteBitAt(c, if refOut then 7 - k else k);
    }
  }

  // --- Sixteen bits --------------------------------------------------------------------------------

  predicate BitAt16(c: bv16, k: nat)
    requires k < 16
  {
    (c >> (15 - k)) & 1 == 1
  }

  function WordBits(c: bv16): (r: seq<bool>)
    ensures |r| == 16 && forall k :: 0 <= k < 16 ==> r[k] == BitAt16(c, k)
  {
    seq(16, k requires 0 <= k < 16 => BitAt16(c, k))
  }

  /** bit_lib_reverse_16_fast puts bit k at 15 - k. */
  lemma Reverse16Bits(d: bv16, k: nat)
    requires k < 16
    ensures BitAt16(C16.Reverse16(d), k) == BitAt16(d, 15 - k)
  {
    if k == 0 {} else if k == 1 {} else if k == 2 {} else if k == 3 {} else if k == 4 {} else if k == 5 {}
    else if k == 6 {} else if k == 7 {} else if k == 8 {} else if k == 9 {} else if k == 10 {} else if k == 11 {}
    else if k == 12 {} else if k == 13 {} else if k == 14 {} else {}
  }

  lemma ShiftedXor16(a: bv16, b: bv16, n: nat)
    requires n < 16
    ensures (a ^ b) >> n == (a >> n) ^ (b >> n)
  {
  }

  lemma LowXor16(a: bv16, b: bv16)
    ensures (a ^ b) & 1 == 1 <==> (a & 1 == 1) != (b & 1 == 1)
  {
  }

  lemma XorBit16(a: bv16, b: bv16, k: nat)
    requires k < 16
    ensures BitAt16(C16.Xor16(a, b), k) == (BitAt16(a, k) != BitAt16(b, k))
  {
    ShiftedXor16(a, b, 15 - k);
    LowXor16(a >> (15 - k), b >> (15 - k));
  }

  lemma XorBits16(a: bv16, b: bv16)
    ensures WordBits(C16.Xor16(a, b)) == Plus(WordBits(a), WordBits(b))
  {
    hide BitAt16, C16.Xor16, WordBits;
    forall k | 0 <= k < 16 ensures WordBits(C16.Xor16(a, b))[k] == Plus(WordBits(a), WordBits(b))[k] {
      XorBit16(a, b, k);
    }
  }

  lemma ShiftBit16(c: bv16, k: nat)
    requires k < 16
    ensures BitAt16(c << 1, k) == (k < 15 && BitAt16(c, k + 1))
  {
    if k == 0 {} else if k == 1 {} else if k == 2 {} else if k == 3 {} else if k == 4 {} else if k == 5 {}
    else if k == 6 {} else if k == 7 {} else if k == 8 {} else if k == 9 {} else if k == 10 {} else if k == 11 {}
    else if k == 12 {} else if k == 13 {} else if k == 14 {} else {}
  }

  lemma ShiftBits16(c: bv16)
    ensures WordBits(C16.Shift16(c)) == WordBits(c)[1..] + [false]
    ensures WordBits(c)[0] <==> C16.Top16(c)
  {
    assert BitAt16(c, 0) <==> C16.Top16(c);
    hide BitAt16;
    forall k | 0 <= k < 16 ensures WordBits(C16.Shift16(c))[k] == (WordBits(c)[1..] + [false])[k] {
      ShiftBit16(c, k);
    }
  }

  lemma RoundBits16(c: bv16, poly: bv16, bit: bool)
    ensures WordBits(Feedback(C16.Shift16, C16.Top16, C16.Xor16, poly, c, bit)) == Step(WordBits(c), WordBits(poly), bit)
  {
    hide WordBits, C16.Shift16, C16.Top16, C16.Xor16;
    ShiftBits16(c);
    XorBits16(C16.Shift16(c), poly);
  }

  lemma {:induction false} FedBits16(c: bv16, b: bv8, poly: bv16, j: nat)
    requires j <= 8
    ensures WordBits(C16.Bits16(c, b, poly, j)) == Register(WordBits(c), WordBits(poly), ByteBits(b)[..j])
  {
    hide WordBits, Step, BitAt;
    if j == 0 {
      assert ByteBits(b)[..0] == [];
    } else {
      FedBits16(c, b, poly, j - 1);
      RoundBits16(C16.Bits16(c, b, poly, j - 1), poly, C16.BitsOf(b)(j - 1));
      ByteBitAt(b, j - 1);
      assert ByteBits(b)[..j][..j - 1] == ByteBits(b)[..j - 1];
    }
  }

  lemma AbsorbBits16(c: bv16, b: bv8, poly: bv16, refIn: bool)
    ensures WordBits(C16.Absorb16(poly, refIn)(c, b)) == Register(WordBits(c), WordBits(poly), InOrder(b, refIn))
  {
    hide WordBits, ByteBits, Register, InOrder, Reverse8, C16.Bits16, C16.ReverseThrough16;
    var w := if refIn then C16.ReverseThrough16(b) else b;
    C16.ReverseThrough16Is8(b);
    ReflectedInOrder(b, refIn);
    C16.ByteIsTurn(c, w, poly);
    FedBits16(c, w, poly, 8);
    assert ByteBits(w)[..8] == ByteBits(w);
  }

  lemma {:induction false} FoldBits16(data: seq<bv8>, init: bv16, poly: bv16, refIn: bool)
    ensures WordBits(Fold(C16.Absorb16(poly, refIn), init, data)) == Register(WordBits(init), WordBits(poly), MessageBits(data, refIn))
  {
    hide WordBits, C16.Absorb16, InOrder, Step;
    if data != [] {
      var n := |data| - 1;
      FoldBits16(data[..n], init, poly, refIn);
      AbsorbBits16(Fold(C16.Absorb16(poly, refIn), init, data[..n]), data[n], poly, refIn);
      RegisterInParts(WordBits(init), WordBits(poly), MessageBits(data[..n], refIn), InOrder(data[n], refIn));
    }
  }

  lemma ResultBits16(r: bv16, refOut: bool, xorOut: bv16, k: nat)
    requires k < 16
    ensures BitAt16(C16.Xor16(C16.Reflect16(refOut)(r), xorOut), k) ==
            (BitAt16(r, if refOut then 15 - k else k) != BitAt16(xorOut, k))
  {
    hide BitAt16, C16.Reverse16;
    XorBit16(C16.Reflect16(refOut)(r), xorOut, k);
    if refOut {
      Reverse16Bits(r, k);
    }
  }

  /** The same with sixteen bits. */
  lemma Crc16IsRemainder(data: seq<bv8>, poly: bv16, init: bv16, refIn: bool, refOut: bool, xorOut: bv16) returns (r: seq<bool>)
    ensures |r| == 16
    ensures IsRemainder(Dividend(MessageBits(data, refIn), WordBits(init)), [true] + WordBits(poly), r)
    ensures forall k :: 0 <= k < 16 ==>
              BitAt16(C16.Crc16(data, poly, init, refIn, refOut, xorOut), k) ==
              (r[if refOut then 15 - k else k] != BitAt16(xorOut, k))
  {
    hide BitAt16, C16.Absorb16, Register, IsRemainder, Dividend, C16.Reflect16;
    var c := Fold(C16.Absorb16(poly, refIn), init, data);
    r := WordBits(c);
    FoldBits16(data, init, poly, refIn);
    RegisterIsRemainder(WordBits(init), WordBits(poly), MessageBits(data, refIn));
    forall k | 0 <= k < 16
      ensures BitAt16(C16.Crc16(data, poly, init, refIn, refOut, xorOut), k) ==
              (r[if refOut then 15 - k else k] != BitAt16(xorOut, k))
    {
      ResultBits16(c, refOut, xorOut, k);
    }
  }
}
