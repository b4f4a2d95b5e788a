/** The 16-bit CRC and reversal of lib/bit_lib/bit_lib.c. */
module Crc16 {
  import opened Bytes
  import opened Folding
  import Crc

  /** bit_lib_reverse_16_fast. */
  function Reverse16(d: bv16): bv16 {
    ((d & 0x8000) >> 15) | ((d & 0x4000) >> 13) | ((d & 0x2000) >> 11) | ((d & 0x1000) >> 9)
    | ((d & 0x0800) >> 7) | ((d & 0x0400) >> 5) | ((d & 0x0200) >> 3) | ((d & 0x0100) >> 1)
    | ((d & 0x0080) << 1) | ((d & 0x0040) << 3) | ((d & 0x0020) << 5) | ((d & 0x0010) << 7)
    | ((d & 0x0008) << 9) | ((d & 0x0004) << 11) | ((d & 0x0002) << 13) | ((d & 0x0001) << 15)
  }

  lemma Reverse16Twice(d: bv16)
    ensures Reverse16(Reverse16(d)) == d
  {
  }

  lemma Reverse16Xor(a: bv16, b: bv16)
    ensures Reverse16(a ^ b) == Reverse16(a) ^ Reverse16(b)
  {
  }

  /** Reversing a byte through the 16-bit routine, as the 16-bit CRC does. */
  function ReverseThrough16(b: bv8): bv8 {
    ((Reverse16(b as bv16) >> 8) & 0xFF) as bv8
  }

  lemma ReverseThrough16Is8(b: bv8)
    ensures ReverseThrough16(b) == Crc.Reverse8(b)
  {
  }

  // --- One byte ------------------------------------------------------------------------------------

  function Xor16(a: bv16, b: bv16): bv16 {
    a ^ b
  }

  lemma Xor16Assoc(a: bv16, b: bv16, c: bv16)
    ensures Xor16(Xor16(a, b), c) == Xor16(a, Xor16(b, c))
  {
  }

  lemma Xor16Group()
    ensures Group(Xor16)
  {
    forall a, b, c ensures AssocAt(Xor16, a, b, c) {
      Xor16Assoc(a, b, c);
    }
  }

  /** One bit of the message against the register's top bit. */
  function Round16(c: bv16, bit: bool, poly: bv16): bv16 {
    if Top16(c) != bit then Xor16(Shift16(c), poly) else Shift16(c)
  }

  function Shift16(c: bv16): bv16 {
    c << 1
  }

  predicate Top16(c: bv16) {
    c & 0x8000 != 0
  }

  /** The bits of a byte, the most significant first. */
  function BitsOf(b: bv8): nat -> bool {
    (i: nat) => i < 8 && BitAt(b, i)
  }

  /** The register after `j` bits of a byte. */
  function Bits16(c: bv16, b: bv8, poly: bv16, j: nat): bv16 {
    Fed(Shift16, Top16, Xor16, poly, c, BitsOf(b), j)
  }

  /** A byte moved to the top of the register, `j` of its bits shifted out. */
  function Lifted(b: bv8, j: nat): bv16
    requires j <= 8
  {
    var w := (b as bv16) << 8;
    if j == 0 then w else if j == 1 then w << 1 else if j == 2 then w << 2 else if j == 3 then w << 3
    else if j == 4 then w << 4 else if j == 5 then w << 5 else if j == 6 then w << 6 else if j == 7 then w << 7 else 0
  }

  lemma LiftedTop(b: bv8, j: nat)
    requires j < 8
    ensures Top16(Lifted(b, j)) == BitAt(b, j)
  {
    if j == 0 {} else if j == 1 {} else if j == 2 {} else if j == 3 {}
    else if j == 4 {} else if j == 5 {} else if j == 6 {} else {}
  }

  lemma LiftedStep(b: bv8, j: nat)
    requires j < 8
    ensures Lifted(b, j + 1) == Shift16(Lifted(b, j))
  {
    if j == 0 {} else if j == 1 {} else if j == 2 {} else if j == 3 {}
    else if j == 4 {} else if j == 5 {} else if j == 6 {} else {}
  }

  lemma ShiftXor16(a: bv16, b: bv16)
    ensures SumKept(Shift16, Xor16, a, b) && TopKept(Top16, Xor16, a, b)
  {
  }

  lemma RoundIsFeedback(c: bv16, bit: bool, poly: bv16)
    ensures Round16(c, bit, poly) == Feedback(Shift16, Top16, Xor16, poly, c, bit)
  {
  }

  /** One round without a message bit. */
  function Spin16(poly: bv16): bv16 -> bv16 {
    (x: bv16) => Feedback(Shift16, Top16, Xor16, poly, x, false)
  }

  /** Eight rounds without message bits. */
  function Turn16(poly: bv16): bv16 -> bv16 {
    (c: bv16) => Repeat(Spin16(poly), c, 8)
  }

  lemma BitsComeOffTheTop(b: bv8, i: nat)
    requires i < 8
    ensures BitsOf(b)(i) == Top16(Lifted(b, i)) && Lifted(b, i + 1) == Shift16(Lifted(b, i))
  {
    LiftedTop(b, i);
    LiftedStep(b, i);
  }

  /** `Lifted` as a function of the number of bits shifted out. */
  function LiftedBy(b: bv8): nat -> bv16 {
    (i: nat) => if i <= 8 then Lifted(b, i) else 0
  }

  lemma ByteOffTheTop(b: bv8)
    ensures forall i: nat {:trigger OffTheTop(Shift16, Top16, BitsOf(b), LiftedBy(b), i)} ::
              i < 8 ==> OffTheTop(Shift16, Top16, BitsOf(b), LiftedBy(b), i)
  {
    forall i: nat | i < 8 ensures OffTheTop(Shift16, Top16, BitsOf(b), LiftedBy(b), i) {
      BitsComeOffTheTop(b, i);
    }
  }

  lemma ShiftsKept16()
    ensures forall x, y {:trigger SumKept(Shift16, Xor16, x, y)} :: SumKept(Shift16, Xor16, x, y)
    ensures forall x, y {:trigger TopKept(Top16, Xor16, x, y)} :: TopKept(Top16, Xor16, x, y)
  {
    forall x, y ensures SumKept(Shift16, Xor16, x, y) && TopKept(Top16, Xor16, x, y) {
      ShiftXor16(x, y);
    }
  }

  lemma LiftedEnds(b: bv8)
    ensures LiftedBy(b)(0) == Lifted(b, 0) && LiftedBy(b)(8) == 0
  {
  }

  lemma FedIsRepeat(c: bv16, b: bv8, poly: bv16)
    ensures Xor16(Bits16(c, b, poly, 8), LiftedBy(b)(8)) == Turn16(poly)(Xor16(c, LiftedBy(b)(0)))
  {
    Xor16Group();
    ShiftsKept16();
    ByteOffTheTop(b);
    FedIsTurned(Shift16, Top16, Xor16, poly, c, BitsOf(b), LiftedBy(b), 8);
  }

  /** One byte of the source's loop is one turn of the register with the byte added on top. */
  lemma ByteIsTurn(c: bv16, b: bv8, poly: bv16)
    ensures Bits16(c, b, poly, 8) == Turn16(poly)(Xor16(c, Lifted(b, 0)))
  {
    var w := Lifted(b, 0);
    FedIsRepeat(c, b, poly);
    LiftedEnds(b);
    XorZero16(Bits16(c, b, poly, 8));
  }

  lemma XorZero16(x: bv16)
    ensures Xor16(x, 0) == x
  {
  }

  lemma Spin16Additive(a: bv16, b: bv16, poly: bv16)
    ensures SumKept(Spin16(poly), Xor16, a, b)
  {
    Xor16Group();
    ShiftXor16(a, b);
    FeedbackAdditive(Shift16, Top16, Xor16, poly, a, b);
  }

  lemma Turn16Additive(poly: bv16, x: bv16, y: bv16)
    ensures SumKept(Turn16(poly), Xor16, x, y)
  {
    forall x, y ensures SumKept(Spin16(poly), Xor16, x, y) {
      Spin16Additive(x, y, poly);
    }
    RepeatAdditive(Spin16(poly), Xor16, x, y, 8);
  }

  // --- CRC-16 of a message ------------------------------------------------------------------------

  function Reflect16(ref: bool): bv16 -> bv16 {
    (d: bv16) => if ref then Reverse16(d) else d
  }

  lemma Reflect16Additive(ref: bool, a: bv16, b: bv16)
    ensures SumKept(Reflect16(ref), Xor16, a, b)
  {
    if ref {
      Reverse16Xor(a, b);
    }
  }

  lemma Reflect16Injective(ref: bool, a: bv16, b: bv16)
    requires Reflect16(ref)(a) == Reflect16(ref)(b)
    ensures a == b
  {
    if ref {
      Reverse16Twice(a);
      Reverse16Twice(b);
    }
  }

  /** A message byte, reflected as asked, on top of the register. */
  function Lift16(refIn: bool): bv8 -> bv16 {
    (b: bv8) => Lifted(if refIn then ReverseThrough16(b) else b, 0)
  }

  lemma Lifted0Xor(a: bv8, b: bv8)
    ensures ((a ^ b) as bv16) << 8 == ((a as bv16) << 8) ^ ((b as bv16) << 8)
    ensures (a as bv16) << 8 == (b as bv16) << 8 ==> a == b
  {
  }

  lemma ReverseThrough16Xor(a: bv8, b: bv8)
    ensures ReverseThrough16(a ^ b) == ReverseThrough16(a) ^ ReverseThrough16(b)
  {
    ReverseThrough16Is8(a);
    ReverseThrough16Is8(b);
    ReverseThrough16Is8(a ^ b);
    Crc.Reverse8Xor(a, b);
  }

  lemma Lift16Additive(refIn: bool, a: bv8, b: bv8)
    ensures LiftKept(Lift16(refIn), Xor16, Crc.Xor8, a, b)
  {
    if refIn {
      ReverseThrough16Xor(a, b);
      Lifted0Xor(ReverseThrough16(a), ReverseThrough16(b));
    } else {
      Lifted0Xor(a, b);
    }
  }

  function Absorb16(poly: bv16, refIn: bool): (bv16, bv8) -> bv16 {
    Absorb(Turn16(poly), Xor16, Lift16(refIn))
  }

  function Crc16(data: seq<bv8>, poly: bv16, init: bv16, refIn: bool, refOut: bool, xorOut: bv16): bv16 {
    Digest(Absorb16(poly, refIn), Reflect16(refOut), Xor16, xorOut, init, data)
  }

  lemma Absorb16Additive(poly: bv16, refIn: bool)
    ensures Additive(Absorb16(poly, refIn), Xor16, Crc.Xor8)
  {
    Xor16Group();
    forall x, y ensures SumKept(Turn16(poly), Xor16, x, y) {
      Turn16Additive(poly, x, y);
    }
    forall a, b ensures LiftKept(Lift16(refIn), Xor16, Crc.Xor8, a, b) {
      Lift16Additive(refIn, a, b);
    }
    AbsorbAdditive(Turn16(poly), Xor16, Lift16(refIn), Crc.Xor8);
  }

  /** CRC-16 is affine: the CRC of the sum of three messages is the sum of their CRCs. */
  lemma Crc16Affine(a: seq<bv8>, b: seq<bv8>, c: seq<bv8>, poly: bv16, i: bv16, j: bv16, k: bv16, refIn: bool, refOut: bool, xorOut: bv16)
    requires |a| == |b| == |c|
    ensures Crc16(Zip(Crc.Xor8, Zip(Crc.Xor8, a, b), c), poly, Xor16(Xor16(i, j), k), refIn, refOut, xorOut) ==
            Xor16(Xor16(Crc16(a, poly, i, refIn, refOut, xorOut), Crc16(b, poly, j, refIn, refOut, xorOut)),
                  Crc16(c, poly, k, refIn, refOut, xorOut))
  {
    Xor16Group();
    Absorb16Additive(poly, refIn);
    forall x, y ensures SumKept(Reflect16(refOut), Xor16, x, y) {
      Reflect16Additive(refOut, x, y);
    }
    DigestAffine(Absorb16(poly, refIn), Reflect16(refOut), Xor16, Crc.Xor8, xorOut, i, j, k, a, b, c);
  }

  // --- Corruption of a single byte ------------------------------------------------------------------

  /** `m` covers the zero bits below the lowest one of the polynomial, at most eight of them. */
  ghost predicate MaskFor(poly: bv16, m: bv16) {
    poly & m == 0 && poly & (m + 1) != 0 && Low(m)
  }

  ghost predicate Low(m: bv16) {
    m == 0 || m == 1 || m == 3 || m == 7 || m == 15 || m == 31 || m == 63 || m == 127 || m == 255
  }

  lemma FindMask(poly: bv16) returns (m: bv16)
    requires poly & 0x1FF != 0
    ensures MaskFor(poly, m)
  {
    m := if poly & 1 != 0 then 0 else if poly & 2 != 0 then 1 else if poly & 4 != 0 then 3 else if poly & 8 != 0 then 7
         else if poly & 16 != 0 then 15 else if poly & 32 != 0 then 31 else if poly & 64 != 0 then 63
         else if poly & 128 != 0 then 127 else 255;
  }

  /** A difference of registers that has no bit under the mask. */
  function Clear(m: bv16): bv16 -> bool {
    (d: bv16) => d != 0 && d & m == 0
  }

  /** One round turns such a difference into another one: the bit above the mask is set only in the polynomial. */
  lemma RoundStaysClear(d: bv16, poly: bv16, m: bv16)
    requires MaskFor(poly, m) && d != 0 && d & m == 0
    ensures if d & 0x8000 != 0 then (d << 1) ^ poly != 0 && ((d << 1) ^ poly) & m == 0 else d << 1 != 0 && (d << 1) & m == 0
  {
    if m == 0 {} else if m == 1 {} else if m == 3 {} else if m == 7 {} else if m == 15 {}
    else if m == 31 {} else if m == 63 {} else if m == 127 {} else {}
  }

  lemma SpinStaysClear(d: bv16, poly: bv16, m: bv16)
    requires MaskFor(poly, m)
    ensures StaysIn(Spin16(poly), Clear(m), d)
  {
    if Clear(m)(d) {
      RoundStaysClear(d, poly, m);
    }
  }

  lemma TurnStaysClear(d: bv16, poly: bv16, m: bv16)
    requires MaskFor(poly, m)
    ensures StaysIn(Turn16(poly), Clear(m), d)
  {
    forall x ensures StaysIn(Spin16(poly), Clear(m), x) {
      SpinStaysClear(x, poly, m);
    }
    if Clear(m)(d) {
      RepeatStaysIn(Spin16(poly), Clear(m), d, 8);
    }
  }

  /** Bytes meet the register above the mask. */
  lemma BytesClear(a: bv8, b: bv8, m: bv16)
    requires a != b && Low(m)
    ensures ((a as bv16) << 8) ^ ((b as bv16) << 8) != 0 && (((a as bv16) << 8) ^ ((b as bv16) << 8)) & m == 0
  {
  }

  lemma ReflectedDiffer(refIn: bool, a: bv8, b: bv8)
    requires a != b
    ensures (if refIn then ReverseThrough16(a) else a) != (if refIn then ReverseThrough16(b) else b)
  {
    ReverseThrough16Is8(a);
    ReverseThrough16Is8(b);
    Crc.Reverse8Twice(a);
    Crc.Reverse8Twice(b);
  }

  lemma LiftedDiffer(refIn: bool, a: bv8, b: bv8) returns (x: bv8, y: bv8)
    requires a != b
    ensures x != y && Lift16(refIn)(a) == Lifted(x, 0) && Lift16(refIn)(b) == Lifted(y, 0)
  {
    x := if refIn then ReverseThrough16(a) else a;
    y := if refIn then ReverseThrough16(b) else b;
    ReflectedDiffer(refIn, a, b);
  }

  lemma LiftedClear(a: bv8, b: bv8, m: bv16)
    requires a != b && Low(m)
    ensures Clear(m)(Xor16(Lifted(a, 0), Lifted(b, 0)))
  {
    BytesClear(a, b, m);
  }

  lemma LiftsClear(refIn: bool, a: bv8, b: bv8, m: bv16)
    requires Low(m)
    ensures TakenApart(Lift16(refIn), Xor16, Clear(m), a, b)
  {
    if a != b {
      var x, y := LiftedDiffer(refIn, a, b);
      LiftedClear(x, y, m);
    }
  }

  lemma Absorb16Separates(poly: bv16, refIn: bool, m: bv16)
    requires MaskFor(poly, m)
    ensures Separates(Absorb16(poly, refIn), Apart(Xor16, Clear(m)))
  {
    Xor16Group();
    forall x, y ensures SumKept(Turn16(poly), Xor16, x, y) {
      Turn16Additive(poly, x, y);
    }
    forall d ensures StaysIn(Turn16(poly), Clear(m), d) {
      TurnStaysClear(d, poly, m);
    }
    forall a, b ensures TakenApart(Lift16(refIn), Xor16, Clear(m), a, b) {
      LiftsClear(refIn, a, b, m);
    }
    AbsorbSeparates(Turn16(poly), Xor16, Lift16(refIn), Clear(m));
  }

  lemma ClearDiffer(m: bv16, x: bv16, y: bv16)
    requires Apart(Xor16, Clear(m))(x, y)
    ensures x != y
  {
    assert Clear(m)(Xor16(x, y));
    assert Xor16(x, y) != 0;
  }

  /** A polynomial with any of its low nine bits set, so any odd one, shows every corruption of a single byte. */
  lemma Crc16DetectsOneByte(a: seq<bv8>, b: seq<bv8>, k: nat, poly: bv16, init: bv16, refIn: bool, refOut: bool, xorOut: bv16)
    requires poly & 0x1FF != 0 && DifferInOne(a, b, k)
    ensures Crc16(a, poly, init, refIn, refOut, xorOut) != Crc16(b, poly, init, refIn, refOut, xorOut)
  {
    Xor16Group();
    var m := FindMask(poly);
    Absorb16Separates(poly, refIn, m);
    FoldSeparates(Absorb16(poly, refIn), Apart(Xor16, Clear(m)), init, a, b, k);
    ClearDiffer(m, Fold(Absorb16(poly, refIn), init, a), Fold(Absorb16(poly, refIn), init, b));
    forall x, y | Reflect16(refOut)(x) == Reflect16(refOut)(y) ensures x == y {
      Reflect16Injective(refOut, x, y);
    }
    DigestDiffers(Absorb16(poly, refIn), Reflect16(refOut), Xor16, xorOut, init, a, b);
  }

  /** The byte that such a polynomial swallows in one round. */
  function Swallowed(poly: bv16): bv8 {
    (0x80 | ((poly >> 9) & 0x7F)) as bv8
  }

  lemma SwallowedVanishes(poly: bv16)
    requires poly & 0x1FF == 0
    ensures var w := (((0x80 | ((poly >> 9) & 0x7F)) as bv8) as bv16) << 8;
            w & 0x8000 != 0 && (w << 1) ^ poly == 0
    ensures (0x80 | ((poly >> 9) & 0x7F)) as bv8 != 0
  {
  }

  lemma {:induction false} VanishesInRounds(poly: bv16, x: bv16, n: nat)
    requires Spin16(poly)(x) == 0
    ensures Repeat(Spin16(poly), x, n + 1) == 0
  {
    if n == 0 {
      assert Repeat(Spin16(poly), x, 0) == x;
    } else {
      VanishesInRounds(poly, x, n - 1);
    }
  }

  lemma SwallowedTurns(poly: bv16, c: bv16)
    requires poly & 0x1FF == 0
    ensures Turn16(poly)(Xor16(c, Lifted(Swallowed(poly), 0))) == Turn16(poly)(c)
  {
    var w := Lifted(Swallowed(poly), 0);
    SwallowedVanishes(poly);
    VanishesInRounds(poly, w, 7);
    Turn16Additive(poly, c, w);
    assert SumKept(Turn16(poly), Xor16, c, w);
    XorZero16(Turn16(poly)(c));
  }

  lemma OneByte16(poly: bv16, init: bv16, refIn: bool, a: bv8)
    ensures Fold(Absorb16(poly, refIn), init, [a]) == Turn16(poly)(Xor16(init, Lift16(refIn)(a)))
  {
    assert [a][..0] == [];
    assert Fold(Absorb16(poly, refIn), init, [a]) == Absorb16(poly, refIn)(Fold(Absorb16(poly, refIn), init, []), a);
  }

  lemma LiftOfReflected(refIn: bool, w: bv8)
    ensures Lift16(refIn)(if refIn then ReverseThrough16(w) else w) == Lifted(w, 0)
    ensures Lift16(refIn)(0) == 0
  {
    ReverseThrough16Is8(0);
    ReverseThrough16Is8(w);
    ReverseThrough16Is8(Crc.Reverse8(w));
    Crc.Reverse8Twice(w);
  }

  /** Without one of those nine bits, some corruption of a single byte is missed. */
  lemma Crc16Misses(poly: bv16, init: bv16, refIn: bool, refOut: bool, xorOut: bv16) returns (b: bv8)
    requires poly & 0x1FF == 0
    ensures b != 0 && Crc16([0], poly, init, refIn, refOut, xorOut) == Crc16([b], poly, init, refIn, refOut, xorOut)
  {
    var w := Swallowed(poly);
    b := if refIn then ReverseThrough16(w) else w;
    SwallowedVanishes(poly);
    SwallowedTurns(poly, init);
    LiftOfReflected(refIn, w);
    OneByte16(poly, init, refIn, 0);
    OneByte16(poly, init, refIn, b);
    XorZero16(init);
    if b == 0 {
      ReflectedDiffer(refIn, w, 0);
      assert false;
    }
  }

  /** Detecting every corruption of a single byte is exactly having one of the low nine bits set. */
  lemma Crc16DetectsIff(poly: bv16, init: bv16, refIn: bool, refOut: bool, xorOut: bv16)
    ensures (forall a, b, k {:trigger DifferInOne(a, b, k)} :: DifferInOne(a, b, k) ==>
               Crc16(a, poly, init, refIn, refOut, xorOut) != Crc16(b, poly, init, refIn, refOut, xorOut))
            <==> poly & 0x1FF != 0
  {
    if poly & 0x1FF != 0 {
      forall a, b, k | DifferInOne(a, b, k)
        ensures Crc16(a, poly, init, refIn, refOut, xorOut) != Crc16(b, poly, init, refIn, refOut, xorOut)
      {
        Crc16DetectsOneByte(a, b, k, poly, init, refIn, refOut, xorOut);
      }
    } else {
      var b := Crc16Misses(poly, init, refIn, refOut, xorOut);
      assert DifferInOne([0], [b], 0);
    }
  }
}
