/** Single bytes: their bits, most significant first, and shifts. */
module Bytes {

  predicate BitAt(b: bv8, k: nat)
    requires k < 8
  {
    (b >> (7 - k)) & 1 == 1
  }

  /** The byte that bit_lib_set_bit stores. */
  function WithBit(b: bv8, k: nat, v: bool): bv8
    requires k < 8
  {
    if v then b | (1 << (7 - k)) else b & !(1 << (7 - k))
  }

  lemma WrittenBit(b: bv8, k: nat, v: bool)
    requires k < 8
    ensures BitAt(WithBit(b, k, v), k) == v
  {
    if k == 0 {} else if k == 1 {} else if k == 2 {} else if k == 3 {}
    else if k == 4 {} else if k == 5 {} else if k == 6 {} else {}
  }

  lemma BitSet(b: bv8, k: nat, j: nat)
    requires k < 8 && j < 8 && j != k
    ensures BitAt(b | (1 << (7 - k)), j) == BitAt(b, j)
  {
    OrBit(b, 1 << (7 - k), j);
    assert j == 0 || j == 1 || j == 2 || j == 3 || j == 4 || j == 5 || j == 6 || j == 7;
    if k == 0 {} else if k == 1 {} else if k == 2 {} else if k == 3 {}
    else if k == 4 {} else if k == 5 {} else if k == 6 {} else {}
  }

  lemma BitCleared(b: bv8, k: nat, j: nat)
    requires k < 8 && j < 8 && j != k
    ensures BitAt(b & !(1 << (7 - k)), j) == BitAt(b, j)
  {
    assert j == 0 || j == 1 || j == 2 || j == 3 || j == 4 || j == 5 || j == 6 || j == 7;
    if k == 0 {} else if k == 1 {} else if k == 2 {} else if k == 3 {}
    else if k == 4 {} else if k == 5 {} else if k == 6 {} else {}
  }

  lemma WithBitAt(b: bv8, k: nat, v: bool, j: nat)
    requires k < 8 && j < 8
    ensures BitAt(WithBit(b, k, v), j) == if j == k then v else BitAt(b, j)
  {
    if j == k {
      WrittenBit(b, k, v);
    } else if v {
      BitSet(b, k, j);
    } else {
      BitCleared(b, k, j);
    }
  }

  lemma LeftBit(b: bv8, sh: nat, k: nat)
    requires sh < 8 && k < 8
    ensures BitAt(b << sh, k) == (sh + k < 8 && BitAt(b, sh + k))
  {
    assert k == 0 || k == 1 || k == 2 || k == 3 || k == 4 || k == 5 || k == 6 || k == 7;
    if sh == 0 {} else if sh == 1 {} else if sh == 2 {} else if sh == 3 {}
    else if sh == 4 {} else if sh == 5 {} else if sh == 6 {} else {}
  }

  lemma RightBit(b: bv8, sh: nat, k: nat)
    requires 0 < sh < 8 && k < 8
    ensures BitAt(b >> (8 - sh), k) == (sh + k >= 8 && BitAt(b, sh + k - 8))
  {
    assert k == 0 || k == 1 || k == 2 || k == 3 || k == 4 || k == 5 || k == 6 || k == 7;
    if sh == 1 {} else if sh == 2 {} else if sh == 3 {}
    else if sh == 4 {} else if sh == 5 {} else if sh == 6 {} else {}
  }

  lemma OrBit(a: bv8, b: bv8, k: nat)
    requires k < 8
    ensures BitAt(a | b, k) == (BitAt(a, k) || BitAt(b, k))
  {
    assert k == 0 || k == 1 || k == 2 || k == 3 || k == 4 || k == 5 || k == 6 || k == 7;
  }

  /** Eight bits starting at bit `sh` of two adjacent bytes. */
  function Window(b0: bv8, b1: bv8, sh: nat): bv8
    requires sh < 8
  {
    if sh == 0 then b0 else (b0 << sh) | (b1 >> (8 - sh))
  }

  lemma WindowBit(b0: bv8, b1: bv8, sh: nat, k: nat)
    requires sh < 8 && k < 8
    ensures BitAt(Window(b0, b1, sh), k) == if sh + k < 8 then BitAt(b0, sh + k) else BitAt(b1, sh + k - 8)
  {
    if sh > 0 {
      LeftBit(b0, sh, k);
      RightBit(b1, sh, k);
      OrBit(b0 << sh, b1 >> (8 - sh), k);
    }
  }

  lemma ShiftIn(w: bv8, n: nat)
    requires n < 8
    ensures w >> (7 - n) == ((w >> (8 - n)) << 1) | (if BitAt(w, n) then 1 else 0)
  {
    if n == 0 {} else if n == 1 {} else if n == 2 {} else if n == 3 {}
    else if n == 4 {} else if n == 5 {} else if n == 6 {} else {}
  }

  lemma ShiftedSmall(w: bv8, n: nat)
    requires n < 8
    ensures w >> (8 - n) < 128
  {
  }

  lemma DoublePlus(u: bv8, bit: bv8)
    requires u < 128 && bit <= 1
    ensures ((u << 1) | bit) as int == 2 * (u as int) + (bit as int)
  {
  }

  /** The top `n` bits of a byte, moved to its bottom. */
  function Top(w: bv8, n: nat): bv8
    requires n <= 8
  {
    w >> (8 - n)
  }

  lemma TopStep(w: bv8, n: nat)
    requires n < 8
    ensures Top(w, n + 1) as int == 2 * (Top(w, n) as int) + if BitAt(w, n) then 1 else 0
  {
    ShiftIn(w, n);
    ShiftedSmall(w, n);
    DoublePlus(w >> (8 - n), if BitAt(w, n) then 1 else 0);
  }

  lemma TopNone(w: bv8)
    ensures Top(w, 0) == 0
  {
  }

  /** A byte is determined by its bits. */
  lemma SameBits(a: bv8, b: bv8)
    requires forall k :: 0 <= k < 8 ==> BitAt(a, k) == BitAt(b, k)
    ensures a == b
  {
    assert BitAt(a, 0) == BitAt(b, 0) && BitAt(a, 1) == BitAt(b, 1) && BitAt(a, 2) == BitAt(b, 2) && BitAt(a, 3) == BitAt(b, 3);
    assert BitAt(a, 4) == BitAt(b, 4) && BitAt(a, 5) == BitAt(b, 5) && BitAt(a, 6) == BitAt(b, 6) && BitAt(a, 7) == BitAt(b, 7);
  }
}

/** Bits of byte strings and the values of bit sequences. */
module Bits {
  import opened Bytes

  /** bit_lib_get_bit. */
  predicate GetBit(s: seq<bv8>, p: nat)
    requires p < 8 * |s|
  {
    BitAt(s[p / 8], p % 8)
  }

  function ByteBits(b: bv8): (r: seq<bool>)
    ensures |r| == 8
  {
    [BitAt(b, 0), BitAt(b, 1), BitAt(b, 2), BitAt(b, 3), BitAt(b, 4), BitAt(b, 5), BitAt(b, 6), BitAt(b, 7)]
  }

  /** All bits of a byte string in order. */
  function AllBits(s: seq<bv8>): (r: seq<bool>)
    ensures |r| == 8 * |s|
  {
    if s == [] then [] else AllBits(s[..|s| - 1]) + ByteBits(s[|s| - 1])
  }

  lemma {:induction false} AllBitsAt(s: seq<bv8>, p: nat)
    requires p < 8 * |s|
    ensures AllBits(s)[p] == GetBit(s, p)
  {
    if p < 8 * (|s| - 1) {
      AllBitsAt(s[..|s| - 1], p);
    } else {
      var k := p % 8;
      assert p == 8 * (|s| - 1) + k;
      assert k == 0 || k == 1 || k == 2 || k == 3 || k == 4 || k == 5 || k == 6 || k == 7;
    }
  }

  /** The big-endian value of a bit sequence. */
  function Value(bits: seq<bool>): nat {
    if bits == [] then 0 else 2 * Value(bits[..|bits| - 1]) + if bits[|bits| - 1] then 1 else 0
  }

  function Pow2(n: nat): nat {
    if n == 0 then 1 else 2 * Pow2(n - 1)
  }

  lemma {:induction false} ValueBound(bits: seq<bool>)
    ensures Value(bits) < Pow2(|bits|)
  {
    if bits != [] {
      ValueBound(bits[..|bits| - 1]);
    }
  }

  /** Shift to the left, as repeated doubling. */
  function Shl(x: nat, k: nat): nat {
    if k == 0 then x else 2 * Shl(x, k - 1)
  }

  lemma {:induction false} ValueConcat(a: seq<bool>, b: seq<bool>)
    ensures Value(a + b) == Shl(Value(a), |b|) + Value(b)
  {
    if b == [] {
      assert a + b == a;
    } else {
      ValueConcat(a, b[..|b| - 1]);
      assert (a + b)[..|a + b| - 1] == a + b[..|b| - 1];
    }
  }

  /** Bitwise or of naturals. */
  function Or(x: nat, y: nat): nat {
    if x == 0 && y == 0 then 0 else 2 * Or(x / 2, y / 2) + if x % 2 == 1 || y % 2 == 1 then 1 else 0
  }

  lemma OrZero(x: nat)
    ensures Or(x, 0) == x
  {
  }

  lemma {:induction false} OrDisjoint(x: nat, y: nat, k: nat)
    requires y < Pow2(k)
    ensures Or(Shl(x, k), y) == Shl(x, k) + y
  {
    if k == 0 {
      OrZero(x);
    } else {
      OrDisjoint(x, y / 2, k - 1);
    }
  }

  /** Or-ing more bits, moved up by `k`, under bits moved up past them appends them. */
  lemma {:induction false} OrAppends(a: seq<bool>, b: seq<bool>, k: nat)
    ensures Or(Shl(Value(a), |b| + k), Shl(Value(b), k)) == Shl(Value(a + b), k)
  {
    if k == 0 {
      ValueBound(b);
      OrDisjoint(Value(a), Value(b), |b|);
      ValueConcat(a, b);
    } else {
      OrAppends(a, b, k - 1);
    }
  }

  /** Bit `k` of the byte is element `k` of the sequence. */
  predicate ShowsAt(w: bv8, bits: seq<bool>, k: nat) {
    k < |bits| && k < 8 && bits[k] == BitAt(w, k)
  }

  /** Shifting a byte right leaves the value of its top bits. */
  lemma {:induction false} TopBits(w: bv8, bits: seq<bool>, n: nat)
    requires n <= |bits| && n <= 8 && forall k {:trigger ShowsAt(w, bits, k)} :: 0 <= k < n ==> ShowsAt(w, bits, k)
    ensures Top(w, n) as int == Value(bits[..n])
  {
    if n == 0 {
      TopNone(w);
    } else {
      TopBits(w, bits, n - 1);
      TopStep(w, n - 1);
      assert ShowsAt(w, bits, n - 1);
      assert bits[..n][..n - 1] == bits[..n - 1];
    }
  }
}
