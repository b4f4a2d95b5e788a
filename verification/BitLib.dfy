/** The bit library of lib/bit_lib/bit_lib.c: extraction, in-place writing, parity and compaction. */
module BitLib {
  import opened Bytes
  import opened Bits

  // --- Extraction ------------------------------------------------------------------------------

  /** The byte whose top bits are the bits from `shift` on of two adjacent bytes. */
  function FieldOf(b0: bv8, b1: bv8, shift: nat, n: nat): bv8
    requires shift < 8 && 1 <= n <= 8
  {
    if shift == 0 then b0
    else if shift + n <= 8 then b0 << shift
    else (b0 << shift) | (b1 >> (8 - shift))
  }

  lemma FieldOfBit(b0: bv8, b1: bv8, shift: nat, n: nat, k: nat)
    requires shift < 8 && 1 <= n <= 8 && k < n
    ensures BitAt(FieldOf(b0, b1, shift, n), k) == if shift + k < 8 then BitAt(b0, shift + k) else BitAt(b1, shift + k - 8)
  {
    if shift > 0 && shift + n <= 8 {
      LeftBit(b0, shift, k);
    } else if shift > 0 {
      WindowBit(b0, b1, shift, k);
    }
  }

  /** The next byte is read only when the bits reach into it. */
  function Field(s: seq<bv8>, p: nat, n: nat): bv8
    requires 1 <= n <= 8 && p + n <= 8 * |s|
  {
    FieldOf(s[p / 8], if p % 8 + n > 8 then s[p / 8 + 1] else 0, p % 8, n)
  }

  /** bit_lib_get_bits. */
  function GetBits(s: seq<bv8>, p: nat, n: nat): bv8
    requires 1 <= n <= 8 && p + n <= 8 * |s|
  {
    Top(Field(s, p, n), n)
  }

  lemma Locate(p: nat, k: nat)
    requires k < 8
    ensures p % 8 + k < 8 ==> (p + k) / 8 == p / 8 && (p + k) % 8 == p % 8 + k
    ensures p % 8 + k >= 8 ==> (p + k) / 8 == p / 8 + 1 && (p + k) % 8 == p % 8 + k - 8
  {
  }

  lemma FieldBit(s: seq<bv8>, p: nat, n: nat, k: nat)
    requires 1 <= n <= 8 && p + n <= 8 * |s| && k < n
    ensures BitAt(Field(s, p, n), k) == GetBit(s, p + k)
  {
    Locate(p, k);
    FieldOfBit(s[p / 8], if p % 8 + n > 8 then s[p / 8 + 1] else 0, p % 8, n, k);
  }

  lemma FieldBitValue(s: seq<bv8>, p: nat, n: nat, k: nat) returns (x: bool)
    requires 1 <= n <= 8 && p + n <= 8 * |s| && k < n
    ensures x == BitAt(Field(s, p, n), k) && x == AllBits(s)[p + k]
  {
    x := GetBit(s, p + k);
    FieldBit(s, p, n, k);
    AllBitsAt(s, p + k);
  }

  lemma ShownInSlice(w: bv8, bits: seq<bool>, p: nat, n: nat, k: nat, x: bool)
    requires k < n <= 8 && p + n <= |bits| && x == bits[p + k] && x == BitAt(w, k)
    ensures ShowsAt(w, bits[p..p + n], k)
  {
  }

  lemma FieldShowsBit(s: seq<bv8>, p: nat, n: nat, k: nat)
    requires 1 <= n <= 8 && p + n <= 8 * |s| && k < n
    ensures ShowsAt(Field(s, p, n), AllBits(s)[p..p + n], k)
  {
    var x := FieldBitValue(s, p, n, k);
    ShownInSlice(Field(s, p, n), AllBits(s), p, n, k, x);
  }

  lemma GetBitsValue(s: seq<bv8>, p: nat, n: nat)
    requires 1 <= n <= 8 && p + n <= 8 * |s|
    ensures GetBits(s, p, n) as int == Value(AllBits(s)[p..p + n])
  {
    var bits := AllBits(s)[p..p + n];
    forall k | 0 <= k < n ensures ShowsAt(Field(s, p, n), bits, k) {
      FieldShowsBit(s, p, n, k);
    }
    TopBits(Field(s, p, n), bits, n);
    assert bits[..n] == bits;
  }

  // --- Wide extraction, a ladder of reads of at most eight bits ------------------------------------

  /** Position and length of a narrow read to its value. */
  type Reader = (nat, nat) -> nat

  function ByteReader(s: seq<bv8>): Reader {
    (p: nat, n: nat) => if 1 <= n <= 8 && p + n <= 8 * |s| then GetBits(s, p, n) as int else 0
  }

  /** bit_lib_get_bits_16. */
  function Ladder16(r: Reader, p: nat, n: nat): nat
    requires 1 <= n <= 16
  {
    if n <= 8 then r(p, n) else Or(Shl(r(p, 8), n - 8), r(p + 8, n - 8))
  }

  /** bit_lib_get_bits_32. */
  function Ladder32(r: Reader, p: nat, n: nat): nat
    requires 1 <= n <= 32
  {
    if n <= 8 then r(p, n)
    else
      var v1 := Shl(r(p, 8), n - 8);
      if n <= 16 then Or(v1, r(p + 8, n - 8))
      else
        var v2 := Or(v1, Shl(r(p + 8, 8), n - 16));
        if n <= 24 then Or(v2, r(p + 16, n - 16))
        else Or(Or(v2, Shl(r(p + 16, 8), n - 24)), r(p + 24, n - 24))
  }

  /** The first four bytes of a read of more than 32 bits. */
  function FourBytes(r: Reader, p: nat, n: nat): nat
    requires 32 <= n
  {
    Or(Or(Or(Shl(r(p, 8), n - 8), Shl(r(p + 8, 8), n - 16)), Shl(r(p + 16, 8), n - 24)), Shl(r(p + 24, 8), n - 32))
  }

  /** ... and the bits that follow them. */
  function AfterFourBytes(r: Reader, p: nat, n: nat, v4: nat): nat
    requires 32 < n <= 64
  {
    if n <= 40 then Or(v4, r(p + 32, n - 32))
    else
      var v5 := Or(v4, Shl(r(p + 32, 8), n - 40));
      if n <= 48 then Or(v5, r(p + 40, n - 40)) else AfterSixBytes(r, p, n, Or(v5, Shl(r(p + 40, 8), n - 48)))
  }

  function AfterSixBytes(r: Reader, p: nat, n: nat, v6: nat): nat
    requires 48 < n <= 64
  {
    if n <= 56 then Or(v6, r(p + 48, n - 48))
    else Or(Or(v6, Shl(r(p + 48, 8), n - 56)), r(p + 56, n - 56))
  }

  /** bit_lib_get_bits_64. */
  function Ladder64(r: Reader, p: nat, n: nat): nat
    requires 1 <= n <= 64
  {
    if n <= 32 then Ladder32(r, p, n) else AfterFourBytes(r, p, n, FourBytes(r, p, n))
  }

  /** Narrow reads give the values of the bits. */
  ghost predicate Reads(r: Reader, bits: seq<bool>) {
    forall p: nat, n: nat {:trigger ReadsAt(r, bits, p, n)} :: ReadsAt(r, bits, p, n)
  }

  ghost predicate ReadsAt(r: Reader, bits: seq<bool>, p: nat, n: nat) {
    1 <= n <= 8 && p + n <= |bits| ==> r(p, n) == Value(bits[p..p + n])
  }

  /** `value` is the bits `p..i`, in place within a read that ends at `end`. */
  ghost predicate ReadTo(bits: seq<bool>, p: nat, i: nat, end: nat, value: nat) {
    p <= i <= end <= |bits| && value == Shl(Value(bits[p..i]), end - i)
  }

  lemma ReadOn(r: Reader, bits: seq<bool>, p: nat, i: nat, end: nat, value: nat)
    requires Reads(r, bits) && ReadTo(bits, p, i, end, value) && i + 8 <= end
    ensures ReadTo(bits, p, i + 8, end, Or(value, Shl(r(i, 8), end - i - 8)))
  {
    assert ReadsAt(r, bits, i, 8);
    OrAppends(bits[p..i], bits[i..i + 8], end - i - 8);
    assert bits[p..i] + bits[i..i + 8] == bits[p..i + 8];
  }

  lemma ReadEnd(r: Reader, bits: seq<bool>, p: nat, i: nat, end: nat, value: nat)
    requires Reads(r, bits) && ReadTo(bits, p, i, end, value) && 1 <= end - i <= 8
    ensures Or(value, r(i, end - i)) == Value(bits[p..end])
  {
    assert ReadsAt(r, bits, i, end - i);
    OrAppends(bits[p..i], bits[i..end], 0);
    assert bits[p..i] + bits[i..end] == bits[p..end];
  }

  lemma Ladder16Value(r: Reader, bits: seq<bool>, p: nat, n: nat)
    requires Reads(r, bits) && 1 <= n <= 16 && p + n <= |bits|
    ensures Ladder16(r, p, n) == Value(bits[p..p + n])
  {
    hide Value, Shl, Or;
    assert ReadsAt(r, bits, p, if n < 8 then n else 8);
    if n > 8 {
      ReadEnd(r, bits, p, p + 8, p + n, Shl(r(p, 8), n - 8));
    }
  }

  lemma Ladder32Value(r: Reader, bits: seq<bool>, p: nat, n: nat)
    requires Reads(r, bits) && 1 <= n <= 32 && p + n <= |bits|
    ensures Ladder32(r, p, n) == Value(bits[p..p + n])
  {
    hide Value, Shl, Or;
    assert ReadsAt(r, bits, p, if n < 8 then n else 8);
    if n > 8 {
      var v1 := Shl(r(p, 8), n - 8);
      if n <= 16 {
        ReadEnd(r, bits, p, p + 8, p + n, v1);
      } else {
        ReadOn(r, bits, p, p + 8, p + n, v1);
        var v2 := Or(v1, Shl(r(p + 8, 8), n - 16));
        if n <= 24 {
          ReadEnd(r, bits, p, p + 16, p + n, v2);
        } else {
          ReadOn(r, bits, p, p + 16, p + n, v2);
          ReadEnd(r, bits, p, p + 24, p + n, Or(v2, Shl(r(p + 16, 8), n - 24)));
        }
      }
    }
  }

  lemma FourBytesRead(r: Reader, bits: seq<bool>, p: nat, n: nat)
    requires Reads(r, bits) && 32 <= n && p + n <= |bits|
    ensures ReadTo(bits, p, p + 32, p + n, FourBytes(r, p, n))
  {
    hide Value, Shl, Or;
    assert ReadsAt(r, bits, p, 8);
    var v1 := Shl(r(p, 8), n - 8);
    ReadOn(r, bits, p, p + 8, p + n, v1);
    var v2 := Or(v1, Shl(r(p + 8, 8), n - 16));
    ReadOn(r, bits, p, p + 16, p + n, v2);
    var v3 := Or(v2, Shl(r(p + 16, 8), n - 24));
    ReadOn(r, bits, p, p + 24, p + n, v3);
  }

  lemma AfterSixBytesValue(r: Reader, bits: seq<bool>, p: nat, n: nat, v6: nat)
    requires Reads(r, bits) && 48 < n <= 64 && ReadTo(bits, p, p + 48, p + n, v6)
    ensures AfterSixBytes(r, p, n, v6) == Value(bits[p..p + n])
  {
    hide Value, Shl, Or, Reads, ReadTo;
    if n <= 56 {
      ReadEnd(r, bits, p, p + 48, p + n, v6);
    } else {
      ReadOn(r, bits, p, p + 48, p + n, v6);
      ReadEnd(r, bits, p, p + 56, p + n, Or(v6, Shl(r(p + 48, 8), n - 56)));
    }
  }

  lemma AfterFourBytesValue(r: Reader, bits: seq<bool>, p: nat, n: nat, v4: nat)
    requires Reads(r, bits) && 32 < n <= 64 && ReadTo(bits, p, p + 32, p + n, v4)
    ensures AfterFourBytes(r, p, n, v4) == Value(bits[p..p + n])
  {
    hide Value, Shl, Or, Reads, ReadTo;
    if n <= 40 {
      ReadEnd(r, bits, p, p + 32, p + n, v4);
    } else {
      ReadOn(r, bits, p, p + 32, p + n, v4);
      var v5 := Or(v4, Shl(r(p + 32, 8), n - 40));
      if n <= 48 {
        ReadEnd(r, bits, p, p + 40, p + n, v5);
      } else {
        ReadOn(r, bits, p, p + 40, p + n, v5);
        AfterSixBytesValue(r, bits, p, n, Or(v5, Shl(r(p + 40, 8), n - 48)));
      }
    }
  }

  lemma Ladder64Value(r: Reader, bits: seq<bool>, p: nat, n: nat)
    requires Reads(r, bits) && 1 <= n <= 64 && p + n <= |bits|
    ensures Ladder64(r, p, n) == Value(bits[p..p + n])
  {
    if n <= 32 {
      Ladder32Value(r, bits, p, n);
    } else {
      FourBytesRead(r, bits, p, n);
      AfterFourBytesValue(r, bits, p, n, FourBytes(r, p, n));
    }
  }

  lemma ByteRead(s: seq<bv8>, p: nat, n: nat)
    ensures ReadsAt(ByteReader(s), AllBits(s), p, n)
  {
    if 1 <= n <= 8 && p + n <= 8 * |s| {
      GetBitsValue(s, p, n);
    }
  }

  lemma BytesAreRead(s: seq<bv8>)
    ensures Reads(ByteReader(s), AllBits(s))
  {
    forall p: nat, n: nat ensures ReadsAt(ByteReader(s), AllBits(s), p, n) {
      ByteRead(s, p, n);
    }
  }

  /** All four extractors agree with one definition: the big-endian value of the bits. */
  lemma ExtractorsAgree(s: seq<bv8>, p: nat, n: nat)
    requires 1 <= n <= 64 && p + n <= 8 * |s|
    ensures var v := Value(AllBits(s)[p..p + n]);
            && v < Pow2(n)
            && (n <= 8 ==> GetBits(s, p, n) as int == v)
            && (n <= 16 ==> Ladder16(ByteReader(s), p, n) == v)
            && (n <= 32 ==> Ladder32(ByteReader(s), p, n) == v)
            && Ladder64(ByteReader(s), p, n) == v
  {
    hide Ladder16, Ladder32, Ladder64, GetBits, Value, AllBits, Reads, ByteReader, Pow2;
    BytesAreRead(s);
    var r, bits := ByteReader(s), AllBits(s);
    ValueBound(bits[p..p + n]);
    if n <= 8 { GetBitsValue(s, p, n); }
    if n <= 16 { Ladder16Value(r, bits, p, n); }
    if n <= 32 { Ladder32Value(r, bits, p, n); }
    Ladder64Value(r, bits, p, n);
  }
}
