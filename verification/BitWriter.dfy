/** The routines of lib/bit_lib/bit_lib.c that change byte arrays in place, specified on their bits. */
module BitWriter {
  import opened Bytes
  import opened Bits
  import opened BitLib

  /** The bits with those from `p` on replaced by `v`. */
  function Overwrite(bits: seq<bool>, p: nat, v: seq<bool>): (r: seq<bool>)
    requires p + |v| <= |bits|
    ensures |r| == |bits|
  {
    bits[..p] + v + bits[p + |v|..]
  }

  /** The low `n` bits of a byte, most significant first. */
  function LowBits(b: bv8, n: nat): (r: seq<bool>)
    requires n <= 8
    ensures |r| == n && forall i :: 0 <= i < n ==> r[i] == BitAt(b, 8 - n + i)
  {
    seq(n, i requires 0 <= i < n => BitAt(b, 8 - n + i))
  }

  lemma OneByteChanged(s: seq<bv8>, p: nat, v: bool)
    requires p < 8 * |s|
    ensures AllBits(s[p / 8 := WithBit(s[p / 8], p % 8, v)]) == AllBits(s)[p := v]
  {
    var t := s[p / 8 := WithBit(s[p / 8], p % 8, v)];
    forall q | 0 <= q < 8 * |s| ensures AllBits(t)[q] == AllBits(s)[p := v][q] {
      AllBitsAt(t, q);
      AllBitsAt(s, q);
      if q / 8 == p / 8 {
        WithBitAt(s[p / 8], p % 8, v, q % 8);
      }
    }
  }

  /** bit_lib_set_bit. */
  method SetBit(data: array<bv8>, position: nat, bit: bool)
    requires position < 8 * data.Length
    modifies data
    ensures AllBits(data[..]) == old(AllBits(data[..]))[position := bit]
  {
    OneByteChanged(data[..], position, bit);
    var i := position / 8;
    data[i] := WithBit(data[i], position % 8, bit);
    assert data[..] == old(data[..])[i := data[i]];
  }

  lemma OverwriteStep(bits: seq<bool>, p: nat, v: seq<bool>, i: nat)
    requires p + |v| <= |bits| && i < |v|
    ensures Overwrite(bits, p, v[..i])[p + i := v[i]] == Overwrite(bits, p, v[..i + 1])
  {
  }

  lemma OverwriteNothing(bits: seq<bool>, p: nat)
    requires p <= |bits|
    ensures Overwrite(bits, p, []) == bits
  {
  }

  /** bit_lib_set_bits; the source checks that the length is 1 to 8. */
  method SetBits(data: array<bv8>, position: nat, byte: bv8, length: nat)
    requires 1 <= length <= 8 && position + length <= 8 * data.Length
    modifies data
    ensures AllBits(data[..]) == Overwrite(old(AllBits(data[..])), position, LowBits(byte, length))
  {
    hide AllBits, Overwrite, BitAt;
    ghost var b, v := AllBits(data[..]), LowBits(byte, length);
    var i := 0;
    OverwriteNothing(b, position);
    while i < length
      invariant 0 <= i <= length
      invariant AllBits(data[..]) == Overwrite(b, position, v[..i])
    {
      var shift := length - 1 - i;
      SetBit(data, position + i, BitAt(byte, 7 - shift));
      OverwriteStep(b, position, v, i);
      i := i + 1;
    }
    assert v[..length] == v;
  }

  /** A byte without all but its low `n` bits, these moved to the top. */
  function Raised(byte: bv8, n: nat): bv8
    requires 1 <= n <= 8
  {
    byte << (8 - n)
  }

  lemma RaisedAt(byte: bv8, n: nat, k: nat)
    requires 1 <= n <= 8 && k < n
    ensures BitAt(Raised(byte, n), k) == BitAt(byte, 8 - n + k)
  {
    LeftBit(byte, 8 - n, k);
  }

  lemma LowBitsShown(byte: bv8, w: bv8, n: nat, k: nat)
    requires 1 <= n <= 8 && k < n && BitAt(w, k) == BitAt(byte, 8 - n + k)
    ensures ShowsAt(w, LowBits(byte, n), k)
  {
  }

  lemma RaisedBit(byte: bv8, n: nat, k: nat)
    requires 1 <= n <= 8 && k < n
    ensures ShowsAt(Raised(byte, n), LowBits(byte, n), k)
  {
    RaisedAt(byte, n, k);
    LowBitsShown(byte, Raised(byte, n), n, k);
  }

  lemma LowBitsValue(byte: bv8, n: nat)
    requires 1 <= n <= 8
    ensures Top(Raised(byte, n), n) as int == Value(LowBits(byte, n))
  {
    var v := LowBits(byte, n);
    forall k | 0 <= k < n ensures ShowsAt(Raised(byte, n), v, k) {
      RaisedBit(byte, n, k);
    }
    TopBits(Raised(byte, n), v, n);
    assert v[..n] == v;
  }

  /** Writing the low bits of a byte and reading them back gives the byte without its other bits. */
  lemma SetThenGet(s: seq<bv8>, s': seq<bv8>, p: nat, byte: bv8, n: nat)
    requires 1 <= n <= 8 && p + n <= 8 * |s| && |s'| == |s|
    requires AllBits(s') == Overwrite(AllBits(s), p, LowBits(byte, n))
    ensures GetBits(s', p, n) as int == Top(Raised(byte, n), n) as int
  {
    assert AllBits(s')[p..p + n] == LowBits(byte, n);
    GetBitsValue(s', p, n);
    LowBitsValue(byte, n);
  }

  lemma OthersKept(bits: seq<bool>, p: nat, v: seq<bool>, q: nat)
    requires p + |v| <= |bits| && q < |bits| && !(p <= q < p + |v|)
    ensures Overwrite(bits, p, v)[q] == bits[q]
  {
  }

  // --- Removing every n-th bit --------------------------------------------------------------------

  /** The bits whose one-based position is not a multiple of `n`. */
  function Kept(bits: seq<bool>, n: nat): (r: seq<bool>)
    requires n >= 1
    ensures |r| <= |bits|
  {
    if bits == [] then []
    else
      var m := |bits| - 1;
      Kept(bits[..m], n) + if |bits| % n != 0 then [bits[m]] else []
  }

  /** The buffer after one more bit was shifted in. */
  function Push(b: bv8, x: bool): bv8 {
    (b << 1) | if x then 1 else 0
  }

  lemma PushedBit(b: bv8, x: bool, j: nat)
    requires j < 8
    ensures BitAt(Push(b, x), j) == if j == 7 then x else BitAt(b, j + 1)
  {
    if j == 0 {} else if j == 1 {} else if j == 2 {} else if j == 3 {}
    else if j == 4 {} else if j == 5 {} else if j == 6 {} else {}
  }

  lemma PushBit(b: bv8, k: nat, x: bool)
    requires k < 8
    ensures LowBits(Push(b, x), k + 1) == LowBits(b, k) + [x]
  {
    var l, r := LowBits(Push(b, x), k + 1), LowBits(b, k) + [x];
    forall i | 0 <= i < |l| ensures l[i] == r[i] {
      PushedBit(b, x, 7 - k + i);
    }
  }

  lemma OverwriteTwice(bits: seq<bool>, p: nat, v: seq<bool>, w: seq<bool>)
    requires p + |v| + |w| <= |bits|
    ensures Overwrite(Overwrite(bits, p, v), p + |v|, w) == Overwrite(bits, p, v + w)
  {
  }

  lemma KeptStep(src: seq<bool>, c: nat, n: nat)
    requires n >= 1 && c < |src|
    ensures Kept(src[..c + 1], n) == Kept(src[..c], n) + if (c + 1) % n != 0 then [src[c]] else []
  {
    assert src[..c + 1][..c] == src[..c];
  }

  method ReadBit(data: array<bv8>, position: nat) returns (bit: bool)
    requires position < 8 * data.Length
    ensures bit == AllBits(data[..])[position]
  {
    AllBitsAt(data[..], position);
    bit := BitAt(data[position / 8], position % 8);
  }

  /** Of the kept bits the first `count` are written from `p` on and the other `bits` are in the buffer. */
  ghost predicate Progress(now: seq<bool>, b0: seq<bool>, p: nat, kept: seq<bool>, count: nat, buffer: bv8, bits: nat) {
    && bits <= 8 && |kept| == count + bits && p + count <= |b0|
    && now == Overwrite(b0, p, kept[..count])
    && LowBits(buffer, bits) == kept[count..]
  }

  lemma Buffered(now: seq<bool>, b0: seq<bool>, p: nat, kept: seq<bool>, count: nat, buffer: bv8, bits: nat, x: bool)
    requires Progress(now, b0, p, kept, count, buffer, bits) && bits < 8
    ensures Progress(now, b0, p, kept + [x], count, Push(buffer, x), bits + 1)
  {
    PushBit(buffer, bits, x);
    assert (kept + [x])[..count] == kept[..count];
    assert (kept + [x])[count..] == kept[count..] + [x];
  }

  /** Writes the buffered bits after those already written. */
  method Flush(data: array<bv8>, position: nat, count: nat, buffer: bv8, bits: nat, ghost b0: seq<bool>, ghost kept: seq<bool>)
    requires 1 <= bits && position + count + bits <= 8 * data.Length == |b0|
    requires Progress(AllBits(data[..]), b0, position, kept, count, buffer, bits)
    modifies data
    ensures Progress(AllBits(data[..]), b0, position, kept, count + bits, 0, 0)
  {
    OverwriteTwice(b0, position, kept[..count], kept[count..]);
    assert kept[..count] + kept[count..] == kept == kept[..count + bits];
    SetBits(data, position + count, buffer, bits);
  }

  /** Progress over one more source bit, kept or dropped. */
  lemma NextBit(now: seq<bool>, b0: seq<bool>, p: nat, src: seq<bool>, c: nat, n: nat, count: nat, buffer: bv8, bits: nat)
    requires 1 <= n && c < |src| && bits < 8 && Progress(now, b0, p, Kept(src[..c], n), count, buffer, bits)
    ensures if (c + 1) % n != 0 then Progress(now, b0, p, Kept(src[..c + 1], n), count, Push(buffer, src[c]), bits + 1)
            else Progress(now, b0, p, Kept(src[..c + 1], n), count, buffer, bits)
  {
    KeptStep(src, c, n);
    if (c + 1) % n != 0 {
      Buffered(now, b0, p, Kept(src[..c], n), count, buffer, bits, src[c]);
    } else {
      assert Kept(src[..c + 1], n) == Kept(src[..c], n);
    }
  }

  /** A bit that is still to be read has not been overwritten. */
  lemma Unread(now: seq<bool>, b0: seq<bool>, p: nat, src: seq<bool>, c: nat, n: nat, count: nat, buffer: bv8, bits: nat)
    requires 1 <= n && c < |src| && p + c < |b0| && Progress(now, b0, p, Kept(src[..c], n), count, buffer, bits)
    ensures p + c < |now| && now[p + c] == b0[p + c]
  {
    OthersKept(b0, p, Kept(src[..c], n)[..count], p + c);
  }

  /** One turn of the loop of bit_lib_remove_bit_every_nth, up to the test for a full buffer. */
  method TakeBit(data: array<bv8>, position: nat, counter: nat, n: nat, count: nat, buffer: bv8, bits: nat,
                 ghost b0: seq<bool>, ghost src: seq<bool>)
    returns (buffer': bv8, bits': nat)
    requires 1 <= n && counter < |src| && position + |src| <= |b0| == 8 * data.Length && bits < 8
    requires src[counter] == b0[position + counter]
    requires Progress(AllBits(data[..]), b0, position, Kept(src[..counter], n), count, buffer, bits)
    ensures Progress(AllBits(data[..]), b0, position, Kept(src[..counter + 1], n), count, buffer', bits')
  {
    Unread(AllBits(data[..]), b0, position, src, counter, n, count, buffer, bits);
    NextBit(AllBits(data[..]), b0, position, src, counter, n, count, buffer, bits);
    buffer', bits' := buffer, bits;
    if (counter + 1) % n != 0 {
      var bit := ReadBit(data, position + counter);
      buffer', bits' := Push(buffer, bit), bits + 1;
    }
  }

  lemma NothingYet(b0: seq<bool>, p: nat, src: seq<bool>, n: nat)
    requires n >= 1 && p <= |b0|
    ensures Progress(b0, b0, p, Kept(src[..0], n), 0, 0, 0)
  {
  }

  lemma AllWritten(now: seq<bool>, b0: seq<bool>, p: nat, kept: seq<bool>, count: nat, buffer: bv8)
    requires Progress(now, b0, p, kept, count, buffer, 0)
    ensures p + |kept| <= |b0| && now == Overwrite(b0, p, kept) && count == |kept|
  {
    assert kept[..count] == kept;
  }

  /** The loop of bit_lib_remove_bit_every_nth: bits are buffered, so none is overwritten before it is read. */
  method Compact(data: array<bv8>, position: nat, length: nat, n: nat, ghost b0: seq<bool>, ghost src: seq<bool>)
    returns (count: nat, bitBuffer: bv8, bitCounter: nat)
    requires 1 <= n && position + length <= 8 * data.Length == |b0| && b0 == AllBits(data[..])
    requires |src| == length && forall i :: 0 <= i < length ==> src[i] == b0[position + i]
    modifies data
    ensures Progress(AllBits(data[..]), b0, position, Kept(src, n), count, bitBuffer, bitCounter)
  {
    hide AllBits, Kept, Overwrite, LowBits;
    var counter := 0;
    count, bitCounter, bitBuffer := 0, 0, 0;
    NothingYet(b0, position, src, n);
    while counter < length
      invariant 0 <= counter <= length && bitCounter < 8
      invariant Progress(AllBits(data[..]), b0, position, Kept(src[..counter], n), count, bitBuffer, bitCounter)
    {
      bitBuffer, bitCounter := TakeBit(data, position, counter, n, count, bitBuffer, bitCounter, b0, src);
      counter := counter + 1;
      if bitCounter == 8 {
        Flush(data, position, count, bitBuffer, 8, b0, Kept(src[..counter], n));
        bitCounter, bitBuffer := 0, 0;
        count := count + 8;
      }
    }
    assert src[..length] == src;
  }

  /** Writes what is left in the buffer at the end. */
  method FlushRest(data: array<bv8>, position: nat, count: nat, buffer: bv8, bits: nat, ghost b0: seq<bool>, ghost kept: seq<bool>)
    returns (total: nat)
    requires position + count + bits <= 8 * data.Length == |b0|
    requires Progress(AllBits(data[..]), b0, position, kept, count, buffer, bits)
    modifies data
    ensures position + |kept| <= |b0| && AllBits(data[..]) == Overwrite(b0, position, kept) && total == |kept|
  {
    total := count;
    if bits != 0 {
      Flush(data, position, count, buffer, bits, b0, kept);
      total := total + bits;
      AllWritten(AllBits(data[..]), b0, position, kept, total, 0);
    } else {
      AllWritten(AllBits(data[..]), b0, position, kept, total, buffer);
    }
  }

  /** bit_lib_remove_bit_every_nth. */
  method RemoveBitEveryNth(data: array<bv8>, position: nat, length: nat, n: nat) returns (count: nat)
    requires 1 <= n && position + length <= 8 * data.Length
    modifies data
    ensures var bits := old(AllBits(data[..]));
            var kept := Kept(bits[position..position + length], n);
            AllBits(data[..]) == Overwrite(bits, position, kept) && count == |kept|
  {
    ghost var b0 := AllBits(data[..]);
    ghost var src := b0[position..position + length];
    var buffer, bits;
    count, buffer, bits := Compact(data, position, length, n, b0, src);
    count := FlushRest(data, position, count, buffer, bits, b0, Kept(src, n));
  }

  // --- Reversal ------------------------------------------------------------------------------------

  /** The bits with the outer `i` pairs of the `n` bits from `p` exchanged. */
  function Exchanged(bits: seq<bool>, p: nat, n: nat, i: nat): (r: seq<bool>)
    requires p + n <= |bits| && 2 * i <= n + 1
    ensures |r| == |bits|
    ensures forall q :: 0 <= q < |bits| ==>
              r[q] == if p <= q < p + i || p + n - i <= q < p + n then bits[2 * p + n - 1 - q] else bits[q]
  {
    seq(|bits|, q requires 0 <= q < |bits| =>
      if p <= q < p + i || p + n - i <= q < p + n then bits[2 * p + n - 1 - q] else bits[q])
  }

  lemma ExchangedNone(bits: seq<bool>, p: nat, n: nat)
    requires p + n <= |bits|
    ensures Exchanged(bits, p, n, 0) == bits
  {
  }

  lemma ExchangeStep(bits: seq<bool>, p: nat, n: nat, i: nat)
    requires p + n <= |bits| && 2 * i < n
    ensures var e := Exchanged(bits, p, n, i);
            e[p + i := e[p + n - 1 - i]][p + n - 1 - i := e[p + i]] == Exchanged(bits, p, n, i + 1)
  {
    var e, f := Exchanged(bits, p, n, i), Exchanged(bits, p, n, i + 1);
    var g := e[p + i := e[p + n - 1 - i]][p + n - 1 - i := e[p + i]];
    forall q | 0 <= q < |bits| ensures g[q] == f[q] {
    }
  }

  /** The bits with the `n` bits from `p` in opposite order. */
  ghost predicate IsReversed(bits: seq<bool>, r: seq<bool>, p: nat, n: nat) {
    && |r| == |bits| && p + n <= |bits|
    && (forall q :: 0 <= q < |bits| && !(p <= q < p + n) ==> r[q] == bits[q])
    && (forall q :: p <= q < p + n ==> r[q] == bits[2 * p + n - 1 - q])
  }

  method SwapBits(data: array<bv8>, p: nat, q: nat)
    requires p < q < 8 * data.Length
    modifies data
    ensures var e := old(AllBits(data[..]));
            AllBits(data[..]) == e[p := e[q]][q := e[p]]
  {
    var tmp := ReadBit(data, p);
    var other := ReadBit(data, q);
    SetBit(data, p, other);
    SetBit(data, q, tmp);
  }

  lemma ExchangedAll(bits: seq<bool>, p: nat, n: nat, i: nat)
    requires p + n <= |bits| && n - 1 <= 2 * i <= n + 1
    ensures IsReversed(bits, Exchanged(bits, p, n, i), p, n)
  {
  }

  /** bit_lib_reverse_bits; a length of 0 makes its index wrap, so callers pass at least 1. */
  method ReverseBits(data: array<bv8>, position: nat, length: nat)
    requires 1 <= length && position + length <= 8 * data.Length
    modifies data
    ensures IsReversed(old(AllBits(data[..])), AllBits(data[..]), position, length)
  {
    hide AllBits, Exchanged, IsReversed;
    ghost var b0 := AllBits(data[..]);
    var i, j := 0, length - 1;
    ExchangedNone(b0, position, length);
    while i < j
      invariant 0 <= i && i + j == length - 1 && i <= j + 1
      invariant AllBits(data[..]) == Exchanged(b0, position, length, i)
    {
      ExchangeStep(b0, position, length, i);
      SwapBits(data, position + i, position + j);
      i, j := i + 1, j - 1;
    }
    ExchangedAll(b0, position, length, i);
  }
}
