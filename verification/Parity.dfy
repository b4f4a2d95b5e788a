/** Multiplication by repeated addition, and the few facts about remainders that blocks of bits need. */
module Multiples {

  function Times(q: nat, n: nat): nat {
    if q == 0 then 0 else Times(q - 1, n) + n
  }

  lemma {:induction false} TimesIsProduct(q: nat, n: nat)
    ensures Times(q, n) == q * n
  {
    if q > 0 {
      TimesIsProduct(q - 1, n);
      assert q * n == (q - 1) * n + n;
    }
  }

  lemma {:induction false} TimesGrows(i: nat, q: nat, n: nat)
    requires i <= q
    ensures Times(i, n) <= Times(q, n)
  {
    if i < q {
      TimesGrows(i, q - 1, n);
    }
  }

  /** Block number `i` of `q` blocks lies inside them. */
  lemma BlockFits(i: nat, q: nat, n: nat)
    requires i < q
    ensures Times(i, n) + n == Times(i + 1, n) <= Times(q, n)
  {
    TimesGrows(i + 1, q, n);
  }

  lemma {:induction false} OneMoreEach(q: nat, n: nat)
    ensures Times(q, n + 1) == Times(q, n) + q
  {
    if q > 0 {
      OneMoreEach(q - 1, n);
    }
  }

  /** Of `q` blocks that just hold `length` bits, `i` blocks leave some over exactly when `i` is not all. */
  lemma BlocksLeft(i: nat, q: nat, n: nat, length: nat)
    requires i <= q && length <= Times(q, n) < length + n
    ensures Times(i, n) < length <==> i < q
  {
    if i < q {
      BlockFits(i, q, n);
    }
  }

  lemma {:induction false} SmallRemainder(x: nat, n: nat)
    requires x < n
    ensures x % n == x && x / n == 0
  {
  }

  lemma NextRemainder(x: nat, n: nat)
    requires n >= 1
    ensures (x + n) % n == x % n && (x + n) / n == x / n + 1
  {
    var q, r := x / n, x % n;
    assert x == q * n + r;
    assert x + n == (q + 1) * n + r;
    Unique((x + n) / n, (x + n) % n, q + 1, r, n);
  }

  /** Quotient and remainder are unique. */
  lemma Unique(q: int, r: int, q': int, r': int, n: int)
    requires n >= 1 && 0 <= r < n && 0 <= r' < n && q * n + r == q' * n + r'
    ensures q == q' && r == r'
  {
    if q < q' {
      AtLeast(q' - q, n);
      assert false;
    }
    if q' < q {
      AtLeast(q - q', n);
      assert false;
    }
  }

  lemma AtLeast(d: int, n: int)
    requires d >= 1 && n >= 0
    ensures d * n >= n
  {
  }

  lemma {:induction false} SkipBlocks(q: nat, n: nat, x: nat)
    requires n >= 1
    ensures (Times(q, n) + x) % n == x % n && (Times(q, n) + x) / n == q + x / n
  {
    if q > 0 {
      SkipBlocks(q - 1, n, x);
      NextRemainder(Times(q - 1, n) + x, n);
    }
  }

  /** The whole blocks in `length` bits. */
  lemma WholeBlocks(length: nat, n: nat)
    requires n >= 1
    ensures Times(length / n, n) <= length
  {
    TimesIsProduct(length / n, n);
  }
}

/** Parity insertion and checking of lib/bit_lib/bit_lib.c, and their round trip with bit removal. */
module Parity {
  import opened Bytes
  import opened Bits
  import opened BitLib
  import opened BitWriter
  import opened Multiples

  datatype Mode = Even | Odd | Always0 | Always1

  /** Whether the number of ones is odd. */
  function OddOnes(bits: seq<bool>): bool {
    bits != [] && (OddOnes(bits[..|bits| - 1]) != bits[|bits| - 1])
  }

  /** __builtin_parity. */
  function ParityOf(x: nat): bool {
    x != 0 && (ParityOf(x / 2) != (x % 2 == 1))
  }

  lemma {:induction false} ParityOfValue(bits: seq<bool>)
    ensures ParityOf(Value(bits)) == OddOnes(bits)
  {
    if bits != [] {
      ParityOfValue(bits[..|bits| - 1]);
      var v := Value(bits[..|bits| - 1]);
      assert Value(bits) / 2 == v;
    }
  }

  /** bit_lib_test_parity_32: its Even accepts an odd number of ones. */
  function TestParity32(word: nat, mode: Mode): bool
    requires mode.Even? || mode.Odd?
  {
    if mode.Even? then ParityOf(word) else !ParityOf(word)
  }

  /** The bit bit_lib_add_parity appends to a block with parity word `word`. */
  function ParityBit(word: nat, mode: Mode): bool {
    match mode
    case Always0 => false
    case Always1 => true
    case _ => (TestParity32(word, Odd) != mode.Odd?) != true
  }

  /** The 32-bit word a block's bits are shifted into. */
  function ParityWord(bits: seq<bool>): nat {
    Value(bits) % 0x1_0000_0000
  }

  lemma Pow2Of32()
    ensures Pow2(32) == 0x1_0000_0000
  {
    assert Pow2(8) == 256 && Pow2(16) == 0x1_0000 && Pow2(24) == 0x100_0000;
  }

  lemma FitsParityWord(bits: seq<bool>)
    requires |bits| <= 32
    ensures ParityWord(bits) == Value(bits)
  {
    ValueBound(bits);
    Pow2Grows(|bits|, 32);
    Pow2Of32();
    hide Value, Pow2;
  }

  lemma {:induction false} Pow2Grows(a: nat, b: nat)
    requires a <= b
    ensures Pow2(a) <= Pow2(b)
  {
    if a < b {
      Pow2Grows(a, b - 1);
    }
  }

  function Block(bits: seq<bool>, mode: Mode): seq<bool> {
    bits + [ParityBit(ParityWord(bits), mode)]
  }

  /** `q` blocks of `m` bits, each followed by its parity bit. */
  function WithParity(bits: seq<bool>, m: nat, q: nat, mode: Mode): (r: seq<bool>)
    ensures |bits| == Times(q, m) ==> |r| == Times(q, m + 1)
    decreases q
  {
    if q == 0 then []
    else
      var k := if |bits| >= m then |bits| - m else 0;
      WithParity(bits[..k], m, q - 1, mode) + Block(bits[k..], mode)
  }

  // --- Insertion -------------------------------------------------------------------------------

  lemma AppendBit(bits: seq<bool>, p: nat, v: seq<bool>, x: bool)
    requires p + |v| < |bits|
    ensures Overwrite(bits, p, v)[p + |v| := x] == Overwrite(bits, p, v + [x])
  {
  }

  /** The first `i` bits of the block have been written from `p` on. */
  ghost predicate Copied(now: seq<bool>, d0: seq<bool>, p: nat, block: seq<bool>, i: nat) {
    i <= |block| && p + |block| <= |d0| && now == Overwrite(d0, p, block[..i])
  }

  lemma CopiedNone(d0: seq<bool>, p: nat, block: seq<bool>)
    requires p + |block| <= |d0|
    ensures Copied(d0, d0, p, block, 0)
  {
  }

  lemma CopiedAll(now: seq<bool>, d0: seq<bool>, p: nat, block: seq<bool>)
    requires Copied(now, d0, p, block, |block|)
    ensures now == Overwrite(d0, p, block)
  {
    assert block[..|block|] == block;
  }

  /** Copies bit `i` of a block between arrays. */
  method CopyBit(data: array<bv8>, position: nat, dest: array<bv8>, destPosition: nat, i: nat,
                 ghost d0: seq<bool>, ghost block: seq<bool>)
    returns (bit: bool)
    requires data != dest && i < |block| && position + i < 8 * data.Length && |d0| == 8 * dest.Length
    requires block[i] == AllBits(data[..])[position + i]
    requires Copied(AllBits(dest[..]), d0, destPosition, block, i)
    modifies dest
    ensures bit == block[i] && data[..] == old(data[..])
    ensures Copied(AllBits(dest[..]), d0, destPosition, block, i + 1)
  {
    bit := ReadBit(data, position + i);
    SetBit(dest, destPosition + i, bit);
    OverwriteStep(d0, destPosition, block, i);
  }

  lemma WordStep(block: seq<bool>, i: nat)
    requires i < |block|
    ensures ParityWord(block[..i + 1]) == (2 * ParityWord(block[..i]) + if block[i] then 1 else 0) % 0x1_0000_0000
  {
    assert block[..i + 1][..i] == block[..i];
    ShiftedWord(Value(block[..i]), if block[i] then 1 else 0);
  }

  lemma ShiftedWord(v: nat, bit: nat)
    ensures (2 * (v % 0x1_0000_0000) + bit) % 0x1_0000_0000 == (2 * v + bit) % 0x1_0000_0000
  {
    var n, x, y := 0x1_0000_0000, 2 * (v % 0x1_0000_0000) + bit, 2 * v + bit;
    Unique(y / n, y % n, 2 * (v / n) + x / n, x % n, n);
  }

  /** The inner loop of bit_lib_add_parity: copies one block and collects its parity word. */
  method CopyBlock(data: array<bv8>, position: nat, dest: array<bv8>, destPosition: nat, m: nat, ghost block: seq<bool>)
    returns (word: nat)
    requires data != dest && position + m <= 8 * data.Length && destPosition + m <= 8 * dest.Length
    requires block == AllBits(data[..])[position..position + m]
    modifies dest
    ensures AllBits(dest[..]) == Overwrite(old(AllBits(dest[..])), destPosition, block) && word == ParityWord(block)
    ensures data[..] == old(data[..])
  {
    hide AllBits, Overwrite, Copied;
    ghost var d0 := AllBits(dest[..]);
    word := 0;
    var bit := 0;
    CopiedNone(d0, destPosition, block);
    while bit < m
      invariant 0 <= bit <= m
      invariant word == ParityWord(block[..bit])
      invariant Copied(AllBits(dest[..]), d0, destPosition, block, bit)
      invariant data[..] == old(data[..])
    {
      WordStep(block, bit);
      var b := CopyBit(data, position, dest, destPosition, bit, d0, block);
      word := (2 * word + if b then 1 else 0) % 0x1_0000_0000;
      bit := bit + 1;
    }
    CopiedAll(AllBits(dest[..]), d0, destPosition, block);
    assert block[..m] == block;
  }

  lemma BlockAppended(written: seq<bool>, block: seq<bool>, mode: Mode)
    ensures written + block + [ParityBit(ParityWord(block), mode)] == written + Block(block, mode)
  {
  }

  /** One turn of the outer loop: a block and its parity bit go after what was written. */
  method AddBlock(data: array<bv8>, position: nat, dest: array<bv8>, destPosition: nat, m: nat, mode: Mode,
                  ghost d0: seq<bool>, ghost start: nat, ghost written: seq<bool>, ghost block: seq<bool>)
    requires data != dest && position + m <= 8 * data.Length && destPosition + m + 1 <= 8 * dest.Length == |d0|
    requires destPosition == start + |written| && AllBits(dest[..]) == Overwrite(d0, start, written)
    requires block == AllBits(data[..])[position..position + m]
    modifies dest
    ensures AllBits(dest[..]) == Overwrite(d0, start, written + Block(block, mode))
    ensures data[..] == old(data[..])
  {
    hide AllBits, Overwrite, Block, ParityWord, ParityBit;
    var word := CopyBlock(data, position, dest, destPosition, m, block);
    OverwriteTwice(d0, start, written, block);
    SetBit(dest, destPosition + m, ParityBit(word, mode));
    AppendBit(d0, start, written + block, ParityBit(word, mode));
    BlockAppended(written, block, mode);
  }

  lemma NextBlock(src: seq<bool>, m: nat, i: nat, q: nat, mode: Mode)
    requires |src| == Times(q, m) && i < q
    ensures Times(i + 1, m) <= |src|
    ensures WithParity(src[..Times(i + 1, m)], m, i + 1, mode) ==
            WithParity(src[..Times(i, m)], m, i, mode) + Block(src[Times(i, m)..Times(i, m) + m], mode)
  {
    BlockFits(i, q, m);
    var t := src[..Times(i + 1, m)];
    assert t[..Times(i, m)] == src[..Times(i, m)];
    assert t[Times(i, m)..] == src[Times(i, m)..Times(i, m) + m];
  }

  /** What bit_lib_add_parity has written to `dest` after `i` blocks. */
  ghost predicate Inserted(now: seq<bool>, d0: seq<bool>, start: nat, src: seq<bool>, m: nat, i: nat, mode: Mode) {
    && Times(i, m) <= |src| && start + Times(i, m + 1) <= |d0|
    && now == Overwrite(d0, start, WithParity(src[..Times(i, m)], m, i, mode))
  }

  lemma InsertedStep(now: seq<bool>, d0: seq<bool>, start: nat, src: seq<bool>, m: nat, i: nat, q: nat, mode: Mode, block: seq<bool>)
    requires |src| == Times(q, m) && i < q && Times(i, m) + m <= |src| && block == src[Times(i, m)..Times(i, m) + m]
    requires start + Times(q, m + 1) <= |d0| && start + Times(i, m + 1) + m + 1 <= |d0|
    requires now == Overwrite(d0, start, WithParity(src[..Times(i, m)], m, i, mode) + Block(block, mode))
    ensures Inserted(now, d0, start, src, m, i + 1, mode)
  {
    NextBlock(src, m, i, q, mode);
  }

  lemma SliceOfSlice(bits: seq<bool>, p: nat, n: nat, k: nat, m: nat)
    requires p + n <= |bits| && k + m <= n
    ensures bits[p..p + n][k..k + m] == bits[p + k..p + k + m]
  {
    var a, b := bits[p..p + n][k..k + m], bits[p + k..p + k + m];
    forall i | 0 <= i < m ensures a[i] == b[i] {
      assert bits[p..p + n][k + i] == bits[p + k + i];
    }
    assert a == b;
  }

  lemma NothingInserted(d0: seq<bool>, start: nat, src: seq<bool>, m: nat, mode: Mode)
    requires start <= |d0|
    ensures Inserted(d0, d0, start, src, m, 0, mode)
  {
  }

  lemma AllInserted(now: seq<bool>, d0: seq<bool>, start: nat, src: seq<bool>, m: nat, q: nat, mode: Mode)
    requires |src| == Times(q, m) && Inserted(now, d0, start, src, m, q, mode)
    ensures now == Overwrite(d0, start, WithParity(src, m, q, mode))
  {
    assert src[..Times(q, m)] == src;
  }

  method AddNthBlock(data: array<bv8>, position: nat, dest: array<bv8>, start: nat, word: nat, bitCount: nat, m: nat, mode: Mode,
                     ghost d0: seq<bool>, ghost src: seq<bool>, ghost i: nat, ghost q: nat)
    requires data != dest && |src| == Times(q, m) && i < q && word == Times(i, m) && bitCount == Times(i, m + 1)
    requires position + |src| <= 8 * data.Length && src == AllBits(data[..])[position..position + |src|]
    requires |d0| == 8 * dest.Length && start + Times(q, m + 1) <= |d0|
    requires word + m <= |src| && start + bitCount + m + 1 <= |d0|
    requires Inserted(AllBits(dest[..]), d0, start, src, m, i, mode)
    modifies dest
    ensures Inserted(AllBits(dest[..]), d0, start, src, m, i + 1, mode)
    ensures data[..] == old(data[..])
  {
    hide AllBits, Overwrite, Block;
    ghost var block, written := src[word..word + m], WithParity(src[..word], m, i, mode);
    SliceOfSlice(AllBits(data[..]), position, |src|, word, m);
    AddBlock(data, position + word, dest, start + bitCount, m, mode, d0, start, written, block);
    InsertedStep(AllBits(dest[..]), d0, start, src, m, i, q, mode, block);
  }

  /** The loop of bit_lib_add_parity. */
  method AddAllBlocks(data: array<bv8>, position: nat, dest: array<bv8>, destPosition: nat, sourceLength: nat,
                      parityLength: nat, mode: Mode, ghost blocks: nat)
    returns (bitCount: nat)
    requires data != dest && 2 <= parityLength
    requires sourceLength <= Times(blocks, parityLength - 1) < sourceLength + parityLength - 1
    requires position + Times(blocks, parityLength - 1) <= 8 * data.Length
    requires destPosition + Times(blocks, parityLength) <= 8 * dest.Length
    modifies dest
    ensures var src := AllBits(data[..])[position..position + Times(blocks, parityLength - 1)];
            AllBits(dest[..]) == Overwrite(old(AllBits(dest[..])), destPosition, WithParity(src, parityLength - 1, blocks, mode))
    ensures bitCount == Times(blocks, parityLength)
  {
    hide AllBits, Overwrite, WithParity, Inserted;
    var m := parityLength - 1;
    ghost var d0, src, i := AllBits(dest[..]), AllBits(data[..])[position..position + Times(blocks, m)], 0;
    var word := 0;
    bitCount := 0;
    NothingInserted(d0, destPosition, src, m, mode);
    while word < sourceLength
      invariant i <= blocks && word == Times(i, m) && bitCount == Times(i, m + 1)
      invariant data[..] == old(data[..])
      invariant Inserted(AllBits(dest[..]), d0, destPosition, src, m, i, mode)
      decreases blocks - i
    {
      BlocksLeft(i, blocks, m, sourceLength);
      BlockFits(i, blocks, m);
      BlockFits(i, blocks, m + 1);
      AddNthBlock(data, position, dest, destPosition, word, bitCount, m, mode, d0, src, i, blocks);
      word := word + m;
      bitCount := bitCount + parityLength;
      i := i + 1;
    }
    BlocksLeft(i, blocks, m, sourceLength);
    AllInserted(AllBits(dest[..]), d0, destPosition, src, m, blocks, mode);
  }

  /** `now` is `before` with `w` written from `p` on and nothing else changed. */
  ghost predicate Written(now: seq<bool>, before: seq<bool>, p: nat, w: seq<bool>) {
    p + |w| <= |before| && now == Overwrite(before, p, w)
  }

  /** bit_lib_add_parity; it works on whole blocks, so a rest of the source counts as a full block. */
  method AddParity(data: array<bv8>, position: nat, dest: array<bv8>, destPosition: nat, sourceLength: nat,
                   parityLength: nat, mode: Mode, ghost blocks: nat)
    returns (bitCount: nat)
    requires data != dest && 2 <= parityLength
    requires sourceLength <= blocks * (parityLength - 1) < sourceLength + parityLength - 1
    requires position + blocks * (parityLength - 1) <= 8 * data.Length
    requires destPosition + blocks * parityLength <= 8 * dest.Length
    modifies dest
    ensures var src := AllBits(data[..])[position..position + blocks * (parityLength - 1)];
            Written(AllBits(dest[..]), old(AllBits(dest[..])), destPosition, WithParity(src, parityLength - 1, blocks, mode))
    ensures bitCount == blocks * parityLength
  {
    hide AllBits, Overwrite, WithParity;
    TimesIsProduct(blocks, parityLength - 1);
    TimesIsProduct(blocks, parityLength);
    bitCount := AddAllBlocks(data, position, dest, destPosition, sourceLength, parityLength, mode, blocks);
  }

  // --- Removal undoes insertion -------------------------------------------------------------------

  lemma {:induction false} KeptShort(b: seq<bool>, n: nat)
    requires |b| < n
    ensures Kept(b, n) == b
  {
    if b != [] {
      KeptShort(b[..|b| - 1], n);
      SmallRemainder(|b|, n);
      assert b[..|b| - 1] + [b[|b| - 1]] == b;
    }
  }

  /** Removing from whole blocks and what follows can be done separately. */
  lemma {:induction false} KeptConcat(a: seq<bool>, b: seq<bool>, q: nat, n: nat)
    requires n >= 1 && |a| == Times(q, n)
    ensures Kept(a + b, n) == Kept(a, n) + Kept(b, n)
  {
    if b == [] {
      assert a + b == a;
    } else {
      var k := |b| - 1;
      KeptConcat(a, b[..k], q, n);
      SkipBlocks(q, n, |b|);
      assert (a + b)[..|a + b| - 1] == a + b[..k];
    }
  }

  lemma KeptBlock(b: seq<bool>, x: bool, n: nat)
    requires |b| + 1 == n
    ensures Kept(b + [x], n) == b
  {
    KeptShort(b, n);
    assert (b + [x])[..|b|] == b;
    NextRemainder(0, n);
  }

  lemma KeptAppended(w: seq<bool>, q: nat, last: seq<bool>, m: nat, mode: Mode)
    requires |w| == Times(q, m + 1) && |last| == m
    ensures Kept(w + Block(last, mode), m + 1) == Kept(w, m + 1) + last
  {
    KeptConcat(w, Block(last, mode), q, m + 1);
    KeptBlock(last, ParityBit(ParityWord(last), mode), m + 1);
  }

  lemma Joined(bits: seq<bool>, k: nat, m: nat)
    requires k + m == |bits|
    ensures bits[..k] + bits[k..k + m] == bits
  {
  }

  lemma NothingToUndo(bits: seq<bool>, m: nat, mode: Mode)
    ensures Kept(WithParity(bits, m, 0, mode), m + 1) == []
  {
  }

  lemma {:induction false} BlocksUndone(bits: seq<bool>, m: nat, q: nat, mode: Mode)
    requires |bits| == Times(q, m) && m >= 1
    ensures Kept(WithParity(bits, m, q, mode), m + 1) == bits
    decreases q
  {
    assert q == 0 ==> bits == [];
    hide WithParity, Kept, Block, Times;
    if q == 0 {
      NothingToUndo(bits, m, mode);
    } else {
      var k, w := LastBlock(bits, m, q, mode);
      BlocksUndone(bits[..k], m, q - 1, mode);
      KeptAppended(w, q - 1, bits[k..k + m], m, mode);
      Joined(bits, k, m);
    }
  }

  /** Removing every (m+1)-th bit gives back exactly the bits before parity insertion. */
  lemma RemovalUndoesInsertion(bits: seq<bool>, m: nat, q: nat, mode: Mode)
    requires |bits| == q * m && m >= 1
    ensures Kept(WithParity(bits, m, q, mode), m + 1) == bits
  {
    TimesIsProduct(q, m);
    BlocksUndone(bits, m, q, mode);
  }

  /** `now` holds `src` from `p` on and agrees with `d0` outside the `total` bits there. */
  ghost predicate Recovered(now: seq<bool>, d0: seq<bool>, p: nat, src: seq<bool>, total: nat) {
    && |now| == |d0| && p + |src| <= p + total <= |d0|
    && now[p..p + |src|] == src && now[..p] == d0[..p] && now[p + total..] == d0[p + total..]
  }

  lemma OverwriteRecovers(d0: seq<bool>, p: nat, w: seq<bool>, src: seq<bool>)
    requires |src| <= |w| && p + |w| <= |d0|
    ensures Overwrite(d0, p, w)[p..p + |w|] == w
    ensures Recovered(Overwrite(Overwrite(d0, p, w), p, src), d0, p, src, |w|)
  {
  }

  /** Insertion adds one bit to each block. */
  lemma ParityAddsOneEach(src: seq<bool>, m: nat, q: nat, mode: Mode)
    requires |src| == q * m
    ensures |WithParity(src, m, q, mode)| == |src| + q
  {
    TimesIsProduct(q, m);
    OneMoreEach(q, m);
  }

  /** On the destination: the source bits are recovered in place and nothing outside the region changes. */
  lemma RoundTripInPlace(d0: seq<bool>, p: nat, src: seq<bool>, m: nat, q: nat, mode: Mode)
    requires |src| == q * m && m >= 1 && p + |WithParity(src, m, q, mode)| <= |d0|
    ensures var w := WithParity(src, m, q, mode);
            var d1 := Overwrite(d0, p, w);
            Kept(d1[p..p + |w|], m + 1) == src
            && |src| <= |w| && Recovered(Overwrite(d1, p, src), d0, p, src, |w|)
  {
    hide WithParity, Kept;
    RemovalUndoesInsertion(src, m, q, mode);
    ParityAddsOneEach(src, m, q, mode);
    OverwriteRecovers(d0, p, WithParity(src, m, q, mode), src);
  }

  // --- Checking ------------------------------------------------------------------------------------

  /** When a block passes bit_lib_test_parity. */
  predicate Accepts(block: seq<bool>, mode: Mode)
    requires block != []
  {
    match mode
    case Even => OddOnes(block)
    case Odd => !OddOnes(block)
    case Always0 => !block[|block| - 1]
    case Always1 => block[|block| - 1]
  }

  predicate IsMarker(mode: Mode) {
    mode.Always0? || mode.Always1?
  }

  function Opposite(mode: Mode): Mode {
    match mode
    case Even => Odd
    case Odd => Even
    case _ => mode
  }

  /** An inserted block passes the check of the opposite mode for Even and Odd, of the same mode for the markers. */
  lemma InsertedBlockAccepted(bits: seq<bool>, mode: Mode)
    requires IsMarker(mode) || |bits| <= 32
    ensures Accepts(Block(bits, mode), Opposite(mode))
    ensures Accepts(Block(bits, mode), mode) <==> IsMarker(mode)
  {
    ParityOfValue(bits);
    if !IsMarker(mode) {
      FitsParityWord(bits);
    }
    var b := Block(bits, mode);
    assert b[..|b| - 1] == bits;
  }

  lemma {:induction false} OnesInParts(a: seq<bool>, b: seq<bool>)
    ensures OddOnes(a + b) == (OddOnes(a) != OddOnes(b))
  {
    if b == [] {
      assert a + b == a;
    } else {
      OnesInParts(a, b[..|b| - 1]);
      assert (a + b)[..|a + b| - 1] == a + b[..|b| - 1];
    }
  }

  /** The bits that a 32-bit word keeps: the last 32, or all of fewer. */
  function LastOfWord(bits: seq<bool>): seq<bool> {
    if |bits| <= 32 then bits else bits[|bits| - 32..]
  }

  /** Shifting into a word keeps the value of those bits. */
  lemma {:induction false} WordKeepsLast(bits: seq<bool>)
    ensures ParityWord(bits) == Value(LastOfWord(bits))
  {
    FitsParityWord(LastOfWord(bits));
    if |bits| > 32 {
      var a, b := bits[..|bits| - 32], bits[|bits| - 32..];
      assert bits == a + b;
      ValueConcat(a, b);
      ShlIsProduct(Value(a), 32);
      Pow2Of32();
      WholeWords(Value(a), Value(b));
    }
  }

  lemma WholeWords(x: nat, y: nat)
    ensures (x * 0x1_0000_0000 + y) % 0x1_0000_0000 == y % 0x1_0000_0000
  {
  }

  lemma {:induction false} ShlIsProduct(x: nat, k: nat)
    ensures Shl(x, k) == x * Pow2(k)
  {
    if k > 0 {
      ShlIsProduct(x, k - 1);
      DoubleProduct(x, Pow2(k - 1));
    }
  }

  lemma DoubleProduct(x: nat, p: nat)
    ensures 2 * (x * p) == x * (2 * p)
  {
  }

  /**
   The appended bit makes the number of ones even for Even and odd for Odd, counting at most the last 32 bits of the
   block; for the markers it is the marker.
   */
  lemma InsertedBlockCounts(bits: seq<bool>, mode: Mode)
    ensures mode.Even? ==> !OddOnes(LastOfWord(bits) + [Block(bits, mode)[|bits|]])
    ensures mode.Odd? ==> OddOnes(LastOfWord(bits) + [Block(bits, mode)[|bits|]])
    ensures IsMarker(mode) ==> (Block(bits, mode)[|bits|] <==> mode.Always1?)
    ensures Block(bits, mode)[..|bits|] == bits
  {
    WordKeepsLast(bits);
    ParityOfValue(LastOfWord(bits));
    OnesInParts(LastOfWord(bits), [Block(bits, mode)[|bits|]]);
    var last := [Block(bits, mode)[|bits|]];
    assert last[..0] == [];
    hide Value, ParityOf;
  }

  lemma PrefixSlice(s: seq<bool>, k: nat, a: nat, b: nat)
    requires a <= b <= k <= |s|
    ensures s[..k][a..b] == s[a..b]
  {
  }

  lemma FrontSlice(s: seq<bool>, t: seq<bool>, a: nat, b: nat)
    requires a <= b <= |s|
    ensures (s + t)[a..b] == s[a..b]
  {
  }

  lemma BackSlice(s: seq<bool>, t: seq<bool>)
    ensures (s + t)[|s|..|s| + |t|] == t
  {
  }

  /** A block of the shorter result is a block of the longer one. */
  lemma EarlierBlock(w: seq<bool>, last: seq<bool>, bits: seq<bool>, k: nat, j: nat, m: nat, p: nat, mode: Mode)
    requires k <= |bits| && BlockAt(w, p, bits[..k], j, m, mode)
    ensures BlockAt(w + last, p, bits, j, m, mode)
  {
    PrefixSlice(bits, k, j, j + m);
    FrontSlice(w, last, p, p + m + 1);
  }

  lemma LastBlock(bits: seq<bool>, m: nat, q: nat, mode: Mode) returns (k: nat, w: seq<bool>)
    requires |bits| == Times(q, m) && q > 0
    ensures k == Times(q - 1, m) && k + m == |bits| && |w| == Times(q - 1, m + 1)
    ensures w == WithParity(bits[..k], m, q - 1, mode)
    ensures WithParity(bits, m, q, mode) == w + Block(bits[k..k + m], mode)
  {
    k := Times(q - 1, m);
    w := WithParity(bits[..k], m, q - 1, mode);
    assert bits[k..] == bits[k..k + m];
  }

  /** Block `i` of the result is block `i` of the source with its parity bit. */
  ghost predicate BlockAt(r: seq<bool>, p: nat, bits: seq<bool>, j: nat, m: nat, mode: Mode) {
    p + m + 1 <= |r| && j + m <= |bits| && r[p..p + m + 1] == Block(bits[j..j + m], mode)
  }

  lemma BlockAtEnd(w: seq<bool>, bits: seq<bool>, k: nat, m: nat, mode: Mode)
    requires k + m <= |bits|
    ensures BlockAt(w + Block(bits[k..k + m], mode), |w|, bits, k, m, mode)
  {
    BackSlice(w, Block(bits[k..k + m], mode));
  }

  lemma {:induction false} NthBlock(bits: seq<bool>, m: nat, q: nat, mode: Mode, i: nat)
    requires |bits| == Times(q, m) && i < q
    ensures BlockAt(WithParity(bits, m, q, mode), Times(i, m + 1), bits, Times(i, m), m, mode)
    decreases q
  {
    var k, w := LastBlock(bits, m, q, mode);
    if i < q - 1 {
      NthBlock(bits[..k], m, q - 1, mode, i);
      EarlierBlock(w, Block(bits[k..k + m], mode), bits, k, Times(i, m), m, Times(i, m + 1), mode);
    } else {
      BlockAtEnd(w, bits, k, m, mode);
    }
  }

  /** A block of the result passes in the opposite mode, and in its own exactly for the markers. */
  lemma NthBlockAccepted(bits: seq<bool>, m: nat, q: nat, mode: Mode, i: nat)
    requires |bits| == Times(q, m) && i < q && (IsMarker(mode) || m <= 32)
    ensures Times(i, m + 1) + m + 1 <= Times(q, m + 1)
    ensures var b := WithParity(bits, m, q, mode)[Times(i, m + 1)..Times(i, m + 1) + m + 1];
            Accepts(b, Opposite(mode)) && (Accepts(b, mode) <==> IsMarker(mode))
  {
    NthBlock(bits, m, q, mode, i);
    InsertedBlockAccepted(bits[Times(i, m)..Times(i, m) + m], mode);
  }

  /** Every block that insertion writes passes the check, in the mode of the previous lemma. */
  lemma AllBlocksAccepted(bits: seq<bool>, m: nat, q: nat, mode: Mode, i: nat)
    requires |bits| == q * m && i < q && (IsMarker(mode) || m <= 32)
    ensures var w := WithParity(bits, m, q, mode);
            && BlockAccepted(w, 0, m + 1, Opposite(mode), i)
            && (BlockAccepted(w, 0, m + 1, mode, i) <==> IsMarker(mode))
  {
    hide WithParity, Accepts;
    TimesIsProduct(q, m);
    TimesIsProduct(i, m + 1);
    NthBlockAccepted(bits, m, q, mode, i);
  }

  /** The bits of one block for bit_lib_test_parity_32, which takes at most 32 of them. */
  predicate Testable(mode: Mode, n: nat) {
    1 <= n && (IsMarker(mode) || n <= 32)
  }

  /** One turn of bit_lib_test_parity: the block of `n` bits at `p`. */
  method TestBlock(data: seq<bv8>, p: nat, n: nat, mode: Mode) returns (ok: bool)
    requires Testable(mode, n) && p + n <= 8 * |data|
    ensures ok <==> Accepts(AllBits(data)[p..p + n], mode)
  {
    ghost var block := AllBits(data)[p..p + n];
    if IsMarker(mode) {
      AllBitsAt(data, p + n - 1);
      assert block[n - 1] == AllBits(data)[p + n - 1];
      var bit := GetBit(data, p + n - 1);
      ok := if mode.Always0? then !bit else bit;
    } else {
      BytesAreRead(data);
      Ladder32Value(ByteReader(data), AllBits(data), p, n);
      ParityOfValue(block);
      ok := TestParity32(Ladder32(ByteReader(data), p, n), mode);
    }
  }

  ghost predicate BlockAccepted(bits: seq<bool>, p: nat, n: nat, mode: Mode, i: nat) {
    var k := p + i * n;
    n > 0 && k + n <= |bits| && Accepts(bits[k..k + n], mode)
  }

  ghost predicate AllAccepted(bits: seq<bool>, p: nat, n: nat, mode: Mode, q: nat) {
    forall i {:trigger BlockAccepted(bits, p, n, mode, i)} :: 0 <= i < q ==> BlockAccepted(bits, p, n, mode, i)
  }

  lemma AcceptedAt(bits: seq<bool>, p: nat, n: nat, mode: Mode, i: nat, k: nat)
    requires n > 0 && k == i * n && p + k + n <= |bits|
    ensures BlockAccepted(bits, p, n, mode, i) <==> Accepts(bits[p + k..p + k + n], mode)
  {
  }

  lemma OneMoreAccepted(bits: seq<bool>, p: nat, n: nat, mode: Mode, q: nat)
    ensures AllAccepted(bits, p, n, mode, q + 1) <==> AllAccepted(bits, p, n, mode, q) && BlockAccepted(bits, p, n, mode, q)
  {
  }

  lemma BlockInside(i: nat, n: nat, length: nat)
    requires n >= 1 && i < length / n
    ensures i * n == Times(i, n) && Times(i, n) + n <= length
  {
    TimesIsProduct(i, n);
    BlockFits(i, length / n, n);
    WholeBlocks(length, n);
  }

  /** bit_lib_test_parity: all whole blocks pass. */
  method TestParity(data: seq<bv8>, position: nat, length: nat, mode: Mode, parityLength: nat) returns (result: bool)
    requires Testable(mode, parityLength) && position + length <= 8 * |data|
    ensures result <==> AllAccepted(AllBits(data), position, parityLength, mode, length / parityLength)
  {
    hide AllBits, Accepts, BlockAccepted;
    var blocks, i := length / parityLength, 0;
    result := true;
    while i < blocks && result
      invariant 0 <= i <= blocks
      invariant result ==> AllAccepted(AllBits(data), position, parityLength, mode, i)
      invariant !result ==> !AllAccepted(AllBits(data), position, parityLength, mode, blocks)
      decreases blocks - i, result
    {
      BlockInside(i, parityLength, length);
      var k := i * parityLength;
      OneMoreAccepted(AllBits(data), position, parityLength, mode, i);
      AcceptedAt(AllBits(data), position, parityLength, mode, i, k);
      result := TestBlock(data, position + k, parityLength, mode);
      i := i + 1;
    }
  }

  // --- The routines together -----------------------------------------------------------------------

  /** The call inserts parity into `src`, which is all of the source range and made of whole blocks. */
  ghost predicate WholeInsertion(data: array<bv8>, position: nat, dest: array<bv8>, destPosition: nat, sourceLength: nat, n: nat,
                                 blocks: nat, src: seq<bool>)
    reads data
  {
    && data != dest && 2 <= n && sourceLength == blocks * (n - 1)
    && position + sourceLength <= 8 * data.Length && src == AllBits(data[..])[position..position + sourceLength]
    && destPosition + blocks * n <= 8 * dest.Length
  }

  /** Parity insertion for a source of whole blocks. */
  method InsertBlocks(data: array<bv8>, position: nat, dest: array<bv8>, destPosition: nat, sourceLength: nat, n: nat, mode: Mode,
                      ghost blocks: nat, ghost src: seq<bool>)
    returns (written: nat)
    requires WholeInsertion(data, position, dest, destPosition, sourceLength, n, blocks, src)
    modifies dest
    ensures |src| == Times(blocks, n - 1) && written == Times(blocks, n) && destPosition + written <= 8 * dest.Length
    ensures Written(AllBits(dest[..]), old(AllBits(dest[..])), destPosition, WithParity(src, n - 1, blocks, mode))
  {
    hide AllBits, Overwrite, WithParity;
    TimesIsProduct(blocks, n - 1);
    TimesIsProduct(blocks, n);
    written := AddAllBlocks(data, position, dest, destPosition, sourceLength, n, mode, blocks);
  }

  method RemoveAgain(dest: array<bv8>, p: nat, written: nat, n: nat, ghost d0: seq<bool>, ghost w: seq<bool>, ghost src: seq<bool>)
    returns (count: nat)
    requires n >= 1 && written == |w| && |src| <= |w| && p + |w| <= 8 * dest.Length == |d0|
    requires AllBits(dest[..]) == Overwrite(d0, p, w) && Kept(w, n) == src
    modifies dest
    ensures count == |src| && Recovered(AllBits(dest[..]), d0, p, src, |w|)
  {
    OverwriteRecovers(d0, p, w, src);
    count := RemoveBitEveryNth(dest, p, written, n);
  }

  /** Inserting parity into whole blocks and removing it again recovers the source in the destination. */
  method InsertThenRemove(data: array<bv8>, position: nat, dest: array<bv8>, destPosition: nat, sourceLength: nat, n: nat,
                          mode: Mode, ghost blocks: nat, ghost src: seq<bool>)
    returns (count: nat)
    requires WholeInsertion(data, position, dest, destPosition, sourceLength, n, blocks, src)
    modifies dest
    ensures count == sourceLength
    ensures Recovered(AllBits(dest[..]), old(AllBits(dest[..])), destPosition, src, sourceLength + blocks)
  {
    hide AllBits, Overwrite, WithParity, Kept, Recovered;
    var written := InsertBlocks(data, position, dest, destPosition, sourceLength, n, mode, blocks, src);
    OneMoreEach(blocks, n - 1);
    BlocksUndone(src, n - 1, blocks, mode);
    count := RemoveAgain(dest, destPosition, written, n, old(AllBits(dest[..])), WithParity(src, n - 1, blocks, mode), src);
  }

  lemma SliceOfOverwrite(d0: seq<bool>, p: nat, w: seq<bool>, k: nat, n: nat)
    requires p + |w| <= |d0| && k + n <= |w|
    ensures Overwrite(d0, p, w)[p + k..p + k + n] == w[k..k + n]
  {
    var d1 := Overwrite(d0, p, w);
    assert d1[p..p + |w|] == w;
    SliceOfSlice(d1, p, |w|, k, n);
  }

  /** In the destination, a written block passes in the opposite mode, and in its own mode only for the markers. */
  lemma WrittenBlockAccepted(d0: seq<bool>, p: nat, src: seq<bool>, m: nat, q: nat, mode: Mode, i: nat)
    requires |src| == Times(q, m) && p + Times(q, m + 1) <= |d0| && i < q && (IsMarker(mode) || m <= 32)
    ensures var d1 := Overwrite(d0, p, WithParity(src, m, q, mode));
            BlockAccepted(d1, p, m + 1, Opposite(mode), i) && (BlockAccepted(d1, p, m + 1, mode, i) <==> IsMarker(mode))
  {
    hide Overwrite, WithParity, Accepts;
    TimesIsProduct(i, m + 1);
    NthBlockAccepted(src, m, q, mode, i);
    SliceOfOverwrite(d0, p, WithParity(src, m, q, mode), Times(i, m + 1), m + 1);
  }

  lemma WrittenAccepted(d0: seq<bool>, p: nat, src: seq<bool>, m: nat, q: nat, mode: Mode)
    requires |src| == Times(q, m) && p + Times(q, m + 1) <= |d0| && (IsMarker(mode) || m <= 32)
    ensures var d1 := Overwrite(d0, p, WithParity(src, m, q, mode));
            && AllAccepted(d1, p, m + 1, Opposite(mode), q)
            && (AllAccepted(d1, p, m + 1, mode, q) <==> IsMarker(mode) || q == 0)
  {
    hide Overwrite, WithParity, BlockAccepted;
    var d1, n, other := Overwrite(d0, p, WithParity(src, m, q, mode)), m + 1, Opposite(mode);
    forall i | 0 <= i < q ensures BlockAccepted(d1, p, n, other, i) {
      WrittenBlockAccepted(d0, p, src, m, q, mode, i);
    }
    forall i | 0 <= i < q ensures BlockAccepted(d1, p, n, mode, i) <==> IsMarker(mode) {
      WrittenBlockAccepted(d0, p, src, m, q, mode, i);
    }
    assert q > 0 && AllAccepted(d1, p, n, mode, q) ==> BlockAccepted(d1, p, n, mode, 0);
  }

  /** The whole message passes in the opposite mode; in its own mode exactly for the markers or without any block. */
  lemma WrittenBlocksAccepted(d0: seq<bool>, p: nat, src: seq<bool>, m: nat, q: nat, mode: Mode)
    requires |src| == q * m && p + |WithParity(src, m, q, mode)| <= |d0| && (IsMarker(mode) || m <= 32)
    ensures var d1 := Overwrite(d0, p, WithParity(src, m, q, mode));
            && AllAccepted(d1, p, m + 1, Opposite(mode), q)
            && (AllAccepted(d1, p, m + 1, mode, q) <==> IsMarker(mode) || q == 0)
  {
    hide Overwrite, WithParity, AllAccepted;
    TimesIsProduct(q, m);
    WrittenAccepted(d0, p, src, m, q, mode);
  }

  /** What parity insertion writes, tested in the opposite mode and in its own. */
  method InsertThenTest(data: array<bv8>, position: nat, dest: array<bv8>, destPosition: nat, sourceLength: nat, n: nat, mode: Mode,
                        ghost blocks: nat, ghost src: seq<bool>)
    returns (opposite: bool, same: bool)
    requires WholeInsertion(data, position, dest, destPosition, sourceLength, n, blocks, src) && Testable(mode, n)
    modifies dest
    ensures opposite
    ensures same <==> IsMarker(mode) || sourceLength == 0
  {
    hide AllBits, Overwrite, WithParity;
    var written := InsertBlocks(data, position, dest, destPosition, sourceLength, n, mode, blocks, src);
    WrittenAccepted(old(AllBits(dest[..])), destPosition, src, n - 1, blocks, mode);
    SkipBlocks(blocks, n, 0);
    SmallRemainder(0, n);
    opposite := TestParity(dest[..], destPosition, written, Opposite(mode), n);
    same := TestParity(dest[..], destPosition, written, mode, n);
  }
}
