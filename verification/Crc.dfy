/**
 Folding a message into a register, one symbol at a time: what additivity and injectivity of one
 step give for messages of any length.  `plus` and `add` stand for exclusive or.
 */
module Folding {

  function Fold<R, B>(absorb: (R, B) -> R, init: R, data: seq<B>): R {
    if data == [] then init else absorb(Fold(absorb, init, data[..|data| - 1]), data[|data| - 1])
  }

  function Zip<B>(add: (B, B) -> B, a: seq<B>, b: seq<B>): (r: seq<B>)
    requires |a| == |b|
    ensures |r| == |a| && forall i :: 0 <= i < |a| ==> r[i] == add(a[i], b[i])
  {
    seq(|a|, i requires 0 <= i < |a| => add(a[i], b[i]))
  }

  lemma ZipFront<B>(add: (B, B) -> B, a: seq<B>, b: seq<B>)
    requires |a| == |b| > 0
    ensures Zip(add, a, b)[..|a| - 1] == Zip(add, a[..|a| - 1], b[..|a| - 1])
  {
  }

  /** One step on sums is the sum of the steps. */
  ghost predicate Additive<R(!new), B(!new)>(absorb: (R, B) -> R, plus: (R, R) -> R, add: (B, B) -> B) {
    forall c, d, a, b {:trigger AdditiveAt(absorb, plus, add, c, d, a, b)} :: AdditiveAt(absorb, plus, add, c, d, a, b)
  }

  ghost predicate AdditiveAt<R, B>(absorb: (R, B) -> R, plus: (R, R) -> R, add: (B, B) -> B, c: R, d: R, a: B, b: B) {
    absorb(plus(c, d), add(a, b)) == plus(absorb(c, a), absorb(d, b))
  }

  lemma {:induction false} FoldAdditive<R(!new), B(!new)>(
    absorb: (R, B) -> R, plus: (R, R) -> R, add: (B, B) -> B, i: R, j: R, a: seq<B>, b: seq<B>)
    requires Additive(absorb, plus, add) && |a| == |b|
    ensures Fold(absorb, plus(i, j), Zip(add, a, b)) == plus(Fold(absorb, i, a), Fold(absorb, j, b))
  {
    if a != [] {
      var n := |a| - 1;
      FoldAdditive(absorb, plus, add, i, j, a[..n], b[..n]);
      ZipFront(add, a, b);
      var c, d := Fold(absorb, i, a[..n]), Fold(absorb, j, b[..n]);
      assert AdditiveAt(absorb, plus, add, c, d, a[n], b[n]);
    }
  }

  /** Different registers or different symbols lead to different registers. */
  ghost predicate Injective<R(!new), B(!new)>(absorb: (R, B) -> R) {
    && (forall c, d, a {:trigger absorb(c, a), absorb(d, a)} :: absorb(c, a) == absorb(d, a) ==> c == d)
    && (forall c, a, b {:trigger absorb(c, a), absorb(c, b)} :: absorb(c, a) == absorb(c, b) ==> a == b)
  }

  /** Steps keep registers apart, and different symbols take one register apart. */
  ghost predicate Separates<R(!new), B(!new)>(absorb: (R, B) -> R, apart: (R, R) -> bool) {
    && (forall c, d, a {:trigger absorb(c, a), absorb(d, a)} :: apart(c, d) ==> apart(absorb(c, a), absorb(d, a)))
    && (forall c, a, b {:trigger absorb(c, a), absorb(c, b)} :: a != b ==> apart(absorb(c, a), absorb(c, b)))
  }

  ghost predicate DifferInOne<B>(a: seq<B>, b: seq<B>, k: nat) {
    && |a| == |b| && k < |a| && a[k] != b[k]
    && forall i :: 0 <= i < |a| && i != k ==> a[i] == b[i]
  }

  /** A corruption confined to one symbol always shows in the register. */
  lemma {:induction false} FoldSeparates<R(!new), B(!new)>(
    absorb: (R, B) -> R, apart: (R, R) -> bool, init: R, a: seq<B>, b: seq<B>, k: nat)
    requires Separates(absorb, apart) && DifferInOne(a, b, k)
    ensures apart(Fold(absorb, init, a), Fold(absorb, init, b))
  {
    var n := |a| - 1;
    if k < n {
      FoldSeparates(absorb, apart, init, a[..n], b[..n], k);
    } else {
      assert a[..n] == b[..n];
    }
  }

  lemma FoldDiffers<R(!new), B(!new)>(absorb: (R, B) -> R, init: R, a: seq<B>, b: seq<B>, k: nat)
    requires Injective(absorb) && DifferInOne(a, b, k)
    ensures Fold(absorb, init, a) != Fold(absorb, init, b)
  {
    FoldSeparates(absorb, (x: R, y: R) => x != y, init, a, b, k);
  }

  function Repeat<R>(f: R -> R, x: R, n: nat): R {
    if n == 0 then x else f(Repeat(f, x, n - 1))
  }

  lemma {:induction false} RepeatAdditive<R(!new)>(f: R -> R, plus: (R, R) -> R, a: R, b: R, n: nat)
    requires forall x, y {:trigger SumKept(f, plus, x, y)} :: SumKept(f, plus, x, y)
    ensures Repeat(f, plus(a, b), n) == plus(Repeat(f, a, n), Repeat(f, b, n))
  {
    if n > 0 {
      RepeatAdditive(f, plus, a, b, n - 1);
      var x, y := Repeat(f, a, n - 1), Repeat(f, b, n - 1);
      assert SumKept(f, plus, x, y);
    }
  }

  ghost predicate SumKept<R>(f: R -> R, plus: (R, R) -> R, x: R, y: R) {
    f(plus(x, y)) == plus(f(x), f(y))
  }

  lemma {:induction false} RepeatInjective<R(!new)>(f: R -> R, a: R, b: R, n: nat)
    requires forall x, y {:trigger f(x), f(y)} :: f(x) == f(y) ==> x == y
    requires Repeat(f, a, n) == Repeat(f, b, n)
    ensures a == b
  {
    if n > 0 {
      RepeatInjective(f, a, b, n - 1);
    }
  }

  ghost predicate StaysIn<R>(f: R -> R, good: R -> bool, x: R) {
    good(x) ==> good(f(x))
  }

  lemma {:induction false} RepeatStaysIn<R(!new)>(f: R -> R, good: R -> bool, a: R, n: nat)
    requires forall x {:trigger StaysIn(f, good, x)} :: StaysIn(f, good, x)
    requires good(a)
    ensures good(Repeat(f, a, n))
  {
    if n > 0 {
      RepeatStaysIn(f, good, a, n - 1);
      assert StaysIn(f, good, Repeat(f, a, n - 1));
    }
  }

  // --- Registers that add the symbol and then turn -------------------------------------------------

  ghost predicate AssocAt<R>(plus: (R, R) -> R, a: R, b: R, c: R) {
    plus(plus(a, b), c) == plus(a, plus(b, c))
  }

  ghost predicate CommAt<R>(plus: (R, R) -> R, a: R, b: R) {
    plus(a, b) == plus(b, a)
  }

  ghost predicate UndoAt<R>(plus: (R, R) -> R, a: R, b: R) {
    plus(plus(a, b), b) == a
  }

  /** A commutative group in which every element undoes itself, as exclusive or. */
  ghost predicate Group<R(!new)>(plus: (R, R) -> R) {
    && (forall a, b, c {:trigger AssocAt(plus, a, b, c)} :: AssocAt(plus, a, b, c))
    && (forall a, b {:trigger CommAt(plus, a, b)} :: CommAt(plus, a, b))
    && (forall a, b {:trigger UndoAt(plus, a, b)} :: UndoAt(plus, a, b))
  }

  lemma Cancel<R(!new)>(plus: (R, R) -> R, a: R, b: R, c: R)
    requires Group(plus) && (plus(a, c) == plus(b, c) || plus(c, a) == plus(c, b))
    ensures a == b
  {
    assert UndoAt(plus, a, c) && UndoAt(plus, b, c) && CommAt(plus, a, c) && CommAt(plus, b, c);
  }

  lemma Medial<R(!new)>(plus: (R, R) -> R, a: R, b: R, c: R, d: R)
    requires Group(plus)
    ensures plus(plus(a, b), plus(c, d)) == plus(plus(a, c), plus(b, d))
  {
    calc {
      plus(plus(a, b), plus(c, d));
      { assert AssocAt(plus, a, b, plus(c, d)); }
      plus(a, plus(b, plus(c, d)));
      { assert AssocAt(plus, b, c, d) && CommAt(plus, b, c) && AssocAt(plus, c, b, d); }
      plus(a, plus(c, plus(b, d)));
      { assert AssocAt(plus, a, c, plus(b, d)); }
      plus(plus(a, c), plus(b, d));
    }
  }

  /** Adding a constant to a sum of three adds it to each of them. */
  lemma ConstantToEach<R(!new)>(plus: (R, R) -> R, a: R, b: R, c: R, x: R)
    requires Group(plus)
    ensures plus(plus(plus(a, b), c), x) == plus(plus(plus(a, x), plus(b, x)), plus(c, x))
  {
    assert AssocAt(plus, a, x, plus(b, x)) && CommAt(plus, x, plus(b, x)) && UndoAt(plus, b, x);
    assert AssocAt(plus, plus(a, b), c, x);
  }

  function Absorb<R, B>(turn: R -> R, plus: (R, R) -> R, lift: B -> R): (R, B) -> R {
    (c: R, b: B) => turn(plus(c, lift(b)))
  }

  ghost predicate LiftKept<R, B>(lift: B -> R, plus: (R, R) -> R, add: (B, B) -> B, a: B, b: B) {
    lift(add(a, b)) == plus(lift(a), lift(b))
  }

  lemma AbsorbAdditive<R(!new), B(!new)>(turn: R -> R, plus: (R, R) -> R, lift: B -> R, add: (B, B) -> B)
    requires Group(plus)
    requires forall x, y {:trigger SumKept(turn, plus, x, y)} :: SumKept(turn, plus, x, y)
    requires forall a, b {:trigger LiftKept(lift, plus, add, a, b)} :: LiftKept(lift, plus, add, a, b)
    ensures Additive(Absorb(turn, plus, lift), plus, add)
  {
    var absorb := Absorb(turn, plus, lift);
    forall c, d, a, b ensures AdditiveAt(absorb, plus, add, c, d, a, b) {
      assert LiftKept(lift, plus, add, a, b);
      Medial(plus, c, d, lift(a), lift(b));
      assert SumKept(turn, plus, plus(c, lift(a)), plus(d, lift(b)));
    }
  }

  lemma AbsorbInjective<R(!new), B(!new)>(turn: R -> R, plus: (R, R) -> R, lift: B -> R)
    requires Group(plus)
    requires forall x, y {:trigger turn(x), turn(y)} :: turn(x) == turn(y) ==> x == y
    requires forall a, b {:trigger lift(a), lift(b)} :: lift(a) == lift(b) ==> a == b
    ensures Injective(Absorb(turn, plus, lift))
  {
    var absorb := Absorb(turn, plus, lift);
    forall c, d, a | absorb(c, a) == absorb(d, a) ensures c == d {
      Cancel(plus, c, d, lift(a));
    }
    forall c, a, b | absorb(c, a) == absorb(c, b) ensures a == b {
      Cancel(plus, lift(a), lift(b), c);
    }
  }

  /** Registers whose difference is `good`. */
  function Apart<R>(plus: (R, R) -> R, good: R -> bool): (R, R) -> bool {
    (x: R, y: R) => good(plus(x, y))
  }

  lemma SameDifference<R(!new)>(plus: (R, R) -> R, x: R, y: R, l: R)
    requires Group(plus)
    ensures plus(plus(x, l), plus(y, l)) == plus(x, y)
    ensures plus(plus(l, x), plus(l, y)) == plus(x, y)
  {
    assert CommAt(plus, x, l) && CommAt(plus, y, l);
    assert AssocAt(plus, plus(x, l), y, l) && AssocAt(plus, x, l, y) && CommAt(plus, l, y);
    assert AssocAt(plus, x, y, l) && AssocAt(plus, plus(x, y), l, l) && UndoAt(plus, plus(x, y), l);
    assert AssocAt(plus, plus(x, l), l, y) && UndoAt(plus, x, l);
  }

  ghost predicate TakenApart<R, B>(lift: B -> R, plus: (R, R) -> R, good: R -> bool, a: B, b: B) {
    a != b ==> good(plus(lift(a), lift(b)))
  }

  /** Good differences come in with a symbol and stay good from then on. */
  lemma AbsorbSeparates<R(!new), B(!new)>(turn: R -> R, plus: (R, R) -> R, lift: B -> R, good: R -> bool)
    requires Group(plus)
    requires forall x, y {:trigger SumKept(turn, plus, x, y)} :: SumKept(turn, plus, x, y)
    requires forall x {:trigger StaysIn(turn, good, x)} :: StaysIn(turn, good, x)
    requires forall a, b {:trigger TakenApart(lift, plus, good, a, b)} :: TakenApart(lift, plus, good, a, b)
    ensures Separates(Absorb(turn, plus, lift), Apart(plus, good))
  {
    var absorb, apart := Absorb(turn, plus, lift), Apart(plus, good);
    forall c, d, a | apart(c, d) ensures apart(absorb(c, a), absorb(d, a)) {
      var x, y := plus(c, lift(a)), plus(d, lift(a));
      SameDifference(plus, c, d, lift(a));
      assert SumKept(turn, plus, x, y) && StaysIn(turn, good, plus(x, y));
    }
    forall c, a, b | a != b ensures apart(absorb(c, a), absorb(c, b)) {
      var x, y := plus(c, lift(a)), plus(c, lift(b));
      SameDifference(plus, lift(a), lift(b), c);
      assert TakenApart(lift, plus, good, a, b);
      assert SumKept(turn, plus, x, y) && StaysIn(turn, good, plus(x, y));
    }
  }

  // --- Shift registers with feedback ---------------------------------------------------------------

  /** One round: shift, and add `p` when the bit shifted out differs from `bit`. */
  function Feedback<R>(shift: R -> R, top: R -> bool, plus: (R, R) -> R, p: R, c: R, bit: bool): R {
    if top(c) != bit then plus(shift(c), p) else shift(c)
  }

  ghost predicate TopKept<R>(top: R -> bool, plus: (R, R) -> R, x: R, y: R) {
    top(plus(x, y)) == (top(x) != top(y))
  }

  /** Feeding a bit is turning the register with that bit already added on top. */
  lemma FeedbackCommutes<R(!new)>(shift: R -> R, top: R -> bool, plus: (R, R) -> R, p: R, x: R, w: R)
    requires Group(plus) && SumKept(shift, plus, x, w) && TopKept(top, plus, x, w)
    ensures plus(Feedback(shift, top, plus, p, x, top(w)), shift(w)) == Feedback(shift, top, plus, p, plus(x, w), false)
  {
    var a, b := shift(x), shift(w);
    assert AssocAt(plus, a, p, b) && CommAt(plus, p, b) && AssocAt(plus, a, b, p);
  }

  /** The register after the first `j` of the given bits. */
  function Fed<R>(shift: R -> R, top: R -> bool, plus: (R, R) -> R, p: R, c: R, bit: nat -> bool, j: nat): R {
    if j == 0 then c else Feedback(shift, top, plus, p, Fed(shift, top, plus, p, c, bit, j - 1), bit(j - 1))
  }

  ghost predicate OffTheTop<R>(shift: R -> R, top: R -> bool, bit: nat -> bool, w: nat -> R, i: nat) {
    bit(i) == top(w(i)) && w(i + 1) == shift(w(i))
  }

  /** Feeding bits that come off the top of `w` is turning the register with `w` added. */
  lemma {:induction false} FedIsTurned<R(!new)>(
    shift: R -> R, top: R -> bool, plus: (R, R) -> R, p: R, c: R, bit: nat -> bool, w: nat -> R, j: nat)
    requires Group(plus)
    requires forall x, y {:trigger SumKept(shift, plus, x, y)} :: SumKept(shift, plus, x, y)
    requires forall x, y {:trigger TopKept(top, plus, x, y)} :: TopKept(top, plus, x, y)
    requires forall i: nat {:trigger OffTheTop(shift, top, bit, w, i)} :: i < j ==> OffTheTop(shift, top, bit, w, i)
    ensures plus(Fed(shift, top, plus, p, c, bit, j), w(j)) ==
            Repeat((x: R) => Feedback(shift, top, plus, p, x, false), plus(c, w(0)), j)
  {
    if j > 0 {
      FedIsTurned(shift, top, plus, p, c, bit, w, j - 1);
      var x := Fed(shift, top, plus, p, c, bit, j - 1);
      assert OffTheTop(shift, top, bit, w, j - 1);
      assert SumKept(shift, plus, x, w(j - 1)) && TopKept(top, plus, x, w(j - 1));
      FeedbackCommutes(shift, top, plus, p, x, w(j - 1));
    }
  }

  lemma FeedbackAdditive<R(!new)>(shift: R -> R, top: R -> bool, plus: (R, R) -> R, p: R, x: R, y: R)
    requires Group(plus) && SumKept(shift, plus, x, y) && TopKept(top, plus, x, y)
    ensures Feedback(shift, top, plus, p, plus(x, y), false) ==
            plus(Feedback(shift, top, plus, p, x, false), Feedback(shift, top, plus, p, y, false))
  {
    var a, b := shift(x), shift(y);
    assert AssocAt(plus, a, p, b) && CommAt(plus, p, b) && AssocAt(plus, a, b, p);
    assert AssocAt(plus, a, p, plus(b, p)) && CommAt(plus, p, plus(b, p)) && UndoAt(plus, b, p);
  }

  // --- The whole check value ------------------------------------------------------------------------

  /** The register after the message, reflected by `out` and combined with the constant `x`. */
  function Digest<R, B>(absorb: (R, B) -> R, out: R -> R, plus: (R, R) -> R, x: R, init: R, data: seq<B>): R {
    plus(out(Fold(absorb, init, data)), x)
  }

  /** The digest of the sum of three messages is the sum of their digests. */
  lemma DigestAffine<R(!new), B(!new)>(
    absorb: (R, B) -> R, out: R -> R, plus: (R, R) -> R, add: (B, B) -> B, x: R,
    i: R, j: R, k: R, a: seq<B>, b: seq<B>, c: seq<B>)
    requires Group(plus) && Additive(absorb, plus, add) && |a| == |b| == |c|
    requires forall x, y {:trigger SumKept(out, plus, x, y)} :: SumKept(out, plus, x, y)
    ensures Digest(absorb, out, plus, x, plus(plus(i, j), k), Zip(add, Zip(add, a, b), c)) ==
            plus(plus(Digest(absorb, out, plus, x, i, a), Digest(absorb, out, plus, x, j, b)), Digest(absorb, out, plus, x, k, c))
  {
    FoldAdditive(absorb, plus, add, i, j, a, b);
    FoldAdditive(absorb, plus, add, plus(i, j), k, Zip(add, a, b), c);
    var fa, fb, fc := Fold(absorb, i, a), Fold(absorb, j, b), Fold(absorb, k, c);
    assert SumKept(out, plus, fa, fb) && SumKept(out, plus, plus(fa, fb), fc);
    ConstantToEach(plus, out(fa), out(fb), out(fc), x);
  }

  lemma DigestDiffers<R(!new), B(!new)>(
    absorb: (R, B) -> R, out: R -> R, plus: (R, R) -> R, x: R, init: R, a: seq<B>, b: seq<B>)
    requires Group(plus) && Fold(absorb, init, a) != Fold(absorb, init, b)
    requires forall x, y {:trigger out(x), out(y)} :: out(x) == out(y) ==> x == y
    ensures Digest(absorb, out, plus, x, init, a) != Digest(absorb, out, plus, x, init, b)
  {
    var fa, fb := Fold(absorb, init, a), Fold(absorb, init, b);
    if plus(out(fa), x) == plus(out(fb), x) {
      Cancel(plus, out(fa), out(fb), x);
      assert false;
    }
  }
}

/** The 8-bit CRC and byte reversal of lib/bit_lib/bit_lib.c. */
module Crc {
  import opened Bytes
  import opened Folding

  // --- Bit reversal ----------------------------------------------------------------------------

  /** bit_lib_reverse_8_fast. */
  function Reverse8(b: bv8): bv8 {
    var b1 := ((b & 0xF0) >> 4) | ((b & 0x0F) << 4);
    var b2 := ((b1 & 0xCC) >> 2) | ((b1 & 0x33) << 2);
    ((b2 & 0xAA) >> 1) | ((b2 & 0x55) << 1)
  }

  lemma Reverse8Bits(b: bv8, k: nat)
    requires k < 8
    ensures BitAt(Reverse8(b), k) == BitAt(b, 7 - k)
  {
    if k == 0 {} else if k == 1 {} else if k == 2 {} else if k == 3 {}
    else if k == 4 {} else if k == 5 {} else if k == 6 {} else {}
  }

  lemma Reverse8Twice(b: bv8)
    ensures Reverse8(Reverse8(b)) == b
  {
  }

  lemma Reverse8Xor(a: bv8, b: bv8)
    ensures Reverse8(a ^ b) == Reverse8(a) ^ Reverse8(b)
  {
  }

  // --- One byte of CRC-8 ------------------------------------------------------------------------

  function Xor8(a: bv8, b: bv8): bv8 {
    a ^ b
  }

  lemma Xor8Assoc(a: bv8, b: bv8, c: bv8)
    ensures Xor8(Xor8(a, b), c) == Xor8(a, Xor8(b, c))
  {
  }

  lemma Xor8Group()
    ensures Group(Xor8)
  {
    forall a, b, c ensures AssocAt(Xor8, a, b, c) {
      Xor8Assoc(a, b, c);
    }
  }

  function Round8(c: bv8, poly: bv8): bv8 {
    if c & 0x80 != 0 then (c << 1) ^ poly else c << 1
  }

  lemma ShiftXor8(a: bv8, b: bv8)
    ensures (a ^ b) << 1 == (a << 1) ^ (b << 1)
    ensures ((a ^ b) & 0x80 != 0) == ((a & 0x80 != 0) != (b & 0x80 != 0))
  {
  }

  lemma RegroupXor8(x: bv8, y: bv8, p: bv8)
    ensures (x ^ p) ^ (y ^ p) == x ^ y
    ensures (x ^ y) ^ p == (x ^ p) ^ y == x ^ (y ^ p)
  {
  }

  lemma Round8Additive(a: bv8, b: bv8, poly: bv8)
    ensures Round8(Xor8(a, b), poly) == Xor8(Round8(a, poly), Round8(b, poly))
  {
    ShiftXor8(a, b);
    RegroupXor8(a << 1, b << 1, poly);
  }

  lemma Round8Injective(a: bv8, b: bv8, poly: bv8)
    requires poly & 1 == 1
    ensures (if a & 0x80 != 0 then (a << 1) ^ poly else a << 1) == (if b & 0x80 != 0 then (b << 1) ^ poly else b << 1) ==> a == b
  {
  }

  /** The eight rounds of one byte. */
  function Turn8(poly: bv8): bv8 -> bv8 {
    (c: bv8) => Repeat((x: bv8) => Round8(x, poly), c, 8)
  }

  lemma Turn8Additive(poly: bv8, x: bv8, y: bv8)
    ensures SumKept(Turn8(poly), Xor8, x, y)
  {
    var f := (x: bv8) => Round8(x, poly);
    forall x, y ensures SumKept(f, Xor8, x, y) {
      Round8Additive(x, y, poly);
    }
    RepeatAdditive(f, Xor8, x, y, 8);
  }

  lemma Turn8Injective(poly: bv8, x: bv8, y: bv8)
    requires poly & 1 == 1 && Turn8(poly)(x) == Turn8(poly)(y)
    ensures x == y
  {
    var f := (x: bv8) => Round8(x, poly);
    forall x, y | f(x) == f(y) ensures x == y {
      Round8Injective(x, y, poly);
    }
    RepeatInjective(f, x, y, 8);
  }

  function Reflect8(ref: bool): bv8 -> bv8 {
    (b: bv8) => if ref then Reverse8(b) else b
  }

  lemma Reflect8Additive(ref: bool, a: bv8, b: bv8)
    ensures SumKept(Reflect8(ref), Xor8, a, b)
  {
    if ref {
      Reverse8Xor(a, b);
    }
  }

  lemma Reflect8Injective(ref: bool, a: bv8, b: bv8)
    requires Reflect8(ref)(a) == Reflect8(ref)(b)
    ensures a == b
  {
    if ref {
      Reverse8Twice(a);
      Reverse8Twice(b);
    }
  }

  // --- CRC-8 of a message ----------------------------------------------------------------------

  function Absorb8(poly: bv8, refIn: bool): (bv8, bv8) -> bv8 {
    Absorb(Turn8(poly), Xor8, Reflect8(refIn))
  }

  function Crc8(data: seq<bv8>, poly: bv8, init: bv8, refIn: bool, refOut: bool, xorOut: bv8): bv8 {
    Digest(Absorb8(poly, refIn), Reflect8(refOut), Xor8, xorOut, init, data)
  }

  lemma Absorb8Additive(poly: bv8, refIn: bool)
    ensures Additive(Absorb8(poly, refIn), Xor8, Xor8)
  {
    Xor8Group();
    forall x, y ensures SumKept(Turn8(poly), Xor8, x, y) {
      Turn8Additive(poly, x, y);
    }
    forall a, b ensures LiftKept(Reflect8(refIn), Xor8, Xor8, a, b) {
      Reflect8Additive(refIn, a, b);
    }
    AbsorbAdditive(Turn8(poly), Xor8, Reflect8(refIn), Xor8);
  }

  lemma Absorb8Injective(poly: bv8, refIn: bool)
    requires poly & 1 == 1
    ensures Injective(Absorb8(poly, refIn))
  {
    Xor8Group();
    forall x, y | Turn8(poly)(x) == Turn8(poly)(y) ensures x == y {
      Turn8Injective(poly, x, y);
    }
    forall a, b | Reflect8(refIn)(a) == Reflect8(refIn)(b) ensures a == b {
      Reflect8Injective(refIn, a, b);
    }
    AbsorbInjective(Turn8(poly), Xor8, Reflect8(refIn));
  }

  /** CRC-8 is affine: the CRC of the sum of three messages is the sum of their CRCs. */
  lemma Crc8Affine(a: seq<bv8>, b: seq<bv8>, c: seq<bv8>, poly: bv8, i: bv8, j: bv8, k: bv8, refIn: bool, refOut: bool, xorOut: bv8)
    requires |a| == |b| == |c|
    ensures Crc8(Zip(Xor8, Zip(Xor8, a, b), c), poly, Xor8(Xor8(i, j), k), refIn, refOut, xorOut) ==
            Xor8(Xor8(Crc8(a, poly, i, refIn, refOut, xorOut), Crc8(b, poly, j, refIn, refOut, xorOut)),
                 Crc8(c, poly, k, refIn, refOut, xorOut))
  {
    Xor8Group();
    Absorb8Additive(poly, refIn);
    forall x, y ensures SumKept(Reflect8(refOut), Xor8, x, y) {
      Reflect8Additive(refOut, x, y);
    }
    DigestAffine(Absorb8(poly, refIn), Reflect8(refOut), Xor8, Xor8, xorOut, i, j, k, a, b, c);
  }

  /** With an odd polynomial, any corruption of a single byte changes the CRC. */
  lemma Crc8DetectsOneByte(a: seq<bv8>, b: seq<bv8>, k: nat, poly: bv8, init: bv8, refIn: bool, refOut: bool, xorOut: bv8)
    requires poly & 1 == 1 && DifferInOne(a, b, k)
    ensures Crc8(a, poly, init, refIn, refOut, xorOut) != Crc8(b, poly, init, refIn, refOut, xorOut)
  {
    Xor8Group();
    Absorb8Injective(poly, refIn);
    forall x, y | Reflect8(refOut)(x) == Reflect8(refOut)(y) ensures x == y {
      Reflect8Injective(refOut, x, y);
    }
    FoldDiffers(Absorb8(poly, refIn), init, a, b, k);
    DigestDiffers(Absorb8(poly, refIn), Reflect8(refOut), Xor8, xorOut, init, a, b);
  }

  /** An even polynomial maps this register and 0 to the same register. */
  function Blind8(poly: bv8): bv8 {
    0x80 | (poly >> 1)
  }

  lemma Blind8Vanishes(poly: bv8)
    requires poly & 1 == 0
    ensures (0x80 | (poly >> 1)) & 0x80 != 0 && ((0x80 | (poly >> 1)) << 1) ^ poly == 0
  {
  }

  lemma {:induction false} ZeroStays8(poly: bv8, n: nat)
    ensures Repeat((x: bv8) => Round8(x, poly), 0, n) == 0
  {
    if n > 0 {
      ZeroStays8(poly, n - 1);
    }
  }

  lemma {:induction false} BlindBecomesZero8(poly: bv8, n: nat)
    requires poly & 1 == 0
    ensures Repeat((x: bv8) => Round8(x, poly), Blind8(poly), n + 1) == 0
  {
    var f := (x: bv8) => Round8(x, poly);
    if n == 0 {
      Blind8Vanishes(poly);
      assert Repeat(f, Blind8(poly), 0) == Blind8(poly);
    } else {
      BlindBecomesZero8(poly, n - 1);
    }
  }

  lemma BlindTurns8(poly: bv8)
    requires poly & 1 == 0
    ensures Turn8(poly)(Blind8(poly)) == Turn8(poly)(0)
  {
    ZeroStays8(poly, 8);
    BlindBecomesZero8(poly, 7);
  }

  lemma Unreflect8(ref: bool, x: bv8)
    ensures Reflect8(ref)(Reflect8(ref)(x)) == x
  {
    Reverse8Twice(x);
  }

  lemma OneByte8(poly: bv8, init: bv8, refIn: bool, a: bv8)
    ensures Fold(Absorb8(poly, refIn), init, [a]) == Turn8(poly)(Xor8(init, Reflect8(refIn)(a)))
  {
    assert [a][..0] == [];
    assert Fold(Absorb8(poly, refIn), init, [a]) == Absorb8(poly, refIn)(Fold(Absorb8(poly, refIn), init, []), a);
  }

  /** Two first bytes that leave the register where turning cannot tell them apart. */
  lemma SameTurn8(poly: bv8, init: bv8, refIn: bool, w: bv8)
    requires Turn8(poly)(w) == Turn8(poly)(0)
    ensures var a, b := Reflect8(refIn)(init), Reflect8(refIn)(Xor8(init, w));
            Fold(Absorb8(poly, refIn), init, [a]) == Fold(Absorb8(poly, refIn), init, [b])
  {
    OneByte8(poly, init, refIn, Reflect8(refIn)(init));
    OneByte8(poly, init, refIn, Reflect8(refIn)(Xor8(init, w)));
    Unreflect8(refIn, init);
    Unreflect8(refIn, Xor8(init, w));
    Cancels8(init, w);
  }

  lemma Cancels8(i: bv8, w: bv8)
    ensures Xor8(i, i) == 0 && Xor8(i, Xor8(i, w)) == w
    ensures Xor8(i, w) == i <==> w == 0
  {
  }

  lemma BlindNonZero8(poly: bv8)
    ensures 0x80 | (poly >> 1) != 0
  {
  }

  /** With an even polynomial some one-byte corruption is missed, whatever the other parameters. */
  lemma Crc8EvenMisses(poly: bv8, init: bv8, refIn: bool, refOut: bool, xorOut: bv8) returns (a: bv8, b: bv8)
    requires poly & 1 == 0
    ensures a != b && Crc8([a], poly, init, refIn, refOut, xorOut) == Crc8([b], poly, init, refIn, refOut, xorOut)
  {
    var w := Blind8(poly);
    a, b := Reflect8(refIn)(init), Reflect8(refIn)(Xor8(init, w));
    BlindTurns8(poly);
    SameTurn8(poly, init, refIn, w);
    BlindNonZero8(poly);
    Cancels8(init, w);
    if a == b {
      Reflect8Injective(refIn, init, Xor8(init, w));
      assert false;
    }
  }

  /** Detecting every one-byte corruption is exactly having an odd polynomial. */
  lemma Crc8DetectsIffOdd(poly: bv8, init: bv8, refIn: bool, refOut: bool, xorOut: bv8)
    ensures (forall a, b, k {:trigger DifferInOne(a, b, k)} :: DifferInOne(a, b, k) ==>
               Crc8(a, poly, init, refIn, refOut, xorOut) != Crc8(b, poly, init, refIn, refOut, xorOut))
            <==> poly & 1 == 1
  {
    if poly & 1 == 1 {
      forall a, b, k | DifferInOne(a, b, k)
        ensures Crc8(a, poly, init, refIn, refOut, xorOut) != Crc8(b, poly, init, refIn, refOut, xorOut)
      {
        Crc8DetectsOneByte(a, b, k, poly, init, refIn, refOut, xorOut);
      }
    } else {
      NotOdd8(poly);
      var a, b := Crc8EvenMisses(poly, init, refIn, refOut, xorOut);
      assert DifferInOne([a], [b], 0);
    }
  }

  lemma NotOdd8(poly: bv8)
    ensures poly & 1 == 0 || poly & 1 == 1
  {
  }
}
