/**
 Polynomials over the two-element field as bit sequences, the highest coefficient first, and division by a
 polynomial with a shift register.
 */
module Polynomials {

  function Zeros(n: nat): (r: seq<bool>)
    ensures |r| == n
  {
    seq(n, _ => false)
  }

  function Plus(a: seq<bool>, b: seq<bool>): (r: seq<bool>)
    requires |a| == |b|
    ensures |r| == |a| && forall i :: 0 <= i < |a| ==> r[i] == (a[i] != b[i])
  {
    seq(|a|, i requires 0 <= i < |a| => a[i] != b[i])
  }

  /** The product of `q` and `g`, one coefficient of `q` at a time. */
  function Times(q: seq<bool>, g: seq<bool>): (r: seq<bool>)
    requires g != []
    ensures |r| == |q| + |g| - 1
  {
    if q == [] then Zeros(|g| - 1)
    else
      var n := |q| - 1;
      var shifted := Times(q[..n], g) + [false];
      if q[n] then Plus(shifted, Zeros(n) + g) else shifted
  }

  /** `r` is what remains of `dividend` after taking away a multiple of `g`. */
  ghost predicate IsRemainder(dividend: seq<bool>, g: seq<bool>, r: seq<bool>)
    requires g != [] && |dividend| >= |r| == |g| - 1
  {
    exists q :: |q| == |dividend| - |r| && dividend == Plus(Times(q, g), Zeros(|q|) + r)
  }

  // --- The shift register --------------------------------------------------------------------------

  /** One bit comes in against the bit going out, and when they differ `p` is added. */
  function Step(c: seq<bool>, p: seq<bool>, bit: bool): (r: seq<bool>)
    requires |c| == |p| > 0
    ensures |r| == |c|
  {
    if c[0] != bit then Plus(c[1..] + [false], p) else c[1..] + [false]
  }

  function Register(c: seq<bool>, p: seq<bool>, bits: seq<bool>): (r: seq<bool>)
    requires |c| == |p| > 0
    ensures |r| == |c|
  {
    if bits == [] then c else Step(Register(c, p, bits[..|bits| - 1]), p, bits[|bits| - 1])
  }

  /** The bits moved up by the width of the register, plus its initial value moved up by their number. */
  function Dividend(bits: seq<bool>, init: seq<bool>): (r: seq<bool>)
    ensures |r| == |bits| + |init|
  {
    Plus(bits + Zeros(|init|), init + Zeros(|bits|))
  }

  /** One more bit moves the dividend up and is added above the register. */
  lemma DividendStep(bits: seq<bool>, b: bool, init: seq<bool>)
    requires init != []
    ensures Dividend(bits + [b], init) == Plus(Dividend(bits, init) + [false], Zeros(|bits|) + [b] + Zeros(|init|))
  {
  }

  /** The quotient that division by x^w + p has produced when the bits are in. */
  function Quotient(c: seq<bool>, p: seq<bool>, bits: seq<bool>): (q: seq<bool>)
    requires |c| == |p| > 0
    ensures |q| == |bits|
  {
    if bits == [] then []
    else
      var before := bits[..|bits| - 1];
      Quotient(c, p, before) + [Register(c, p, before)[0] != bits[|bits| - 1]]
  }

  /** x R + b x^w is a multiple of x^w + p and the next register. */
  lemma StepDivides(r: seq<bool>, p: seq<bool>, b: bool, n: nat)
    requires |r| == |p| > 0
    ensures Plus(Zeros(n) + r + [false], Zeros(n) + [b] + Zeros(|p|)) ==
            Plus(if r[0] != b then Zeros(n) + ([true] + p) else Zeros(n + 1 + |p|), Zeros(n + 1) + Step(r, p, b))
  {
  }

  lemma Regroup(d: seq<bool>, t: seq<bool>, r: seq<bool>, b: seq<bool>, m: seq<bool>, r': seq<bool>)
    requires |d| == |t| == |r| == |b| == |m| == |r'|
    requires d == Plus(t, r) && Plus(r, b) == Plus(m, r')
    ensures Plus(d, b) == Plus(Plus(t, m), r')
  {
    forall i | 0 <= i < |d| ensures Plus(d, b)[i] == Plus(Plus(t, m), r')[i] {
      assert Plus(r, b)[i] == Plus(m, r')[i];
    }
  }

  lemma PlusZeros(a: seq<bool>)
    ensures Plus(a, Zeros(|a|)) == a
  {
  }

  lemma ShiftSum(a: seq<bool>, b: seq<bool>)
    requires |a| == |b|
    ensures Plus(a, b) + [false] == Plus(a + [false], b + [false])
  {
  }

  lemma TimesStep(q: seq<bool>, b: bool, g: seq<bool>)
    requires g != []
    ensures Times(q + [b], g) == if b then Plus(Times(q, g) + [false], Zeros(|q|) + g) else Times(q, g) + [false]
  {
    assert (q + [b])[..|q|] == q;
  }

  lemma QuotientStep(q: seq<bool>, b: bool, g: seq<bool>)
    requires g != []
    ensures Times(q + [b], g) == Plus(Times(q, g) + [false], if b then Zeros(|q|) + g else Zeros(|q| + |g|))
  {
    hide Times;
    TimesStep(q, b, g);
    PlusZeros(Times(q, g) + [false]);
  }

  /** If the bits before leave the dividend as `t` plus the register `r`, so does one bit more. */
  lemma DivisionStep(bits: seq<bool>, b: bool, init: seq<bool>, p: seq<bool>, t: seq<bool>, r: seq<bool>)
    requires |init| == |p| == |r| > 0 && |t| == |bits| + |p|
    requires Dividend(bits, init) == Plus(t, Zeros(|bits|) + r)
    ensures var m := if r[0] != b then Zeros(|bits|) + ([true] + p) else Zeros(|bits| + 1 + |p|);
            Dividend(bits + [b], init) == Plus(Plus(t + [false], m), Zeros(|bits| + 1) + Step(r, p, b))
  {
    hide Dividend, Step;
    var n := |bits|;
    var m := if r[0] != b then Zeros(n) + ([true] + p) else Zeros(n + 1 + |p|);
    ShiftSum(t, Zeros(n) + r);
    DividendStep(bits, b, init);
    StepDivides(r, p, b, n);
    Regroup(Dividend(bits, init) + [false], t + [false], Zeros(n) + r + [false], Zeros(n) + [b] + Zeros(|p|), m,
            Zeros(n + 1) + Step(r, p, b));
  }

  lemma NoBits(init: seq<bool>, p: seq<bool>)
    requires |init| == |p| > 0
    ensures Dividend([], init) == Plus(Times([], [true] + p), Zeros(0) + init)
  {
    NoFactor([true] + p);
    hide Times;
    assert [] + Zeros(|init|) == Zeros(|init|) && init + Zeros(0) == init && Zeros(0) + init == init;
  }

  lemma RegisterGrows(init: seq<bool>, p: seq<bool>, bits: seq<bool>)
    requires |init| == |p| > 0 && bits != []
    ensures var before, b := bits[..|bits| - 1], bits[|bits| - 1];
            var r := Register(init, p, before);
            && Register(init, p, bits) == Step(r, p, b)
            && Quotient(init, p, bits) == Quotient(init, p, before) + [r[0] != b]
            && before + [b] == bits
  {
  }

  /** Division: after the bits, the dividend is quotient times divisor plus register. */
  lemma {:induction false} RegisterDivides(init: seq<bool>, p: seq<bool>, bits: seq<bool>)
    requires |init| == |p| > 0
    ensures Dividend(bits, init) ==
            Plus(Times(Quotient(init, p, bits), [true] + p), Zeros(|bits|) + Register(init, p, bits))
  {
    if bits == [] {
      NoBits(init, p);
    } else {
      hide Times, Dividend, Register, Quotient, Step;
      var g, n := [true] + p, |bits| - 1;
      var before, b := bits[..n], bits[n];
      var q, r := Quotient(init, p, before), Register(init, p, before);
      RegisterDivides(init, p, before);
      RegisterGrows(init, p, bits);
      QuotientStep(q, r[0] != b, g);
      DivisionStep(before, b, init, p, Times(q, g), r);
    }
  }

  lemma RegisterIsRemainder(init: seq<bool>, p: seq<bool>, bits: seq<bool>)
    requires |init| == |p| > 0
    ensures IsRemainder(Dividend(bits, init), [true] + p, Register(init, p, bits))
  {
    RegisterDivides(init, p, bits);
  }

  lemma StepOnTop(x: seq<bool>, w: seq<bool>, p: seq<bool>)
    requires |x| == |w| == |p| > 0
    ensures Plus(Step(x, p, w[0]), w[1..] + [false]) == Step(Plus(x, w), p, false)
  {
  }

  /** Feeding bits is turning the register with the bits added on top of it. */
  lemma {:induction false} FeedOnTop(c: seq<bool>, p: seq<bool>, bits: seq<bool>, j: nat)
    requires |c| == |p| > 0 && j <= |bits| <= |c|
    ensures Plus(Register(c, p, bits[..j]), bits[j..] + Zeros(|c| - |bits| + j)) ==
            Register(Plus(c, bits + Zeros(|c| - |bits|)), p, Zeros(j))
  {
    hide Step;
    if j == 0 {
      assert bits[..0] == [] && bits[0..] == bits;
    } else {
      FeedOnTop(c, p, bits, j - 1);
      var x, w := Register(c, p, bits[..j - 1]), bits[j - 1..] + Zeros(|c| - |bits| + j - 1);
      StepOnTop(x, w, p);
      assert w[0] == bits[j - 1] && w[1..] + [false] == bits[j..] + Zeros(|c| - |bits| + j);
      assert bits[..j][..j - 1] == bits[..j - 1] && bits[..j][j - 1] == bits[j - 1];
      assert Zeros(j)[..j - 1] == Zeros(j - 1);
    }
  }

  lemma AllOnTop(c: seq<bool>, p: seq<bool>, bits: seq<bool>)
    requires |c| == |p| > 0 && |bits| <= |c|
    ensures Register(c, p, bits) == Register(Plus(c, bits + Zeros(|c| - |bits|)), p, Zeros(|bits|))
  {
    FeedOnTop(c, p, bits, |bits|);
    assert bits[..|bits|] == bits && bits[|bits|..] == [];
    assert [] + Zeros(|c|) == Zeros(|c|);
    PlusZeros(Register(c, p, bits));
  }

  lemma {:induction false} RegisterInParts(c: seq<bool>, p: seq<bool>, a: seq<bool>, b: seq<bool>)
    requires |c| == |p| > 0
    ensures Register(c, p, a + b) == Register(Register(c, p, a), p, b)
  {
    hide Step;
    if b == [] {
      assert a + b == a;
    } else {
      var n := |b| - 1;
      RegisterInParts(c, p, a, b[..n]);
      assert (a + b)[..|a + b| - 1] == a + b[..n];
    }
  }

  // --- There is one remainder --------------------------------------------------------------------------

  lemma OneFactor(b: bool, g: seq<bool>)
    requires g != [] && g[0]
    ensures Times([b], g)[0] == b
    ensures !b ==> Times([b], g) == [false] + Times([], g)
  {
    NoFactor(g);
    TimesStep([], b, g);
    assert [] + [b] == [b];
    hide Times;
  }

  lemma NoFactor(g: seq<bool>)
    requires g != []
    ensures Times([], g) == Zeros(|g| - 1)
  {
  }

  /** The next product of a Horner step. */
  function NextProduct(t: seq<bool>, b: bool, g: seq<bool>, n: nat): (r: seq<bool>)
    requires |t| + 1 == n + |g|
    ensures |r| == |t| + 1
  {
    if b then Plus(t + [false], Zeros(n) + g) else t + [false]
  }

  lemma FalseInFront(a: seq<bool>, b: seq<bool>)
    requires |a| == |b|
    ensures Plus([false] + a, [false] + b) == [false] + Plus(a, b)
  {
  }

  lemma LongerZeros(n: nat, g: seq<bool>)
    requires n > 0
    ensures Zeros(n) + g == [false] + (Zeros(n - 1) + g)
  {
  }

  lemma FirstKept(t: seq<bool>, b: bool, g: seq<bool>, n: nat)
    requires n > 0 && g != [] && |t| + 1 == n + |g|
    ensures NextProduct(t, b, g, n)[0] == t[0]
  {
  }

  lemma LeadingStep(u: seq<bool>, b: bool, g: seq<bool>, n: nat)
    requires n > 0 && |u| + 2 == n + |g|
    ensures NextProduct([false] + u, b, g, n) == [false] + NextProduct(u, b, g, n - 1)
  {
    hide Plus, Zeros;
    assert ([false] + u) + [false] == [false] + (u + [false]);
    LongerZeros(n, g);
    FalseInFront(u + [false], Zeros(n - 1) + g);
  }

  /** The highest coefficient of a product is that of the factor. */
  lemma {:induction false} LeadingBit(q: seq<bool>, g: seq<bool>)
    requires g != [] && g[0] && q != []
    ensures Times(q, g)[0] == q[0]
    ensures !q[0] ==> Times(q, g) == [false] + Times(q[1..], g)
  {
    var n := |q| - 1;
    var front, b := q[..n], q[n];
    assert q == front + [b];
    if n == 0 {
      assert front == [] && q == [b] && q[1..] == [];
      OneFactor(b, g);
    } else {
      assert q[1..] == front[1..] + [b];
      LeadingBit(front, g);
      TimesStep(front, b, g);
      TimesStep(front[1..], b, g);
      FirstKept(Times(front, g), b, g, n);
      LeadingStep(Times(front[1..], g), b, g, n);
      hide Times, Plus, Zeros;
    }
  }

  lemma {:induction false} SumOfProducts(a: seq<bool>, b: seq<bool>, g: seq<bool>)
    requires g != [] && |a| == |b|
    ensures Times(Plus(a, b), g) == Plus(Times(a, g), Times(b, g))
  {
    if a != [] {
      var n := |a| - 1;
      SumOfProducts(a[..n], b[..n], g);
      assert Plus(a, b)[..n] == Plus(a[..n], b[..n]);
    }
  }

  /** A multiple of `g` below the degree of `g` is zero times `g`. */
  lemma {:induction false} SmallMultiple(q: seq<bool>, g: seq<bool>)
    requires g != [] && g[0] && forall i :: 0 <= i < |q| ==> !Times(q, g)[i]
    ensures q == Zeros(|q|)
  {
    if q != [] {
      LeadingBit(q, g);
      forall i | 0 <= i < |q| - 1 ensures !Times(q[1..], g)[i] {
        assert Times(q, g)[i + 1] == Times(q[1..], g)[i];
      }
      SmallMultiple(q[1..], g);
      assert q == [false] + q[1..];
    }
  }

  /** Where only the product reaches, equal sums have equal products. */
  lemma SameQuotient(a: seq<bool>, b: seq<bool>, g: seq<bool>, r: seq<bool>, t: seq<bool>)
    requires g != [] && g[0] && |a| == |b| && |r| == |t| == |g| - 1
    requires Plus(Times(a, g), Zeros(|a|) + r) == Plus(Times(b, g), Zeros(|b|) + t)
    ensures a == b
  {
    hide Times;
    var x, y := Plus(Times(a, g), Zeros(|a|) + r), Plus(Times(b, g), Zeros(|b|) + t);
    SumOfProducts(a, b, g);
    forall i | 0 <= i < |a| ensures !Times(Plus(a, b), g)[i] {
      assert x[i] == Times(a, g)[i] && y[i] == Times(b, g)[i];
    }
    SmallMultiple(Plus(a, b), g);
    SumIsZero(a, b);
  }

  lemma SumIsZero(a: seq<bool>, b: seq<bool>)
    requires |a| == |b| && Plus(a, b) == Zeros(|a|)
    ensures a == b
  {
    forall i | 0 <= i < |a| ensures a[i] == b[i] {
      assert !Plus(a, b)[i];
    }
  }

  lemma SameRest(m: seq<bool>, n: nat, r: seq<bool>, t: seq<bool>)
    requires |r| == |t| && |m| == n + |r| && Plus(m, Zeros(n) + r) == Plus(m, Zeros(n) + t)
    ensures r == t
  {
    var x, y := Plus(m, Zeros(n) + r), Plus(m, Zeros(n) + t);
    forall k | 0 <= k < |r| ensures r[k] == t[k] {
      assert x[n + k] == (m[n + k] != r[k]) && y[n + k] == (m[n + k] != t[k]);
    }
  }

  lemma RemainderUnique(dividend: seq<bool>, g: seq<bool>, r: seq<bool>, t: seq<bool>)
    requires g != [] && g[0] && |dividend| >= |r| == |t| == |g| - 1
    requires IsRemainder(dividend, g, r) && IsRemainder(dividend, g, t)
    ensures r == t
  {
    hide Times, Plus, Zeros;
    var a :| |a| == |dividend| - |r| && dividend == Plus(Times(a, g), Zeros(|a|) + r);
    var b :| |b| == |dividend| - |t| && dividend == Plus(Times(b, g), Zeros(|b|) + t);
    SameQuotient(a, b, g, r, t);
    SameRest(Times(a, g), |a|, r, t);
  }
}
