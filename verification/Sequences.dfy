/** Ascending sequences of integers, used as address-ordered lists. */
module Sequences {

  ghost predicate Ascending(s: seq<int>) {
    forall i, j :: 0 <= i < j < |s| ==> s[i] < s[j]
  }

  ghost function Elements(s: seq<int>): set<int> {
    set x | x in s
  }

  function Without(s: seq<int>, k: nat): seq<int>
    requires k < |s|
  {
    s[..k] + s[k + 1..]
  }

  function With(s: seq<int>, k: nat, x: int): seq<int>
    requires k <= |s|
  {
    s[..k] + [x] + s[k..]
  }

  lemma WithoutElements(s: seq<int>, k: nat)
    requires Ascending(s) && k < |s|
    ensures Ascending(Without(s, k)) && Elements(Without(s, k)) == Elements(s) - {s[k]}
  {
    var t := Without(s, k);
    assert forall i :: 0 <= i < |t| ==> t[i] == s[if i < k then i else i + 1];
    forall x | x in s && x != s[k] ensures x in t {
      var i :| 0 <= i < |s| && s[i] == x;
      assert t[if i < k then i else i - 1] == x;
    }
  }

  lemma WithElements(s: seq<int>, k: nat, x: int)
    requires Ascending(s) && k <= |s|
    requires k < |s| ==> x < s[k]
    requires k > 0 ==> s[k - 1] < x
    ensures Ascending(With(s, k, x)) && Elements(With(s, k, x)) == Elements(s) + {x}
  {
    var t := With(s, k, x);
    WithAt(s, k, x);
    hide With;
    assert t[k] == x;
    forall y | y in s ensures y in t {
      var i :| 0 <= i < |s| && s[i] == y;
      assert t[if i < k then i else i + 1] == y;
    }
  }

  lemma UpdateElements(s: seq<int>, k: nat, x: int)
    requires Ascending(s) && k < |s| && s[k] <= x
    requires k + 1 < |s| ==> x < s[k + 1]
    ensures Ascending(s[k := x]) && Elements(s[k := x]) == Elements(s) - {s[k]} + {x}
  {
    var t := s[k := x];
    assert t[k] == x;
    forall y | y in s && y != s[k] ensures y in t {
      var i :| 0 <= i < |s| && s[i] == y;
      assert t[i] == y;
    }
  }

  lemma WithThenWithout(s: seq<int>, k: nat, x: int)
    requires k <= |s|
    ensures Without(With(s, k, x), k) == s
    ensures k < |s| ==> Without(With(s, k, x), k + 1) == s[k := x]
  {
  }

  lemma NoElements(s: seq<int>)
    ensures s == [] <==> Elements(s) == {}
  {
    assert s != [] ==> s[0] in Elements(s);
  }

  /** An ascending sequence is determined by its elements. */
  lemma {:induction false} AscendingUnique(s: seq<int>, t: seq<int>)
    requires Ascending(s) && Ascending(t) && Elements(s) == Elements(t)
    ensures s == t
  {
    NoElements(s);
    NoElements(t);
    if s != [] && t != [] {
      assert s[0] in Elements(t) && t[0] in Elements(s);
      WithoutElements(s, 0);
      WithoutElements(t, 0);
      assert Without(s, 0) == s[1..] && Without(t, 0) == t[1..];
      AscendingUnique(s[1..], t[1..]);
    }
  }

  // --- Lists without duplicates -----------------------------------------------------------

  ghost predicate Distinct(s: seq<int>) {
    forall i, j :: 0 <= i < j < |s| ==> s[i] != s[j]
  }

  function Index(s: seq<int>, x: int): (i: nat)
    requires x in s
    ensures i < |s| && s[i] == x
    ensures forall j :: 0 <= j < i ==> s[j] != x
  {
    if s[0] == x then 0 else 1 + Index(s[1..], x)
  }

  /** The list without element `x`; a list that lacks it stays as it is. */
  function Unlink(s: seq<int>, x: int): seq<int> {
    if x in s then Without(s, Index(s, x)) else s
  }

  lemma WithoutAt(s: seq<int>, k: nat)
    requires k < |s|
    ensures |Without(s, k)| == |s| - 1
    ensures forall i :: 0 <= i < |Without(s, k)| ==> Without(s, k)[i] == s[if i < k then i else i + 1]
  {
  }

  lemma WithAt(s: seq<int>, k: nat, x: int)
    requires k <= |s|
    ensures |With(s, k, x)| == |s| + 1 && With(s, k, x)[k] == x
    ensures forall i :: 0 <= i < k ==> With(s, k, x)[i] == s[i]
    ensures forall i :: k < i <= |s| ==> With(s, k, x)[i] == s[i - 1]
  {
  }

  lemma DistinctWithout(s: seq<int>, k: nat)
    requires Distinct(s) && k < |s|
    ensures Distinct(Without(s, k)) && Elements(Without(s, k)) == Elements(s) - {s[k]}
  {
    var t := Without(s, k);
    WithoutAt(s, k);
    hide Without;
    forall i, j | 0 <= i < j < |t| ensures t[i] != t[j] {
      assert t[i] == s[if i < k then i else i + 1] && t[j] == s[if j < k then j else j + 1];
    }
    forall y | y in s && y != s[k] ensures y in t {
      var i :| 0 <= i < |s| && s[i] == y;
      assert t[if i < k then i else i - 1] == y;
    }
    forall y | y in t ensures y in s && y != s[k] {
      var i :| 0 <= i < |t| && t[i] == y;
      assert s[if i < k then i else i + 1] == y;
    }
  }

  lemma UnlinkElements(s: seq<int>, x: int)
    requires Distinct(s)
    ensures Distinct(Unlink(s, x)) && Elements(Unlink(s, x)) == Elements(s) - {x}
  {
    hide Without, Distinct;
    if x in s {
      DistinctWithout(s, Index(s, x));
    }
  }

  lemma AppendElements(s: seq<int>, x: int)
    requires Distinct(s) && x !in s
    ensures Distinct(s + [x]) && Elements(s + [x]) == Elements(s) + {x}
  {
  }

  lemma WithDistinct(s: seq<int>, k: nat, x: int)
    requires Distinct(s) && x !in s && k <= |s|
    ensures Distinct(With(s, k, x)) && Elements(With(s, k, x)) == Elements(s) + {x}
  {
    var t := With(s, k, x);
    assert t[k] == x;
    assert forall i :: 0 <= i < |t| ==> t[i] == if i < k then s[i] else if i == k then x else s[i - 1];
    forall y | y in s ensures y in t {
      var i := Index(s, y);
      assert t[if i < k then i else i + 1] == y;
    }
  }

  lemma IndexUnique(s: seq<int>, x: int, i: nat)
    requires i < |s| && s[i] == x && forall j :: 0 <= j < i ==> s[j] != x
    ensures x in s && Index(s, x) == i
  {
  }

  lemma IndexAppend(s: seq<int>, y: int, x: int)
    requires x in s
    ensures x in s + [y] && Index(s + [y], x) == Index(s, x)
  {
    IndexUnique(s + [y], x, Index(s, x));
  }

  lemma IndexTail(s: seq<int>, x: int)
    requires x in s && s[0] != x
    ensures x in s[1..] && Index(s[1..], x) == Index(s, x) - 1
  {
    assert s == [s[0]] + s[1..];
  }

  /** Taking another element out never moves `x` back. */
  lemma IndexUnlink(s: seq<int>, y: int, x: int)
    requires Distinct(s) && x in s && x != y
    ensures x in Unlink(s, y) && Index(Unlink(s, y), x) <= Index(s, x)
  {
    if y in s {
      var k, i, t := Index(s, y), Index(s, x), Unlink(s, y);
      WithoutAt(s, k);
      var j := if i < k then i else i - 1;
      assert t[j] == x;
    }
  }
}
