/**
 The block structure of the heap allocator, as a value: which blocks exist, which are
 live, and in what order the free ones are listed.  Allocation and release are functions
 on such values; the class in Heap.dfy is proved to compute them with linked headers.
 */
module HeapLayout {
  import opened Sequences

  const ALIGNMENT: int := 8
  const STRUCT_SIZE: int := 8
  const MINIMUM_BLOCK_SIZE: int := 2 * STRUCT_SIZE
  const ALLOCATED_BIT: int := 0x8000_0000
  const SIZE_MAX: int := 0xFFFF_FFFF

  predicate IsAligned(a: int) {
    a % ALIGNMENT == 0
  }

  lemma AlignedSum(a: int, b: int)
    requires IsAligned(a) && IsAligned(b)
    ensures IsAligned(a + b) && IsAligned(a - b)
  {
    var x, y := a / ALIGNMENT, b / ALIGNMENT;
    assert a == ALIGNMENT * x && b == ALIGNMENT * y;
    assert a + b == ALIGNMENT * (x + y) && a - b == ALIGNMENT * (x - y);
  }

  /** `sizes` holds every block, `live` the allocated ones, `free` the others in list order. */
  datatype Layout = Layout(start: int, end: int, free: seq<int>, sizes: map<int, int>, live: set<int>)

  /** The address just after block `a`. */
  function After(l: Layout, a: int): int
    requires a in l.sizes
  {
    a + l.sizes[a]
  }

  /** `free` lists in address order exactly the blocks that are not live. */
  ghost predicate FreeListed(l: Layout) {
    && Ascending(l.free)
    && l.live <= l.sizes.Keys
    && Elements(l.free) == l.sizes.Keys - l.live
    && forall i :: 0 <= i < |l.free| ==> l.free[i] in l.sizes && l.free[i] !in l.live
  }

  /** Every block starts on the alignment, inside the heap, and is large enough. */
  ghost predicate Aligned(l: Layout) {
    && 0 < l.start && IsAligned(l.start) && IsAligned(l.end)
    && 0 < l.end - l.start < ALLOCATED_BIT
    && forall a :: a in l.sizes ==>
         && IsAligned(a) && IsAligned(l.sizes[a])
         && MINIMUM_BLOCK_SIZE <= l.sizes[a]
         && l.start <= a && a + l.sizes[a] <= l.end
  }

  ghost predicate Disjoint(l: Layout) {
    forall a, b :: a in l.sizes && b in l.sizes && a < b ==> a + l.sizes[a] <= b
  }

  /** Block `a` is directly followed by another block or by the end of the heap. */
  ghost predicate Followed(l: Layout, a: int)
    requires a in l.sizes
  {
    After(l, a) == l.end || After(l, a) in l.sizes
  }

  ghost predicate Gapless(l: Layout) {
    && l.start in l.sizes
    && forall a {:trigger Followed(l, a)} :: a in l.sizes ==> Followed(l, a)
  }

  /** Blocks tile [start, end): aligned, large enough, disjoint, without gaps. */
  ghost predicate Tiles(l: Layout) {
    Aligned(l) && Disjoint(l) && Gapless(l) && FreeListed(l)
  }

  ghost predicate IsFree(l: Layout, a: int) {
    a in l.sizes && a !in l.live
  }

  /** The only free block that may be directly followed by a free block is `m`. */
  ghost predicate CoalescedBut(l: Layout, m: int) {
    forall a, b :: IsFree(l, a) && IsFree(l, b) && a != m ==> After(l, a) != b
  }

  /** No free block is directly followed by another free block. */
  ghost predicate Coalesced(l: Layout) {
    forall a, b :: IsFree(l, a) && IsFree(l, b) ==> After(l, a) != b
  }

  ghost predicate WellFormed(l: Layout) {
    Tiles(l) && Coalesced(l)
  }

  /** Bytes held by the listed blocks. */
  function Bytes(s: seq<int>, sizes: map<int, int>): (n: int)
    requires forall i :: 0 <= i < |s| ==> s[i] in sizes
  {
    if s == [] then 0 else sizes[s[0]] + Bytes(s[1..], sizes)
  }

  function FreeBytes(l: Layout): int
    requires FreeListed(l)
  {
    Bytes(l.free, l.sizes)
  }

  function Initial(start: int, end: int): Layout {
    Layout(start, end, [start], map[start := end - start], {})
  }

  // --- Allocation ---------------------------------------------------------------------

  /** Request size with the header added, rounded up to the alignment; 0 when that overflows. */
  function RoundedSize(n: int): (r: int)
    requires 0 <= n <= SIZE_MAX
    ensures IsAligned(r)
    ensures r != 0 ==> n + STRUCT_SIZE <= r < n + STRUCT_SIZE + ALIGNMENT && r >= MINIMUM_BLOCK_SIZE && r <= SIZE_MAX
    ensures r == 0 <==> n == 0 || n + STRUCT_SIZE > SIZE_MAX + 1 - ALIGNMENT
  {
    if n == 0 || n > SIZE_MAX - STRUCT_SIZE then 0
    else
      var w := n + STRUCT_SIZE;
      if w % ALIGNMENT == 0 then w
      else
        var extra := ALIGNMENT - w % ALIGNMENT;
        if w > SIZE_MAX - extra then 0 else w + extra
  }

  /** Position in the free list of the first block of at least `r` bytes, or the list's length. */
  function FirstFit(s: seq<int>, sizes: map<int, int>, r: int): (k: nat)
    requires forall i :: 0 <= i < |s| ==> s[i] in sizes
    ensures k <= |s|
    ensures k < |s| ==> sizes[s[k]] >= r
    ensures forall i :: 0 <= i < k ==> sizes[s[i]] < r
  {
    if s == [] || sizes[s[0]] >= r then 0 else 1 + FirstFit(s[1..], sizes, r)
  }

  lemma FirstFitUnique(s: seq<int>, sizes: map<int, int>, r: int, k: nat)
    requires forall i :: 0 <= i < |s| ==> s[i] in sizes
    requires k <= |s| && (k < |s| ==> sizes[s[k]] >= r) && forall i :: 0 <= i < k ==> sizes[s[i]] < r
    ensures k == FirstFit(s, sizes, r)
  {
  }

  /** Takes `r` bytes from free block number `k`, splitting it when enough is left over. */
  function Carve(l: Layout, k: nat, r: int): Layout
    requires FreeListed(l) && k < |l.free|
  {
    var a := l.free[k];
    if l.sizes[a] - r > MINIMUM_BLOCK_SIZE then
      l.(free := l.free[k := a + r],
         sizes := l.sizes[a := r][a + r := l.sizes[a] - r],
         live := l.live + {a})
    else
      l.(free := Without(l.free, k), live := l.live + {a})
  }

  /** A request that fits no block leaves the layout alone. */
  function Alloc(l: Layout, n: int): Layout
    requires FreeListed(l) && 0 <= n <= SIZE_MAX
  {
    var r := RoundedSize(n);
    var k := FirstFit(l.free, l.sizes, r);
    if 0 < r < ALLOCATED_BIT && k < |l.free| then Carve(l, k, r) else l
  }

  // --- Release ------------------------------------------------------------------------

  /** Number of listed blocks below address `b`. */
  function Position(s: seq<int>, b: int): (k: nat)
    ensures k <= |s|
    ensures k < |s| ==> s[k] >= b
    ensures forall i :: 0 <= i < k ==> s[i] < b
  {
    if s == [] || s[0] >= b then 0 else 1 + Position(s[1..], b)
  }

  lemma PositionUnique(s: seq<int>, b: int, k: nat)
    requires k <= |s| && (k < |s| ==> s[k] >= b) && forall i :: 0 <= i < k ==> s[i] < b
    ensures k == Position(s, b)
  {
  }

  /** Gives block `b` back at list position `k` without merging. */
  function Relist(l: Layout, b: int, k: nat): Layout
    requires k <= |l.free|
  {
    l.(free := With(l.free, k, b), live := l.live - {b})
  }

  predicate Touching(l: Layout, i: int)
    requires FreeListed(l)
  {
    0 <= i && i + 1 < |l.free| && After(l, l.free[i]) == l.free[i + 1]
  }

  /** Absorbs free block i+1 into free block i when they touch. */
  function MergeAt(l: Layout, i: int): Layout
    requires FreeListed(l)
  {
    if Touching(l, i) then
      var a, c := l.free[i], l.free[i + 1];
      l.(free := Without(l.free, i + 1),
         sizes := (l.sizes - {c})[a := l.sizes[a] + l.sizes[c]])
    else l
  }

  /** Block `b` goes back to the list and merges with the free neighbours on both sides. */
  ghost function Release(l: Layout, b: int): Layout
    requires Tiles(l) && b in l.live
  {
    var k: int := Position(l.free, b);
    RelistTiles(l, b, k);
    var l1 := Relist(l, b, k);
    MergeTiles(l1, k - 1);
    MergeAt(MergeAt(l1, k - 1), if Touching(l1, k - 1) then k - 1 else k)
  }

  // --- Tiling is kept -------------------------------------------------------------------

  lemma InitialWellFormed(start: int, end: int)
    requires 0 < start && IsAligned(start) && IsAligned(end)
    requires MINIMUM_BLOCK_SIZE <= end - start < ALLOCATED_BIT
    ensures WellFormed(Initial(start, end)) && FreeBytes(Initial(start, end)) == end - start
  {
    hide IsAligned;
    AlignedSum(end, start);
    var l := Initial(start, end);
    assert l.sizes.Keys == {start};
    assert l.free[0] == start;
    assert Bytes(l.free, l.sizes) == l.sizes[start] + Bytes([], l.sizes);
  }

  lemma Listed(l: Layout)
    requires Elements(l.free) == l.sizes.Keys - l.live
    ensures forall i :: 0 <= i < |l.free| ==> l.free[i] in l.sizes && l.free[i] !in l.live
  {
    forall i | 0 <= i < |l.free| ensures l.free[i] in l.sizes && l.free[i] !in l.live {
      assert l.free[i] in Elements(l.free);
    }
  }

  /** The second half of a split block lies before the next listed block. */
  lemma SplitInOrder(l: Layout, k: nat, r: int)
    requires Disjoint(l) && FreeListed(l) && k < |l.free|
    requires 0 < r < l.sizes[l.free[k]]
    ensures l.free[k] + r !in l.sizes
    ensures k + 1 < |l.free| ==> l.free[k] + r < l.free[k + 1]
  {
    var a := l.free[k];
    assert k + 1 < |l.free| ==> a + l.sizes[a] <= l.free[k + 1];
  }

  lemma CarveFreeListed(l: Layout, k: nat, r: int)
    requires Disjoint(l) && FreeListed(l) && k < |l.free|
    requires 0 < r <= l.sizes[l.free[k]]
    ensures FreeListed(Carve(l, k, r))
  {
    var a, c := l.free[k], Carve(l, k, r);
    if l.sizes[a] - r > MINIMUM_BLOCK_SIZE {
      SplitInOrder(l, k, r);
      UpdateElements(l.free, k, a + r);
      assert c.sizes.Keys == l.sizes.Keys + {a + r};
    } else {
      WithoutElements(l.free, k);
    }
    Listed(c);
  }

  lemma CarveAligned(l: Layout, k: nat, r: int)
    requires Aligned(l) && FreeListed(l) && k < |l.free|
    requires MINIMUM_BLOCK_SIZE <= r <= l.sizes[l.free[k]] && IsAligned(r)
    ensures Aligned(Carve(l, k, r))
  {
    hide IsAligned, Ascending, Elements, Without;
    AlignedSum(l.free[k], r);
    AlignedSum(l.sizes[l.free[k]], r);
  }

  lemma CarveDisjoint(l: Layout, k: nat, r: int)
    requires Aligned(l) && Disjoint(l) && FreeListed(l) && k < |l.free|
    requires 0 < r <= l.sizes[l.free[k]]
    ensures Disjoint(Carve(l, k, r))
  {
  }

  lemma CarveGapless(l: Layout, k: nat, r: int)
    requires Gapless(l) && FreeListed(l) && k < |l.free| && 0 < r
    ensures Gapless(Carve(l, k, r))
  {
    var a, c := l.free[k], Carve(l, k, r);
    assert Followed(l, a);
    forall x | x in c.sizes ensures Followed(c, x) {
      assert x in l.sizes ==> Followed(l, x);
    }
  }

  lemma CarveTiles(l: Layout, k: nat, r: int)
    requires Tiles(l) && k < |l.free|
    requires MINIMUM_BLOCK_SIZE <= r <= l.sizes[l.free[k]] && IsAligned(r)
    ensures Tiles(Carve(l, k, r))
  {
    CarveFreeListed(l, k, r);
    CarveAligned(l, k, r);
    CarveDisjoint(l, k, r);
    CarveGapless(l, k, r);
  }

  lemma BetweenNeighbours(l: Layout, b: int, k: nat)
    requires FreeListed(l) && b in l.live && k == Position(l.free, b)
    ensures k < |l.free| ==> b < l.free[k]
    ensures k > 0 ==> l.free[k - 1] < b
  {
  }

  lemma RelistTiles(l: Layout, b: int, k: nat)
    requires Tiles(l) && b in l.live && k == Position(l.free, b)
    ensures Tiles(Relist(l, b, k))
  {
    hide IsAligned, Position, Ascending, Elements, With;
    BetweenNeighbours(l, b, k);
    var c := Relist(l, b, k);
    WithElements(l.free, k, b);
    Listed(c);
    forall x | x in c.sizes ensures Followed(c, x) {
      assert Followed(l, x);
    }
  }

  lemma MergeAligned(l: Layout, i: int)
    requires Aligned(l) && FreeListed(l)
    ensures Aligned(MergeAt(l, i))
  {
    hide IsAligned, Ascending, Elements, Without;
    if Touching(l, i) {
      AlignedSum(l.sizes[l.free[i]], l.sizes[l.free[i + 1]]);
    }
  }

  lemma MergeDisjoint(l: Layout, i: int)
    requires Aligned(l) && Disjoint(l) && FreeListed(l)
    ensures Disjoint(MergeAt(l, i))
  {
  }

  lemma MergeGapless(l: Layout, i: int)
    requires Aligned(l) && Disjoint(l) && Gapless(l) && FreeListed(l)
    ensures Gapless(MergeAt(l, i))
  {
    hide Ascending, Elements, Without;
    if Touching(l, i) {
      var c := MergeAt(l, i);
      assert Followed(l, l.free[i + 1]);
      forall x | x in c.sizes ensures Followed(c, x) {
        assert Followed(l, x);
      }
    }
  }

  lemma MergeTiles(l: Layout, i: int)
    requires Tiles(l)
    ensures Tiles(MergeAt(l, i))
  {
    MergeAligned(l, i);
    MergeDisjoint(l, i);
    MergeGapless(l, i);
    if Touching(l, i) {
      WithoutElements(l.free, i + 1);
      Listed(MergeAt(l, i));
    }
  }

  // --- Coalescing is kept ---------------------------------------------------------------

  lemma CarveCoalesced(l: Layout, k: nat, r: int)
    requires WellFormed(l) && k < |l.free|
    requires MINIMUM_BLOCK_SIZE <= r <= l.sizes[l.free[k]]
    ensures Coalesced(Carve(l, k, r))
  {
    var a, c := l.free[k], Carve(l, k, r);
    assert IsFree(l, a);
    forall x, y | IsFree(c, x) && IsFree(c, y) ensures After(c, x) != y {
      assert x in l.sizes ==> IsFree(l, x);
      assert y in l.sizes ==> IsFree(l, y);
    }
  }

  /** A listed block below `y` that touches `y` is the one just before it in the list. */
  lemma TouchingIsNext(l: Layout, x: int, i: int)
    requires Tiles(l) && IsFree(l, x) && 0 <= i < |l.free| && After(l, x) == l.free[i]
    ensures 0 < i && x == l.free[i - 1]
  {
    assert x in Elements(l.free);
    var j :| 0 <= j < |l.free| && l.free[j] == x;
    assert j < i;
  }

  lemma RelistMergeLeft(l: Layout, b: int, k: nat)
    requires WellFormed(l) && b in l.live && k == Position(l.free, b) && FreeListed(Relist(l, b, k))
    requires Touching(Relist(l, b, k), k - 1)
    ensures CoalescedBut(MergeAt(Relist(l, b, k), k - 1), l.free[k - 1])
  {
    var l1 := Relist(l, b, k);
    assert l1.free[k] == b && l1.free[k - 1] == l.free[k - 1];
    var l2 := MergeAt(l1, k - 1);
    forall x, y | IsFree(l2, x) && IsFree(l2, y) && x != l.free[k - 1] ensures After(l2, x) != y {
      assert IsFree(l, x) && IsFree(l, y);
    }
  }

  lemma RelistNoMergeLeft(l: Layout, b: int, k: nat)
    requires WellFormed(l) && b in l.live && k == Position(l.free, b) && Tiles(Relist(l, b, k))
    requires !Touching(Relist(l, b, k), k - 1)
    ensures CoalescedBut(Relist(l, b, k), b)
  {
    var l1 := Relist(l, b, k);
    assert l1.free[k] == b;
    hide Position, Ascending, Elements, Aligned, Gapless, With;
    forall x, y | IsFree(l1, x) && IsFree(l1, y) && x != b ensures After(l1, x) != y {
      assert IsFree(l, x) && (y == b || IsFree(l, y));
      if y == b && After(l1, x) == b {
        TouchingIsNext(l1, x, k);
        assert false;
      }
    }
  }

  lemma NothingToMerge(l: Layout, i: nat)
    requires Tiles(l) && i < |l.free| && CoalescedBut(l, l.free[i]) && !Touching(l, i)
    ensures Coalesced(l)
  {
    var m := l.free[i];
    forall y | IsFree(l, y) ensures After(l, m) != y {
      if After(l, m) == y {
        assert y in Elements(l.free);
        var j :| 0 <= j < |l.free| && l.free[j] == y;
        TouchingIsNext(l, m, j);
        assert false;
      }
    }
  }

  lemma MergeRight(l: Layout, i: nat)
    requires Aligned(l) && FreeListed(l) && i < |l.free| && CoalescedBut(l, l.free[i]) && Touching(l, i)
    ensures Coalesced(MergeAt(l, i))
  {
    var m, n, c := l.free[i], l.free[i + 1], MergeAt(l, i);
    assert IsFree(l, m) && IsFree(l, n);
    assert forall x :: IsFree(c, x) ==> IsFree(l, x) && x != n;
    assert After(c, m) == After(l, n);
  }

  /** After a merge to the left only the block in hand, now at `i`, may touch the next one. */
  lemma LeftSideDone(l: Layout, b: int, k: nat, i: nat)
    requires WellFormed(l) && b in l.live && k == Position(l.free, b) && Tiles(Relist(l, b, k))
    requires i == if Touching(Relist(l, b, k), k - 1) then k - 1 else k
    ensures i < |MergeAt(Relist(l, b, k), k - 1).free|
    ensures CoalescedBut(MergeAt(Relist(l, b, k), k - 1), MergeAt(Relist(l, b, k), k - 1).free[i])
  {
    if Touching(Relist(l, b, k), k - 1) {
      RelistMergeLeft(l, b, k);
    } else {
      RelistNoMergeLeft(l, b, k);
    }
  }

  lemma RightSideDone(l: Layout, i: nat)
    requires Tiles(l) && i < |l.free| && CoalescedBut(l, l.free[i])
    ensures WellFormed(MergeAt(l, i))
  {
    MergeTiles(l, i);
    if Touching(l, i) {
      MergeRight(l, i);
    } else {
      NothingToMerge(l, i);
    }
  }

  /** A release is a merge to the right of a layout whose left side is done. */
  lemma LeftSideOfRelease(l: Layout, b: int) returns (l2: Layout, i: nat)
    requires WellFormed(l) && b in l.live
    ensures Tiles(l2) && i < |l2.free| && CoalescedBut(l2, l2.free[i])
    ensures Release(l, b) == MergeAt(l2, i)
    ensures l2.live == l.live - {b} && l2.start == l.start && l2.end == l.end
  {
    hide Position, Ascending, Elements, Aligned, Disjoint, Gapless, Coalesced, CoalescedBut, With, Without;
    var k: int := Position(l.free, b);
    RelistTiles(l, b, k);
    var l1 := Relist(l, b, k);
    MergeTiles(l1, k - 1);
    l2 := MergeAt(l1, k - 1);
    i := if Touching(l1, k - 1) then k - 1 else k;
    LeftSideDone(l, b, k, i);
  }

  lemma ReleaseWellFormed(l: Layout, b: int)
    requires WellFormed(l) && b in l.live
    ensures WellFormed(Release(l, b))
    ensures Release(l, b).live == l.live - {b}
    ensures Release(l, b).start == l.start && Release(l, b).end == l.end
  {
    var l2, i := LeftSideOfRelease(l, b);
    RightSideDone(l2, i);
  }

  // --- Byte accounting -------------------------------------------------------------------

  lemma {:induction false} BytesWithout(s: seq<int>, k: nat, sizes: map<int, int>)
    requires k < |s| && forall i :: 0 <= i < |s| ==> s[i] in sizes
    ensures Bytes(s, sizes) == sizes[s[k]] + Bytes(Without(s, k), sizes)
  {
    if k == 0 {
      assert Without(s, 0) == s[1..];
    } else {
      BytesWithout(s[1..], k - 1, sizes);
      assert Without(s, k)[1..] == Without(s[1..], k - 1);
    }
  }

  lemma BytesWith(s: seq<int>, k: nat, x: int, sizes: map<int, int>)
    requires k <= |s| && x in sizes && forall i :: 0 <= i < |s| ==> s[i] in sizes
    ensures forall i :: 0 <= i < |With(s, k, x)| ==> With(s, k, x)[i] in sizes
    ensures Bytes(With(s, k, x), sizes) == sizes[x] + Bytes(s, sizes)
  {
    BytesWithout(With(s, k, x), k, sizes);
    WithThenWithout(s, k, x);
  }

  lemma {:induction false} BytesSame(s: seq<int>, m: map<int, int>, m': map<int, int>)
    requires forall i :: 0 <= i < |s| ==> s[i] in m && s[i] in m' && m[s[i]] == m'[s[i]]
    ensures Bytes(s, m) == Bytes(s, m')
  {
    if s != [] {
      BytesSame(s[1..], m, m');
    }
  }

  /** The total is at least any one block, so comparing a request with it rejects nothing that fits. */
  lemma {:induction false} BytesAtLeast(s: seq<int>, k: nat, sizes: map<int, int>)
    requires k < |s| && forall i :: 0 <= i < |s| ==> s[i] in sizes && 0 <= sizes[s[i]]
    ensures Bytes(s, sizes) >= sizes[s[k]]
  {
    BytesNonNegative(s[1..], sizes);
    if k > 0 {
      BytesAtLeast(s[1..], k - 1, sizes);
    }
  }

  lemma PrecheckRejectsNothing(l: Layout, r: int)
    requires Tiles(l) && r > FreeBytes(l)
    ensures FirstFit(l.free, l.sizes, r) == |l.free|
  {
    var k := FirstFit(l.free, l.sizes, r);
    if k < |l.free| {
      BytesAtLeast(l.free, k, l.sizes);
      assert false;
    }
  }

  lemma {:induction false} BytesNonNegative(s: seq<int>, sizes: map<int, int>)
    requires forall i :: 0 <= i < |s| ==> s[i] in sizes && 0 <= sizes[s[i]]
    ensures Bytes(s, sizes) >= 0
  {
    if s != [] {
      BytesNonNegative(s[1..], sizes);
    }
  }

  lemma CarveBytes(l: Layout, k: nat, r: int)
    requires Tiles(l) && k < |l.free| && FreeListed(Carve(l, k, r))
    requires 0 < r <= l.sizes[l.free[k]]
    ensures FreeBytes(Carve(l, k, r)) == FreeBytes(l) - Carve(l, k, r).sizes[l.free[k]]
  {
    hide Aligned, Gapless, Elements;
    var a, c := l.free[k], Carve(l, k, r);
    BytesWithout(l.free, k, l.sizes);
    if l.sizes[a] - r > MINIMUM_BLOCK_SIZE {
      var rest := Without(l.free, k);
      forall i | 0 <= i < |rest| ensures rest[i] in l.sizes && rest[i] != a && rest[i] != a + r {
        assert rest[i] == l.free[if i < k then i else i + 1];
      }
      BytesSame(rest, l.sizes, c.sizes);
      BytesWithout(c.free, k, c.sizes);
      assert Without(c.free, k) == rest;
    }
  }

  lemma RelistBytes(l: Layout, b: int, k: nat)
    requires Tiles(l) && b in l.live && k <= |l.free| && FreeListed(Relist(l, b, k))
    ensures FreeBytes(Relist(l, b, k)) == FreeBytes(l) + l.sizes[b]
  {
    BytesWith(l.free, k, b, l.sizes);
  }

  /** Block `i + 1` goes, and its bytes are added to block `i`. */
  lemma {:induction false} BytesMerged(s: seq<int>, i: nat, m: map<int, int>, m': map<int, int>)
    requires i + 1 < |s| && forall j :: 0 <= j < |s| ==> s[j] in m
    requires s[i] in m' && m'[s[i]] == m[s[i]] + m[s[i + 1]]
    requires forall j :: 0 <= j < |s| && j != i && j != i + 1 ==> s[j] in m' && m'[s[j]] == m[s[j]]
    ensures var t := Without(s, i + 1); forall j :: 0 <= j < |t| ==> t[j] in m'
    ensures Bytes(Without(s, i + 1), m') == Bytes(s, m)
  {
    var t := Without(s, i + 1);
    if i == 0 {
      assert t[1..] == s[2..] == s[1..][1..];
      BytesSame(s[2..], m, m');
    } else {
      assert t[1..] == Without(s[1..], i);
      BytesMerged(s[1..], i - 1, m, m');
    }
  }

  lemma MergeBytes(l: Layout, i: int)
    requires FreeListed(l) && FreeListed(MergeAt(l, i))
    ensures FreeBytes(MergeAt(l, i)) == FreeBytes(l)
  {
    if Touching(l, i) {
      hide Elements, Bytes;
      BytesMerged(l.free, i, l.sizes, MergeAt(l, i).sizes);
    }
  }

  lemma ReleaseBytes(l: Layout, b: int)
    requires WellFormed(l) && b in l.live
    ensures FreeListed(Release(l, b)) && FreeBytes(Release(l, b)) == FreeBytes(l) + l.sizes[b]
  {
    hide Position, Ascending, Elements, Aligned, Disjoint, Gapless, With, Without, Relist, MergeAt, Bytes;
    var k: int := Position(l.free, b);
    RelistTiles(l, b, k);
    var l1 := Relist(l, b, k);
    RelistBytes(l, b, k);
    MergeTiles(l1, k - 1);
    MergeBytes(l1, k - 1);
    var l2 := MergeAt(l1, k - 1);
    var i: int := if Touching(l1, k - 1) then k - 1 else k;
    MergeTiles(l2, i);
    MergeBytes(l2, i);
  }

  predicate TouchesLeft(l: Layout, b: int)
    requires FreeListed(l)
  {
    var k := Position(l.free, b);
    k > 0 && After(l, l.free[k - 1]) == b
  }

  predicate TouchesRight(l: Layout, b: int)
    requires FreeListed(l) && b in l.sizes
  {
    var k := Position(l.free, b);
    k < |l.free| && After(l, b) == l.free[k]
  }

  lemma RelistShape(l: Layout, b: int, k: nat)
    requires FreeListed(l) && b in l.live && k == Position(l.free, b) && FreeListed(Relist(l, b, k))
    ensures Relist(l, b, k).free[k] == b
    ensures k > 0 ==> Relist(l, b, k).free[k - 1] == l.free[k - 1]
    ensures k < |l.free| ==> Relist(l, b, k).free[k + 1] == l.free[k]
    ensures Touching(Relist(l, b, k), k - 1) <==> TouchesLeft(l, b)
    ensures Touching(Relist(l, b, k), k) <==> TouchesRight(l, b)
  {
  }

  /** Merging to the left leaves the list as it was; its new neighbour is what `b` preceded. */
  lemma LeftMergeShape(l: Layout, b: int, k: nat)
    requires FreeListed(l) && b in l.live && k == Position(l.free, b) && FreeListed(Relist(l, b, k))
    requires TouchesLeft(l, b) && FreeListed(MergeAt(Relist(l, b, k), k - 1))
    ensures var l2 := MergeAt(Relist(l, b, k), k - 1);
            && l2.free == l.free
            && l2.sizes == (l.sizes - {b})[l.free[k - 1] := l.sizes[l.free[k - 1]] + l.sizes[b]]
            && (Touching(l2, k - 1) <==> TouchesRight(l, b))
  {
    hide Position, Ascending, Elements, With, Without;
    RelistShape(l, b, k);
    WithThenWithout(l.free, k, b);
  }

  /** The free list after a release, case by case. */
  ghost function ReleasedFree(l: Layout, b: int): seq<int>
    requires FreeListed(l) && b in l.live
  {
    var k := Position(l.free, b);
    if TouchesLeft(l, b) then
      if TouchesRight(l, b) then Without(l.free, k) else l.free
    else
      if TouchesRight(l, b) then l.free[k := b] else With(l.free, k, b)
  }

  /** The block sizes after a release, case by case. */
  ghost function ReleasedSizes(l: Layout, b: int): map<int, int>
    requires FreeListed(l) && b in l.live
  {
    var k, s := Position(l.free, b), l.sizes;
    if TouchesLeft(l, b) then
      var p := l.free[k - 1];
      if TouchesRight(l, b) then (s - {b, l.free[k]})[p := s[p] + s[b] + s[l.free[k]]] else (s - {b})[p := s[p] + s[b]]
    else
      if TouchesRight(l, b) then (s - {l.free[k]})[b := s[b] + s[l.free[k]]] else s
  }

  lemma ReleasedAlone(l: Layout, b: int, k: nat)
    requires FreeListed(l) && b in l.live && k == Position(l.free, b) && FreeListed(Relist(l, b, k))
    requires !TouchesLeft(l, b) && !TouchesRight(l, b)
    ensures MergeAt(Relist(l, b, k), k).free == ReleasedFree(l, b)
    ensures MergeAt(Relist(l, b, k), k).sizes == ReleasedSizes(l, b)
  {
    RelistShape(l, b, k);
  }

  lemma ReleasedRight(l: Layout, b: int, k: nat)
    requires FreeListed(l) && b in l.live && k == Position(l.free, b) && FreeListed(Relist(l, b, k))
    requires !TouchesLeft(l, b) && TouchesRight(l, b)
    ensures MergeAt(Relist(l, b, k), k).free == ReleasedFree(l, b)
    ensures MergeAt(Relist(l, b, k), k).sizes == ReleasedSizes(l, b)
  {
    hide Position, Ascending, Elements, With, Without;
    RelistShape(l, b, k);
    WithThenWithout(l.free, k, b);
  }

  lemma ReleasedLeft(l: Layout, b: int, k: nat)
    requires FreeListed(l) && b in l.live && k == Position(l.free, b) && FreeListed(Relist(l, b, k))
    requires TouchesLeft(l, b) && FreeListed(MergeAt(Relist(l, b, k), k - 1))
    ensures MergeAt(MergeAt(Relist(l, b, k), k - 1), k - 1).free == ReleasedFree(l, b)
    ensures MergeAt(MergeAt(Relist(l, b, k), k - 1), k - 1).sizes == ReleasedSizes(l, b)
  {
    hide Position, Ascending, Elements, With, Without, Relist;
    LeftMergeShape(l, b, k);
  }

  lemma ReleaseByCases(l: Layout, b: int)
    requires Tiles(l) && b in l.live
    ensures Release(l, b) == l.(free := ReleasedFree(l, b), sizes := ReleasedSizes(l, b), live := l.live - {b})
  {
    hide Position, Ascending, Elements, With, Without, Aligned, Disjoint, Gapless, TouchesLeft, TouchesRight, ReleasedFree, ReleasedSizes;
    var k: int := Position(l.free, b);
    RelistTiles(l, b, k);
    var l1 := Relist(l, b, k);
    MergeTiles(l1, k - 1);
    RelistShape(l, b, k);
    if TouchesLeft(l, b) {
      ReleasedLeft(l, b, k);
    } else if TouchesRight(l, b) {
      ReleasedRight(l, b, k);
    } else {
      ReleasedAlone(l, b, k);
    }
  }

  // --- Exact tiling -------------------------------------------------------------------

  /** Walking block by block from `b` reaches the block that contains address `x`. */
  lemma {:induction false} CoveringFrom(l: Layout, b: int, x: int) returns (a: int)
    requires Tiles(l) && b in l.sizes && b <= x < l.end
    ensures a in l.sizes && b <= a <= x < After(l, a)
    decreases x - b
  {
    if x < After(l, b) {
      a := b;
    } else {
      assert Followed(l, b);
      a := CoveringFrom(l, After(l, b), x);
    }
  }

  /** Every address of the heap lies in exactly one block. */
  lemma CoveredExactlyOnce(l: Layout, x: int)
    requires Tiles(l) && l.start <= x < l.end
    ensures exists a :: a in l.sizes && a <= x < a + l.sizes[a]
    ensures forall a, b :: a in l.sizes && b in l.sizes && a <= x < a + l.sizes[a] && b <= x < b + l.sizes[b] ==> a == b
  {
    var a := CoveringFrom(l, l.start, x);
  }

  /** A block other than the first directly follows another block. */
  lemma Predecessor(l: Layout, a: int) returns (p: int)
    requires Tiles(l) && a in l.sizes && a != l.start
    ensures p in l.sizes && After(l, p) == a
  {
    p := CoveringFrom(l, l.start, a - 1);
  }

  // --- The canonical form ----------------------------------------------------------------

  /** Same bounds, same live blocks with the same sizes. */
  ghost predicate SameLive(l: Layout, m: Layout) {
    && l.start == m.start && l.end == m.end
    && l.live == m.live
    && (forall a :: a in l.live ==> a in l.sizes && a in m.sizes && l.sizes[a] == m.sizes[a])
  }

  /** A free block starts where a live block ends or where the heap starts, so `m` has it too. */
  lemma FreeInBoth(l: Layout, m: Layout, a: int)
    requires WellFormed(l) && WellFormed(m) && SameLive(l, m) && IsFree(l, a)
    ensures IsFree(m, a)
  {
    if a != l.start {
      var p := Predecessor(l, a);
      assert p in l.live;
      assert Followed(m, p);
    }
  }

  /** ... and it ends where a live block starts or where the heap ends. */
  lemma FreeSizeAtMost(l: Layout, m: Layout, a: int)
    requires WellFormed(l) && WellFormed(m) && SameLive(l, m) && IsFree(l, a) && IsFree(m, a)
    ensures m.sizes[a] <= l.sizes[a]
  {
    assert Followed(l, a);
    if After(l, a) != l.end {
      assert !IsFree(l, After(l, a));
      assert After(l, a) in m.live;
    }
  }

  /** The free list and every block size are determined by the live blocks. */
  lemma Canonical(l: Layout, m: Layout)
    requires WellFormed(l) && WellFormed(m) && SameLive(l, m)
    ensures l == m
  {
    forall a ensures IsFree(l, a) <==> IsFree(m, a) {
      if IsFree(l, a) { FreeInBoth(l, m, a); }
      if IsFree(m, a) { FreeInBoth(m, l, a); }
    }
    forall a | IsFree(l, a) ensures l.sizes[a] == m.sizes[a] {
      FreeSizeAtMost(l, m, a);
      FreeSizeAtMost(m, l, a);
    }
    forall a ensures a in l.sizes <==> a in m.sizes {
      assert a in l.sizes <==> a in l.live || IsFree(l, a);
      assert a in m.sizes <==> a in m.live || IsFree(m, a);
    }
    forall a | a in l.sizes ensures l.sizes[a] == m.sizes[a] {
      assert a in l.live || IsFree(l, a);
    }
    AscendingUnique(l.free, m.free);
  }

  /** A request and the release of its result cancel out. */
  lemma AllocThenRelease(l: Layout, n: int)
    requires WellFormed(l) && 0 <= n <= SIZE_MAX
    ensures var k := FirstFit(l.free, l.sizes, RoundedSize(n));
            Alloc(l, n) != l ==>
              k < |l.free| && WellFormed(Alloc(l, n)) && l.free[k] in Alloc(l, n).live
              && Release(Alloc(l, n), l.free[k]) == l
  {
    var r, c := RoundedSize(n), Alloc(l, n);
    var k := FirstFit(l.free, l.sizes, r);
    if c != l {
      hide Carve, Release, FirstFit, Coalesced, Gapless, Aligned, Ascending, Elements;
      AllocWellFormed(l, n);
      CarveServes(l, k, r);
      ReleaseWellFormed(c, l.free[k]);
      ReleaseKeepsLive(c, l.free[k]);
      assert Release(c, l.free[k]).live == l.live;
      Canonical(Release(c, l.free[k]), l);
    }
  }

  lemma AllocWellFormed(l: Layout, n: int)
    requires WellFormed(l) && 0 <= n <= SIZE_MAX
    ensures WellFormed(Alloc(l, n)) && Alloc(l, n).start == l.start && Alloc(l, n).end == l.end
  {
    var r := RoundedSize(n);
    var k := FirstFit(l.free, l.sizes, r);
    if 0 < r < ALLOCATED_BIT && k < |l.free| {
      CarveTiles(l, k, r);
      CarveCoalesced(l, k, r);
    }
  }

  /** Releasing one block leaves the other live blocks with their sizes. */
  lemma ReleaseKeepsLive(l: Layout, b: int)
    requires WellFormed(l) && b in l.live
    ensures forall a :: a in l.live && a != b ==>
              a in l.sizes && a in Release(l, b).sizes && Release(l, b).sizes[a] == l.sizes[a]
  {
    ReleaseWellFormed(l, b);
  }

  /** `m` is the size of the largest free block, 0 when there is none. */
  ghost predicate IsLargest(l: Layout, m: int)
    requires FreeListed(l)
  {
    && (forall i :: 0 <= i < |l.free| ==> l.sizes[l.free[i]] <= m)
    && (m == 0 || exists i :: 0 <= i < |l.free| && l.sizes[l.free[i]] == m)
  }

  /** `m` is the size of the smallest free block, the largest word when there is none. */
  ghost predicate IsSmallest(l: Layout, m: int)
    requires FreeListed(l)
  {
    && (forall i :: 0 <= i < |l.free| ==> m <= l.sizes[l.free[i]])
    && (m == SIZE_MAX || exists i :: 0 <= i < |l.free| && l.sizes[l.free[i]] == m)
  }

  /** A plausible request succeeds exactly when it fits the largest free block. */
  lemma SucceedsIffFitsLargest(l: Layout, n: int, m: int)
    requires WellFormed(l) && 0 <= n <= SIZE_MAX && IsLargest(l, m)
    requires 0 < RoundedSize(n)
    ensures Alloc(l, n) != l <==> RoundedSize(n) <= m
  {
    var r := RoundedSize(n);
    var k := FirstFit(l.free, l.sizes, r);
    if k < |l.free| {
      assert l.free[k] !in l.live && l.free[k] in Alloc(l, n).live;
    }
  }

  lemma LowestFit(l: Layout, r: int, f: int)
    requires FreeListed(l) && FirstFit(l.free, l.sizes, r) < |l.free|
    requires f in l.free && f < l.free[FirstFit(l.free, l.sizes, r)]
    ensures f in l.sizes && l.sizes[f] < r
  {
    var i :| 0 <= i < |l.free| && l.free[i] == f;
    assert i < FirstFit(l.free, l.sizes, r);
  }

  lemma CarveServes(l: Layout, k: nat, r: int)
    requires Disjoint(l) && FreeListed(l) && k < |l.free| && 0 < r <= l.sizes[l.free[k]]
    ensures var c := Carve(l, k, r);
            && c.live == l.live + {l.free[k]} && l.free[k] in c.sizes
            && r <= c.sizes[l.free[k]] <= r + MINIMUM_BLOCK_SIZE
            && (c.sizes[l.free[k]] == r <==> l.sizes[l.free[k]] - r > MINIMUM_BLOCK_SIZE || l.sizes[l.free[k]] == r)
            && forall a :: a in l.live ==> a in c.sizes && c.sizes[a] == l.sizes[a]
  {
    if l.sizes[l.free[k]] - r > MINIMUM_BLOCK_SIZE {
      SplitInOrder(l, k, r);
    }
  }

  lemma HeaderAligned()
    ensures IsAligned(STRUCT_SIZE)
  {
  }

  lemma PayloadAligned(l: Layout, k: nat)
    requires Aligned(l) && FreeListed(l) && k < |l.free|
    ensures IsAligned(l.free[k] + STRUCT_SIZE)
  {
    hide IsAligned, Ascending, Elements;
    HeaderAligned();
    AlignedSum(l.free[k], STRUCT_SIZE);
  }

  /** A successful request gets the lowest adequate block, aligned, with bounded slack. */
  lemma AllocServes(l: Layout, n: int)
    requires WellFormed(l) && 0 <= n <= SIZE_MAX && Alloc(l, n) != l
    ensures var r, c := RoundedSize(n), Alloc(l, n);
            var k := FirstFit(l.free, l.sizes, r);
            && k < |l.free| && c.live == l.live + {l.free[k]} && l.free[k] in c.sizes
            && IsAligned(l.free[k] + STRUCT_SIZE)
            && r <= c.sizes[l.free[k]] <= r + MINIMUM_BLOCK_SIZE
            && (c.sizes[l.free[k]] == r <==> l.sizes[l.free[k]] - r > MINIMUM_BLOCK_SIZE || l.sizes[l.free[k]] == r)
            && n + STRUCT_SIZE <= c.sizes[l.free[k]]
            && (forall f :: f in l.free && f < l.free[k] ==> f in l.sizes && l.sizes[f] < r)
            && (forall a :: a in l.live ==> a in c.sizes && c.sizes[a] == l.sizes[a])
  {
    var r := RoundedSize(n);
    var k := FirstFit(l.free, l.sizes, r);
    PayloadAligned(l, k);
    hide Carve, FirstFit, Coalesced, Gapless, Aligned, Ascending, Elements;
    CarveServes(l, k, r);
    forall f | f in l.free && f < l.free[k] ensures f in l.sizes && l.sizes[f] < r {
      LowestFit(l, r, f);
    }
  }

  // --- Whole runs -----------------------------------------------------------------------

  type Size = n: int | 0 <= n <= SIZE_MAX

  /** A call of the allocator's interface; pointers are what malloc returned. */
  datatype Call = Malloc(size: Size) | Free(pointer: int)

  /** Freeing anything but NULL or a live pointer halts the firmware, so it changes nothing here. */
  ghost function Apply(l: Layout, c: Call): (r: Layout)
    requires WellFormed(l)
    ensures WellFormed(r) && r.start == l.start && r.end == l.end
  {
    match c
    case Malloc(n) =>
      AllocWellFormed(l, n);
      Alloc(l, n)
    case Free(p) =>
      if p - STRUCT_SIZE in l.live then
        ReleaseWellFormed(l, p - STRUCT_SIZE);
        Release(l, p - STRUCT_SIZE)
      else l
  }

  ghost function Run(l: Layout, calls: seq<Call>): (r: Layout)
    requires WellFormed(l)
    ensures WellFormed(r) && r.start == l.start && r.end == l.end
    decreases |calls|
  {
    if calls == [] then l else Run(Apply(l, calls[0]), calls[1..])
  }

  function Min(a: int, b: int): int {
    if a < b then a else b
  }

  /** The least number of free bytes at any point of a history. */
  ghost function LowWater(l: Layout, calls: seq<Call>): int
    requires WellFormed(l)
    decreases |calls|
  {
    if calls == [] then FreeBytes(l) else Min(FreeBytes(l), LowWater(Apply(l, calls[0]), calls[1..]))
  }

  lemma {:induction false} LowWaterReached(l: Layout, calls: seq<Call>) returns (i: nat)
    requires WellFormed(l)
    ensures i <= |calls| && FreeBytes(Run(l, calls[..i])) == LowWater(l, calls)
    decreases |calls|
  {
    hide Aligned, Disjoint, Gapless, Ascending, Elements, Coalesced, Apply, Bytes;
    i := 0;
    if calls != [] && LowWater(l, calls) != FreeBytes(l) {
      var j := LowWaterReached(Apply(l, calls[0]), calls[1..]);
      i := j + 1;
      assert calls[..i][1..] == calls[1..][..j];
    }
  }

  lemma {:induction false} NeverBelowLowWater(l: Layout, calls: seq<Call>, i: nat)
    requires WellFormed(l) && i <= |calls|
    ensures LowWater(l, calls) <= FreeBytes(Run(l, calls[..i]))
    decreases |calls|
  {
    hide Aligned, Disjoint, Gapless, Ascending, Elements, Coalesced, Apply, Bytes;
    if i > 0 {
      NeverBelowLowWater(Apply(l, calls[0]), calls[1..], i - 1);
      assert calls[..i][1..] == calls[1..][..i - 1];
    }
  }

  /** It is the number of free bytes after some part of the history, and after no part are there fewer. */
  lemma LowWaterIsLeast(l: Layout, calls: seq<Call>)
    requires WellFormed(l)
    ensures exists i :: 0 <= i <= |calls| && FreeBytes(Run(l, calls[..i])) == LowWater(l, calls)
    ensures forall i :: 0 <= i <= |calls| ==> LowWater(l, calls) <= FreeBytes(Run(l, calls[..i]))
  {
    var i := LowWaterReached(l, calls);
    forall j | 0 <= j <= |calls| ensures LowWater(l, calls) <= FreeBytes(Run(l, calls[..j])) {
      NeverBelowLowWater(l, calls, j);
    }
  }

  /** One call further, a mark that was low enough so far need only take the new free bytes into account. */
  lemma LowWaterStep(l: Layout, calls: seq<Call>, mark: int)
    requires WellFormed(l) && calls != [] && mark <= FreeBytes(l)
    ensures var l' := Apply(l, calls[0]);
            Min(mark, LowWater(l, calls)) == Min(Min(mark, FreeBytes(l')), LowWater(l', calls[1..]))
  {
    hide Aligned, Disjoint, Gapless, Ascending, Elements, Coalesced, Apply, Bytes;
    assert LowWater(Apply(l, calls[0]), calls[1..]) <= FreeBytes(Apply(l, calls[0]));
  }

  lemma NullNotLive(l: Layout)
    requires WellFormed(l)
    ensures -STRUCT_SIZE !in l.live
  {
  }

  /** Every pointer freed in the history is NULL or live at that time. */
  ghost predicate FreesOnlyLive(l: Layout, calls: seq<Call>)
    requires WellFormed(l)
    decreases |calls|
  {
    calls == [] ||
    (Permitted(l, calls[0]) && FreesOnlyLive(Apply(l, calls[0]), calls[1..]))
  }

  ghost predicate Permitted(l: Layout, c: Call) {
    c.Free? ==> c.pointer == 0 || c.pointer - STRUCT_SIZE in l.live
  }

  /** Two histories that end with the same live blocks end with the same free list. */
  lemma HistoryIndependent(l: Layout, calls: seq<Call>, calls': seq<Call>)
    requires WellFormed(l) && SameLive(Run(l, calls), Run(l, calls'))
    ensures Run(l, calls) == Run(l, calls')
  {
    Canonical(Run(l, calls), Run(l, calls'));
  }

  /** A history that leaves nothing live ends with the single block the heap began with. */
  lemma AllFreedIsInitial(start: int, end: int, calls: seq<Call>)
    requires 0 < start && IsAligned(start) && IsAligned(end)
    requires MINIMUM_BLOCK_SIZE <= end - start < ALLOCATED_BIT
    requires WellFormed(Initial(start, end)) && Run(Initial(start, end), calls).live == {}
    ensures Run(Initial(start, end), calls) == Initial(start, end)
  {
    Canonical(Run(Initial(start, end), calls), Initial(start, end));
  }

  lemma FreeRemoves(l: Layout, p: int)
    requires WellFormed(l)
    ensures Apply(l, Free(p)).live == l.live - {p - STRUCT_SIZE}
  {
    hide Release, Tiles, Coalesced;
    if p - STRUCT_SIZE in l.live {
      ReleaseWellFormed(l, p - STRUCT_SIZE);
    }
  }

  lemma {:induction false} FreesRemove(l: Layout, calls: seq<Call>, b: int)
    requires WellFormed(l) && forall i :: 0 <= i < |calls| ==> calls[i].Free?
    ensures b in Run(l, calls).live ==> b in l.live && Free(b + STRUCT_SIZE) !in calls
    decreases |calls|
  {
    hide Tiles, Coalesced, Release, Alloc;
    if calls != [] {
      FreeRemoves(l, calls[0].pointer);
      assert calls == [calls[0]] + calls[1..];
      FreesRemove(Apply(l, calls[0]), calls[1..], b);
    }
  }

  /** Freeing all live blocks, in any order, restores the initial heap. */
  lemma FreeAllInAnyOrder(l: Layout, frees: seq<Call>)
    requires WellFormed(l) && forall i :: 0 <= i < |frees| ==> frees[i].Free?
    requires forall b :: b in l.live ==> Free(b + STRUCT_SIZE) in frees
    ensures Run(l, frees) == Initial(l.start, l.end)
  {
    hide Run, Disjoint, FreeListed, Coalesced;
    forall b ensures b !in Run(l, frees).live {
      FreesRemove(l, frees, b);
    }
    InitialWellFormed(l.start, l.end);
    Canonical(Run(l, frees), Initial(l.start, l.end));
  }
}
