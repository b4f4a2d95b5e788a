/**
 The heap allocator of furi/core/memmgr_heap.c: linked block headers in memory, rewritten
 in place.  Every method is proved to compute the corresponding function of HeapLayout.
 */
module Heap {
  import opened Sequences
  import opened HeapLayout

  /** A block header as stored: `next` is a protected pointer, `size` carries the allocated bit. */
  datatype BlockLink = BlockLink(next: int, size: int)

  type Memory = map<int, BlockLink>

  /** Stores the size of a header that may not have been written before. */
  function SetSize(mem: Memory, a: int, size: int): Memory {
    mem[a := BlockLink(if a in mem then mem[a].next else 0, size)]
  }

  ghost predicate Holds(mem: Memory, a: int, h: BlockLink) {
    a in mem && mem[a] == h
  }

  ghost predicate Untouched(mem: Memory, mem': Memory, except: set<int>) {
    forall x :: x in mem && x !in except ==> x in mem' && mem'[x] == mem[x]
  }

  predicate IsAllocated(b: BlockLink) {
    b.size >= ALLOCATED_BIT
  }

  /** Protecting a pointer twice gives it back, as XOR with a canary does. */
  ghost predicate Involution(protect: int -> int) {
    forall p {:trigger protect(protect(p))} :: protect(protect(p)) == p
  }

  lemma CanaryIsInvolution(pointer: bv32, canary: bv32)
    ensures (pointer ^ canary) ^ canary == pointer
  {
  }

  function AlignUp(a: int): (r: int)
    ensures r % ALIGNMENT == 0 && a <= r < a + ALIGNMENT
  {
    if a % ALIGNMENT != 0 then a + (ALIGNMENT - 1) - (a + (ALIGNMENT - 1)) % ALIGNMENT else a
  }

  function AlignDown(a: int): (r: int)
    ensures r % ALIGNMENT == 0 && a - ALIGNMENT < r <= a
  {
    a - a % ALIGNMENT
  }

  /** The node whose `next` field is link number `k` of the free list. */
  ghost function Node(free: seq<int>, xStart: int, k: nat): int
    requires k <= |free|
  {
    if k == 0 then xStart else free[k - 1]
  }

  /** The block that link number `k` points to. */
  ghost function Target(free: seq<int>, end: int, k: nat): int
    requires k <= |free|
  {
    if k == |free| then end else free[k]
  }

  ghost predicate HeaderOf(mem: Memory, protect: int -> int, l: Layout, a: int)
    requires a in l.sizes
  {
    && a in mem
    && mem[a].size == (if a in l.live then l.sizes[a] + ALLOCATED_BIT else l.sizes[a])
    && (a in l.live ==> mem[a].next == protect(0))
  }

  ghost predicate LinkAt(mem: Memory, protect: int -> int, xStart: int, free: seq<int>, end: int, k: nat)
    requires k <= |free|
  {
    var n := Node(free, xStart, k);
    n in mem && mem[n].next == protect(Target(free, end, k))
  }

  /** The headers in memory represent the layout. */
  ghost predicate Represents(mem: Memory, protect: int -> int, xStart: int, l: Layout) {
    && xStart in mem && mem[xStart].size == 0
    && l.end in mem && mem[l.end] == BlockLink(protect(0), 0)
    && (forall a {:trigger HeaderOf(mem, protect, l, a)} :: a in l.sizes ==> HeaderOf(mem, protect, l, a))
    && AllLinked(mem, protect, xStart, l.free, l.end)
  }

  lemma InitialRepresented(mem: Memory, protect: int -> int, xStart: int, start: int, end: int)
    requires xStart in mem && mem[xStart] == BlockLink(protect(start), 0)
    requires end in mem && mem[end] == BlockLink(protect(0), 0)
    requires start in mem && mem[start] == BlockLink(protect(end), end - start)
    ensures Represents(mem, protect, xStart, Initial(start, end))
  {
    var l := Initial(start, end);
    forall k: nat | k <= |l.free| ensures LinkAt(mem, protect, xStart, l.free, l.end, k) {
    }
  }

  /** The list head is not inside the heap area. */
  ghost predicate HeadOutside(l: Layout, xStart: int) {
    xStart < l.start || l.end < xStart
  }

  lemma NodesDiffer(free: seq<int>, xStart: int, i: nat, j: nat)
    requires Ascending(free) && xStart !in free && i < j <= |free|
    ensures Node(free, xStart, i) != Node(free, xStart, j)
  {
  }

  // --- Allocation in memory ---------------------------------------------------------------

  /** What is written to memory when block `k` is taken: the previous link, the block, a possible rest. */
  ghost predicate CarveWritten(mem: Memory, mem': Memory, protect: int -> int, xStart: int, l: Layout, k: nat, r: int)
    requires k < |l.free| && l.free[k] in l.sizes
    requires l.free[k] in mem && Node(l.free, xStart, k) in mem
  {
    var a, prev, size := l.free[k], Node(l.free, xStart, k), l.sizes[l.free[k]];
    if size - r > MINIMUM_BLOCK_SIZE then
      && Holds(mem', prev, BlockLink(protect(a + r), mem[prev].size))
      && Holds(mem', a, BlockLink(protect(0), r + ALLOCATED_BIT))
      && Holds(mem', a + r, BlockLink(mem[a].next, size - r))
      && Untouched(mem, mem', {prev, a, a + r})
    else
      && Holds(mem', prev, BlockLink(mem[a].next, mem[prev].size))
      && Holds(mem', a, BlockLink(protect(0), size + ALLOCATED_BIT))
      && Untouched(mem, mem', {prev, a})
  }

  lemma CarveHeaders(mem: Memory, mem': Memory, protect: int -> int, xStart: int, l: Layout, k: nat, r: int, x: int)
    requires Disjoint(l) && FreeListed(l) && k < |l.free| && 0 < r <= l.sizes[l.free[k]]
    requires xStart !in l.sizes
    requires l.free[k] in mem && Node(l.free, xStart, k) in mem
    requires CarveWritten(mem, mem', protect, xStart, l, k, r)
    requires x in Carve(l, k, r).sizes && (x in l.sizes ==> HeaderOf(mem, protect, l, x))
    ensures HeaderOf(mem', protect, Carve(l, k, r), x)
  {
  }

  /** The list's nodes other than `p` and `q` keep their links. */
  ghost predicate LinksKept(mem: Memory, mem': Memory, xStart: int, free: seq<int>, p: int, q: int) {
    forall x :: (x == xStart || x in free) && x in mem && x != p && x != q ==> x in mem' && mem'[x].next == mem[x].next
  }

  lemma LinkKept(mem: Memory, mem': Memory, protect: int -> int, xStart: int, free: seq<int>, end: int, k: nat, j: nat)
    requires Ascending(free) && xStart !in free && k < |free| && j <= |free| && j != k && j != k + 1
    requires LinksKept(mem, mem', xStart, free, Node(free, xStart, k), free[k])
    requires LinkAt(mem, protect, xStart, free, end, j)
    ensures LinkAt(mem', protect, xStart, free, end, j)
  {
    if j < k {
      NodesDiffer(free, xStart, j, k);
      NodesDiffer(free, xStart, j, k + 1);
    } else {
      NodesDiffer(free, xStart, k, j);
      NodesDiffer(free, xStart, k + 1, j);
    }
    assert j > 0 ==> free[j - 1] in free;
  }

  /** Replacing listed block number `k` by `n` keeps the list linked. */
  lemma ReplacedLinks(mem: Memory, mem': Memory, protect: int -> int, xStart: int, free: seq<int>, end: int, k: nat, n: int, j: nat)
    requires Ascending(free) && xStart !in free && k < |free| && j <= |free|
    requires LinkAt(mem, protect, xStart, free, end, j) && LinkAt(mem, protect, xStart, free, end, k + 1)
    requires Node(free, xStart, k) in mem' && mem'[Node(free, xStart, k)].next == protect(n)
    requires n in mem' && mem'[n].next == mem[free[k]].next
    requires LinksKept(mem, mem', xStart, free, Node(free, xStart, k), free[k])
    ensures LinkAt(mem', protect, xStart, free[k := n], end, j)
  {
    if j != k && j != k + 1 {
      LinkKept(mem, mem', protect, xStart, free, end, k, j);
    }
  }

  /** Skipping listed block number `k` keeps the list linked. */
  lemma RemovedLinks(mem: Memory, mem': Memory, protect: int -> int, xStart: int, free: seq<int>, end: int, k: nat, j: nat)
    requires Ascending(free) && xStart !in free && k < |free| && j < |free|
    requires LinkAt(mem, protect, xStart, free, end, j) && LinkAt(mem, protect, xStart, free, end, j + 1)
    requires LinkAt(mem, protect, xStart, free, end, k + 1)
    requires Node(free, xStart, k) in mem' && mem'[Node(free, xStart, k)].next == mem[free[k]].next
    requires LinksKept(mem, mem', xStart, free, Node(free, xStart, k), free[k])
    ensures LinkAt(mem', protect, xStart, Without(free, k), end, j)
  {
    var c := Without(free, k);
    assert Node(c, xStart, j) == Node(free, xStart, if j <= k then j else j + 1);
    assert Target(c, end, j) == Target(free, end, if j < k then j else j + 1);
    if j < k {
      LinkKept(mem, mem', protect, xStart, free, end, k, j);
    } else if j > k {
      LinkKept(mem, mem', protect, xStart, free, end, k, j + 1);
    }
  }

  lemma CarveRepresented(mem: Memory, mem': Memory, protect: int -> int, xStart: int, l: Layout, k: nat, r: int)
    requires Disjoint(l) && FreeListed(l) && k < |l.free| && 0 < r <= l.sizes[l.free[k]]
    requires xStart !in l.sizes && l.end !in l.sizes && xStart != l.end
    requires r < l.sizes[l.free[k]] ==> l.free[k] + r != xStart && l.free[k] + r != l.end
    requires Represents(mem, protect, xStart, l)
    requires l.free[k] in mem && Node(l.free, xStart, k) in mem
    requires CarveWritten(mem, mem', protect, xStart, l, k, r)
    ensures Represents(mem', protect, xStart, Carve(l, k, r))
  {
    var c := Carve(l, k, r);
    forall x | x in c.sizes ensures HeaderOf(mem', protect, c, x) {
      assert x in l.sizes ==> HeaderOf(mem, protect, l, x);
      CarveHeaders(mem, mem', protect, xStart, l, k, r, x);
    }
    assert LinkAt(mem, protect, xStart, l.free, l.end, k + 1);
    forall j: nat | j <= |c.free| ensures LinkAt(mem', protect, xStart, c.free, c.end, j) {
      CarveLink(mem, mem', protect, xStart, l, k, r, j);
    }
  }

  lemma SplitLink(mem: Memory, mem': Memory, protect: int -> int, xStart: int, l: Layout, k: nat, r: int, j: nat)
    requires Disjoint(l) && FreeListed(l) && k < |l.free| && 0 < r <= l.sizes[l.free[k]]
    requires xStart !in l.sizes && (r < l.sizes[l.free[k]] ==> l.free[k] + r != xStart)
    requires AllLinked(mem, protect, xStart, l.free, l.end)
    requires l.free[k] in mem && Node(l.free, xStart, k) in mem
    requires CarveWritten(mem, mem', protect, xStart, l, k, r)
    requires l.sizes[l.free[k]] - r > MINIMUM_BLOCK_SIZE && j <= |l.free|
    ensures LinkAt(mem', protect, xStart, l.free[k := l.free[k] + r], l.end, j)
  {
    hide Elements;
    assert LinkAt(mem, protect, xStart, l.free, l.end, k + 1) && LinkAt(mem, protect, xStart, l.free, l.end, j);
    NodesDiffer(l.free, xStart, k, k + 1);
    SplitInOrder(l, k, r);
    ReplacedLinks(mem, mem', protect, xStart, l.free, l.end, k, l.free[k] + r, j);
  }

  lemma WholeLink(mem: Memory, mem': Memory, protect: int -> int, xStart: int, l: Layout, k: nat, r: int, j: nat)
    requires Disjoint(l) && FreeListed(l) && k < |l.free| && 0 < r <= l.sizes[l.free[k]]
    requires xStart !in l.sizes && (r < l.sizes[l.free[k]] ==> l.free[k] + r != xStart)
    requires AllLinked(mem, protect, xStart, l.free, l.end)
    requires l.free[k] in mem && Node(l.free, xStart, k) in mem
    requires CarveWritten(mem, mem', protect, xStart, l, k, r)
    requires l.sizes[l.free[k]] - r <= MINIMUM_BLOCK_SIZE && j < |l.free|
    ensures LinkAt(mem', protect, xStart, Without(l.free, k), l.end, j)
  {
    hide Elements, Disjoint;
    assert LinkAt(mem, protect, xStart, l.free, l.end, k + 1);
    assert LinkAt(mem, protect, xStart, l.free, l.end, j) && LinkAt(mem, protect, xStart, l.free, l.end, j + 1);
    NodesDiffer(l.free, xStart, k, k + 1);
    RemovedLinks(mem, mem', protect, xStart, l.free, l.end, k, j);
  }

  lemma CarveLink(mem: Memory, mem': Memory, protect: int -> int, xStart: int, l: Layout, k: nat, r: int, j: nat)
    requires Disjoint(l) && FreeListed(l) && k < |l.free| && 0 < r <= l.sizes[l.free[k]]
    requires xStart !in l.sizes && (r < l.sizes[l.free[k]] ==> l.free[k] + r != xStart)
    requires AllLinked(mem, protect, xStart, l.free, l.end)
    requires l.free[k] in mem && Node(l.free, xStart, k) in mem
    requires CarveWritten(mem, mem', protect, xStart, l, k, r)
    requires j <= |Carve(l, k, r).free|
    ensures LinkAt(mem', protect, xStart, Carve(l, k, r).free, l.end, j)
  {
    hide CarveWritten, AllLinked, LinkAt, Elements, Ascending, Disjoint;
    if l.sizes[l.free[k]] - r > MINIMUM_BLOCK_SIZE {
      SplitLink(mem, mem', protect, xStart, l, k, r, j);
    } else {
      WholeLink(mem, mem', protect, xStart, l, k, r, j);
    }
  }

  // --- Release in memory --------------------------------------------------------------------

  /** What is written to memory when live block `b` is released, by which neighbours it touches. */
  ghost predicate ReleaseWritten(mem: Memory, mem': Memory, protect: int -> int, xStart: int, l: Layout, b: int)
    requires FreeListed(l) && b in l.live && b in mem
    requires Node(l.free, xStart, Position(l.free, b)) in mem && Target(l.free, l.end, Position(l.free, b)) in mem
  {
    var k := Position(l.free, b);
    var prev, next := Node(l.free, xStart, k), Target(l.free, l.end, k);
    if TouchesLeft(l, b) then
      if TouchesRight(l, b) then
        && Untouched(mem, mem', {prev, b})
        && Holds(mem', prev, BlockLink(mem[next].next, l.sizes[prev] + l.sizes[b] + l.sizes[next]))
      else
        && Untouched(mem, mem', {prev, b})
        && Holds(mem', prev, BlockLink(mem[prev].next, l.sizes[prev] + l.sizes[b]))
    else
      && Untouched(mem, mem', {prev, b})
      && Holds(mem', prev, BlockLink(protect(b), mem[prev].size))
      && if TouchesRight(l, b) then
           Holds(mem', b, BlockLink(mem[next].next, l.sizes[b] + l.sizes[next]))
         else
           Holds(mem', b, BlockLink(mem[prev].next, l.sizes[b]))
  }

  ghost function Released(l: Layout, b: int): Layout
    requires FreeListed(l) && b in l.live
  {
    l.(free := ReleasedFree(l, b), sizes := ReleasedSizes(l, b), live := l.live - {b})
  }

  lemma ReleaseHeaders(mem: Memory, mem': Memory, protect: int -> int, xStart: int, l: Layout, b: int, x: int)
    requires FreeListed(l) && b in l.live && xStart !in l.sizes && l.end !in l.sizes
    requires b in mem && Node(l.free, xStart, Position(l.free, b)) in mem && Target(l.free, l.end, Position(l.free, b)) in mem
    requires ReleaseWritten(mem, mem', protect, xStart, l, b)
    requires x in Released(l, b).sizes && HeaderOf(mem, protect, l, x)
    ensures HeaderOf(mem', protect, Released(l, b), x)
  {
  }

  /** Listing `b` at position `k` keeps the list linked. */
  lemma InsertedLinks(mem: Memory, mem': Memory, protect: int -> int, xStart: int, free: seq<int>, end: int, k: nat, b: int, j: nat)
    requires Ascending(free) && xStart !in free && b != xStart && k <= |free| && j <= |free| + 1
    requires LinkAt(mem, protect, xStart, free, end, k) && LinkAt(mem, protect, xStart, free, end, if j <= k then j else j - 1)
    requires Node(free, xStart, k) in mem' && mem'[Node(free, xStart, k)].next == protect(b)
    requires b in mem' && mem'[b].next == mem[Node(free, xStart, k)].next
    requires LinksKept(mem, mem', xStart, free, Node(free, xStart, k), b) && b !in free
    ensures LinkAt(mem', protect, xStart, With(free, k, b), end, j)
  {
    hide Ascending;
    var c := With(free, k, b);
    assert Node(c, xStart, j) == if j <= k then Node(free, xStart, j) else if j == k + 1 then b else Node(free, xStart, j - 1);
    assert Target(c, end, j) == if j < k then Target(free, end, j) else if j == k then b else Target(free, end, j - 1);
    if j < k {
      NodesDiffer(free, xStart, j, k);
      assert j > 0 ==> free[j - 1] in free;
    } else if j > k + 1 {
      NodesDiffer(free, xStart, k, j - 1);
      assert free[j - 2] in free;
    }
  }

  ghost predicate AllLinked(mem: Memory, protect: int -> int, xStart: int, free: seq<int>, end: int) {
    forall k: nat {:trigger LinkAt(mem, protect, xStart, free, end, k)} :: k <= |free| ==> LinkAt(mem, protect, xStart, free, end, k)
  }

  lemma ReleaseLinkBoth(mem: Memory, mem': Memory, protect: int -> int, xStart: int, l: Layout, b: int, j: nat)
    requires FreeListed(l) && b in l.live && xStart !in l.sizes && AllLinked(mem, protect, xStart, l.free, l.end)
    requires b in mem && Node(l.free, xStart, Position(l.free, b)) in mem && Target(l.free, l.end, Position(l.free, b)) in mem
    requires ReleaseWritten(mem, mem', protect, xStart, l, b)
    requires TouchesRight(l, b) && TouchesLeft(l, b) && j < |l.free|
    ensures LinkAt(mem', protect, xStart, Without(l.free, Position(l.free, b)), l.end, j)
  {
    var k := Position(l.free, b);
    assert LinkAt(mem, protect, xStart, l.free, l.end, k + 1);
    assert LinkAt(mem, protect, xStart, l.free, l.end, j) && LinkAt(mem, protect, xStart, l.free, l.end, j + 1);
    RemovedLinks(mem, mem', protect, xStart, l.free, l.end, k, j);
  }

  lemma ReleaseLinkRight(mem: Memory, mem': Memory, protect: int -> int, xStart: int, l: Layout, b: int, j: nat)
    requires FreeListed(l) && b in l.live && xStart !in l.sizes && AllLinked(mem, protect, xStart, l.free, l.end)
    requires b in mem && Node(l.free, xStart, Position(l.free, b)) in mem && Target(l.free, l.end, Position(l.free, b)) in mem
    requires ReleaseWritten(mem, mem', protect, xStart, l, b)
    requires TouchesRight(l, b) && !TouchesLeft(l, b) && j <= |l.free|
    ensures LinkAt(mem', protect, xStart, l.free[Position(l.free, b) := b], l.end, j)
  {
    var k := Position(l.free, b);
    assert LinkAt(mem, protect, xStart, l.free, l.end, k + 1) && LinkAt(mem, protect, xStart, l.free, l.end, j);
    ReplacedLinks(mem, mem', protect, xStart, l.free, l.end, k, b, j);
  }

  lemma ReleaseLinkLeft(mem: Memory, mem': Memory, protect: int -> int, xStart: int, l: Layout, b: int, j: nat)
    requires FreeListed(l) && b in l.live && xStart !in l.sizes && AllLinked(mem, protect, xStart, l.free, l.end)
    requires b in mem && Node(l.free, xStart, Position(l.free, b)) in mem && Target(l.free, l.end, Position(l.free, b)) in mem
    requires ReleaseWritten(mem, mem', protect, xStart, l, b)
    requires !TouchesRight(l, b) && TouchesLeft(l, b) && j <= |l.free|
    ensures LinkAt(mem', protect, xStart, l.free, l.end, j)
  {
    hide Position, Ascending, Elements, TouchesRight, TouchesLeft;
    assert LinkAt(mem, protect, xStart, l.free, l.end, j);
  }

  lemma ReleaseLinkAlone(mem: Memory, mem': Memory, protect: int -> int, xStart: int, l: Layout, b: int, j: nat)
    requires FreeListed(l) && b in l.live && xStart !in l.sizes && AllLinked(mem, protect, xStart, l.free, l.end)
    requires b in mem && Node(l.free, xStart, Position(l.free, b)) in mem && Target(l.free, l.end, Position(l.free, b)) in mem
    requires ReleaseWritten(mem, mem', protect, xStart, l, b)
    requires !TouchesRight(l, b) && !TouchesLeft(l, b) && j <= |l.free| + 1
    ensures LinkAt(mem', protect, xStart, With(l.free, Position(l.free, b), b), l.end, j)
  {
    hide Position, Elements, TouchesRight, TouchesLeft, With;
    var k := Position(l.free, b);
    assert LinkAt(mem, protect, xStart, l.free, l.end, k);
    assert LinkAt(mem, protect, xStart, l.free, l.end, if j <= k then j else j - 1);
    InsertedLinks(mem, mem', protect, xStart, l.free, l.end, k, b, j);
  }

  lemma ReleaseLink(mem: Memory, mem': Memory, protect: int -> int, xStart: int, l: Layout, b: int, j: nat)
    requires FreeListed(l) && b in l.live && xStart !in l.sizes && AllLinked(mem, protect, xStart, l.free, l.end)
    requires b in mem && Node(l.free, xStart, Position(l.free, b)) in mem && Target(l.free, l.end, Position(l.free, b)) in mem
    requires ReleaseWritten(mem, mem', protect, xStart, l, b)
    requires j <= |ReleasedFree(l, b)|
    ensures LinkAt(mem', protect, xStart, ReleasedFree(l, b), l.end, j)
  {
    hide Position, Ascending, Elements, AllLinked, ReleaseWritten, LinkAt;
    if TouchesRight(l, b) {
      if TouchesLeft(l, b) {
        ReleaseLinkBoth(mem, mem', protect, xStart, l, b, j);
      } else {
        ReleaseLinkRight(mem, mem', protect, xStart, l, b, j);
      }
    } else if TouchesLeft(l, b) {
      ReleaseLinkLeft(mem, mem', protect, xStart, l, b, j);
    } else {
      ReleaseLinkAlone(mem, mem', protect, xStart, l, b, j);
    }
  }

  lemma ReleaseRepresented(mem: Memory, mem': Memory, protect: int -> int, xStart: int, l: Layout, b: int)
    requires FreeListed(l) && b in l.live && xStart !in l.sizes && l.end !in l.sizes && xStart != l.end
    requires Represents(mem, protect, xStart, l)
    requires b in mem && Node(l.free, xStart, Position(l.free, b)) in mem && Target(l.free, l.end, Position(l.free, b)) in mem
    requires ReleaseWritten(mem, mem', protect, xStart, l, b)
    ensures Represents(mem', protect, xStart, Released(l, b))
  {
    var c := Released(l, b);
    forall x | x in c.sizes ensures HeaderOf(mem', protect, c, x) {
      assert HeaderOf(mem, protect, l, x);
      ReleaseHeaders(mem, mem', protect, xStart, l, b, x);
    }
    forall j: nat | j <= |c.free| ensures LinkAt(mem', protect, xStart, c.free, c.end, j) {
      ReleaseLink(mem, mem', protect, xStart, l, b, j);
    }
  }

  // --- Facts the methods need about the list -------------------------------------------------

  lemma Outside(l: Layout, xStart: int)
    requires Tiles(l) && HeadOutside(l, xStart)
    ensures xStart !in l.sizes && l.end !in l.sizes && xStart != l.end && xStart !in l.free && l.end !in l.free
    ensures NoNull(l)
  {
    assert forall i :: 0 <= i < |l.free| ==> l.free[i] in l.sizes;
  }

  /** NULL is neither a listed block nor the end marker. */
  ghost predicate NoNull(l: Layout) {
    0 !in l.free && l.end != 0
  }

  lemma Unprotect(protect: int -> int, p: int, q: int)
    requires Involution(protect) && protect(p) == protect(q)
    ensures p == q
  {
    assert protect(protect(p)) == p && protect(protect(q)) == q;
  }

  /** The header that link `k` points to: a listed block's size and link, or the end marker. */
  lemma TargetHeader(mem: Memory, protect: int -> int, xStart: int, l: Layout, k: nat)
    requires FreeListed(l) && Represents(mem, protect, xStart, l) && k <= |l.free|
    ensures var t := Target(l.free, l.end, k);
            && t in mem
            && mem[t].size == (if k < |l.free| then l.sizes[t] else 0)
            && mem[t].next == protect(if k < |l.free| then Target(l.free, l.end, k + 1) else 0)
  {
    if k < |l.free| {
      assert LinkAt(mem, protect, xStart, l.free, l.end, k + 1);
      assert HeaderOf(mem, protect, l, l.free[k]);
    }
  }

  /** What the headers around the position of a released block hold. */
  lemma InsertFacts(m: Memory, protect: int -> int, xStart: int, l: Layout, b: int, k: nat)
    requires FreeListed(l) && Represents(m, protect, xStart, l) && Involution(protect)
    requires b in l.live && k == Position(l.free, b) && xStart !in l.sizes && l.end !in l.sizes && xStart != l.end
    ensures var node, next := Node(l.free, xStart, k), Target(l.free, l.end, k);
            && node != b && next != b && node != next
            && node in m && m[node].size == (if k > 0 then l.sizes[node] else 0)
            && m[node].next == protect(next) && protect(m[node].next) == next
            && next in m && m[next].size == (if k < |l.free| then l.sizes[next] else 0)
            && (TouchesLeft(l, b) <==> node + m[node].size == b)
            && (TouchesRight(l, b) <==> b + l.sizes[b] == next && next != l.end)
            && (TouchesLeft(l, b) ==> node in l.sizes) && (TouchesRight(l, b) ==> next in l.sizes)
  {
    assert LinkAt(m, protect, xStart, l.free, l.end, k);
    assert protect(protect(Target(l.free, l.end, k))) == Target(l.free, l.end, k);
    TargetHeader(m, protect, xStart, l, k);
    if k > 0 {
      assert HeaderOf(m, protect, l, l.free[k - 1]);
    }
  }

  /** Everything allocation needs to know before it writes. */
  lemma BeforeCarve(mem: Memory, protect: int -> int, xStart: int, l: Layout, k: nat, r: int)
    requires Tiles(l) && HeadOutside(l, xStart) && Represents(mem, protect, xStart, l)
    requires k < |l.free| && 0 < r <= l.sizes[l.free[k]]
    ensures xStart !in l.sizes && l.end !in l.sizes && xStart != l.end
    ensures Node(l.free, xStart, k) != l.free[k] && l.free[k] != l.end
    ensures r < l.sizes[l.free[k]] ==>
              l.free[k] + r != xStart && l.free[k] + r != l.end && l.free[k] + r != Node(l.free, xStart, k)
    ensures l.free[k] in mem && mem[l.free[k]].size == l.sizes[l.free[k]]
  {
    Outside(l, xStart);
    NodesDiffer(l.free, xStart, k, k + 1);
    assert HeaderOf(mem, protect, l, l.free[k]);
    if r < l.sizes[l.free[k]] {
      SplitInOrder(l, k, r);
    }
  }

  /** Everything allocation establishes by its writes. */
  lemma AfterCarve(mem: Memory, mem': Memory, protect: int -> int, xStart: int, l: Layout, k: nat, r: int)
    requires WellFormed(l) && HeadOutside(l, xStart) && Represents(mem, protect, xStart, l)
    requires k < |l.free| && MINIMUM_BLOCK_SIZE <= r <= l.sizes[l.free[k]] && r % ALIGNMENT == 0
    requires l.free[k] in mem && Node(l.free, xStart, k) in mem
    requires CarveWritten(mem, mem', protect, xStart, l, k, r)
    ensures WellFormed(Carve(l, k, r)) && Represents(mem', protect, xStart, Carve(l, k, r))
    ensures FreeBytes(Carve(l, k, r)) == FreeBytes(l) - Carve(l, k, r).sizes[l.free[k]]
  {
    BeforeCarve(mem, protect, xStart, l, k, r);
    CarveTiles(l, k, r);
    CarveCoalesced(l, k, r);
    CarveBytes(l, k, r);
    CarveRepresented(mem, mem', protect, xStart, l, k, r);
  }

  /** Everything release needs to know before it writes. */
  lemma BeforeRelease(mem: Memory, protect: int -> int, xStart: int, l: Layout, b: int)
    requires Tiles(l) && HeadOutside(l, xStart) && Represents(mem, protect, xStart, l) && Involution(protect)
    requires b in l.live
    ensures xStart !in l.sizes && l.end !in l.sizes && xStart != l.end && b < l.end && 0 <= l.sizes[b] < ALLOCATED_BIT
    ensures Holds(mem, b, BlockLink(protect(0), l.sizes[b] + ALLOCATED_BIT))
    ensures Node(l.free, xStart, Position(l.free, b)) in mem && Target(l.free, l.end, Position(l.free, b)) in mem
  {
    Outside(l, xStart);
    InsertFacts(mem, protect, xStart, l, b, Position(l.free, b));
    assert HeaderOf(mem, protect, l, b);
  }

  /** Of all headers in the heap exactly those of live blocks are marked allocated. */
  lemma HeaderTells(mem: Memory, protect: int -> int, xStart: int, l: Layout, a: int)
    requires Tiles(l) && Represents(mem, protect, xStart, l) && HeadOutside(l, xStart) && (a in l.sizes || a == l.end)
    ensures a in mem && (IsAllocated(mem[a]) <==> a in l.live) && (a in l.live ==> mem[a].next == protect(0))
  {
    Outside(l, xStart);
    if a in l.sizes {
      assert HeaderOf(mem, protect, l, a);
    }
  }

  /** Everything release establishes by its writes. */
  lemma AfterRelease(mem: Memory, mem': Memory, protect: int -> int, xStart: int, l: Layout, b: int)
    requires WellFormed(l) && HeadOutside(l, xStart) && Represents(mem, protect, xStart, l) && Involution(protect)
    requires b in l.live && b in mem
    requires Node(l.free, xStart, Position(l.free, b)) in mem && Target(l.free, l.end, Position(l.free, b)) in mem
    requires ReleaseWritten(mem, mem', protect, xStart, l, b)
    ensures WellFormed(Release(l, b)) && Represents(mem', protect, xStart, Release(l, b))
    ensures FreeBytes(Release(l, b)) == FreeBytes(l) + l.sizes[b]
    ensures Release(l, b).start == l.start && Release(l, b).end == l.end
  {
    BeforeRelease(mem, protect, xStart, l, b);
    ReleaseWellFormed(l, b);
    ReleaseBytes(l, b);
    ReleaseByCases(l, b);
    ReleaseRepresented(mem, mem', protect, xStart, l, b);
  }

  class Heap {
    // The linker's heap area, the address of the static list head and the canary's effect.
    const ucHeap: int
    const totalSize: int
    const xStart: int
    const canary: int -> int

    var mem: Memory
    var protect: int -> int
    var pxEnd: int
    var freeBytes: int
    var minimumEverFree: int
    var allocations: int
    var frees: int

    /** The layout the headers represent; before the first request, the one they will be given. */
    ghost var layout: Layout

    ghost predicate Valid()
      reads this
    {
      && Area(ucHeap, totalSize, xStart)
      && Involution(canary)
      && WellFormed(layout)
      && layout.start == AlignUp(ucHeap) && layout.end == AlignDown(ucHeap + totalSize - STRUCT_SIZE)
      && xStart in mem
      && (pxEnd == 0 ==> mem[xStart].next == 0 && protect(0) == 0 && layout == Initial(layout.start, layout.end))
      && (pxEnd != 0 ==> protect == canary && Initialised())
    }

    /** The state once the heap is set up, without the facts about where it lies. */
    ghost predicate Initialised()
      reads this
    {
      && WellFormed(layout) && HeadOutside(layout, xStart)
      && pxEnd == layout.end
      && Involution(protect)
      && Represents(mem, protect, xStart, layout)
      && freeBytes == FreeBytes(layout)
      && minimumEverFree <= freeBytes
    }

    static ghost predicate Area(ucHeap: int, totalSize: int, xStart: int) {
      && 0 < ucHeap && ucHeap + totalSize <= SIZE_MAX
      && MINIMUM_BLOCK_SIZE + STRUCT_SIZE + 2 * ALIGNMENT <= totalSize < ALLOCATED_BIT
      && (xStart < ucHeap || ucHeap + totalSize <= xStart)
    }

    constructor (ucHeap: int, totalSize: int, xStart: int, canary: int -> int)
      requires Area(ucHeap, totalSize, xStart) && Involution(canary)
      ensures Valid() && pxEnd == 0
      ensures layout == Initial(AlignUp(ucHeap), AlignDown(ucHeap + totalSize - STRUCT_SIZE))
    {
      this.ucHeap, this.totalSize, this.xStart, this.canary := ucHeap, totalSize, xStart, canary;
      mem := map[xStart := BlockLink(0, 0)];
      protect := p => p;
      pxEnd, freeBytes, minimumEverFree, allocations, frees := 0, 0, 0, 0, 0;
      InitialWellFormed(AlignUp(ucHeap), AlignDown(ucHeap + totalSize - STRUCT_SIZE));
      layout := Initial(AlignUp(ucHeap), AlignDown(ucHeap + totalSize - STRUCT_SIZE));
    }

    /** The aligned bounds prvHeapInit computes for the area. */
    method Bounds() returns (start: int, end: int)
      requires Area(ucHeap, totalSize, xStart)
      ensures start == AlignUp(ucHeap) && end == AlignDown(ucHeap + totalSize - STRUCT_SIZE)
    {
      var total := totalSize;
      start := ucHeap;
      if start % ALIGNMENT != 0 {
        start := start + (ALIGNMENT - 1);
        start := start - start % ALIGNMENT;
        total := total - (start - ucHeap);
      }
      end := start + total;
      end := end - STRUCT_SIZE;
      end := end - end % ALIGNMENT;
    }

    /** The header writes of prvHeapInit. */
    method SetUp(start: int, end: int)
      requires layout == Initial(start, end) && WellFormed(layout) && FreeBytes(layout) == end - start
      requires start < end && HeadOutside(layout, xStart) && Involution(canary)
      modifies `protect, `mem, `pxEnd, `minimumEverFree, `freeBytes
      ensures Initialised() && protect == canary && pxEnd == end
      ensures freeBytes == minimumEverFree == end - start
    {
      hide Involution, Tiles, Coalesced, Bytes;
      protect := canary;
      mem := mem[xStart := BlockLink(protect(start), 0)];
      pxEnd := end;
      mem := mem[end := BlockLink(protect(0), 0)];
      mem := mem[start := BlockLink(protect(end), end - start)];
      minimumEverFree := mem[start].size;
      freeBytes := mem[start].size;
      InitialRepresented(mem, protect, xStart, start, end);
    }

    method HeapInit()
      requires Valid() && pxEnd == 0
      modifies this
      ensures Valid() && pxEnd != 0 && layout == old(layout)
      ensures freeBytes == minimumEverFree == layout.end - layout.start
      ensures allocations == old(allocations) && frees == old(frees)
    {
      var start, end := Bounds();
      InitialWellFormed(start, end);
      hide Involution, HeaderOf, AllLinked, Coalesced, Disjoint, Gapless, Ascending, Elements, Bytes;
      SetUp(start, end);
    }

    /** The walk of pvPortMalloc from the lowest address to the first adequate block or the end marker. */
    method Search(wanted: int) returns (previous: int, block: int, ghost k: nat)
      requires FreeListed(layout) && Represents(mem, protect, xStart, layout) && Involution(protect) && NoNull(layout)
      requires 0 < wanted
      ensures k == FirstFit(layout.free, layout.sizes, wanted)
      ensures previous == Node(layout.free, xStart, k) && block == Target(layout.free, layout.end, k)
      ensures previous in mem && block in mem
    {
      hide Ascending, Elements, FirstFit, HeaderOf;
      ghost var l := layout;
      previous, k := xStart, 0;
      assert LinkAt(mem, protect, xStart, l.free, l.end, 0);
      block := protect(mem[xStart].next);
      TargetHeader(mem, protect, xStart, l, 0);
      while mem[block].size < wanted && mem[block].next != protect(0)
        invariant k <= |l.free| && previous == Node(l.free, xStart, k) && block == Target(l.free, l.end, k)
        invariant previous in mem && block in mem
        invariant mem[block].size == if k < |l.free| then l.sizes[block] else 0
        invariant mem[block].next == protect(if k < |l.free| then Target(l.free, l.end, k + 1) else 0)
        invariant forall i :: 0 <= i < k ==> l.sizes[l.free[i]] < wanted
        decreases |l.free| - k
      {
        previous := block;
        block := protect(mem[block].next);
        k := k + 1;
        TargetHeader(mem, protect, xStart, l, k);
      }
      if k < |l.free| && mem[block].next == protect(0) {
        Unprotect(protect, Target(l.free, l.end, k + 1), 0);
        assert false;
      }
      FirstFitUnique(l.free, l.sizes, wanted, k);
    }

    /** Cuts `wanted` bytes off a block and lists the rest after `previous`. */
    method SplitBlock(previous: int, block: int, wanted: int)
      requires block in mem && previous in mem && previous != block
      requires block + wanted != previous && wanted != 0
      modifies this`mem
      ensures Holds(mem, previous, BlockLink(protect(block + wanted), old(mem)[previous].size))
      ensures Holds(mem, block, BlockLink(old(mem)[block].next, wanted))
      ensures Holds(mem, block + wanted, BlockLink(old(mem)[previous].next, old(mem)[block].size - wanted))
      ensures Untouched(old(mem), mem, {previous, block, block + wanted})
    {
      var newBlock := block + wanted;
      mem := SetSize(mem, newBlock, mem[block].size - wanted);
      mem := mem[block := mem[block].(size := wanted)];
      mem := mem[newBlock := mem[newBlock].(next := mem[previous].next)];
      mem := mem[previous := mem[previous].(next := protect(newBlock))];
    }

    /** Unlinks the found block, splits it when enough is left, and marks it allocated. */
    method CarveBlock(previous: int, block: int, wanted: int, ghost k: nat) returns (size: int)
      requires k < |layout.free| && block == layout.free[k] && previous == Node(layout.free, xStart, k)
      requires block in layout.sizes && 0 < wanted <= layout.sizes[block] && previous != block
      requires wanted < layout.sizes[block] ==> block + wanted != previous
      requires block in mem && previous in mem && mem[block].size == layout.sizes[block]
      modifies this`mem
      ensures CarveWritten(old(mem), mem, protect, xStart, layout, k, wanted)
      ensures size == if layout.sizes[block] - wanted > MINIMUM_BLOCK_SIZE then wanted else layout.sizes[block]
    {
      mem := mem[previous := mem[previous].(next := mem[block].next)];
      if mem[block].size - wanted > MINIMUM_BLOCK_SIZE {
        SplitBlock(previous, block, wanted);
      }
      size := mem[block].size;
      mem := mem[block := BlockLink(protect(0), mem[block].size + ALLOCATED_BIT)];
    }

    /** The walk of prvInsertBlockIntoFreeList to the last node below the block. */
    method FindPosition(b: int, ghost m: Memory) returns (node: int, ghost k: nat)
      requires FreeListed(layout) && Represents(m, protect, xStart, layout) && Involution(protect)
      requires b in layout.live && b in m && mem == m[b := m[b].(size := layout.sizes[b])] && xStart !in layout.sizes
      requires b < layout.end
      ensures k == Position(layout.free, b) && node == Node(layout.free, xStart, k)
    {
      ghost var l := layout;
      node, k := xStart, 0;
      assert LinkAt(m, protect, xStart, l.free, l.end, 0);
      while protect(mem[node].next) < b
        invariant k <= |l.free| && node == Node(l.free, xStart, k) && node in mem
        invariant mem[node].next == protect(Target(l.free, l.end, k))
        invariant forall i :: 0 <= i < k ==> l.free[i] < b
        decreases |l.free| - k
      {
        assert protect(protect(Target(l.free, l.end, k))) == Target(l.free, l.end, k);
        node := protect(mem[node].next);
        k := k + 1;
        assert LinkAt(m, protect, xStart, l.free, l.end, k);
      }
      assert protect(protect(Target(l.free, l.end, k))) == Target(l.free, l.end, k);
      PositionUnique(l.free, b, k);
    }

    /** Takes the found block and keeps the counters. */
    method TakeBlock(previous: int, block: int, wanted: int, ghost k: nat)
      requires Initialised()
      requires k < |layout.free| && block == layout.free[k] && previous == Node(layout.free, xStart, k)
      requires MINIMUM_BLOCK_SIZE <= wanted <= layout.sizes[block] && wanted % ALIGNMENT == 0
      requires block in mem && previous in mem
      modifies `mem, `freeBytes, `minimumEverFree, `allocations, `layout
      ensures Initialised()
      ensures layout == Carve(old(layout), k, wanted) && allocations == old(allocations) + 1
      ensures layout.start == old(layout).start && layout.end == old(layout).end
      ensures freeBytes == old(freeBytes) - layout.sizes[block]
      ensures minimumEverFree == (if freeBytes < old(minimumEverFree) then freeBytes else old(minimumEverFree))
    {
      hide Ascending, Elements, Aligned, Disjoint, Gapless, Coalesced, Represents, CarveWritten, Involution, Bytes;
      BeforeCarve(mem, protect, xStart, layout, k, wanted);
      var size := CarveBlock(previous, block, wanted, k);
      freeBytes := freeBytes - size;
      if freeBytes < minimumEverFree {
        minimumEverFree := freeBytes;
      }
      allocations := allocations + 1;
      AfterCarve(old(mem), mem, protect, xStart, layout, k, wanted);
      layout := Carve(layout, k, wanted);
    }

    /** The part of pvPortMalloc that runs once the request is known to be plausible. */
    method Take(wanted: int) returns (pvReturn: int)
      requires Initialised()
      requires MINIMUM_BLOCK_SIZE <= wanted < ALLOCATED_BIT && wanted % ALIGNMENT == 0
      modifies `mem, `freeBytes, `minimumEverFree, `allocations, `layout
      ensures Initialised() && layout.start == old(layout).start && layout.end == old(layout).end
      ensures var l := old(layout);
              var k := FirstFit(l.free, l.sizes, wanted);
              if k == |l.free| then
                pvReturn == 0 && layout == l && allocations == old(allocations)
                && freeBytes == old(freeBytes) && minimumEverFree == old(minimumEverFree)
              else
                pvReturn == l.free[k] + STRUCT_SIZE && layout == Carve(l, k, wanted) && allocations == old(allocations) + 1
                && freeBytes == old(freeBytes) - layout.sizes[l.free[k]]
                && minimumEverFree == (if freeBytes < old(minimumEverFree) then freeBytes else old(minimumEverFree))
    {
      pvReturn := 0;
      Outside(layout, xStart);
      var previous, block, k := Search(wanted);
      assert LinkAt(mem, protect, xStart, layout.free, layout.end, k);
      if block != pxEnd {
        pvReturn := protect(mem[previous].next) + STRUCT_SIZE;
        TakeBlock(previous, block, wanted, k);
      }
    }

    /** The overflow-guarded rounding at the start of pvPortMalloc. */
    method Round(wantedSize: Size) returns (wanted: int)
      ensures wanted == RoundedSize(wantedSize)
    {
      wanted := wantedSize;
      if wanted > 0 {
        if wanted <= SIZE_MAX - STRUCT_SIZE {
          wanted := wanted + STRUCT_SIZE;
          if wanted % ALIGNMENT != 0 {
            var additional := ALIGNMENT - wanted % ALIGNMENT;
            wanted := if wanted <= SIZE_MAX - additional then wanted + additional else 0;
          }
        } else {
          wanted := 0;
        }
      }
    }

    /** The least number of free bytes so far; the whole area before it is set up. */
    ghost function LowWaterMark(): int
      reads this
    {
      if pxEnd == 0 then layout.end - layout.start else minimumEverFree
    }

    /** pvPortMalloc: 0 stands for the out-of-memory crash. */
    method Malloc(wantedSize: Size) returns (pvReturn: int)
      requires Valid()
      modifies this
      ensures Valid() && pxEnd != 0 && frees == old(frees)
      ensures layout == Alloc(old(layout), wantedSize)
      ensures LowWaterMark() == Min(old(LowWaterMark()), FreeBytes(layout))
      ensures var l, r := old(layout), RoundedSize(wantedSize);
              var k := FirstFit(l.free, l.sizes, r);
              if 0 < r < ALLOCATED_BIT && k < |l.free| then
                pvReturn == l.free[k] + STRUCT_SIZE && allocations == old(allocations) + 1
              else
                pvReturn == 0 && allocations == old(allocations)
    {
      hide RoundedSize, FirstFit, Carve, HeaderOf, AllLinked, Involution, HeadOutside, AlignUp, AlignDown, Coalesced, Ascending, Elements, Bytes;
      pvReturn := 0;
      var wanted := Round(wantedSize);
      if pxEnd == 0 {
        HeapInit();
      }
      if wanted < ALLOCATED_BIT {
        if wanted > 0 && wanted <= freeBytes {
          pvReturn := Take(wanted);
        } else if wanted > 0 {
          PrecheckRejectsNothing(layout, wanted);
        }
      }
    }

    /** prvInsertBlockIntoFreeList; `m` is memory before the block's allocated bit was cleared. */
    method InsertBlock(b: int, ghost m: Memory)
      requires FreeListed(layout) && Represents(m, protect, xStart, layout) && Involution(protect)
      requires b in layout.live && b in m && mem == m[b := m[b].(size := layout.sizes[b])]
      requires xStart !in layout.sizes && b < layout.end && pxEnd == layout.end && layout.end !in layout.sizes && xStart != layout.end
      requires Node(layout.free, xStart, Position(layout.free, b)) in m
      requires Target(layout.free, layout.end, Position(layout.free, b)) in m
      modifies `mem
      ensures ReleaseWritten(m, mem, protect, xStart, layout, b)
    {
      hide Position, Ascending, Elements, Represents, Involution, TouchesLeft, TouchesRight;
      var node, k := FindPosition(b, m);
      ghost var target := Target(layout.free, layout.end, k);
      InsertFacts(m, protect, xStart, layout, b, k);
      var block := b;
      if node + mem[node].size == b {
        mem := mem[node := mem[node].(size := mem[node].size + mem[b].size)];
        block := node;
      }
      if block + mem[block].size == protect(mem[node].next) {
        if protect(mem[node].next) != pxEnd {
          var next := protect(mem[node].next);
          mem := mem[block := mem[block].(size := mem[block].size + mem[next].size)];
          mem := mem[block := mem[block].(next := mem[protect(mem[node].next)].next)];
        } else {
          mem := mem[block := mem[block].(next := protect(pxEnd))];
        }
      } else {
        mem := mem[block := mem[block].(next := mem[node].next)];
      }
      if node != block {
        mem := mem[node := mem[node].(next := protect(block))];
      }
    }

    /** The writes of vPortFree to the headers and to the count of free bytes. */
    method ReleaseBlock(b: int)
      requires FreeListed(layout) && Represents(mem, protect, xStart, layout) && Involution(protect)
      requires b in layout.live && Holds(mem, b, BlockLink(protect(0), layout.sizes[b] + ALLOCATED_BIT))
      requires xStart !in layout.sizes && b < layout.end && pxEnd == layout.end && layout.end !in layout.sizes && xStart != layout.end
      requires Node(layout.free, xStart, Position(layout.free, b)) in mem
      requires Target(layout.free, layout.end, Position(layout.free, b)) in mem
      modifies `mem, `freeBytes
      ensures b in old(mem) && ReleaseWritten(old(mem), mem, protect, xStart, layout, b)
      ensures freeBytes == old(freeBytes) + layout.sizes[b]
    {
      mem := mem[b := mem[b].(size := mem[b].size - ALLOCATED_BIT)];
      freeBytes := freeBytes + mem[b].size;
      InsertBlock(b, old(mem));
    }

    /** The part of vPortFree that runs for a pointer other than NULL. */
    method GiveBack(b: int)
      requires Initialised() && b in layout.live
      modifies `mem, `freeBytes, `frees, `layout
      ensures Initialised() && layout == Release(old(layout), b)
      ensures layout.start == old(layout).start && layout.end == old(layout).end
      ensures freeBytes == old(freeBytes) + old(layout).sizes[b] && frees == old(frees) + 1
    {
      hide Release, ReleaseWritten, Represents, Involution, Position, Ascending, Elements, Aligned, Disjoint, Gapless, Coalesced, Bytes;
      BeforeRelease(mem, protect, xStart, layout, b);
      assert IsAllocated(mem[b]) && mem[b].next == protect(0);
      ReleaseBlock(b);
      frees := frees + 1;
      AfterRelease(old(mem), mem, protect, xStart, layout, b);
      layout := Release(layout, b);
    }

    /** What heapVALIDATE_BLOCK_POINTER accepts. */
    predicate InArea(a: int) {
      ucHeap <= a <= ucHeap + totalSize - 1
    }

    lemma LiveInArea(b: int)
      requires Valid() && b in layout.live
      ensures InArea(b) && pxEnd != 0
    {
      hide Represents, Involution, IsAligned, Elements;
      assert layout.start <= b && b + layout.sizes[b] <= layout.end;
    }

    /**
     vPortFree.  `ok` is false where an assertion halts the system: the pointer is outside the heap, or the
     header before it is that of a free block or of the end marker.
     */
    method Free(pv: int) returns (ok: bool)
      requires Valid()
      requires pv != 0 && InArea(pv - STRUCT_SIZE) ==>
                 pxEnd != 0 && (pv - STRUCT_SIZE in layout.sizes || pv - STRUCT_SIZE == pxEnd)
      modifies `mem, `freeBytes, `frees, `layout
      ensures Valid() && (ok <==> pv == 0 || pv - STRUCT_SIZE in old(layout).live)
      ensures layout == if ok && pv != 0 then Release(old(layout), pv - STRUCT_SIZE) else old(layout)
      ensures frees == old(frees) + (if ok && pv != 0 then 1 else 0)
      ensures freeBytes == old(freeBytes) + (if ok && pv != 0 then old(layout).sizes[pv - STRUCT_SIZE] else 0)
    {
      hide HeaderOf, AllLinked, Involution, Release, HeadOutside, Ascending, Elements, Aligned, Disjoint, Gapless, Coalesced, Bytes, AlignUp, AlignDown;
      ok := true;
      if pv != 0 {
        var b := pv - STRUCT_SIZE;
        if b in layout.live {
          LiveInArea(b);
        }
        if !InArea(b) {
          return false;
        }
        HeaderTells(mem, protect, xStart, layout, b);
        if !IsAllocated(mem[b]) || mem[b].next != protect(0) {
          return false;
        }
        GiveBack(b);
      }
    }

    lemma MarkIsLow()
      requires Valid()
      ensures LowWaterMark() <= FreeBytes(layout)
    {
      InitialWellFormed(layout.start, layout.end);
    }

    lemma FreeableIsHeader(pv: int)
      requires Valid() && Permitted(layout, Call.Free(pv))
      ensures pv != 0 ==> pxEnd != 0 && pv - STRUCT_SIZE in layout.sizes
    {
    }

    method Perform(call: Call)
      requires Valid() && Permitted(layout, call)
      modifies this
      ensures Valid() && layout == Apply(old(layout), call)
      ensures LowWaterMark() == Min(old(LowWaterMark()), FreeBytes(layout))
    {
      hide HeaderOf, AllLinked, Involution, HeadOutside, AlignUp, AlignDown, Ascending, Elements, Disjoint, Gapless, Coalesced, Bytes, Alloc, Release;
      NullNotLive(layout);
      MarkIsLow();
      match call {
        case Malloc(size) =>
          var p := Malloc(size);
        case Free(pointer) =>
          FreeableIsHeader(pointer);
          var ok := Free(pointer);
      }
    }

    /**
     A whole history of calls on the linked headers: the layout is the one `Run` gives, and the
     low-water mark is the least number of free bytes ever reached.
     */
    method Serve(calls: seq<Call>)
      requires Valid() && FreesOnlyLive(layout, calls)
      modifies this
      ensures Valid() && layout == Run(old(layout), calls)
      ensures LowWaterMark() == Min(old(LowWaterMark()), LowWater(old(layout), calls))
    {
      hide Initialised, Area, Involution, AlignUp, AlignDown, Tiles, Coalesced, Apply, Permitted, LowWaterMark;
      var i := 0;
      while i < |calls|
        invariant 0 <= i <= |calls| && Valid() && FreesOnlyLive(layout, calls[i..])
        invariant Run(layout, calls[i..]) == Run(old(layout), calls)
        invariant Min(LowWaterMark(), LowWater(layout, calls[i..])) == Min(old(LowWaterMark()), LowWater(old(layout), calls))
      {
        assert calls[i..][1..] == calls[i + 1..];
        MarkIsLow();
        LowWaterStep(layout, calls[i..], LowWaterMark());
        Perform(calls[i]);
        i := i + 1;
      }
      MarkIsLow();
    }

    /** The walk of vPortGetHeapStats over the free list from its first block. */
    method WalkStats(first: int) returns (largest: int, smallest: int, blocks: int)
      requires FreeListed(layout) && Represents(mem, protect, xStart, layout) && Involution(protect)
      requires layout.end !in layout.sizes && pxEnd == layout.end && first == Target(layout.free, layout.end, 0)
      requires forall i :: 0 <= i < |layout.free| ==> 0 < layout.sizes[layout.free[i]] < SIZE_MAX
      ensures IsLargest(layout, largest) && IsSmallest(layout, smallest) && blocks == |layout.free|
    {
      hide Ascending, Elements, HeaderOf;
      ghost var l := layout;
      blocks, largest, smallest := 0, 0, SIZE_MAX;
      var block := first;
      TargetHeader(mem, protect, xStart, l, 0);
      while block != pxEnd
        invariant 0 <= blocks <= |l.free| && block == Target(l.free, l.end, blocks) && block in mem
        invariant mem[block].size == if blocks < |l.free| then l.sizes[block] else 0
        invariant mem[block].next == protect(if blocks < |l.free| then Target(l.free, l.end, blocks + 1) else 0)
        invariant forall i :: 0 <= i < blocks ==> smallest <= l.sizes[l.free[i]] <= largest
        invariant if blocks == 0 then largest == 0 && smallest == SIZE_MAX else
                    (exists i :: 0 <= i < blocks && l.sizes[l.free[i]] == largest)
                    && (exists i :: 0 <= i < blocks && l.sizes[l.free[i]] == smallest)
        decreases |l.free| - blocks
      {
        if mem[block].size > largest {
          largest := mem[block].size;
        }
        if mem[block].size < smallest {
          smallest := mem[block].size;
        }
        block := protect(mem[block].next);
        blocks := blocks + 1;
        TargetHeader(mem, protect, xStart, l, blocks);
      }
    }

    /** vPortGetHeapStats: sizes of the largest and smallest free block and their number. */
    method GetHeapStats() returns (largest: int, smallest: int, blocks: int)
      requires Valid()
      ensures pxEnd != 0 ==> IsLargest(layout, largest) && IsSmallest(layout, smallest) && blocks == |layout.free|
      ensures pxEnd == 0 ==> largest == 0 && smallest == SIZE_MAX && blocks == 0
    {
      blocks, largest, smallest := 0, 0, SIZE_MAX;
      var block := protect(mem[xStart].next);
      if pxEnd != 0 {
        assert LinkAt(mem, protect, xStart, layout.free, layout.end, 0);
        Outside(layout, xStart);
      }
      if block != 0 {
        largest, smallest, blocks := WalkStats(block);
      }
    }
  }
}
