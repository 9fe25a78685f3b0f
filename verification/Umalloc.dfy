/** The user-level allocator: a circular free list in address order, in units of 16-byte headers.
    Addresses are unit numbers; the list's static base lies below the heap. */
module Umalloc {

  const UNIT: nat := 16
  const MORECORE: nat := 4096
  const INT_LIMIT: nat := 0x8000_0000
  const UINT_LIMIT: nat := 0x1_0000_0000

  datatype Header = Header(ptr: nat, size: nat)

  /** Units obtained from one sbrk. */
  datatype Arena = Arena(start: nat, count: nat)

  // ---------- blocks and the units they cover ----------

  predicate Covers(a: nat, n: nat, u: nat) { a <= u < a + n }

  ghost predicate InBlock(blk: map<nat, nat>, u: nat) { exists a :: a in blk && Covers(a, blk[a], u) }

  ghost predicate Obtained(arenas: seq<Arena>, u: nat) {
    exists k :: 0 <= k < |arenas| && Covers(arenas[k].start, arenas[k].count, u)
  }

  ghost predicate Apart(blk: map<nat, nat>) {
    && (forall a :: a in blk ==> blk[a] > 0)
    && (forall a, b :: a in blk && b in blk && a < b ==> a + blk[a] <= b)
  }

  /** The blocks are disjoint and cover exactly the units obtained. */
  ghost predicate Partition(blk: map<nat, nat>, arenas: seq<Arena>) {
    Apart(blk) && forall u: nat :: InBlock(blk, u) <==> Obtained(arenas, u)
  }

  lemma OneBlock(blk: map<nat, nat>, a: nat, b: nat, u: nat)
    requires Apart(blk) && a in blk && b in blk && Covers(a, blk[a], u) && Covers(b, blk[b], u)
    ensures a == b
  {}

  /** Cutting n units off the end of a block. */
  function Split(blk: map<nat, nat>, a: nat, n: nat): map<nat, nat>
    requires a in blk && 0 < n < blk[a]
  { blk[a := blk[a] - n][a + blk[a] - n := n] }

  lemma SplitApart(blk: map<nat, nat>, a: nat, n: nat)
    requires Apart(blk) && a in blk && 0 < n < blk[a]
    ensures a + blk[a] - n !in blk && Apart(Split(blk, a, n))
  {
    assert a + blk[a] - n !in blk;
  }

  lemma SplitPartition(blk: map<nat, nat>, arenas: seq<Arena>, a: nat, n: nat)
    requires Partition(blk, arenas) && a in blk && 0 < n < blk[a]
    ensures Partition(Split(blk, a, n), arenas) && a + blk[a] - n !in blk
  {
    SplitApart(blk, a, n);
    hide Apart, Obtained;
    forall u: nat ensures InBlock(Split(blk, a, n), u) <==> InBlock(blk, u) { SplitCovers(blk, a, n, u); }
    hide InBlock, Split;
  }

  lemma SplitCovers(blk: map<nat, nat>, a: nat, n: nat, u: nat)
    requires a in blk && 0 < n < blk[a] && a + blk[a] - n !in blk
    ensures InBlock(Split(blk, a, n), u) <==> InBlock(blk, u)
  {
    var blk' := Split(blk, a, n);
    var cut := a + blk[a] - n;
    if InBlock(blk, u) {
      var x :| x in blk && Covers(x, blk[x], u);
      if x != a { assert Covers(x, blk'[x], u); }
      else if u < cut { assert Covers(a, blk'[a], u); }
      else { assert Covers(cut, blk'[cut], u); }
    }
    if InBlock(blk', u) {
      var x :| x in blk' && Covers(x, blk'[x], u);
      assert Covers(if x == cut then a else x, blk[if x == cut then a else x], u);
    }
  }

  /** Joining block b to the block a it follows. */
  function Join(blk: map<nat, nat>, a: nat, b: nat): map<nat, nat>
    requires a in blk && b in blk && a != b
  { (blk - {b})[a := blk[a] + blk[b]] }

  lemma JoinPartition(blk: map<nat, nat>, arenas: seq<Arena>, a: nat, b: nat)
    requires Partition(blk, arenas) && a in blk && b in blk && a + blk[a] == b
    ensures Partition(Join(blk, a, b), arenas)
  {
    var blk' := Join(blk, a, b);
    forall u: nat ensures InBlock(blk', u) <==> InBlock(blk, u) {
      if InBlock(blk, u) {
        var x :| x in blk && Covers(x, blk[x], u);
        assert Covers(if x == b then a else x, blk'[if x == b then a else x], u);
      }
      if InBlock(blk', u) {
        var x :| x in blk' && Covers(x, blk'[x], u);
        if x == a && u >= b { assert Covers(b, blk[b], u); } else { assert Covers(x, blk[x], u); }
      }
    }
  }

  /** A new arena, all of it one block. */
  lemma GrowPartition(blk: map<nat, nat>, arenas: seq<Arena>, a: nat, n: nat)
    requires Partition(blk, arenas) && n > 0
    requires forall x :: x in blk ==> x + blk[x] <= a
    ensures Partition(blk[a := n], arenas + [Arena(a, n)])
  {
    var blk', arenas' := blk[a := n], arenas + [Arena(a, n)];
    assert a !in blk;
    forall u: nat ensures InBlock(blk', u) <==> Obtained(arenas', u) {
      if InBlock(blk', u) {
        var x :| x in blk' && Covers(x, blk'[x], u);
        if x == a { assert Covers(arenas'[|arenas|].start, arenas'[|arenas|].count, u); }
        else {
          assert InBlock(blk, u);
          var k :| 0 <= k < |arenas| && Covers(arenas[k].start, arenas[k].count, u);
          assert Covers(arenas'[k].start, arenas'[k].count, u);
        }
      }
      if Obtained(arenas', u) {
        var k :| 0 <= k < |arenas'| && Covers(arenas'[k].start, arenas'[k].count, u);
        if k == |arenas| { assert Covers(a, blk'[a], u); }
        else {
          assert Obtained(arenas, u) by { assert Covers(arenas[k].start, arenas[k].count, u); }
          var x :| x in blk && Covers(x, blk[x], u);
          assert Covers(x, blk'[x], u);
        }
      }
    }
  }

  // ---------- the circular list ----------

  ghost predicate Ascending(nodes: seq<nat>) { forall j, k :: 0 <= j < k < |nodes| ==> nodes[j] < nodes[k] }

  function Succ(n: nat, k: nat): nat { if k + 1 < n then k + 1 else 0 }

  ghost predicate LinkAt(hdr: map<nat, Header>, nodes: seq<nat>, k: nat)
    requires k < |nodes|
  { nodes[k] in hdr && hdr[nodes[k]].ptr == nodes[Succ(|nodes|, k)] }

  /** The headers link the nodes in a circle, in order. */
  ghost predicate Linked(hdr: map<nat, Header>, nodes: seq<nat>) {
    |nodes| > 0 && Ascending(nodes) && forall k: nat :: k < |nodes| ==> LinkAt(hdr, nodes, k)
  }

  /** Pointers unchanged but for those of a and b. */
  ghost predicate SamePtrs(hdr: map<nat, Header>, hdr': map<nat, Header>, a: nat, b: nat) {
    forall x :: x in hdr && x != a && x != b ==> x in hdr' && hdr'[x].ptr == hdr[x].ptr
  }

  function Inserted(nodes: seq<nat>, l: nat, b: nat): seq<nat>
    requires l < |nodes|
  { nodes[..l + 1] + [b] + nodes[l + 1..] }

  function Removed(nodes: seq<nat>, r: nat): seq<nat>
    requires r < |nodes|
  { nodes[..r] + nodes[r + 1..] }

  /** The node after which b belongs. */
  ghost predicate Place(nodes: seq<nat>, l: nat, b: nat) {
    l < |nodes| && nodes[l] < b && (l + 1 < |nodes| ==> b < nodes[l + 1])
  }

  lemma PlaceBetween(nodes: seq<nat>, l: nat, b: nat)
    requires Ascending(nodes) && Place(nodes, l, b) && b !in nodes
    ensures nodes[l] < b && nodes[l] in nodes && forall x :: x in nodes ==> x <= nodes[l] || x > b
  {}

  lemma InsertedAt(nodes: seq<nat>, l: nat, b: nat, k: nat)
    requires l < |nodes| && k <= |nodes|
    ensures |Inserted(nodes, l, b)| == |nodes| + 1
    ensures Inserted(nodes, l, b)[k] == if k <= l then nodes[k] else if k == l + 1 then b else nodes[k - 1]
  {}

  lemma InsertedAscending(nodes: seq<nat>, l: nat, b: nat)
    requires Ascending(nodes) && Place(nodes, l, b)
    ensures Ascending(Inserted(nodes, l, b))
  {
    var ns := Inserted(nodes, l, b);
    forall j, k | 0 <= j < k < |ns| ensures ns[j] < ns[k] {
      InsertedAt(nodes, l, b, j);
      InsertedAt(nodes, l, b, k);
      hide Inserted;
    }
  }

  lemma InsertLinked(hdr: map<nat, Header>, nodes: seq<nat>, l: nat, b: nat, hdr': map<nat, Header>)
    requires Linked(hdr, nodes) && Place(nodes, l, b) && SamePtrs(hdr, hdr', nodes[l], b)
    requires b in hdr' && nodes[l] in hdr' && nodes[l] in hdr && hdr'[b].ptr == hdr[nodes[l]].ptr
    requires hdr'[nodes[l]].ptr == b
    ensures Linked(hdr', Inserted(nodes, l, b))
  {
    InsertedAscending(nodes, l, b);
    var ns := Inserted(nodes, l, b);
    forall k: nat | k < |ns| ensures LinkAt(hdr', ns, k) {
      var j := if k <= l then k else if k == l + 1 then l else k - 1;
      assert LinkAt(hdr, nodes, j);
      InsertedAt(nodes, l, b, k);
      InsertedAt(nodes, l, b, Succ(|ns|, k));
      InsertedAt(nodes, l, b, 0);
      hide Inserted;
    }
  }

  lemma RemovedAt(nodes: seq<nat>, r: nat, k: nat)
    requires r < |nodes| && k < |nodes| - 1
    ensures |Removed(nodes, r)| == |nodes| - 1
    ensures Removed(nodes, r)[k] == nodes[if k < r then k else k + 1]
  {}

  lemma RemovedAscending(nodes: seq<nat>, r: nat)
    requires Ascending(nodes) && r < |nodes|
    ensures Ascending(Removed(nodes, r))
  {
    var ns := Removed(nodes, r);
    forall j, k | 0 <= j < k < |ns| ensures ns[j] < ns[k] {
      RemovedAt(nodes, r, j);
      RemovedAt(nodes, r, k);
      hide Removed;
    }
  }

  lemma RemoveLinked(hdr: map<nat, Header>, nodes: seq<nat>, r: nat, hdr': map<nat, Header>)
    requires Linked(hdr, nodes) && 0 < r < |nodes| && SamePtrs(hdr, hdr', nodes[r - 1], nodes[r])
    requires nodes[r - 1] in hdr' && nodes[r] in hdr && hdr'[nodes[r - 1]].ptr == hdr[nodes[r]].ptr
    ensures Linked(hdr', Removed(nodes, r))
  {
    RemovedAscending(nodes, r);
    var ns := Removed(nodes, r);
    forall k: nat | k < |ns| ensures LinkAt(hdr', ns, k) {
      var j := if k < r then k else k + 1;
      assert LinkAt(hdr, nodes, j) && LinkAt(hdr, nodes, r);
      RemovedAt(nodes, r, k);
      RemovedAt(nodes, r, Succ(|ns|, k));
      hide Removed;
    }
  }

  // ---------- the heap ----------

  /** Headers in memory, the free list (the base first), all blocks free or not, and where the
      memory came from. */
  datatype Heap = Heap(base: nat, hdr: map<nat, Header>, nodes: seq<nat>, blk: map<nat, nat>, arenas: seq<Arena>,
                       brk: nat)

  ghost predicate BlockOk(h: Heap, a: nat)
    requires a in h.blk
  { a in h.hdr && h.hdr[a].size == h.blk[a] && h.base < a && a + h.blk[a] <= h.brk }

  /** Everything but the merging of neighbours: the list is the free blocks in order, headers carry
      the sizes, and all blocks lie above the base and below the break. */
  ghost predicate Core(h: Heap) {
    && Linked(h.hdr, h.nodes) && h.nodes[0] == h.base && h.base in h.hdr && h.hdr[h.base].size == 0
    && Partition(h.blk, h.arenas)
    && (forall a :: a in h.blk ==> BlockOk(h, a))
    && (forall k :: 0 < k < |h.nodes| ==> h.nodes[k] in h.blk)
  }

  /** No two free blocks touch. */
  ghost predicate NoTouch(h: Heap) {
    forall j, k :: 0 < j < k < |h.nodes| && h.nodes[j] in h.blk ==> h.nodes[j] + h.blk[h.nodes[j]] < h.nodes[k]
  }

  ghost predicate HeapInv(h: Heap) { Core(h) && NoTouch(h) }

  lemma CoreNode(h: Heap, k: nat)
    requires Core(h) && k < |h.nodes|
    ensures h.nodes[k] in h.hdr && h.hdr[h.nodes[k]].ptr == h.nodes[Succ(|h.nodes|, k)] && h.base <= h.nodes[k]
    ensures k > 0 ==> h.nodes[k] in h.blk && h.nodes[k] > h.base && h.hdr[h.nodes[k]].size == h.blk[h.nodes[k]] > 0
    ensures k == 0 ==> h.nodes[k] == h.base && h.hdr[h.nodes[k]].size == 0
  {
    assert LinkAt(h.hdr, h.nodes, k);
    if k > 0 { assert BlockOk(h, h.nodes[k]); }
  }

  lemma CoreParts(h: Heap)
    requires Core(h)
    ensures Ascending(h.nodes) && |h.nodes| > 0 && h.nodes[0] == h.base && h.base !in h.blk && Apart(h.blk)
    ensures forall a :: a in h.blk ==> a in h.hdr && h.hdr[a].size == h.blk[a] && h.base < a && a + h.blk[a] <= h.brk
  {
    forall a | a in h.blk
      ensures a in h.hdr && h.hdr[a].size == h.blk[a] && h.base < a && a + h.blk[a] <= h.brk { assert BlockOk(h, a); }
  }

  /** The place of an address above the base that is not on the list. */
  lemma {:induction false} FindPlace(nodes: seq<nat>, b: nat, n: nat) returns (l: nat)
    requires Ascending(nodes) && 0 < n <= |nodes| && nodes[0] < b && b !in nodes && (n < |nodes| ==> b < nodes[n])
    ensures Place(nodes, l, b)
  {
    if nodes[n - 1] < b { l := n - 1; } else { l := FindPlace(nodes, b, n - 1); }
  }

  /** A live block put on the list after node l. */
  function PutIn(h: Heap, l: nat, b: nat): Heap
    requires l < |h.nodes| && h.nodes[l] in h.hdr && b in h.blk
  {
    var p := h.nodes[l];
    h.(hdr := h.hdr[b := Header(h.hdr[p].ptr, h.blk[b])][p := Header(b, h.hdr[p].size)],
       nodes := Inserted(h.nodes, l, b))
  }

  lemma PutInCore(h: Heap, l: nat, b: nat)
    requires Core(h) && Place(h.nodes, l, b) && b in h.blk && h.nodes[l] in h.hdr
    ensures Core(PutIn(h, l, b))
  {
    var h' := PutIn(h, l, b);
    CoreParts(h);
    CoreNode(h, l);
    InsertLinked(h.hdr, h.nodes, l, b, h'.hdr);
    hide Partition, Linked, Inserted;
    InsertedAt(h.nodes, l, b, 0);
    forall a | a in h'.blk ensures BlockOk(h', a) { assert BlockOk(h, a); }
    forall k | 0 < k < |h'.nodes| ensures h'.nodes[k] in h'.blk { InsertedAt(h.nodes, l, b, k); }
  }

  /** Node r joined to the node before it. */
  function Merged(h: Heap, r: nat): Heap
    requires 1 < r < |h.nodes| && h.nodes[r - 1] in h.blk && h.nodes[r] in h.blk && h.nodes[r] in h.hdr
    requires h.nodes[r - 1] != h.nodes[r]
  {
    var a, b := h.nodes[r - 1], h.nodes[r];
    h.(hdr := h.hdr[a := Header(h.hdr[b].ptr, h.blk[a] + h.blk[b])], nodes := Removed(h.nodes, r),
       blk := Join(h.blk, a, b))
  }

  lemma MergedCore(h: Heap, r: nat)
    requires Core(h) && 1 < r < |h.nodes| && h.nodes[r - 1] in h.blk && h.nodes[r] in h.blk && h.nodes[r] in h.hdr
    requires h.nodes[r - 1] + h.blk[h.nodes[r - 1]] == h.nodes[r]
    ensures h.nodes[r - 1] != h.nodes[r] && Core(Merged(h, r))
  {
    var a, b := h.nodes[r - 1], h.nodes[r];
    CoreParts(h);
    var h' := Merged(h, r);
    RemoveLinked(h.hdr, h.nodes, r, h'.hdr);
    JoinPartition(h.blk, h.arenas, a, b);
    RemovedAt(h.nodes, r, 0);
    hide Partition, Linked, Removed;
    forall x | x in h'.blk ensures BlockOk(h', x) {}
    forall k | 0 < k < |h'.nodes| ensures h'.nodes[k] in h'.blk {
      RemovedAt(h.nodes, r, k);
      if k >= r { assert h.nodes[r] < h.nodes[k + 1]; } else { assert h.nodes[k] < h.nodes[r]; }
    }
  }

  /** A free block taken off the list whole. */
  function Taken(h: Heap, r: nat): Heap
    requires 0 < r < |h.nodes| && h.nodes[r - 1] in h.hdr && h.nodes[r] in h.hdr
  {
    var a := h.nodes[r - 1];
    h.(hdr := h.hdr[a := Header(h.hdr[h.nodes[r]].ptr, h.hdr[a].size)], nodes := Removed(h.nodes, r))
  }

  lemma TakenInv(h: Heap, r: nat)
    requires HeapInv(h) && 0 < r < |h.nodes| && h.nodes[r - 1] in h.hdr && h.nodes[r] in h.hdr
    ensures HeapInv(Taken(h, r)) && h.nodes[r] !in Removed(h.nodes, r)
  {
    var h' := Taken(h, r);
    CoreParts(h);
    RemoveLinked(h.hdr, h.nodes, r, h'.hdr);
    RemovedAt(h.nodes, r, 0);
    forall k | 0 <= k < |h'.nodes|
      ensures h'.nodes[k] == h.nodes[if k < r then k else k + 1] { RemovedAt(h.nodes, r, k); }
    hide Partition, Linked, Removed;
    forall a | a in h'.blk ensures BlockOk(h', a) {}
  }

  /** A block of n units cut off the end of a free block. */
  function Cut(h: Heap, r: nat, n: nat): Heap
    requires r < |h.nodes| && h.nodes[r] in h.hdr && h.nodes[r] in h.blk && 0 < n < h.blk[h.nodes[r]]
  {
    var a := h.nodes[r];
    var cut := a + h.blk[a] - n;
    h.(hdr := h.hdr[a := Header(h.hdr[a].ptr, h.blk[a] - n)][cut := Header(if cut in h.hdr then h.hdr[cut].ptr else 0,
        n)], blk := Split(h.blk, a, n))
  }

  lemma CutInv(h: Heap, r: nat, n: nat)
    requires HeapInv(h) && 0 < r < |h.nodes| && h.nodes[r] in h.hdr && h.nodes[r] in h.blk && 0 < n < h.blk[h.nodes[r]]
    ensures var cut := h.nodes[r] + h.blk[h.nodes[r]] - n; HeapInv(Cut(h, r, n)) && cut !in h.blk && cut !in h.nodes
  {
    var a := h.nodes[r];
    CoreParts(h);
    SplitPartition(h.blk, h.arenas, a, n);
    hide Partition, Linked;
    assert a + h.blk[a] - n !in h.nodes;
    CutLinked(h, r, n);
    var h' := Cut(h, r, n);
    CutNoTouch(h, r, n);
    hide Apart, NoTouch;
    forall x | x in h'.blk ensures BlockOk(h', x) {}
  }

  lemma CutNoTouch(h: Heap, r: nat, n: nat)
    requires NoTouch(h) && Ascending(h.nodes) && r < |h.nodes| && h.nodes[r] in h.hdr && h.nodes[r] in h.blk
    requires 0 < n < h.blk[h.nodes[r]]
    requires h.nodes[r] + h.blk[h.nodes[r]] - n !in h.nodes
    ensures NoTouch(Cut(h, r, n))
  {}

  lemma CutLinked(h: Heap, r: nat, n: nat)
    requires Linked(h.hdr, h.nodes) && r < |h.nodes| && h.nodes[r] in h.hdr && h.nodes[r] in h.blk
    requires 0 < n < h.blk[h.nodes[r]]
    requires h.nodes[r] + h.blk[h.nodes[r]] - n !in h.nodes
    ensures Linked(Cut(h, r, n).hdr, h.nodes)
  {
    forall k: nat | k < |h.nodes| ensures LinkAt(Cut(h, r, n).hdr, h.nodes, k) { assert LinkAt(h.hdr, h.nodes, k); }
  }

  /** Only neighbours on the list could touch. */
  lemma NoTouchNeighbours(h: Heap)
    requires Core(h)
    requires forall k :: 0 < k < |h.nodes| - 1 ==> h.nodes[k] + h.blk[h.nodes[k]] != h.nodes[k + 1]
    ensures NoTouch(h)
  {
    CoreParts(h);
    forall j, k | 0 < j < k < |h.nodes| && h.nodes[j] in h.blk ensures h.nodes[j] + h.blk[h.nodes[j]] < h.nodes[k] {
      assert h.nodes[j + 1] in h.blk && h.nodes[j] < h.nodes[j + 1] <= h.nodes[k];
    }
  }

  /** The block after node r - 1 does not touch the one before it. */
  ghost predicate Clear(h: Heap, k: nat)
    requires k + 1 < |h.nodes|
  { h.nodes[k] in h.blk && h.nodes[k] + h.blk[h.nodes[k]] != h.nodes[k + 1] }

  /** Neighbours are apart, except perhaps those at the given places. */
  ghost predicate ClearBut(h: Heap, x: nat, y: nat) {
    forall k: nat :: 0 < k < |h.nodes| - 1 && k != x && k != y ==> Clear(h, k)
  }

  lemma PutInClear(h: Heap, l: nat, b: nat)
    requires HeapInv(h) && Place(h.nodes, l, b) && b in h.blk && h.nodes[l] in h.hdr
    ensures ClearBut(PutIn(h, l, b), l, l + 1)
  {
    var h' := PutIn(h, l, b);
    InsertedAt(h.nodes, l, b, 0);
    forall k: nat | 0 < k < |h'.nodes| - 1 && k != l && k != l + 1 ensures Clear(h', k) {
      InsertedAt(h.nodes, l, b, k);
      InsertedAt(h.nodes, l, b, k + 1);
      CoreNode(h, if k < l then k else k - 1);
      hide Inserted, Core;
    }
  }

  /** Merging node r into node r - 1 mends the pair and keeps the others. */
  lemma MergedClear(h: Heap, r: nat, x: nat)
    requires Core(h) && 1 < r < |h.nodes| && h.nodes[r - 1] in h.blk && h.nodes[r] in h.blk && h.nodes[r] in h.hdr
    requires h.nodes[r - 1] + h.blk[h.nodes[r - 1]] == h.nodes[r] && ClearBut(h, r - 1, x)
    requires x < r && (r + 1 < |h.nodes| ==> Clear(h, r))
    ensures h.nodes[r - 1] != h.nodes[r] && ClearBut(Merged(h, r), x, x)
  {
    CoreParts(h);
    var h' := Merged(h, r);
    RemovedAt(h.nodes, r, 0);
    hide Core;
    forall k: nat | 0 < k < |h'.nodes| - 1 && k != x ensures Clear(h', k) {
      RemovedAt(h.nodes, r, k);
      RemovedAt(h.nodes, r, k + 1);
      hide Removed;
      var j := if k < r then k else k + 1;
      assert j != r - 1 ==> Clear(h, j);
      if j > r { assert h.nodes[r] < h.nodes[j]; } else if j < r - 1 {
        assert h.nodes[j] < h.nodes[r - 1] < h.nodes[r];
      }
    }
  }

  // ---------- free ----------

  /** The block touches the free block after it, and the one before it. */
  predicate Up(h: Heap, l: nat, b: nat)
    requires b in h.blk
  { l + 1 < |h.nodes| && b + h.blk[b] == h.nodes[l + 1] }

  predicate Down(h: Heap, l: nat, b: nat) {
    0 < l < |h.nodes| && h.nodes[l] in h.blk && h.nodes[l] + h.blk[h.nodes[l]] == b
  }

  ghost predicate Freeable(h: Heap, l: nat, b: nat) {
    && Place(h.nodes, l, b) && b in h.blk && h.nodes[l] in h.hdr && b in h.hdr
    && (Up(h, l, b) ==> h.nodes[l + 1] in h.hdr && h.nodes[l + 1] in h.blk && h.hdr[h.nodes[l]].ptr == h.nodes[l + 1])
  }

  lemma CanFree(h: Heap, l: nat, b: nat)
    requires Core(h) && Place(h.nodes, l, b) && b in h.blk
    ensures Freeable(h, l, b) && h.hdr[b].size == h.blk[b]
  {
    CoreParts(h);
    CoreNode(h, l);
    if l + 1 < |h.nodes| { CoreNode(h, l + 1); }
  }

  /** The heap once b is on the list and merged with what follows it. */
  ghost function JoinedUp(h: Heap, l: nat, b: nat): Heap
    requires Freeable(h, l, b)
  {
    InsertedAt(h.nodes, l, b, l + 1);
    if Up(h, l, b) then InsertedAt(h.nodes, l, b, l + 2); Merged(PutIn(h, l, b), l + 2) else PutIn(h, l, b)
  }

  /** b as it stands on the list before any merging downward. */
  function SelfHeader(h: Heap, l: nat, b: nat): Header
    requires Freeable(h, l, b)
  {
    if Up(h, l, b) then Header(h.hdr[h.nodes[l + 1]].ptr, h.blk[b] + h.blk[h.nodes[l + 1]])
    else Header(h.hdr[h.nodes[l]].ptr, h.blk[b])
  }

  ghost predicate Entered(h: Heap, l: nat, b: nat, h': Heap)
    requires Freeable(h, l, b)
  {
    && Core(h') && ClearBut(h', l, l) && l + 1 < |h'.nodes| && h'.nodes[l] == h.nodes[l] && h'.nodes[l + 1] == b
    && b in h'.blk
    && h'.hdr == h.hdr[b := SelfHeader(h, l, b)][h.nodes[l] := Header(b, h.hdr[h.nodes[l]].size)]
    && h'.blk == (if Up(h, l, b) then Join(h.blk, b, h.nodes[l + 1]) else h.blk)
    && h'.base == h.base && h'.arenas == h.arenas && h'.brk == h.brk
    && forall x :: x in h'.nodes <==> x == b || (x in h.nodes && !(Up(h, l, b) && x == h.nodes[l + 1]))
  }

  lemma InsertedIn(nodes: seq<nat>, l: nat, b: nat)
    requires l < |nodes|
    ensures forall x :: x in Inserted(nodes, l, b) <==> x == b || x in nodes
  {
    assert nodes == nodes[..l + 1] + nodes[l + 1..];
  }

  lemma RemovedIn(nodes: seq<nat>, r: nat)
    requires Ascending(nodes) && r < |nodes|
    ensures forall x :: x in Removed(nodes, r) <==> x in nodes && x != nodes[r]
  {
    assert nodes == nodes[..r] + [nodes[r]] + nodes[r + 1..];
  }

  lemma JoinedUpInv(h: Heap, l: nat, b: nat)
    requires HeapInv(h) && Freeable(h, l, b)
    ensures Entered(h, l, b, JoinedUp(h, l, b))
  {
    hide Core, NoTouch, Inserted, Removed;
    PutInCore(h, l, b);
    PutInClear(h, l, b);
    CoreParts(h);
    InsertedIn(h.nodes, l, b);
    InsertedAt(h.nodes, l, b, l);
    InsertedAt(h.nodes, l, b, l + 1);
    if Up(h, l, b) {
      MergeUp(h, l, b);
    } else {
      var h1 := PutIn(h, l, b);
      assert l + 2 == |h1.nodes| || Clear(h1, l + 1) by { if l + 1 < |h.nodes| { InsertedAt(h.nodes, l, b, l + 2); } }
    }
  }

  lemma MergeUp(h: Heap, l: nat, b: nat)
    requires HeapInv(h) && Freeable(h, l, b) && Up(h, l, b) && Core(PutIn(h, l, b))
    requires ClearBut(PutIn(h, l, b), l, l + 1)
    ensures Entered(h, l, b, JoinedUp(h, l, b))
  {
    hide Core, NoTouch, Inserted, Removed;
    CoreParts(h);
    var h1 := PutIn(h, l, b);
    InsertedAt(h.nodes, l, b, l);
    InsertedAt(h.nodes, l, b, l + 1);
    InsertedAt(h.nodes, l, b, l + 2);
    assert l + 3 < |h1.nodes| ==> Clear(h1, l + 2);
    MergedCore(h1, l + 2);
    MergedClear(h1, l + 2, l);
    RemovedAt(h1.nodes, l + 2, l);
    RemovedAt(h1.nodes, l + 2, l + 1);
    CoreParts(h1);
    InsertedIn(h.nodes, l, b);
    RemovedIn(h1.nodes, l + 2);
    hide ClearBut, Apart, Ascending;
    var nx := h.nodes[l + 1];
    assert h1.hdr[b := Header(h1.hdr[nx].ptr, h.blk[b] + h.blk[nx])] ==
             h.hdr[b := SelfHeader(h, l, b)][h.nodes[l] := Header(b, h.hdr[h.nodes[l]].size)];
  }

  lemma CanMergeDown(h: Heap, l: nat, b: nat, h1: Heap)
    requires Core(h) && Freeable(h, l, b) && Entered(h, l, b, h1) && Down(h, l, b)
    ensures h1.nodes[l] in h1.blk && h1.nodes[l + 1] in h1.blk && h1.nodes[l + 1] in h1.hdr
    ensures h1.nodes[l] != h1.nodes[l + 1]
    ensures h1.blk[h1.nodes[l]] == h.blk[h.nodes[l]]
  {
    hide Core;
    CoreParts(h);
    CoreNode(h1, l + 1);
    CoreNode(h1, l);
  }

  ghost function Freed(h: Heap, l: nat, b: nat): Heap
    requires HeapInv(h) && Freeable(h, l, b)
  {
    JoinedUpInv(h, l, b);
    var h1 := JoinedUp(h, l, b);
    if Down(h, l, b) then CanMergeDown(h, l, b, h1); Merged(h1, l + 1) else h1
  }

  /** free leaves a proper heap: the block is on the list in its place, merged with its neighbours. */
  lemma FreedInv(h: Heap, l: nat, b: nat)
    requires HeapInv(h) && Freeable(h, l, b)
    ensures HeapInv(Freed(h, l, b))
  {
    hide Core, NoTouch, JoinedUp, Inserted, Removed;
    JoinedUpInv(h, l, b);
    var h1 := JoinedUp(h, l, b);
    CoreParts(h);
    if Down(h, l, b) {
      CoreNode(h1, l + 1);
      CoreNode(h1, l);
      assert l + 2 < |h1.nodes| ==> Clear(h1, l + 1);
      MergedCore(h1, l + 1);
      MergedClear(h1, l + 1, 0);
      CleanInv(Merged(h1, l + 1));
    } else {
      if 0 < l { CoreNode(h1, l); CoreNode(h, l); assert Clear(h1, l); }
      assert ClearBut(h1, 0, 0);
      CleanInv(h1);
    }
  }

  lemma CleanInv(h: Heap)
    requires Core(h) && ClearBut(h, 0, 0)
    ensures HeapInv(h)
  {
    forall k: nat | 0 < k < |h.nodes| - 1
      ensures h.nodes[k] + h.blk[h.nodes[k]] != h.nodes[k + 1] { assert Clear(h, k); }
    NoTouchNeighbours(h);
  }

  // ---------- the allocator ----------

  predicate Live(h: Heap, a: nat) { a in h.blk && a !in h.nodes }

  /** Live blocks keep their place and size, except b. */
  ghost predicate SameLive(h: Heap, h': Heap, b: nat) {
    forall a :: a != b && Live(h, a) ==> Live(h', a) && h'.blk[a] == h.blk[a]
  }

  ghost predicate OnlyLive(h: Heap, h': Heap, b: nat) {
    forall a :: a != b && Live(h', a) ==> Live(h, a)
  }

  ghost predicate SameAt(hdr: map<nat, Header>, hdr': map<nat, Header>, u: nat) {
    (u in hdr' <==> u in hdr) && (u in hdr ==> hdr'[u] == hdr[u])
  }

  /** No unit of a live block other than b is written. */
  ghost predicate Untouched(h: Heap, h': Heap, b: nat) {
    forall a, u: nat :: Live(h, a) && a != b && Covers(a, h.blk[a], u) ==> SameAt(h.hdr, h'.hdr, u)
  }

  /** No unit of any live block is written. */
  ghost predicate UntouchedAll(h: Heap, h': Heap) {
    forall a, u: nat :: Live(h, a) && Covers(a, h.blk[a], u) ==> SameAt(h.hdr, h'.hdr, u)
  }

  /** A live block covers no free block's header and no part of another block. */
  lemma Elsewhere(h: Heap, a: nat, w: nat, u: nat)
    requires Core(h) && Live(h, a) && Covers(a, h.blk[a], u) && (w in h.nodes || w in h.blk) && w != a
    ensures u != w && (w in h.blk ==> !Covers(w, h.blk[w], u))
  {
    CoreParts(h);
    if w in h.nodes {
      var k: nat :| k < |h.nodes| && h.nodes[k] == w;
      CoreNode(h, k);
    }
  }

  /** A change of memory strictly inside live blocks, as their owners make. */
  ghost predicate OwnersWrite(h: Heap, hdr': map<nat, Header>) {
    forall u: nat :: !Inside(h, u) ==> SameAt(h.hdr, hdr', u)
  }

  ghost predicate Inside(h: Heap, u: nat) { exists a :: Live(h, a) && a != u && Covers(a, h.blk[a], u) }

  /** What programs write in the blocks they were given cannot hurt the allocator. */
  lemma OwnersWriteInv(h: Heap, hdr': map<nat, Header>)
    requires HeapInv(h) && OwnersWrite(h, hdr')
    ensures HeapInv(h.(hdr := hdr'))
  {
    var h' := h.(hdr := hdr');
    CoreParts(h);
    forall w | w in h.nodes || w in h.blk ensures SameAt(h.hdr, hdr', w) {
      forall a | Live(h, a) && a != w ensures !Covers(a, h.blk[a], w) {
        if Covers(a, h.blk[a], w) { Elsewhere(h, a, w, w); }
      }
      assert !Inside(h, w);
    }
    forall k: nat | k < |h.nodes| ensures LinkAt(hdr', h.nodes, k) {
      assert LinkAt(h.hdr, h.nodes, k);
      assert SameAt(h.hdr, hdr', h.nodes[k]);
    }
    assert SameAt(h.hdr, hdr', h.base) by { assert h.nodes[0] == h.base; }
    hide Partition, Apart, LinkAt, Ascending, OwnersWrite;
    forall a | a in h'.blk ensures BlockOk(h', a) {
      assert BlockOk(h, a);
      assert SameAt(h.hdr, hdr', a);
    }
  }

  lemma FreedUntouched(h: Heap, l: nat, b: nat)
    requires HeapInv(h) && Freeable(h, l, b)
    ensures Untouched(h, Freed(h, l, b), b)
  {
    hide Core, NoTouch, Freed;
    FreedHeaders(h, l, b);
    forall a, u: nat | Live(h, a) && a != b && Covers(a, h.blk[a], u) ensures SameAt(h.hdr, Freed(h, l, b).hdr, u) {
      Elsewhere(h, a, b, u);
      Elsewhere(h, a, h.nodes[l], u);
    }
  }

  lemma AllottedUntouched(h: Heap, r: nat, n: nat)
    requires Core(h) && 0 < r < |h.nodes| && h.nodes[r] in h.hdr && h.hdr[h.nodes[r]].size >= n > 0
    ensures UntouchedAll(h, Allotted(h, r, n).0)
  {
    CoreNode(h, r);
    hide Core;
    CoreNode(h, r - 1);
    forall a, u: nat | Live(h, a) && Covers(a, h.blk[a], u) ensures SameAt(h.hdr, Allotted(h, r, n).0.hdr, u) {
      Elsewhere(h, a, h.nodes[r - 1], u);
      Elsewhere(h, a, h.nodes[r], u);
    }
  }

  lemma GrownUntouched(h: Heap, nu: nat, h2: Heap)
    requires HeapInv(h) && h.brk !in h.blk && Untouched(Grown(h, nu), h2, h.brk)
    ensures UntouchedAll(h, h2)
  {
    CoreParts(h);
    hide Core, NoTouch;
    var h1 := Grown(h, nu);
    forall a, u: nat | Live(h, a) && Covers(a, h.blk[a], u) ensures SameAt(h.hdr, h2.hdr, u) {
      assert Live(h1, a) && Covers(a, h1.blk[a], u);
      assert SameAt(h1.hdr, h2.hdr, u);
    }
  }

  lemma UntouchedTrans(h0: Heap, h1: Heap, h2: Heap)
    requires SameAll(h0, h1) && UntouchedAll(h0, h1) && UntouchedAll(h1, h2)
    ensures UntouchedAll(h0, h2)
  {
    forall a, u: nat | Live(h0, a) && Covers(a, h0.blk[a], u) ensures SameAt(h0.hdr, h2.hdr, u) {
      assert SameAt(h0.hdr, h1.hdr, u);
      assert SameAt(h1.hdr, h2.hdr, u);
    }
  }

  /** sbrk takes an int: what it is given for nu units. */
  function SbrkArg(nu: nat): int {
    var x := nu * UNIT % UINT_LIMIT;
    if x < INT_LIMIT then x else x - UINT_LIMIT
  }

  /** Exactly the requests below 2^27 units ask sbrk for what they need. */
  lemma SbrkExact(nu: nat)
    requires 0 < nu < 0x2000_0000
    ensures SbrkArg(nu) == nu * UNIT <==> nu < 0x800_0000
  {}

  /** A request for two gigabytes asks for a negative amount. */
  lemma SbrkOverrun()
    ensures SbrkArg(0x800_0000) < 0
  {}

  datatype Result = Block(a: nat) | NoMemory | Overrun

  /** free's loop ends at node p with successor q: between the two, or past the last. */
  predicate Stops(p: nat, q: nat, bp: nat) { (bp > p && bp < q) || (p >= q && (bp > p || bp < q)) }

  lemma StopsAt(nodes: seq<nat>, l: nat, bp: nat, k: nat)
    requires Ascending(nodes) && Place(nodes, l, bp) && nodes[0] < bp && k < |nodes| && bp !in nodes
    ensures l < |nodes| && (Stops(nodes[k], nodes[Succ(|nodes|, k)], bp) <==> k == l)
  {
    if k < l { assert nodes[k + 1] <= nodes[l]; }
    if l < k { assert nodes[l + 1] <= nodes[k]; }
  }

  class Allocator {
    const base: nat
    var hdr: map<nat, Header>
    var freep: nat
    var brk: nat
    ghost var nodes: seq<nat>
    ghost var blk: map<nat, nat>
    ghost var arenas: seq<Arena>

    ghost function H(): Heap
      reads this
    { Heap(base, hdr, nodes, blk, arenas, brk) }

    /** Before the first call freep is null and there is no list. */
    ghost predicate Valid()
      reads this
    {
      if freep == 0 then blk == map[] && arenas == [] && 0 < base < brk
      else base > 0 && base < brk && HeapInv(H()) && freep in nodes
    }

    constructor (baseAt: nat, heapStart: nat)
      requires 0 < baseAt < heapStart
      ensures Valid() && freep == 0 && base == baseAt && brk == heapStart && blk == map[] && arenas == []
    {
      base, brk, freep, hdr := baseAt, heapStart, 0, map[];
      nodes, blk, arenas := [], map[], [];
    }

    /** The walk of free: the list node after which the block belongs. */
    method Walk(bp: nat) returns (p: nat, ghost l: nat)
      requires Valid() && freep != 0 && Live(H(), bp)
      ensures Place(nodes, l, bp) && p == nodes[l]
      ensures p in nodes && p < bp && forall x :: x in nodes ==> x <= p || x > bp
    {
      hide Core, NoTouch, Ascending, Place, Stops;
      ghost var h := H();
      CoreParts(h);
      ghost var n := |nodes|;
      l := FindPlace(nodes, bp, n);
      p := freep;
      ghost var k: nat :| k < n && nodes[k] == freep;
      CoreNode(h, k);
      StopsAt(nodes, l, bp, k);
      while !(bp > p && bp < hdr[p].ptr)
        invariant k < n == |nodes| && l < n && p == nodes[k] && p in hdr && hdr[p].ptr == nodes[Succ(n, k)]
        invariant Stops(p, hdr[p].ptr, bp) <==> k == l
        decreases if k <= l then l - k else l + n - k
      {
        if p >= hdr[p].ptr && (bp > p || bp < hdr[p].ptr) {
          break;
        }
        p := hdr[p].ptr;
        k := Succ(n, k);
        CoreNode(h, k);
        StopsAt(nodes, l, bp, k);
      }
      PlaceBetween(nodes, l, bp);
    }

    /** free. */
    method Free(bp: nat)
      requires Valid() && freep != 0 && Live(H(), bp)
      modifies this
      ensures Valid() && freep != 0 && brk == old(brk) && arenas == old(arenas)
      ensures !Live(H(), bp) && SameLive(old(H()), H(), bp) && OnlyLive(old(H()), H(), bp)
      ensures Untouched(old(H()), H(), bp)
      ensures exists a :: a in nodes && a in blk && blk[a] >= old(blk[bp])
      ensures freep < bp && freep in old(nodes) && forall x :: x in old(nodes) ==> x <= freep || x > bp
    {
      hide Core, NoTouch, Freed, Place;
      ghost var h := H();
      ghost var l;
      var p;
      p, l := Walk(bp);
      CanFree(h, l, bp);
      FreedInv(h, l, bp);
      FreedHeaders(h, l, bp);
      FreedLive(h, l, bp);
      FreedUntouched(h, l, bp);
      Touching(h, l, bp);
      if bp + hdr[bp].size == hdr[p].ptr {
        hdr := hdr[bp := Header(hdr[hdr[p].ptr].ptr, hdr[bp].size + hdr[hdr[p].ptr].size)];
      } else {
        hdr := hdr[bp := Header(hdr[p].ptr, hdr[bp].size)];
      }
      if p + hdr[p].size == bp {
        hdr := hdr[p := Header(hdr[bp].ptr, hdr[p].size + hdr[bp].size)];
      } else {
        hdr := hdr[p := Header(bp, hdr[p].size)];
      }
      freep := p;
      ghost var h' := Freed(h, l, bp);
      nodes, blk := h'.nodes, h'.blk;
      assert H() == h';
    }

    /** A program writes in a block it was given. */
    method OwnerStore(bp: nat, u: nat, x: Header)
      requires Valid() && freep != 0 && Live(H(), bp) && bp < u < bp + blk[bp]
      modifies `hdr
      ensures Valid() && hdr == old(hdr)[u := x]
    {
      hide HeapInv;
      assert Inside(H(), u);
      OwnersWriteInv(H(), hdr[u := x]);
      hdr := hdr[u := x];
    }

    /** morecore. */
    method Morecore(nu0: nat, sbrkOk: bool) returns (r: Result)
      requires Valid() && freep != 0 && 0 < nu0 < 0x2000_0000
      modifies this
      ensures r.Overrun? <==> sbrkOk && nu0 >= 0x800_0000
      ensures r.NoMemory? <==> !sbrkOk
      ensures !r.Block? ==> H() == old(H()) && freep == old(freep)
      ensures r.Block? ==>
        && Valid() && freep == r.a != 0 && Fits(H(), nu0)
        && SameAll(old(H()), H()) && UntouchedAll(old(H()), H())
        && arenas == old(arenas) + [Arena(old(brk), if nu0 < 4096 then 4096 else nu0)]
    {
      hide HeapInv, SameLive, OnlyLive, SameAll, Fits, Live, Untouched, UntouchedAll;
      var nu := nu0;
      if nu < MORECORE { nu := MORECORE; }
      SbrkExact(nu);
      if !sbrkOk { return NoMemory; }
      if SbrkArg(nu) != nu * UNIT { return Overrun; }
      GrownInv(H(), nu);
      var hp := brk;
      ghost var h := H();
      brk := brk + nu;
      hdr := hdr[hp := Header(if hp in hdr then hdr[hp].ptr else 0, nu)];
      blk, arenas := blk[hp := nu], arenas + [Arena(hp, nu)];
      assert H() == Grown(h, nu);
      GrownLive(h, nu);
      Free(hp);
      GrownFreed(h, nu, H());
      GrownUntouched(h, nu, H());
      BigEnough(H(), nu0);
      return Block(freep);
    }

    /** malloc: the address of the block's header. Overrun: sbrk was asked for less than needed, and
        the block does not fit in the memory there is. */
    method Malloc(nbytes: nat, sbrkOk: bool) returns (r: Result)
      requires Valid() && nbytes < UINT_LIMIT
      modifies this
      ensures r.Block? ==>
        && Valid() && freep != 0 && Live(H(), r.a) && !old(Live(H(), r.a))
        && nbytes <= (blk[r.a] - 1) * 16 < nbytes + 16
        && SameLive(old(H()), H(), r.a) && OnlyLive(old(H()), H(), r.a)
      ensures r.NoMemory? ==> Valid() && !sbrkOk && SameAll(old(H()), H())
      ensures UntouchedAll(old(H()), H())
      ensures !r.Block? ==> !old(freep != 0 && Fits(H(), Units(nbytes)))
      ensures r.Overrun? <==> sbrkOk && Units(nbytes) >= 0x800_0000 && !old(freep != 0 && Fits(H(), Units(nbytes)))
      ensures arenas == old(arenas) || MoreArenas(old(H()), H())
    {
      hide HeapInv;
      ghost var h := H();
      if freep == 0 {
        Init();
        assert !Fits(H(), Units(nbytes));
      }
      assert SameAll(h, H()) && UntouchedAll(h, H());
      hide Fits, SameAll, UntouchedAll;
      ghost var h1 := H();
      r := Search(Units(nbytes), sbrkOk);
      UntouchedTrans(h, h1, H());
    }

    /** malloc's search, round the list and, once it has been round, with more memory. */
    method Search(nunits: nat, sbrkOk: bool) returns (r: Result)
      requires Valid() && freep != 0 && 0 < nunits < 0x2000_0000
      modifies this
      ensures r.Block? ==>
        && Valid() && freep != 0 && Live(H(), r.a) && !old(Live(H(), r.a)) && blk[r.a] == nunits
        && SameLive(old(H()), H(), r.a) && OnlyLive(old(H()), H(), r.a)
      ensures r.NoMemory? ==> Valid() && !sbrkOk && SameAll(old(H()), H())
      ensures UntouchedAll(old(H()), H())
      ensures !r.Block? ==> !old(Fits(H(), nunits))
      ensures r.Overrun? <==> sbrkOk && nunits >= 0x800_0000 && !old(Fits(H(), nunits))
      ensures arenas == old(arenas) || MoreArenas(old(H()), H())
    {
      hide HeapInv, Core, Passed, SameLive, OnlyLive, SameAll, Fits, Live, UntouchedAll;
      ghost var h0 := H();
      SameAllSelf(h0);
      ghost var f: nat :| f < |nodes| && nodes[f] == freep;
      ghost var q: nat := Succ(|nodes|, f);
      var prevp := freep;
      NodeFacts(f);
      var p := hdr[prevp].ptr;
      ghost var grown := false;
      PassedStart(h0, f, nunits);
      while true
        invariant Searching(f, q, prevp, p, nunits) && SameAll(h0, H()) && UntouchedAll(h0, H())
        invariant !grown ==> H() == h0
        invariant grown ==> sbrkOk && nunits < 0x800_0000 && Fits(H(), nunits) && !Fits(h0, nunits)
        invariant grown ==> MoreArenas(h0, H())
        decreases if grown then 0 else 1, Left(|nodes|, q, f)
      {
        NodeFacts(q);
        if hdr[p].size >= nunits {
          HasFit(H(), q, nunits);
          ghost var h1 := H();
          r := Allot(p, prevp, q, nunits);
          AllAndOne(h0, h1, H(), r.a);
          UntouchedTrans(h0, h1, H());
          return;
        }
        if p == freep {
          SameIndex(q, f);
          PassedAll(H(), f, nunits);
          r := Morecore(nunits, sbrkOk);
          if !r.Block? { return; }
          p := r.a;
          f :| f < |nodes| && nodes[f] == freep;
          q := f;
          grown := true;
          NodeFacts(q);
          PassedStart(H(), f, nunits);
        } else {
          PassedNext(H(), f, q, nunits);
        }
        prevp := p;
        p := hdr[p].ptr;
        q := Succ(|nodes|, q);
      }
    }

    ghost predicate Searching(f: nat, q: nat, prevp: nat, p: nat, nunits: nat)
      reads this
    {
      && Valid() && freep != 0 && f < |nodes| && q < |nodes| && nodes[f] == freep && p == nodes[q]
      && prevp == nodes[if q == 0 then |nodes| - 1 else q - 1]
      && Passed(H(), f, q, nunits) && 0 <= Left(|nodes|, q, f)
    }

    /** The empty list, made by the first malloc. */
    method Init()
      requires Valid() && freep == 0
      modifies this
      ensures Valid() && freep != 0 && nodes == [base] && blk == old(blk) && arenas == old(arenas) && brk == old(brk)
      ensures blk == map[]
      ensures hdr == old(hdr)[base := Header(base, 0)]
    {
      hdr := hdr[base := Header(base, 0)];
      freep := base;
      nodes := [base];
      assert LinkAt(hdr, nodes, 0);
      forall u: nat ensures InBlock(blk, u) <==> Obtained(arenas, u) {}
    }

    lemma NodeFacts(k: nat)
      requires Valid() && freep != 0 && k < |nodes|
      ensures nodes[k] in hdr && hdr[nodes[k]].ptr == nodes[Succ(|nodes|, k)] && (hdr[nodes[k]].size > 0 ==> k > 0)
    {
      CoreNode(H(), k);
    }

    lemma SameIndex(j: nat, k: nat)
      requires Valid() && freep != 0 && j < |nodes| && k < |nodes| && nodes[j] == nodes[k]
      ensures j == k
    {
      CoreParts(H());
    }

    /** malloc once it has found a block: all of it, or its end. */
    method Allot(p0: nat, prevp: nat, ghost q: nat, nunits: nat) returns (r: Result)
      requires Valid() && freep != 0 && 0 < q < |nodes| && p0 == nodes[q] && prevp == nodes[q - 1] && p0 in hdr
      requires hdr[p0].size >= nunits > 0
      modifies this
      ensures Valid() && freep != 0 && r.Block? && Live(H(), r.a) && !old(Live(H(), r.a)) && blk[r.a] == nunits
      ensures SameLive(old(H()), H(), r.a) && OnlyLive(old(H()), H(), r.a) && arenas == old(arenas) && brk == old(brk)
      ensures UntouchedAll(old(H()), H()) && freep == prevp
    {
      hide Core, NoTouch, Allotted, UntouchedAll;
      ghost var h := H();
      var p := p0;
      CoreNode(h, q);
      CoreNode(h, q - 1);
      AllottedInv(h, q, nunits);
      AllottedIs(h, q, nunits);
      AllottedUntouched(h, q, nunits);
      if hdr[p].size == nunits {
        hdr := hdr[prevp := Header(hdr[p].ptr, hdr[prevp].size)];
      } else {
        hdr := hdr[p := Header(hdr[p].ptr, hdr[p].size - nunits)];
        p := p + hdr[p].size;
        hdr := hdr[p := Header(if p in hdr then hdr[p].ptr else 0, nunits)];
      }
      freep := prevp;
      ghost var h' := Allotted(h, q, nunits).0;
      nodes, blk := h'.nodes, h'.blk;
      assert H() == h';
      return Block(p);
    }
  }

  /** A new arena at the break, as one live block. */
  function Grown(h: Heap, nu: nat): Heap {
    var ptr := if h.brk in h.hdr then h.hdr[h.brk].ptr else 0;
    h.(hdr := h.hdr[h.brk := Header(ptr, nu)], blk := h.blk[h.brk := nu], arenas := h.arenas + [Arena(h.brk, nu)],
       brk := h.brk + nu)
  }

  lemma GrownInv(h: Heap, nu: nat)
    requires HeapInv(h) && nu > 0 && h.base < h.brk
    ensures HeapInv(Grown(h, nu)) && h.brk !in h.blk && h.brk !in h.nodes
  {
    var h' := Grown(h, nu);
    CoreParts(h);
    assert h.brk !in h.nodes by {
      forall k: nat | k < |h.nodes| ensures h.nodes[k] != h.brk { CoreNode(h, k); }
    }
    GrowPartition(h.blk, h.arenas, h.brk, nu);
    forall k: nat | k < |h.nodes| ensures LinkAt(h'.hdr, h.nodes, k) { assert LinkAt(h.hdr, h.nodes, k); }
    hide Partition, LinkAt, Apart, Ascending;
    forall x | x in h'.blk ensures BlockOk(h', x) {}
  }

  /** The same blocks are live, with the same sizes. */
  ghost predicate SameAll(h: Heap, h': Heap) {
    (forall a :: Live(h, a) <==> Live(h', a)) && forall a :: Live(h', a) ==> h'.blk[a] == h.blk[a]
  }

  /** Obtaining an arena and freeing it leaves the live blocks alone. */
  lemma GrownFreed(h: Heap, nu: nat, h2: Heap)
    requires h.brk !in h.blk && h.brk !in h.nodes
    requires !Live(h2, h.brk) && SameLive(Grown(h, nu), h2, h.brk) && OnlyLive(Grown(h, nu), h2, h.brk)
    ensures Live(Grown(h, nu), h.brk) && SameAll(h, h2)
  {
    var h1 := Grown(h, nu);
    forall a | a != h.brk ensures Live(h1, a) <==> Live(h, a) {}
  }

  lemma GrownLive(h: Heap, nu: nat)
    requires h.brk !in h.nodes
    ensures Live(Grown(h, nu), h.brk)
  {}

  lemma AllAndOne(h0: Heap, h: Heap, h': Heap, b: nat)
    requires SameAll(h0, h) && SameLive(h, h', b) && OnlyLive(h, h', b)
    ensures SameLive(h0, h', b) && OnlyLive(h0, h', b) && (Live(h0, b) <==> Live(h, b))
  {
    hide Live;
  }

  lemma SameAllSelf(h: Heap)
    ensures SameAll(h, h) && UntouchedAll(h, h)
  {}

  lemma HasFit(h: Heap, q: nat, nunits: nat)
    requires q < |h.nodes| && h.nodes[q] in h.hdr && h.hdr[h.nodes[q]].size >= nunits
    ensures Fits(h, nunits)
  {}

  /** One more arena, at the old break. */
  ghost predicate MoreArenas(h: Heap, h': Heap) {
    |h'.arenas| == |h.arenas| + 1 && h'.arenas[..|h.arenas|] == h.arenas && h'.arenas[|h.arenas|].start == h.brk
  }

  /** How far the search has to go from node q to reach node f, the last it looks at. */
  function Left(n: nat, q: nat, f: nat): int { if q <= f then f - q else f + n - q }

  /** No free block that the search has passed is large enough. */
  ghost predicate Passed(h: Heap, f: nat, q: nat, nunits: nat) {
    forall x: nat ::
      x < |h.nodes| && h.nodes[x] in h.hdr && Left(|h.nodes|, x, f) > Left(|h.nodes|, q, f) ==>
        h.hdr[h.nodes[x]].size < nunits
  }

  ghost predicate Fits(h: Heap, nunits: nat) {
    exists x: nat :: x < |h.nodes| && h.nodes[x] in h.hdr && h.hdr[h.nodes[x]].size >= nunits
  }

  lemma PassedStart(h: Heap, f: nat, nunits: nat)
    requires f < |h.nodes|
    ensures Passed(h, f, Succ(|h.nodes|, f), nunits)
  {}

  lemma PassedNext(h: Heap, f: nat, q: nat, nunits: nat)
    requires f < |h.nodes| && q < |h.nodes| && q != f && Passed(h, f, q, nunits) && h.nodes[q] in h.hdr
    requires h.hdr[h.nodes[q]].size < nunits
    ensures Passed(h, f, Succ(|h.nodes|, q), nunits)
    ensures 0 <= Left(|h.nodes|, Succ(|h.nodes|, q), f) < Left(|h.nodes|, q, f)
  {}

  lemma PassedAll(h: Heap, f: nat, nunits: nat)
    requires f < |h.nodes| && Passed(h, f, f, nunits) && h.nodes[f] in h.hdr && h.hdr[h.nodes[f]].size < nunits
    ensures !Fits(h, nunits)
  {}

  /** Handing out node r, or the end of it. */
  ghost function Allotted(h: Heap, r: nat, n: nat): (Heap, nat)
    requires Core(h) && 0 < r < |h.nodes| && h.nodes[r] in h.hdr && h.hdr[h.nodes[r]].size >= n > 0
  {
    CoreNode(h, r);
    CoreNode(h, r - 1);
    if h.hdr[h.nodes[r]].size == n then (Taken(h, r), h.nodes[r])
    else (Cut(h, r, n), h.nodes[r] + h.blk[h.nodes[r]] - n)
  }

  /** The block handed out was not live, is now, has the size asked for, and nothing else changed hands. */
  lemma AllottedInv(h: Heap, r: nat, n: nat)
    requires HeapInv(h) && 0 < r < |h.nodes| && h.nodes[r] in h.hdr && h.hdr[h.nodes[r]].size >= n > 0
    ensures var (h', a) := Allotted(h, r, n);
            HeapInv(h') && !Live(h, a) && Live(h', a) && h'.blk[a] == n && SameLive(h, h', a) && OnlyLive(h, h', a)
            && h'.base == h.base && h'.arenas == h.arenas && h'.brk == h.brk && h.nodes[r - 1] in h'.nodes
  {
    hide Core, NoTouch, Live, Taken, Cut;
    CoreNode(h, r);
    CoreNode(h, r - 1);
    if h.hdr[h.nodes[r]].size == n {
      TakenInv(h, r);
      TakenLive(h, r);
    } else {
      CutInv(h, r, n);
      CutLive(h, r, n);
    }
  }

  lemma TakenLive(h: Heap, r: nat)
    requires Core(h) && 0 < r < |h.nodes| && h.nodes[r - 1] in h.hdr && h.nodes[r] in h.hdr
    ensures var h' := Taken(h, r); var a := h.nodes[r];
            && !Live(h, a) && Live(h', a) && h'.blk == h.blk && SameLive(h, h', a) && OnlyLive(h, h', a)
            && h'.base == h.base && h'.arenas == h.arenas && h'.brk == h.brk && h.nodes[r - 1] in h'.nodes
  {
    CoreParts(h);
    CoreNode(h, r);
    RemovedIn(h.nodes, r);
    hide Core, Removed, Apart;
  }

  lemma CutLive(h: Heap, r: nat, n: nat)
    requires Core(h) && 0 < r < |h.nodes| && h.nodes[r] in h.hdr && h.nodes[r] in h.blk && 0 < n < h.blk[h.nodes[r]]
    requires h.nodes[r] + h.blk[h.nodes[r]] - n !in h.blk && h.nodes[r] + h.blk[h.nodes[r]] - n !in h.nodes
    ensures var h' := Cut(h, r, n); var a := h.nodes[r] + h.blk[h.nodes[r]] - n;
            && !Live(h, a) && Live(h', a) && h'.blk[a] == n && SameLive(h, h', a) && OnlyLive(h, h', a)
            && h'.base == h.base && h'.arenas == h.arenas && h'.brk == h.brk && h.nodes[r - 1] in h'.nodes
  {
    hide Core;
  }

  /** The tests free makes on headers are those on blocks. */
  lemma Touching(h: Heap, l: nat, b: nat)
    requires Core(h) && Freeable(h, l, b)
    ensures b + h.hdr[b].size == h.hdr[h.nodes[l]].ptr <==> Up(h, l, b)
    ensures h.nodes[l] + h.hdr[h.nodes[l]].size == b <==> Down(h, l, b)
    ensures h.base <= h.nodes[l] != b && h.hdr[b].size == h.blk[b]
    ensures (Up(h, l, b) ==> h.hdr[h.nodes[l + 1]].size == h.blk[h.nodes[l + 1]] && h.nodes[l + 1] != b)
  {
    CoreNode(h, l);
    CoreParts(h);
  }

  function Units(nbytes: nat): nat { (nbytes + UNIT - 1) / UNIT + 1 }

  lemma BigEnough(h: Heap, n: nat)
    requires HeapInv(h) && exists a :: a in h.nodes && a in h.blk && h.blk[a] >= n
    ensures Fits(h, n)
  {
    var a :| a in h.nodes && a in h.blk && h.blk[a] >= n;
    var k: nat :| k < |h.nodes| && h.nodes[k] == a;
    CoreParts(h);
    CoreNode(h, k);
  }

  lemma AllottedIs(h: Heap, r: nat, n: nat)
    requires Core(h) && 0 < r < |h.nodes| && h.nodes[r] in h.hdr && h.nodes[r - 1] in h.hdr && h.nodes[r] in h.blk
    requires h.hdr[h.nodes[r]].size == h.blk[h.nodes[r]] >= n > 0
    ensures Allotted(h, r, n) ==
              if h.blk[h.nodes[r]] == n then (Taken(h, r), h.nodes[r])
              else (Cut(h, r, n), h.nodes[r] + h.blk[h.nodes[r]] - n)
  {}

  lemma FreedHeaders(h: Heap, l: nat, b: nat)
    requires HeapInv(h) && Freeable(h, l, b)
    ensures var p := h.nodes[l]; var s := SelfHeader(h, l, b);
            Freed(h, l, b).hdr ==
              h.hdr[b := s][p := if Down(h, l, b) then Header(s.ptr, h.hdr[p].size + s.size) else Header(b,
                  h.hdr[p].size)]
    ensures Freed(h, l, b).base == h.base && Freed(h, l, b).arenas == h.arenas && Freed(h, l, b).brk == h.brk
    ensures h.nodes[l] in Freed(h, l, b).nodes
  {
    hide Core, NoTouch, JoinedUp, Inserted, Removed;
    JoinedUpInv(h, l, b);
    var h1 := JoinedUp(h, l, b);
    CoreParts(h);
    CoreNode(h, l);
    if Down(h, l, b) {
      CanMergeDown(h, l, b, h1);
      CoreNode(h1, l + 1);
      RemovedAt(h1.nodes, l + 1, l);
      var p := h.nodes[l];
      assert h1.hdr[p := Header(h1.hdr[b].ptr, h1.blk[p] + h1.blk[b])] ==
             h.hdr[b := SelfHeader(h, l, b)][p := Header(SelfHeader(h, l, b).ptr,
                                                         h.hdr[p].size + SelfHeader(h, l, b).size)];
    }
  }

  lemma FreedLive(h: Heap, l: nat, b: nat)
    requires HeapInv(h) && Freeable(h, l, b) && Live(h, b)
    ensures var h' := Freed(h, l, b);
            && !Live(h', b) && SameLive(h, h', b) && OnlyLive(h, h', b)
            && exists a :: a in h'.nodes && a in h'.blk && h'.blk[a] >= h.blk[b]
  {
    hide Core, NoTouch, JoinedUp, Removed, Entered, Down;
    JoinedUpInv(h, l, b);
    var h1 := JoinedUp(h, l, b);
    EnteredLive(h, l, b, h1);
    if Down(h, l, b) { MergedLive(h, l, b, h1); }
  }

  lemma EnteredLive(h: Heap, l: nat, b: nat, h1: Heap)
    requires Core(h) && Freeable(h, l, b) && Live(h, b) && Entered(h, l, b, h1)
    ensures SameLive(h, h1, b) && OnlyLive(h, h1, b) && b in h1.nodes && b in h1.blk && h1.blk[b] >= h.blk[b]
  {
    hide Core, ClearBut;
  }

  lemma MergedLive(h: Heap, l: nat, b: nat, h1: Heap)
    requires Core(h) && Freeable(h, l, b) && Entered(h, l, b, h1) && Down(h, l, b)
    requires SameLive(h, h1, b) && OnlyLive(h, h1, b) && b in h1.blk && h1.blk[b] >= h.blk[b]
    ensures h1.nodes[l] in h1.blk && h1.nodes[l + 1] in h1.blk && h1.nodes[l + 1] in h1.hdr
    ensures h1.nodes[l] != h1.nodes[l + 1]
    ensures var h' := Merged(h1, l + 1);
            && !Live(h', b) && SameLive(h, h', b) && OnlyLive(h, h', b)
            && exists a :: a in h'.nodes && a in h'.blk && h'.blk[a] >= h.blk[b]
  {
    hide Core, ClearBut, Removed, SelfHeader;
    CanMergeDown(h, l, b, h1);
    CoreParts(h1);
    RemovedIn(h1.nodes, l + 1);
    hide Apart, Ascending;
    assert h1.nodes[l] in h1.nodes;
    assert h.nodes[l] in Merged(h1, l + 1).nodes;
  }

  /** Every unit obtained from sbrk is in exactly one block, live or free, and no other unit is. */
  lemma UnitsAccounted(h: Heap, u: nat)
    requires HeapInv(h)
    ensures Obtained(h.arenas, u) <==> exists a :: a in h.blk && Covers(a, h.blk[a], u)
    ensures forall a, b :: a in h.blk && b in h.blk && Covers(a, h.blk[a], u) && Covers(b, h.blk[b], u) ==> a == b
    ensures forall k :: 0 < k < |h.nodes| ==> h.nodes[k] in h.blk && !Live(h, h.nodes[k])
  {
    assert InBlock(h.blk, u) <==> Obtained(h.arenas, u);
    forall a, b | a in h.blk && b in h.blk && Covers(a, h.blk[a], u) && Covers(b, h.blk[b], u)
      ensures a == b { OneBlock(h.blk, a, b, u); }
  }
}
