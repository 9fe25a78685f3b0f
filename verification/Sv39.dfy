/** Physical frames, page-table entries and the three-level Sv39 tree
    (section 4.4 of the RISC-V Privileged Architecture), as values.

    A physical page is either bytes or a table of 512 entries. A ghost `Role`
    per frame says what the frame is for; that a table has one role is what
    makes it reachable along one path only. */
module Sv39 {

  const PGSIZE: nat := 4096
  const NPTE: nat := 512
  /** MAXVA / PGSIZE: virtual page numbers run below this. */
  const NVPN: nat := 0x400_0000

  datatype Option<T> = None | Some(value: T)

  type byte = x: int | 0 <= x < 256

  datatype Pte = Pte(v: bool, r: bool, w: bool, x: bool, u: bool, rsw: bool, ppn: nat)

  const ZERO: Pte := Pte(false, false, false, false, false, false, 0)

  datatype Frame = Bytes(data: seq<byte>) | Table(ptes: seq<Pte>)

  /** `Held` frames belong to the kernel directly (a trapframe, or a page on its
      way into a mapping); `Tbl(r, l, i)` is the i-th table of level l below root r. */
  datatype Role = Free | Held | User | Tbl(root: nat, level: nat, idx: nat)

  datatype Phys = Phys(frames: seq<Frame>, refs: seq<nat>, free: seq<nat>)

  function EmptyTable(): Frame { Table(seq(NPTE, _ => ZERO)) }

  function Filled(b: byte): Frame { Bytes(seq(PGSIZE, _ => b)) }

  /** Every byte of the page is b. */
  ghost predicate AllBytes(fr: Frame, b: byte) {
    fr.Bytes? && |fr.data| == 4096 && forall k :: 0 <= k < 4096 ==> fr.data[k] == b
  }

  function Link(f: nat): Pte { Pte(true, false, false, false, false, false, f) }

  predicate IsLeafPte(e: Pte) { e.r || e.w || e.x }

  // ---------- reading the tree ----------

  function Entry(m: Phys, f: nat, k: nat): Pte {
    if f < |m.frames| && m.frames[f].Table? && k < |m.frames[f].ptes| then m.frames[f].ptes[k] else ZERO
  }

  function Child(m: Phys, f: nat, k: nat): nat {
    var e := Entry(m, f, k);
    if e.v then e.ppn else |m.frames|
  }

  /** The table of the given level and index below root r, or |m.frames| if there is none. */
  function NodeAt(m: Phys, r: nat, level: nat, idx: nat): nat
    requires level <= 2
    decreases 2 - level
  {
    if level == 2 then r else Child(m, NodeAt(m, r, level + 1, idx / NPTE), idx % NPTE)
  }

  /** What the page table rooted at r says about virtual page v: the finite map it implements. */
  function Leaf(m: Phys, r: nat, v: nat): Pte {
    Entry(m, NodeAt(m, r, 0, v / NPTE), v % NPTE)
  }

  function SetEntry(m: Phys, f: nat, k: nat, e: Pte): Phys
    requires f < |m.frames| && m.frames[f].Table? && k < |m.frames[f].ptes|
  {
    m.(frames := m.frames[f := Table(m.frames[f].ptes[k := e])])
  }

  // ---------- invariants ----------

  ghost predicate FreeInv(m: Phys, role: seq<Role>) {
    && |m.frames| == |m.refs| == |role|
    && (forall k :: 0 <= k < |m.free| ==> m.free[k] < |role| && role[m.free[k]].Free?)
    && (forall j, k :: 0 <= j < k < |m.free| ==> m.free[j] != m.free[k])
    && (forall f :: 0 <= f < |role| && role[f].Free? ==> f in m.free && m.refs[f] == 0)
  }

  ghost predicate IsRoot(role: seq<Role>, r: nat) {
    r < |role| && role[r] == Tbl(r, 2, 0)
  }

  ghost predicate LinkOk(e: Pte, role: seq<Role>, want: Role) {
    e.v ==> !IsLeafPte(e) && e.ppn < |role| && role[e.ppn] == want
  }

  ghost predicate NodeOk(m: Phys, role: seq<Role>, f: nat)
    requires |m.frames| == |m.refs| == |role| && f < |role|
  {
    match role[f]
    case Tbl(r, level, i) =>
      && level <= 2 && InLevel(level, i)
      && IsRoot(role, r)
      && (level == 2 ==> r == f)
      && m.frames[f].Table? && |m.frames[f].ptes| == NPTE
      && m.refs[f] == 1
      && NodeAt(m, r, level, i) == f
      && (level > 0 ==>
            forall k :: 0 <= k < NPTE ==> LinkOk(m.frames[f].ptes[k], role, Tbl(r, level - 1, i * NPTE + k)))
    case _ => m.frames[f].Bytes? && |m.frames[f].data| == PGSIZE
  }

  ghost predicate TreeInv(m: Phys, role: seq<Role>) {
    && |m.frames| == |m.refs| == |role|
    && forall f :: 0 <= f < |role| ==> NodeOk(m, role, f)
  }

  /** Index i is one that a page number below NVPN can lead to at this level. */
  predicate InLevel(level: nat, i: nat) {
    (level == 2 ==> i == 0) && (level == 1 ==> i < NPTE / 2) && (level == 0 ==> i < NPTE / 2 * NPTE)
  }

  // ---------- the tree is a map ----------

  lemma NodeTop(m: Phys, r: nat, i: nat)
    ensures NodeAt(m, r, 2, i) == r
  {}

  lemma NodeStep(m: Phys, r: nat, level: nat, i: nat)
    requires level < 2
    ensures NodeAt(m, r, level, i) == Child(m, NodeAt(m, r, level + 1, i / NPTE), i % NPTE)
    ensures i == i / NPTE * NPTE + i % NPTE && i % NPTE < NPTE
  {}

  lemma {:induction false} NodeRole(m: Phys, role: seq<Role>, r: nat, level: nat, i: nat)
    requires TreeInv(m, role) && IsRoot(role, r) && level <= 2 && InLevel(level, i)
    ensures NodeAt(m, r, level, i) == |m.frames|
            || (NodeAt(m, r, level, i) < |role| && role[NodeAt(m, r, level, i)] == Tbl(r, level, i))
    decreases 2 - level
  {
    if level < 2 {
      NodeRole(m, role, r, level + 1, i / NPTE);
      var p := NodeAt(m, r, level + 1, i / NPTE);
      if p < |role| {
        assert NodeOk(m, role, p);
        var k := i % NPTE;
        assert LinkOk(m.frames[p].ptes[k], role, Tbl(r, level, (i / NPTE) * NPTE + k));
      }
    }
  }

  /** A change that leaves r's tables above `level` alone leaves the path to (level, i) alone. */
  lemma {:induction false} NodeFrame(m: Phys, m': Phys, role: seq<Role>, r: nat, level: nat, i: nat)
    requires TreeInv(m, role) && IsRoot(role, r) && level <= 2 && InLevel(level, i)
    requires |m'.frames| == |m.frames|
    requires forall g ::
               0 <= g < |role| && role[g].Tbl? && role[g].root == r && role[g].level > level ==>
                 m'.frames[g] == m.frames[g]
    ensures NodeAt(m', r, level, i) == NodeAt(m, r, level, i)
    decreases 2 - level
  {
    if level < 2 {
      NodeFrame(m, m', role, r, level + 1, i / NPTE);
      NodeRole(m, role, r, level + 1, i / NPTE);
    }
  }

  /** Each table page is reached by one path: no two frames have the same place in a tree. */
  lemma OnePath(m: Phys, role: seq<Role>, f: nat, g: nat)
    requires TreeInv(m, role) && f < |role| && g < |role| && role[f].Tbl? && role[f] == role[g]
    ensures f == g
  {
    assert NodeOk(m, role, f) && NodeOk(m, role, g);
  }

  lemma PageIndex(v: nat)
    requires v < NVPN
    ensures InLevel(0, v / NPTE) && InLevel(1, v / NPTE / NPTE) && v / NPTE / NPTE / NPTE == 0
  {}

  /** Frames that are not tables do not matter to any mapping. */
  lemma LeafFrame(m: Phys, m': Phys, role: seq<Role>, r: nat, v: nat)
    requires TreeInv(m, role) && IsRoot(role, r) && v < NVPN
    requires |m'.frames| == |m.frames|
    requires forall g :: 0 <= g < |role| && role[g].Tbl? && role[g].root == r ==> m'.frames[g] == m.frames[g]
    ensures Leaf(m', r, v) == Leaf(m, r, v)
  {
    PageIndex(v);
    NodeFrame(m, m', role, r, 0, v / NPTE);
    NodeRole(m, role, r, 0, v / NPTE);
  }

  lemma NonTableChange(m: Phys, m': Phys, role: seq<Role>, role': seq<Role>)
    requires TreeInv(m, role) && |m'.frames| == |m'.refs| == |role'| == |role|
    requires forall g :: 0 <= g < |role| ==> (role[g].Tbl? <==> role'[g].Tbl?)
    requires forall g ::
               0 <= g < |role| && role[g].Tbl? ==>
                 role'[g] == role[g] && m'.frames[g] == m.frames[g] && m'.refs[g] == m.refs[g]
    requires forall g :: 0 <= g < |role| && !role'[g].Tbl? ==> m'.frames[g].Bytes? && |m'.frames[g].data| == PGSIZE
    ensures TreeInv(m', role')
    ensures forall r, v :: IsRoot(role, r) && 0 <= v < NVPN ==> Leaf(m', r, v) == Leaf(m, r, v)
  {
    forall f | 0 <= f < |role'| ensures NodeOk(m', role', f) {
      assert NodeOk(m, role, f);
      if role'[f].Tbl? {
        NodeFrame(m, m', role, role[f].root, role[f].level, role[f].idx);
        var r, level, i := role[f].root, role[f].level, role[f].idx;
        if level > 0 {
          forall k | 0 <= k < NPTE
            ensures LinkOk(m'.frames[f].ptes[k], role', Tbl(r, level - 1, i * NPTE + k)) {
            assert LinkOk(m.frames[f].ptes[k], role, Tbl(r, level - 1, i * NPTE + k));
          }
        }
      }
    }
    forall r, v | IsRoot(role, r) && 0 <= v < NVPN ensures Leaf(m', r, v) == Leaf(m, r, v) {
      LeafFrame(m, m', role, r, v);
    }
  }

  lemma LeafWriteAt(m: Phys, role: seq<Role>, f: nat, k: nat, e: Pte, r: nat, v: nat)
    requires TreeInv(m, role) && f < |role| && role[f].Tbl? && role[f].level == 0 && k < NPTE
    requires IsRoot(role, r) && v < NVPN
    ensures m.frames[f].Table? && |m.frames[f].ptes| == NPTE
    ensures Leaf(SetEntry(m, f, k, e), r, v)
            == if r == role[f].root && v == role[f].idx * NPTE + k then e else Leaf(m, r, v)
  {
    hide NodeAt;
    assert NodeOk(m, role, f);
    PageIndex(v);
    NodeFrame(m, SetEntry(m, f, k, e), role, r, 0, v / NPTE);
    NodeRole(m, role, r, 0, v / NPTE);
    assert v == v / NPTE * NPTE + v % NPTE;
  }

  /** Writing one entry of a level-0 table changes the map at exactly one page of one root. */
  lemma LeafWrite(m: Phys, role: seq<Role>, f: nat, k: nat, e: Pte)
    requires TreeInv(m, role) && f < |role| && role[f].Tbl? && role[f].level == 0 && k < NPTE
    ensures m.frames[f].Table? && |m.frames[f].ptes| == NPTE
    ensures TreeInv(SetEntry(m, f, k, e), role)
    ensures forall r, v :: IsRoot(role, r) && 0 <= v < NVPN ==>
              Leaf(SetEntry(m, f, k, e), r, v)
              == if r == role[f].root && v == role[f].idx * NPTE + k then e else Leaf(m, r, v)
  {
    hide NodeAt, Leaf;
    assert NodeOk(m, role, f);
    var m' := SetEntry(m, f, k, e);
    forall g | 0 <= g < |role| ensures NodeOk(m', role, g) {
      assert NodeOk(m, role, g);
      if role[g].Tbl? {
        NodeFrame(m, m', role, role[g].root, role[g].level, role[g].idx);
      }
    }
    forall r, v | IsRoot(role, r) && 0 <= v < NVPN
      ensures Leaf(m', r, v) == if r == role[f].root && v == role[f].idx * NPTE + k then e else Leaf(m, r, v)
    {
      LeafWriteAt(m, role, f, k, e, r, v);
    }
  }

  /** m' is m with the fresh table f linked in at entry k of table g. */
  ghost predicate Linked(m: Phys, m': Phys, role: seq<Role>, role': seq<Role>, g: nat, k: nat, f: nat) {
    && g < |role| && f < |role| && k < NPTE && role[g].Tbl? && 0 < role[g].level <= 2
    && InLevel(role[g].level - 1, role[g].idx * NPTE + k)
    && role[f].Held? && f != g && |m.frames| == |m.refs| == |role| && m.refs[f] == 1
    && m.frames[g].Table? && |m.frames[g].ptes| == NPTE && !m.frames[g].ptes[k].v
    && m' == m.(frames := m.frames[f := EmptyTable()][g := Table(m.frames[g].ptes[k := Link(f)])])
    && role' == role[f := Tbl(role[g].root, role[g].level - 1, role[g].idx * NPTE + k)]
  }

  lemma LinkedHole(m: Phys, m': Phys, role: seq<Role>, role': seq<Role>, g: nat, k: nat, f: nat)
    requires TreeInv(m, role) && Linked(m, m', role, role', g, k, f)
    ensures NodeAt(m, role[g].root, role[g].level - 1, role[g].idx * NPTE + k) == |m.frames|
  {
    assert NodeOk(m, role, g);
    assert (role[g].idx * NPTE + k) / NPTE == role[g].idx && (role[g].idx * NPTE + k) % NPTE == k;
  }

  lemma {:induction false} LinkedPath(m: Phys, m': Phys, role: seq<Role>, role': seq<Role>, g: nat, k: nat, f: nat,
                                      r: nat, level: nat, i: nat)
    requires TreeInv(m, role) && Linked(m, m', role, role', g, k, f)
    requires IsRoot(role, r) && level <= 2 && InLevel(level, i)
    ensures NodeAt(m', r, level, i) ==
            if r == role[g].root && level == role[g].level - 1 && i == role[g].idx * NPTE + k then f
            else NodeAt(m, r, level, i)
    decreases 2 - level
  {
    hide NodeAt;
    if level == 2 {
      NodeTop(m, r, i);
      NodeTop(m', r, i);
    } else {
      NodeStep(m, r, level, i);
      NodeStep(m', r, level, i);
      var j := i / NPTE;
      LinkedHole(m, m', role, role', g, k, f);
      LinkedPath(m, m', role, role', g, k, f, r, level + 1, j);
      NodeRole(m, role, r, level + 1, j);
      assert NodeOk(m, role, g);
      var p := NodeAt(m, r, level + 1, j);
      if p < |role| { assert NodeOk(m, role, p); }
    }
  }

  lemma LinkTableNew(m: Phys, m': Phys, role: seq<Role>, role': seq<Role>, g: nat, k: nat, f: nat)
    requires TreeInv(m, role) && Linked(m, m', role, role', g, k, f)
    ensures NodeOk(m', role', f)
  {
    assert NodeOk(m, role, g);
    LinkedPath(m, m', role, role', g, k, f, role'[f].root, role'[f].level, role'[f].idx);
  }

  lemma LinkTableNode(m: Phys, m': Phys, role: seq<Role>, role': seq<Role>, g: nat, k: nat, f: nat, h: nat)
    requires TreeInv(m, role) && Linked(m, m', role, role', g, k, f) && h < |role| && h != f
    ensures NodeOk(m', role', h)
  {
    hide NodeAt;
    assert NodeOk(m, role, h);
    if role[h].Tbl? {
      var r, level, i := role[h].root, role[h].level, role[h].idx;
      LinkedPath(m, m', role, role', g, k, f, r, level, i);
      LinkedHole(m, m', role, role', g, k, f);
      assert NodeAt(m', r, level, i) == h;
      assert IsRoot(role', r);
      if level > 0 {
        forall j | 0 <= j < NPTE
          ensures LinkOk(m'.frames[h].ptes[j], role', Tbl(r, level - 1, i * NPTE + j)) {
          assert LinkOk(m.frames[h].ptes[j], role, Tbl(r, level - 1, i * NPTE + j));
        }
      }
    }
  }

  lemma LinkTableLeaf(m: Phys, m': Phys, role: seq<Role>, role': seq<Role>, g: nat, k: nat, f: nat, r: nat, v: nat)
    requires TreeInv(m, role) && Linked(m, m', role, role', g, k, f) && IsRoot(role, r) && v < NVPN
    ensures Leaf(m', r, v) == Leaf(m, r, v)
  {
    PageIndex(v);
    LinkedPath(m, m', role, role', g, k, f, r, 0, v / NPTE);
    NodeRole(m, role, r, 0, v / NPTE);
  }

  /** Adding a table page during a walk changes no existing mapping. */
  lemma LinkTable(m: Phys, m': Phys, role: seq<Role>, role': seq<Role>, g: nat, k: nat, f: nat)
    requires TreeInv(m, role) && Linked(m, m', role, role', g, k, f)
    ensures TreeInv(m', role')
    ensures forall r :: IsRoot(role', r) <==> IsRoot(role, r)
    ensures forall r, v :: IsRoot(role, r) && 0 <= v < NVPN ==> Leaf(m', r, v) == Leaf(m, r, v)
  {
    assert NodeOk(m, role, g);
    LinkTableNew(m, m', role, role', g, k, f);
    forall h | 0 <= h < |role'| ensures NodeOk(m', role', h) {
      if h != f { LinkTableNode(m, m', role, role', g, k, f, h); }
    }
    forall r, v | IsRoot(role, r) && 0 <= v < NVPN ensures Leaf(m', r, v) == Leaf(m, r, v) {
      LinkTableLeaf(m, m', role, role', g, k, f, r, v);
    }
  }

  // ---------- taking the tree apart ----------

  /** No page of root r is mapped. */
  ghost predicate LeafFree(m: Phys, r: nat) {
    forall v :: 0 <= v < NVPN ==> !Leaf(m, r, v).v
  }

  /** Table f holds no valid entry. */
  ghost predicate Emptied(m: Phys, f: nat) {
    forall k :: 0 <= k < NPTE ==> !Entry(m, f, k).v
  }

  /** m' is m with the emptied table f returned to the allocator and its link in g cleared. */
  ghost predicate Unlinked(m: Phys, m': Phys, role: seq<Role>, role': seq<Role>, g: nat, k: nat, f: nat) {
    && |m.frames| == |m.refs| == |role| == |m'.refs|
    && g < |role| && f < |role| && k < NPTE && role[g].Tbl? && role[g].level > 0
    && role[f] == Tbl(role[g].root, role[g].level - 1, role[g].idx * NPTE + k)
    && m.frames[g].Table? && |m.frames[g].ptes| == NPTE
    && Emptied(m, f)
    && m'.frames == m.frames[f := Filled(1)][g := Table(m.frames[g].ptes[k := ZERO])]
    && role' == role[f := Free]
    && (forall h :: 0 <= h < |role| && h != f ==> m'.refs[h] == m.refs[h])
  }

  lemma {:induction false} UnlinkedPath(m: Phys, m': Phys, role: seq<Role>, role': seq<Role>, g: nat, k: nat, f: nat,
                                        r: nat, level: nat, i: nat)
    requires TreeInv(m, role) && Unlinked(m, m', role, role', g, k, f)
    requires IsRoot(role, r) && level <= 2 && InLevel(level, i)
    ensures NodeAt(m', r, level, i) ==
            if r == role[g].root && level == role[g].level - 1 && i == role[g].idx * NPTE + k then |m.frames|
            else NodeAt(m, r, level, i)
    decreases 2 - level
  {
    hide NodeAt;
    if level == 2 {
      NodeTop(m, r, i);
      NodeTop(m', r, i);
    } else {
      NodeStep(m, r, level, i);
      NodeStep(m', r, level, i);
      var j := i / NPTE;
      UnlinkedPath(m, m', role, role', g, k, f, r, level + 1, j);
      NodeRole(m, role, r, level + 1, j);
      assert NodeOk(m, role, g) && NodeOk(m, role, f);
      var p := NodeAt(m, r, level + 1, j);
      if p < |role| { assert NodeOk(m, role, p); }
    }
  }

  lemma UnlinkTableLink(m: Phys, m': Phys, role: seq<Role>, role': seq<Role>, g: nat, k: nat, f: nat, h: nat, j: nat)
    requires TreeInv(m, role) && Unlinked(m, m', role, role', g, k, f)
    requires h < |role| && h != f && role[h].Tbl? && role[h].level > 0 && j < NPTE
    ensures m'.frames[h].Table? && |m'.frames[h].ptes| == NPTE
    ensures LinkOk(m'.frames[h].ptes[j], role', Tbl(role[h].root, role[h].level - 1, role[h].idx * NPTE + j))
  {
    assert NodeOk(m, role, g) && NodeOk(m, role, h);
    var e := m.frames[h].ptes[j];
    assert LinkOk(e, role, Tbl(role[h].root, role[h].level - 1, role[h].idx * NPTE + j));
    if e.v && e.ppn == f {
      assert role[h].idx == role[g].idx && j == k;
      assert h == NodeAt(m, role[h].root, role[h].level, role[h].idx) == g;
    }
  }

  lemma UnlinkTableNode(m: Phys, m': Phys, role: seq<Role>, role': seq<Role>, g: nat, k: nat, f: nat, h: nat)
    requires TreeInv(m, role) && Unlinked(m, m', role, role', g, k, f) && h < |role|
    ensures NodeOk(m', role', h)
  {
    hide NodeAt;
    assert NodeOk(m, role, h);
    if h == f {
      assert role'[h] == Free && m'.frames[h] == Filled(1);
    } else if role[h].Tbl? {
      var r, level, i := role[h].root, role[h].level, role[h].idx;
      assert NodeOk(m, role, g);
      if role[h] == role[f] { OnePath(m, role, f, h); assert false; }
      UnlinkedPath(m, m', role, role', g, k, f, r, level, i);
      assert NodeAt(m', r, level, i) == h;
      if level > 0 {
        forall j | 0 <= j < NPTE
          ensures LinkOk(m'.frames[h].ptes[j], role', Tbl(r, level - 1, i * NPTE + j)) {
          UnlinkTableLink(m, m', role, role', g, k, f, h, j);
        }
      }
    }
  }

  /** Dropping an emptied table keeps the tree sound, invalidates nothing that was valid,
      and leaves every other root's map alone. */
  lemma UnlinkTable(m: Phys, m': Phys, role: seq<Role>, role': seq<Role>, g: nat, k: nat, f: nat)
    requires TreeInv(m, role) && Unlinked(m, m', role, role', g, k, f)
    ensures TreeInv(m', role')
    ensures forall r :: IsRoot(role', r) <==> IsRoot(role, r)
    ensures forall r, v :: IsRoot(role, r) && r != role[g].root && 0 <= v < NVPN ==> Leaf(m', r, v) == Leaf(m, r, v)
    ensures LeafFree(m, role[g].root) ==> LeafFree(m', role[g].root)
  {
    assert NodeOk(m, role, g);
    forall h | 0 <= h < |role'| ensures NodeOk(m', role', h) {
      UnlinkTableNode(m, m', role, role', g, k, f, h);
    }
    forall r, v | IsRoot(role, r) && 0 <= v < NVPN
      ensures r != role[g].root ==> Leaf(m', r, v) == Leaf(m, r, v)
      ensures !Leaf(m, r, v).v ==> !Leaf(m', r, v).v
    {
      PageIndex(v);
      UnlinkedPath(m, m', role, role', g, k, f, r, 0, v / NPTE);
      NodeRole(m, role, r, 0, v / NPTE);
    }
  }

  /** An emptied root is the only table left of its tree, and can be dropped too. */
  lemma DropRoot(m: Phys, m': Phys, role: seq<Role>, role': seq<Role>, f: nat)
    requires TreeInv(m, role) && IsRoot(role, f) && Emptied(m, f)
    requires |m'.refs| == |m.refs| && m'.frames == m.frames[f := Filled(1)] && role' == role[f := Free]
    requires forall h :: 0 <= h < |role| && h != f ==> m'.refs[h] == m.refs[h]
    ensures TreeInv(m', role')
    ensures forall h :: 0 <= h < |role'| && role'[h].Tbl? ==> role'[h].root != f
    ensures forall r :: IsRoot(role', r) <==> IsRoot(role, r) && r != f
    ensures forall r, v :: IsRoot(role', r) && 0 <= v < NVPN ==> Leaf(m', r, v) == Leaf(m, r, v)
  {
    assert NodeOk(m, role, f);
    forall h | 0 <= h < |role| && h != f && role[h].Tbl? ensures role[h].root != f {
      assert NodeOk(m, role, h);
      if role[h].root == f {
        NodeBelowEmptied(m, role, f, role[h].level, role[h].idx);
        assert false;
      }
    }
    forall h | 0 <= h < |role'| ensures NodeOk(m', role', h) {
      assert NodeOk(m, role, h);
      if role'[h].Tbl? {
        var r, level, i := role'[h].root, role'[h].level, role'[h].idx;
        NodeFrame(m, m', role, r, level, i);
        if level > 0 {
          forall j | 0 <= j < NPTE
            ensures LinkOk(m'.frames[h].ptes[j], role', Tbl(r, level - 1, i * NPTE + j)) {
            assert LinkOk(m.frames[h].ptes[j], role, Tbl(r, level - 1, i * NPTE + j));
          }
        }
      }
    }
    forall r, v | IsRoot(role', r) && 0 <= v < NVPN ensures Leaf(m', r, v) == Leaf(m, r, v) {
      LeafFrame(m, m', role, r, v);
    }
  }

  lemma {:induction false} NodeBelowEmptied(m: Phys, role: seq<Role>, f: nat, level: nat, i: nat)
    requires TreeInv(m, role) && IsRoot(role, f) && Emptied(m, f) && level < 2
    ensures NodeAt(m, f, level, i) == |m.frames|
    decreases 2 - level
  {
    if level < 1 { NodeBelowEmptied(m, role, f, level + 1, i / NPTE); }
  }

  /** A zeroed page the kernel holds becomes the root of a tree that maps nothing. */
  lemma NewRoot(m: Phys, m': Phys, role: seq<Role>, role': seq<Role>, f: nat)
    requires TreeInv(m, role) && f < |role| && role[f].Held? && m.refs[f] == 1
    requires m' == m.(frames := m.frames[f := EmptyTable()]) && role' == role[f := Tbl(f, 2, 0)]
    ensures TreeInv(m', role')
    ensures forall r :: IsRoot(role', r) <==> IsRoot(role, r) || r == f
    ensures forall r, v :: IsRoot(role, r) && 0 <= v < NVPN ==> Leaf(m', r, v) == Leaf(m, r, v)
    ensures forall v :: 0 <= v < NVPN ==> Leaf(m', f, v) == ZERO
  {
    forall h | 0 <= h < |role'| ensures NodeOk(m', role', h) {
      assert NodeOk(m, role, h);
      if role[h].Tbl? {
        var r, level, i := role[h].root, role[h].level, role[h].idx;
        NodeFrame(m, m', role, r, level, i);
        if level > 0 {
          forall j | 0 <= j < NPTE
            ensures LinkOk(m'.frames[h].ptes[j], role', Tbl(r, level - 1, i * NPTE + j)) {
            assert LinkOk(m.frames[h].ptes[j], role, Tbl(r, level - 1, i * NPTE + j));
          }
        }
      }
    }
    forall r, v | IsRoot(role, r) && 0 <= v < NVPN ensures Leaf(m', r, v) == Leaf(m, r, v) {
      LeafFrame(m, m', role, r, v);
    }
    forall v | 0 <= v < NVPN ensures Leaf(m', f, v) == ZERO {
      assert Child(m', f, v / NPTE / NPTE) == |m'.frames|;
      assert NodeAt(m', f, 1, v / NPTE / NPTE) == |m'.frames|;
      assert NodeAt(m', f, 0, v / NPTE) == |m'.frames|;
    }
  }
}
