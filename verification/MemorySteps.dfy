/** The state changes the kernel's memory code is made of, as functions and relations on
    physical memory, and the lemmas that carry the invariants across each. */
module MemorySteps {
  import opened Sv39
  import opened Eager
  import opened Cow

  /** kalloc: the head of the free list, with a count of one, filled with junk. */
  function AfterAlloc(m: Phys): Phys
    requires m.free != [] && m.free[0] < |m.frames| == |m.refs|
  {
    Phys(m.frames[m.free[0] := Filled(5)], m.refs[m.free[0] := 1], m.free[1..])
  }

  /** kfree: one reference less; the last one puts the page back. */
  function AfterFree(m: Phys, f: nat): Phys
    requires f < |m.frames| == |m.refs| && m.refs[f] > 0
  {
    if m.refs[f] > 1 then m.(refs := m.refs[f := m.refs[f] - 1])
    else Phys(m.frames[f := Filled(1)], m.refs[f := 0], [f] + m.free)
  }

  /** Tables of root r may have been added, taken from free frames; nothing else changed. */
  ghost predicate Grown(m: Phys, m': Phys, role: seq<Role>, role': seq<Role>, r: nat) {
    SameLeaves(m, m', role, role') && GrownFrames(m, m', role, role', r)
  }

  ghost predicate GrownFrames(m: Phys, m': Phys, role: seq<Role>, role': seq<Role>, r: nat) {
    && |m.frames| == |m.refs| == |role| == |role'| == |m'.frames| == |m'.refs|
    && forall f :: 0 <= f < |role| ==> GrownFrame(m, m', role, role', r, f)
  }

  ghost predicate GrownFrame(m: Phys, m': Phys, role: seq<Role>, role': seq<Role>, r: nat, f: nat)
    requires |m.frames| == |m.refs| == |role| == |role'| == |m'.frames| == |m'.refs| && f < |role|
  {
    || (&& role'[f] == role[f]
        && (role[f].User? || role[f].Held? ==> m'.frames[f] == m.frames[f] && m'.refs[f] == m.refs[f]))
    || (role[f].Free? && role'[f].Tbl? && role'[f].root == r)
  }

  lemma AllocInv(m: Phys, role: seq<Role>)
    requires FreeInv(m, role) && TreeInv(m, role) && m.free != []
    ensures m.free[0] < |role| && role[m.free[0]].Free?
    ensures FreeInv(AfterAlloc(m), role[m.free[0] := Held])
    ensures TreeInv(AfterAlloc(m), role[m.free[0] := Held])
    ensures SameLeaves(m, AfterAlloc(m), role, role[m.free[0] := Held])
  {
    var m', role' := AfterAlloc(m), role[m.free[0] := Held];
    forall g | 0 <= g < |role'| && !role'[g].Tbl? ensures m'.frames[g].Bytes? && |m'.frames[g].data| == PGSIZE {
      assert NodeOk(m, role, g);
    }
    NonTableChange(m, m', role, role');
  }

  lemma FreeFreeInv(m: Phys, role: seq<Role>, f: nat)
    requires FreeInv(m, role) && f < |role| && !role[f].Free? && m.refs[f] > 0
    ensures FreeInv(AfterFree(m, f), if m.refs[f] == 1 then role[f := Free] else role)
  {}

  lemma GrownUser(m: Phys, m': Phys, role: seq<Role>, role': seq<Role>, r: nat)
    requires UserInv(m, role) && GrownFrames(m, m', role, role', r) && SameUserLeaves(m, m', role, role')
    requires TreeInv(m', role') && FreeInv(m', role')
    ensures UserInv(m', role')
  {
    forall f | 0 <= f < |role| ensures role[f].User? ==> role'[f].User? && m'.refs[f] == m.refs[f]
      ensures !role[f].User? ==> !role'[f].User? && CountOk(m', role', f)
    {
      assert GrownFrame(m, m', role, role', r, f) && CountOk(m, role, f) && NodeOk(m', role', f);
    }
    UserInvFrame(m, m', role, role');
  }

  lemma GrownFramesTrans(m: Phys, m': Phys, m'': Phys, role: seq<Role>, role': seq<Role>, role'': seq<Role>, r: nat)
    requires GrownFrames(m, m', role, role', r) && GrownFrames(m', m'', role', role'', r)
    ensures GrownFrames(m, m'', role, role'', r)
  {
    forall f | 0 <= f < |role| ensures GrownFrame(m, m'', role, role'', r, f) {
      assert GrownFrame(m, m', role, role', r, f) && GrownFrame(m', m'', role', role'', r, f);
    }
  }

  lemma GrownTrans(m: Phys, m': Phys, m'': Phys, role: seq<Role>, role': seq<Role>, role'': seq<Role>, r: nat)
    requires Grown(m, m', role, role', r) && Grown(m', m'', role', role'', r)
    ensures Grown(m, m'', role, role'', r)
  {
    hide Leaf;
    GrownFramesTrans(m, m', m'', role, role', role'', r);
  }

  /** PX(level, va), for page number v. */
  function Px(level: nat, v: nat): nat
    requires level <= 2
  {
    if level == 2 then v / NPTE / NPTE % NPTE else if level == 1 then v / NPTE % NPTE else v % NPTE
  }

  /** Where the path of page v stands at a level. */
  function PathIndex(level: nat, v: nat): nat
    requires level <= 2
  {
    if level == 2 then 0 else if level == 1 then v / NPTE / NPTE else v / NPTE
  }

  lemma PathStep(level: nat, v: nat)
    requires 0 < level <= 2 && v < NVPN
    ensures PathIndex(level, v) * NPTE + Px(level, v) == PathIndex(level - 1, v)
    ensures PathIndex(level - 1, v) / NPTE == PathIndex(level, v) && PathIndex(level - 1, v) % NPTE == Px(level, v)
    ensures InLevel(level - 1, PathIndex(level - 1, v)) && Px(level, v) < NPTE
  {}

  lemma PathEnds(v: nat)
    ensures PathIndex(2, v) == 0 && PathIndex(0, v) == v / NPTE
  {}

  lemma PathBroken(m: Phys, root: nat, level: nat, v: nat)
    requires level <= 2 && v < NVPN && NodeAt(m, root, level, PathIndex(level, v)) == |m.frames|
    ensures NodeAt(m, root, 0, v / NPTE) == |m.frames|
  {
    if level > 0 {
      PathStep(level, v);
      PathBroken(m, root, level - 1, v);
    }
  }

  /** One level of a walk: either the next table, or proof that v has no level-0 table. */
  lemma WalkStep(m: Phys, role: seq<Role>, root: nat, table: nat, level: nat, v: nat)
    requires TreeInv(m, role) && v < NVPN && 0 < level <= 2
    requires table < |role| && role[table] == Tbl(root, level, PathIndex(level, v))
    ensures table < |m.frames| && m.frames[table].Table? && |m.frames[table].ptes| == NPTE && Px(level, v) < NPTE
    ensures InLevel(level - 1, PathIndex(level, v) * NPTE + Px(level, v))
    ensures PathIndex(level, v) * NPTE + Px(level, v) == PathIndex(level - 1, v)
    ensures var e := m.frames[table].ptes[Px(level, v)];
            && Entry(m, table, Px(level, v)) == e
            && (e.v ==> e.ppn < |role| && role[e.ppn] == Tbl(root, level - 1, PathIndex(level - 1, v)))
            && (!e.v ==> NodeAt(m, root, 0, v / NPTE) == |role|)
  {
    PathStep(level, v);
    assert NodeOk(m, role, table);
    var e := m.frames[table].ptes[Px(level, v)];
    assert LinkOk(e, role, Tbl(root, level - 1, PathIndex(level - 1, v)));
    if !e.v { PathBroken(m, root, level - 1, v); }
  }

  lemma GrownRefl(m: Phys, role: seq<Role>, r: nat)
    requires |m.frames| == |m.refs| == |role|
    ensures Grown(m, m, role, role, r)
  {}

  function MapPte(perm: Pte, ppn: nat): Pte { perm.(v := true, ppn := ppn) }

  lemma LeafSetAfter(m: Phys, m1: Phys, m2: Phys, role: seq<Role>, role': seq<Role>, r0: nat, v0: nat, e: Pte)
    requires SameLeaves(m, m1, role, role')
    requires forall r, v :: IsRoot(role', r) && 0 <= v < NVPN ==>
               Leaf(m2, r, v) == if r == r0 && v == v0 then e else Leaf(m1, r, v)
    ensures LeafSet(m, m2, role, role', r0, v0, e)
  {
    hide Leaf;
  }

  lemma RangeMappedRefl(m: Phys, role: seq<Role>, r0: nat, a: nat, ppn: nat, perm: Pte)
    requires |m.frames| == |m.refs| == |role|
    ensures RangeMapped(m, m, role, role, r0, a, 0, ppn, perm)
    ensures GrownFrames(m, m, role, role, r0)
  {}

  lemma RangeExtend(m: Phys, m1: Phys, m2: Phys, role: seq<Role>, role1: seq<Role>, role2: seq<Role>,
                    r0: nat, a: nat, n: nat, ppn: nat, perm: Pte, ok: bool)
    requires RangeMapped(m, m1, role, role1, r0, a, n, ppn, perm)
    requires if ok then LeafSet(m1, m2, role1, role2, r0, a + n, MapPte(perm, ppn + n))
             else SameLeaves(m1, m2, role1, role2)
    ensures RangeMapped(m, m2, role, role2, r0, a, if ok then n + 1 else n, ppn, perm)
    ensures IsRoot(role, r0) ==> IsRoot(role2, r0)
  {
    hide Leaf;
  }

  /** Pages a .. a+n of root r0 map to consecutive frames from ppn; every other page is as it was. */
  ghost predicate RangeMapped(m: Phys, m': Phys, role: seq<Role>, role': seq<Role>, r0: nat, a: nat, n: nat, ppn: nat,
                              perm: Pte) {
    && SameRoots(role, role')
    && forall r, v :: IsRoot(role, r) && 0 <= v < NVPN ==>
         Leaf(m', r, v) == if r == r0 && a <= v < a + n then MapPte(perm, ppn + (v - a)) else Leaf(m, r, v)
  }

  /** Pages a .. a+n of root r0 are no longer mapped; every other page is as it was. */
  ghost predicate RangeCleared(m: Phys, m': Phys, role: seq<Role>, role': seq<Role>, r0: nat, a: nat, n: nat) {
    && SameRoots(role, role')
    && forall r, v :: IsRoot(role, r) && 0 <= v < NVPN ==>
         Leaf(m', r, v) == if r == r0 && a <= v < a + n then ZERO else Leaf(m, r, v)
  }

  /** User frames may have been returned to the allocator; nothing else happened to a frame. */
  ghost predicate DroppedFrames(m: Phys, m': Phys, role: seq<Role>, role': seq<Role>) {
    && |m.frames| == |m.refs| == |role| == |role'| == |m'.frames| == |m'.refs|
    && forall f :: 0 <= f < |role| ==> DroppedFrame(m, m', role, role', f)
  }

  ghost predicate DroppedFrame(m: Phys, m': Phys, role: seq<Role>, role': seq<Role>, f: nat)
    requires |m.frames| == |m.refs| == |role| == |role'| == |m'.frames| == |m'.refs| && f < |role|
  {
    || (&& role'[f] == role[f] && (role[f].User? || role[f].Held? ==> m'.frames[f] == m.frames[f])
        && (!role[f].User? ==> m'.refs[f] == m.refs[f]))
    || (role[f].User? && role'[f].Free?)
  }

  lemma FreeUserTree(m: Phys, role: seq<Role>, f: nat)
    requires TreeInv(m, role) && f < |role| && !role[f].Tbl? && m.refs[f] > 0
    ensures TreeInv(AfterFree(m, f), if m.refs[f] == 1 then role[f := Free] else role)
    ensures SameLeaves(m, AfterFree(m, f), role, if m.refs[f] == 1 then role[f := Free] else role)
  {
    var m', role' := AfterFree(m, f), if m.refs[f] == 1 then role[f := Free] else role;
    forall g | 0 <= g < |role'| && !role'[g].Tbl? ensures m'.frames[g].Bytes? && |m'.frames[g].data| == PGSIZE {
      assert NodeOk(m, role, g);
    }
    NonTableChange(m, m', role, role');
  }

  lemma MapPagesFrames(m: Phys, m': Phys, m'': Phys, role: seq<Role>, role': seq<Role>, r: nat, low: nat)
    requires GrownFrames(m, m', role, role', r) && |m''.frames| == |m'.frames| && m''.refs == m'.refs
    requires low < |role'| && role'[low].Tbl?
    requires forall f :: 0 <= f < |role| && f != low ==> m''.frames[f] == m'.frames[f]
    ensures GrownFrames(m, m'', role, role', r)
  {
    forall f | 0 <= f < |role| ensures GrownFrame(m, m'', role, role', r, f) {
      assert GrownFrame(m, m', role, role', r, f);
    }
  }

  lemma LeafInLow(m: Phys, role: seq<Role>, root: nat, v: nat, low: Option<nat>)
    requires TreeInv(m, role) && Leaf(m, root, v).v
    requires low.None? ==> NodeAt(m, root, 0, v / NPTE) == |role|
    requires low.Some? ==> low.value < |role| && role[low.value] == Tbl(root, 0, v / NPTE)
    ensures low.Some? && m.frames[low.value].Table? && |m.frames[low.value].ptes| == NPTE
    ensures m.frames[low.value].ptes[v % NPTE] == Leaf(m, root, v)
  {
    if low.Some? { assert NodeOk(m, role, low.value); }
  }

  lemma NoLowNoLeaf(m: Phys, root: nat, v: nat, low: Option<nat>)
    requires low.None? ==> NodeAt(m, root, 0, v / NPTE) == |m.frames|
    ensures low.None? ==> Leaf(m, root, v) == ZERO
  {}

  lemma LowLeaf(m: Phys, role: seq<Role>, root: nat, v: nat, low: nat)
    requires TreeInv(m, role) && low < |role| && role[low] == Tbl(root, 0, v / NPTE)
    ensures low < |m.frames| && m.frames[low].Table? && |m.frames[low].ptes| == NPTE
    ensures m.frames[low].ptes[v % NPTE] == Leaf(m, root, v)
  {
    assert NodeOk(m, role, low);
  }

  lemma TableShape(m: Phys, role: seq<Role>, f: nat)
    requires TreeInv(m, role) && f < |role| && role[f].Tbl?
    ensures |m.frames| == |m.refs| == |role| && m.frames[f].Table? && |m.frames[f].ptes| == NPTE && m.refs[f] == 1
  {
    assert NodeOk(m, role, f);
  }

  lemma UserLeaf(m: Phys, role: seq<Role>, root: nat, v: nat)
    requires UserInv(m, role) && IsRoot(role, root) && v < TRAPFRAME_VPN && Leaf(m, root, v).v
    ensures LeafOk(m, role, Leaf(m, root, v)) && m.refs[Leaf(m, root, v).ppn] > 0
  {
    assert LeafOk(m, role, Leaf(m, root, v));
    assert CountOk(m, role, Leaf(m, root, v).ppn);
  }

  /** The loop state of uvmunmap: pages a .. a+n of root are gone. */
  ghost predicate Unmapping(m: Phys, m': Phys, role: seq<Role>, role': seq<Role>, root: nat, a: nat, n: nat) {
    && MemInv(m', role') && IsRoot(role', root)
    && RangeCleared(m, m', role, role', root, a, n)
    && KeepsOthers(m, m', role, role', root) && Churn(role, role', root)
    && forall v :: 0 <= v < TRAPFRAME_VPN ==> ViewAt(m', root, v) == if a <= v < a + n then None else ViewAt(m, root, v)
  }

  lemma UnmappingStart(m: Phys, role: seq<Role>, root: nat, a: nat)
    requires MemInv(m, role) && IsRoot(role, root)
    ensures Unmapping(m, m, role, role, root, a, 0)
  {
    RangeClearedRefl(m, role, root, a);
  }

  lemma UnmappingNext(m: Phys, m1: Phys, role: seq<Role>, role1: seq<Role>, root: nat, a: nat, n: nat)
    requires Unmapping(m, m1, role, role1, root, a, n) && a + n < TRAPFRAME_VPN && Leaf(m, root, a + n).v
    ensures MemInv(m1, role1) && IsRoot(role1, root)
    ensures Leaf(m1, root, a + n).v && IsLeafPte(Leaf(m1, root, a + n))
  {
    hide Leaf;
    assert LeafOk(m1, role1, Leaf(m1, root, a + n));
  }

  lemma UnmappingMore(m: Phys, m1: Phys, m2: Phys, role: seq<Role>, role1: seq<Role>, role2: seq<Role>, root: nat,
                      a: nat, n: nat)
    requires Unmapping(m, m1, role, role1, root, a, n) && a + n < TRAPFRAME_VPN
    requires MemInv(m2, role2) && DroppedFrames(m1, m2, role1, role2)
    requires LeafSet(m1, m2, role1, role2, root, a + n, ZERO)
    ensures Unmapping(m, m2, role, role2, root, a, n + 1)
  {
    hide Leaf, MemInv, KeepsOthers, Churn, RangeCleared, ViewAt, DroppedFrames;
    DropViews(m1, m2, role1, role2, root, a + n);
    DropChurn(m1, m2, role1, role2, root);
    KeepsOthersTrans(m, m1, m2, role, role1, role2, root);
    ChurnTrans(role, role1, role2, root);
    RangeClearedExtend(m, m1, m2, role, role1, role2, root, a, n);
  }

  lemma UnmapFreeFrames(m: Phys, role: seq<Role>, f: nat, low: nat, k: nat)
    requires |m.frames| == |m.refs| == |role| && f < |role| && low < |role| && k < NPTE
    requires role[f].User? && role[low].Tbl? && m.refs[f] > 0 && m.frames[low].Table? && |m.frames[low].ptes| == NPTE
    ensures DroppedFrames(m, SetEntry(AfterFree(m, f), low, k, ZERO), role,
                          if m.refs[f] == 1 then role[f := Free] else role)
  {}

  lemma UnmapFreeInv(m: Phys, role: seq<Role>, root: nat, v: nat, low: nat, f: nat)
    requires MemInv(m, role) && IsRoot(role, root) && v < TRAPFRAME_VPN && Leaf(m, root, v).v
    requires f == Leaf(m, root, v).ppn
    requires low < |role| && role[low] == Tbl(root, 0, v / NPTE)
    ensures f < |role| && role[f].User? && m.refs[f] > 0 && low < |m.frames| && m.frames[low].Table?
    ensures |m.frames[low].ptes| == NPTE
    ensures var m', role' := SetEntry(AfterFree(m, f), low, v % NPTE, ZERO),
                if m.refs[f] == 1 then role[f := Free] else role;
            MemInv(m', role') && LeafSet(m, m', role, role', root, v, ZERO) && DroppedFrames(m, m', role, role')
  {
    TableShape(m, role, low);
    UserLeaf(m, role, root, v);
    UnmapFreeFrames(m, role, f, low, v % NPTE);
    FreeUserTree(m, role, f);
    FreeFreeInv(m, role, f);
    hide Leaf, FreeInv, TreeInv, UserInv, LeafSet, DroppedFrames;
    var m1, role' := AfterFree(m, f), if m.refs[f] == 1 then role[f := Free] else role;
    LeafWrite(m1, role', low, v % NPTE, ZERO);
    var m2 := SetEntry(m1, low, v % NPTE, ZERO);
    LeafSetAfter(m, m1, m2, role, role', root, v, ZERO);
    Unmap(m, m2, role, role', root, v);
    FreeInvFrames(m1, m2, role');
  }

  lemma FreeInvFrames(m: Phys, m': Phys, role: seq<Role>)
    requires FreeInv(m, role) && |m'.frames| == |m.frames| && m'.refs == m.refs && m'.free == m.free
    ensures FreeInv(m', role)
  {}

  lemma UnmapKeepInv(m: Phys, role: seq<Role>, root: nat, v: nat, low: nat)
    requires MemInv(m, role) && IsRoot(role, root) && TRAPFRAME_VPN <= v < NVPN
    requires low < |role| && role[low] == Tbl(root, 0, v / NPTE)
    ensures low < |m.frames| && m.frames[low].Table? && |m.frames[low].ptes| == NPTE
            && var m' := SetEntry(m, low, v % NPTE, ZERO);
            MemInv(m', role) && LeafSet(m, m', role, role, root, v, ZERO) && DroppedFrames(m, m', role, role)
  {
    assert NodeOk(m, role, low);
    LeafWrite(m, role, low, v % NPTE, ZERO);
    var m' := SetEntry(m, low, v % NPTE, ZERO);
    forall f | 0 <= f < |role| && !role[f].User? ensures CountOk(m', role, f) { assert CountOk(m, role, f); }
    UserInvFrame(m, m', role, role);
  }

  /** After pages are dropped, what is still mapped is still there. */
  lemma DropViews(m: Phys, m': Phys, role: seq<Role>, role': seq<Role>, root: nat, v0: nat)
    requires MemInv(m, role) && MemInv(m', role') && DroppedFrames(m, m', role, role')
    requires v0 < TRAPFRAME_VPN && LeafSet(m, m', role, role', root, v0, ZERO)
    ensures KeepsOthers(m, m', role, role', root)
    ensures forall v ::
              0 <= v < TRAPFRAME_VPN && IsRoot(role, root) ==>
                ViewAt(m', root, v) == if v == v0 then None else ViewAt(m, root, v)
  {
    hide Leaf;
    forall f | 0 <= f < |role| ensures role'[f].Held? <==> role[f].Held? { assert DroppedFrame(m, m', role, role', f); }
    forall r, v | IsRoot(role, r) && 0 <= v < TRAPFRAME_VPN && (r != root || v != v0)
      ensures ViewAt(m', r, v) == ViewAt(m, r, v) {
      assert Leaf(m', r, v) == Leaf(m, r, v);
      if Leaf(m', r, v).v {
        assert LeafOk(m', role', Leaf(m', r, v));
        assert DroppedFrame(m, m', role, role', Leaf(m', r, v).ppn);
      }
    }
  }

  lemma RangeClearedRefl(m: Phys, role: seq<Role>, r0: nat, a: nat)
    requires |m.frames| == |m.refs| == |role|
    ensures RangeCleared(m, m, role, role, r0, a, 0) && KeepsOthers(m, m, role, role, r0)
  {}

  lemma RangeClearedExtend(m: Phys, m1: Phys, m2: Phys, role: seq<Role>, role1: seq<Role>, role2: seq<Role>, r0: nat,
                           a: nat, n: nat)
    requires RangeCleared(m, m1, role, role1, r0, a, n) && LeafSet(m1, m2, role1, role2, r0, a + n, ZERO)
    ensures RangeCleared(m, m2, role, role2, r0, a, n + 1)
  {
    hide Leaf;
  }

  /** Frames move only between user memory, the free list and the tables of root c. */
  ghost predicate Churn(role: seq<Role>, role': seq<Role>, c: nat) {
    && |role| == |role'|
    && forall f :: 0 <= f < |role| ==> ChurnFrame(role[f], role'[f], c)
  }

  ghost predicate ChurnFrame(x: Role, x': Role, c: nat) {
    x' == x || ((x.User? || x.Free?) && (x'.Free? || (x'.Tbl? && x'.root == c)))
  }

  lemma ChurnTrans(role: seq<Role>, role1: seq<Role>, role2: seq<Role>, c: nat)
    requires Churn(role, role1, c) && Churn(role1, role2, c)
    ensures Churn(role, role2, c)
  {
    forall f | 0 <= f < |role| ensures ChurnFrame(role[f], role2[f], c) {
      assert ChurnFrame(role[f], role1[f], c) && ChurnFrame(role1[f], role2[f], c);
    }
  }

  lemma DropChurn(m: Phys, m': Phys, role: seq<Role>, role': seq<Role>, c: nat)
    requires DroppedFrames(m, m', role, role')
    ensures Churn(role, role', c)
  {
    forall f | 0 <= f < |role| ensures ChurnFrame(role[f], role'[f], c) { assert DroppedFrame(m, m', role, role', f); }
  }

  lemma GrownChurn(m: Phys, m': Phys, role: seq<Role>, role': seq<Role>, c: nat)
    requires GrownFrames(m, m', role, role', c)
    ensures Churn(role, role', c)
  {
    forall f | 0 <= f < |role| ensures ChurnFrame(role[f], role'[f], c) { assert GrownFrame(m, m', role, role', c, f); }
  }

  // ---------- freewalk ----------

  /** Tables of root r below level l may have been freed, and entries of its tables up to
      level l cleared; nothing else changed. */
  ghost predicate Pruned(m: Phys, m': Phys, role: seq<Role>, role': seq<Role>, r: nat, l: nat) {
    && |m.frames| == |m.refs| == |role| == |role'| == |m'.frames| == |m'.refs|
    && SameRoots(role, role')
    && (forall q, v :: IsRoot(role, q) && q != r && 0 <= v < NVPN ==> Leaf(m', q, v) == Leaf(m, q, v))
    && forall g :: 0 <= g < |role| ==> PrunedFrame(m, m', role, role', r, l, g)
  }

  ghost predicate PrunedFrame(m: Phys, m': Phys, role: seq<Role>, role': seq<Role>, r: nat, l: nat, g: nat)
    requires |m.frames| == |m.refs| == |role| == |role'| == |m'.frames| == |m'.refs| && g < |role|
  {
    || (role'[g] == role[g] && (!role[g].Free? ==> m'.refs[g] == m.refs[g])
        && (!role[g].Free? && !(role[g].Tbl? && role[g].root == r && role[g].level <= l) ==>
              m'.frames[g] == m.frames[g]))
    || (role[g].Tbl? && role[g].root == r && role[g].level < l && role'[g].Free?)
  }

  lemma PrunedRefl(m: Phys, role: seq<Role>, r: nat, l: nat)
    requires |m.frames| == |m.refs| == |role|
    ensures Pruned(m, m, role, role, r, l)
  {}

  lemma PrunedTrans(m: Phys, m1: Phys, m2: Phys, role: seq<Role>, role1: seq<Role>, role2: seq<Role>, r: nat, l: nat)
    requires Pruned(m, m1, role, role1, r, l) && Pruned(m1, m2, role1, role2, r, l)
    ensures Pruned(m, m2, role, role2, r, l)
  {
    hide Leaf;
    forall g | 0 <= g < |role| ensures PrunedFrame(m, m2, role, role2, r, l, g) {
      assert PrunedFrame(m, m1, role, role1, r, l, g) && PrunedFrame(m1, m2, role1, role2, r, l, g);
    }
  }

  lemma PrunedParent(m: Phys, mc: Phys, role: seq<Role>, rolec: seq<Role>, f: nat, i: nat, c: nat)
    requires TreeInv(m, role) && TreeInv(mc, rolec) && f < |role| && role[f].Tbl? && role[f].level > 0 && i < NPTE
    requires c < |role| && role[c] == Tbl(role[f].root, role[f].level - 1, role[f].idx * NPTE + i)
    requires Pruned(m, mc, role, rolec, role[f].root, role[f].level - 1) && Emptied(mc, c)
    requires c < |rolec| && rolec[c] == role[c] && mc.refs[c] == 1
    ensures rolec[f] == role[f] && mc.frames[f] == m.frames[f] && c != f
    ensures |rolec| == |role| == |mc.frames| == |mc.refs|
    ensures mc.frames[f].Table? && |mc.frames[f].ptes| == NPTE
    ensures Unlinked(mc, SetEntry(AfterFree(mc, c), f, i, ZERO), rolec, rolec[c := Free], f, i, c)
  {
    TableShape(m, role, f);
    assert PrunedFrame(m, mc, role, rolec, role[f].root, role[f].level - 1, f);
  }

  /** Freeing the emptied child c of f and clearing its entry, after c's own subtree went. */
  lemma PrunedUnlink(m: Phys, mc: Phys, m2: Phys, role: seq<Role>, rolec: seq<Role>, role2: seq<Role>, f: nat, i: nat,
                     c: nat)
    requires TreeInv(mc, rolec) && Unlinked(mc, m2, rolec, role2, f, i, c)
    requires |rolec| == |role| && role[f] == rolec[f] && role[c] == rolec[c]
    requires Pruned(m, mc, role, rolec, role[f].root, role[f].level - 1)
    ensures Pruned(m, m2, role, role2, role[f].root, role[f].level)
    ensures TreeInv(m2, role2) && role2[f] == role[f]
    ensures LeafFree(mc, role[f].root) ==> LeafFree(m2, role[f].root)
    ensures !Entry(m2, f, i).v
    ensures forall k :: 0 <= k < NPTE && k != i ==> Entry(m2, f, k) == Entry(m, f, k)
  {
    UnlinkTable(mc, m2, rolec, role2, f, i, c);
    TableShape(mc, rolec, f);
    hide Leaf, TreeInv, LeafFree;
    forall g | 0 <= g < |role| ensures PrunedFrame(m, m2, role, role2, role[f].root, role[f].level, g) {
      assert PrunedFrame(m, mc, role, rolec, role[f].root, role[f].level - 1, g);
    }
    assert PrunedFrame(m, mc, role, rolec, role[f].root, role[f].level - 1, f);
  }

  lemma NodeEntry(m: Phys, role: seq<Role>, f: nat, k: nat)
    requires TreeInv(m, role) && f < |role| && role[f].Tbl? && LeafFree(m, role[f].root) && k < NPTE
    ensures |m.frames| == |role| && m.frames[f].Table? && |m.frames[f].ptes| == NPTE && m.refs[f] == 1
    ensures var e := m.frames[f].ptes[k];
            e.v ==> !IsLeafPte(e) && role[f].level > 0 && e.ppn < |role| && e.ppn != f
                    && role[e.ppn] == Tbl(role[f].root, role[f].level - 1, role[f].idx * NPTE + k)
  {
    assert NodeOk(m, role, f);
    var e := m.frames[f].ptes[k];
    if role[f].level == 0 {
      var v := role[f].idx * NPTE + k;
      assert v / NPTE == role[f].idx && v % NPTE == k && v < NVPN;
      assert Leaf(m, role[f].root, v) == e;
    } else {
      assert LinkOk(e, role, Tbl(role[f].root, role[f].level - 1, role[f].idx * NPTE + k));
    }
  }

  // ---------- fresh pages ----------

  ghost predicate UserDataKept(m: Phys, m': Phys, role: seq<Role>) {
    |m.frames| == |m'.frames| == |role| && forall f :: 0 <= f < |role| && role[f].User? ==> m'.frames[f] == m.frames[f]
  }

  /** Two entries that show a process the same frame with the same access. */
  predicate SameTarget(e: Pte, e': Pte) { e.v == e'.v && (e.v ==> e.ppn == e'.ppn && e.u == e'.u && e.x == e'.x) }

  lemma ViewKept(m: Phys, m': Phys, role: seq<Role>, r: nat, v: nat)
    requires UserInv(m, role) && IsRoot(role, r) && v < TRAPFRAME_VPN && UserDataKept(m, m', role)
    requires SameTarget(Leaf(m, r, v), Leaf(m', r, v))
    ensures ViewAt(m', r, v) == ViewAt(m, r, v)
  {
    hide Leaf;
    if Leaf(m, r, v).v { assert LeafOk(m, role, Leaf(m, r, v)); }
  }

  /** All views but r0's own pages, from the leaves and the user frames. */
  lemma OthersKept(m: Phys, m': Phys, role: seq<Role>, role': seq<Role>, r0: nat)
    requires UserInv(m, role) && SameRoots(role, role') && SameHeld(role, role') && UserDataKept(m, m', role)
    requires forall r, v ::
               IsRoot(role, r) && r != r0 && 0 <= v < TRAPFRAME_VPN ==> SameTarget(Leaf(m, r, v), Leaf(m', r, v))
    requires forall r, v :: IsRoot(role, r) && TRAPFRAME_VPN <= v < NVPN ==> Leaf(m', r, v) == Leaf(m, r, v)
    ensures KeepsOthers(m, m', role, role', r0)
  {
    hide Leaf, ViewAt, UserInv;
    forall r, v | IsRoot(role, r) && r != r0 && 0 <= v < TRAPFRAME_VPN ensures ViewAt(m', r, v) == ViewAt(m, r, v) {
      ViewKept(m, m', role, r, v);
    }
  }

  /** A page just allocated and then overwritten with fr. */
  function AllocFilled(m: Phys, fr: Frame): Phys
    requires m.free != [] && m.free[0] < |m.frames| == |m.refs|
  {
    AfterAlloc(m).(frames := m.frames[m.free[0] := fr])
  }

  lemma AllocFilledInv(m: Phys, role: seq<Role>, fr: Frame)
    requires MemInv(m, role) && m.free != [] && fr.Bytes? && |fr.data| == PGSIZE
    ensures m.free[0] < |role| && role[m.free[0]].Free?
    ensures MemInv(AllocFilled(m, fr), role[m.free[0] := Held])
    ensures SameLeaves(m, AllocFilled(m, fr), role, role[m.free[0] := Held])
    ensures UserDataKept(m, AllocFilled(m, fr), role)
  {
    AllocInv(m, role);
    var f := m.free[0];
    var m1, m2, role' := AfterAlloc(m), AllocFilled(m, fr), role[f := Held];
    forall g | 0 <= g < |role'| && !role'[g].Tbl? ensures m2.frames[g].Bytes? && |m2.frames[g].data| == PGSIZE {
      assert NodeOk(m1, role', g);
    }
    NonTableChange(m1, m2, role', role');
    forall g | 0 <= g < |role| && !role[g].User? ensures CountOk(m2, role', g) {
      assert CountOk(m, role, g);
    }
    UserInvFrame(m, m2, role, role');
  }

  /** Mapping succeeded: the held page f is now page v of root. */
  lemma FreshMapped(m: Phys, m': Phys, role: seq<Role>, role': seq<Role>, root: nat, v: nat, f: nat, perm: Pte)
    requires MemInv(m, role) && FreeInv(m', role') && TreeInv(m', role') && GrownFrames(m, m', role, role', root)
    requires IsRoot(role, root) && v < TRAPFRAME_VPN && !Leaf(m, root, v).v && perm.r && perm.w != perm.rsw
    requires f < |role| && role[f].Held? && LeafSet(m, m', role, role', root, v, MapPte(perm, f))
    ensures role'[f].Held? && m'.refs[f] == 1 && m'.frames[f] == m.frames[f]
    ensures MemInv(m', role'[f := User]) && SameRoots(role, role'[f := User])
    ensures UserDataKept(m, m', role)
  {
    assert GrownFrame(m, m', role, role', root, f) && CountOk(m, role, f);
    var role2 := role'[f := User];
    forall g | 0 <= g < |role| && !role2[g].Tbl?
      ensures m'.frames[g].Bytes? && |m'.frames[g].data| == PGSIZE { assert NodeOk(m', role', g); }
    NonTableChange(m', m', role', role2);
    FreshMappedCounts(m, m', role, role', root, f);
    hide Leaf;
    MapFresh(m, m', role, role2, root, v, MapPte(perm, f));
    forall g | 0 <= g < |role| && role[g].User?
      ensures m'.frames[g] == m.frames[g] { assert GrownFrame(m, m', role, role', root, g); }
  }

  lemma FreshMappedCounts(m: Phys, m': Phys, role: seq<Role>, role': seq<Role>, root: nat, f: nat)
    requires UserInv(m, role) && GrownFrames(m, m', role, role', root) && FreeInv(m', role') && TreeInv(m', role')
    requires f < |role| && role'[f].Held?
    ensures OtherCounts(m, m', role, role'[f := User], f)
  {
    forall g | 0 <= g < |role| && g != f
      ensures if role[g].User? then role'[g].User? && m'.refs[g] == m.refs[g]
              else !role'[g].User? && CountOk(m', role'[f := User], g)
    {
      assert GrownFrame(m, m', role, role', root, g) && CountOk(m, role, g) && NodeOk(m', role', g);
    }
  }

  /** Mapping failed and the page went back: nobody can tell, though tables may have been added. */
  lemma FreshReturned(m: Phys, m': Phys, role: seq<Role>, role': seq<Role>, root: nat, f: nat)
    requires MemInv(m, role) && FreeInv(m', role') && TreeInv(m', role') && Grown(m, m', role, role', root)
    requires f < |role| && role[f].Held?
    ensures role'[f].Held? && m'.refs[f] == 1
    ensures MemInv(AfterFree(m', f), role'[f := Free]) && SameLeaves(m, AfterFree(m', f), role, role'[f := Free])
    ensures UserDataKept(m, AfterFree(m', f), role)
  {
    assert GrownFrame(m, m', role, role', root, f) && CountOk(m, role, f);
    GrownUser(m, m', role, role', root);
    FreeUserTree(m', role', f);
    FreeFreeInv(m', role', f);
    hide Leaf;
    var m2, role2 := AfterFree(m', f), role'[f := Free];
    forall g | 0 <= g < |role| && !role'[g].User? ensures CountOk(m2, role2, g) { assert CountOk(m', role', g); }
    UserInvFrame(m', m2, role', role2);
    forall g | 0 <= g < |role| && role[g].User?
      ensures m2.frames[g] == m.frames[g] { assert GrownFrame(m, m', role, role', root, g); }
  }

  /** One more page below a, or none if it could not be had. */
  lemma AllocMapped(m1: Phys, m2: Phys, root: nat, a: nat, ok: bool)
    requires Mapped(m1, root, a) && a < TRAPFRAME_VPN
    requires forall u ::
               0 <= u < TRAPFRAME_VPN ==>
                 ViewAt(m2, root, u) == if ok && u == a then Some(ZeroPage()) else ViewAt(m1, root, u)
    ensures Mapped(m2, root, if ok then a + 1 else a)
  {
    hide Leaf;
    forall v | 0 <= v < TRAPFRAME_VPN ensures Leaf(m2, root, v).v <==> v < if ok then a + 1 else a {
      ViewValid(m1, root, v);
      ViewValid(m2, root, v);
    }
  }

  const USER_PERM: Pte := Pte(true, true, true, true, true, false, 0)

  lemma FreshViews(m: Phys, m2: Phys, m3: Phys, role: seq<Role>, role2: seq<Role>, role3: seq<Role>, root: nat, v: nat,
                   f: nat)
    requires MemInv(m, role) && m.free != [] && f == m.free[0] && m2 == AllocFilled(m, Filled(0))
    requires role2 == role[f := Held]
    requires MemInv(m2, role2) && SameLeaves(m, m2, role, role2) && UserDataKept(m, m2, role)
    requires FreeInv(m3, role3) && TreeInv(m3, role3) && GrownFrames(m2, m3, role2, role3, root)
    requires IsRoot(role, root) && v < TRAPFRAME_VPN && !Leaf(m, root, v).v
    requires LeafSet(m2, m3, role2, role3, root, v, MapPte(USER_PERM, f))
    ensures f < |role3| && MemInv(m3, role3[f := User]) && KeepsOthers(m, m3, role, role3[f := User], root)
    ensures forall u ::
              0 <= u < TRAPFRAME_VPN ==> ViewAt(m3, root, u) == if u == v then Some(ZeroPage()) else ViewAt(m, root, u)
    ensures Leaf(m3, root, v).v && Leaf(m3, root, v).w && Leaf(m3, root, v).u
  {
    FreshMapped(m2, m3, role2, role3, root, v, f, USER_PERM);
    var role4 := role3[f := User];
    forall g | 0 <= g < |role|
      ensures role4[g].Held? <==> role[g].Held? { assert GrownFrame(m2, m3, role2, role3, root, g); }
    hide Leaf, MemInv, GrownFrames;
    assert SameRoots(role, role4);
    assert UserDataKept(m, m3, role) by {
      forall g | 0 <= g < |role| && role[g].User? ensures m3.frames[g] == m.frames[g] { assert role2[g].User?; }
    }
    assert UserInv(m, role) by { MemParts(m, role); }
    OthersKept(m, m3, role, role4, root);
    forall u | 0 <= u < TRAPFRAME_VPN
      ensures ViewAt(m3, root, u) == if u == v then Some(ZeroPage()) else ViewAt(m, root, u) {
      if u != v { ViewKept(m, m3, role, root, u); }
    }
  }

  lemma TreeLens(m: Phys, role: seq<Role>)
    requires TreeInv(m, role)
    ensures |m.frames| == |m.refs| == |role|
  {}

  lemma MemParts(m: Phys, role: seq<Role>)
    requires MemInv(m, role)
    ensures FreeInv(m, role) && TreeInv(m, role) && UserInv(m, role) && |m.frames| == |m.refs| == |role|
  {}

  lemma FreshNotViews(m: Phys, m2: Phys, m3: Phys, role: seq<Role>, role2: seq<Role>, role3: seq<Role>, root: nat,
                      f: nat)
    requires MemInv(m, role) && m.free != [] && f == m.free[0] && m2 == AllocFilled(m, Filled(0))
    requires role2 == role[f := Held]
    requires MemInv(m2, role2) && SameLeaves(m, m2, role, role2) && UserDataKept(m, m2, role)
    requires FreeInv(m3, role3) && TreeInv(m3, role3) && Grown(m2, m3, role2, role3, root)
    requires IsRoot(role, root)
    ensures |m3.frames| == |m3.refs| == |role3| == |role| && f < |role| && role3[f].Held? && m3.refs[f] == 1
    ensures MemInv(AfterFree(m3, f), role3[f := Free]) && KeepsOthers(m, AfterFree(m3, f), role, role3[f := Free], root)
    ensures forall u :: 0 <= u < TRAPFRAME_VPN ==> ViewAt(AfterFree(m3, f), root, u) == ViewAt(m, root, u)
  {
    assert role[f].Free?;
    FreshReturned(m2, m3, role2, role3, root, f);
    var m4, role4 := AfterFree(m3, f), role3[f := Free];
    forall g | 0 <= g < |role|
      ensures role4[g].Held? <==> role[g].Held? { assert GrownFrame(m2, m3, role2, role3, root, g); }
    hide Leaf, GrownFrames;
    assert UserDataKept(m, m4, role) by {
      forall g | 0 <= g < |role| && role[g].User? ensures m4.frames[g] == m.frames[g] { assert role2[g].User?; }
    }
    OthersKept(m, m4, role, role4, root);
    forall u | 0 <= u < TRAPFRAME_VPN ensures ViewAt(m4, root, u) == ViewAt(m, root, u) {
      ViewKept(m, m4, role, root, u);
    }
  }

  lemma OnePage(v: nat)
    ensures (v * PGSIZE) / PGSIZE == v && (v * PGSIZE + PGSIZE - 1) / PGSIZE == v
  {}

  lemma RangeOne(m: Phys, m': Phys, role: seq<Role>, role': seq<Role>, r0: nat, v: nat, done: nat, ppn: nat, perm: Pte)
    requires RangeMapped(m, m', role, role', r0, v, done, ppn, perm) && done <= 1
    ensures if done == 1 then LeafSet(m, m', role, role', r0, v, MapPte(perm, ppn)) else SameLeaves(m, m', role, role')
  {
    hide Leaf;
  }

  lemma ViewValid(m: Phys, r: nat, v: nat)
    ensures ViewAt(m, r, v).Some? <==> Leaf(m, r, v).v
  {}

  // ---------- breaking sharing ----------

  /** Page v of root refers to a frame nobody else refers to, and the process may use it as before. */
  ghost predicate Private(m: Phys, role: seq<Role>, root: nat, v: nat) {
    var e := Leaf(m, root, v);
    e.v && e.ppn < |role| == |m.refs| == |m.frames| && role[e.ppn].User? && m.refs[e.ppn] == 1
  }

  /** Only r0's flags or frames changed, and not what anyone sees. */
  ghost predicate SameViews(m: Phys, m': Phys, role: seq<Role>, role': seq<Role>, root: nat) {
    && KeepsOthers(m, m', role, role', root)
    && forall u :: 0 <= u < TRAPFRAME_VPN ==> ViewAt(m', root, u) == ViewAt(m, root, u)
  }

  /** The sole reference is made writable in place. */
  lemma TakeOver(m: Phys, role: seq<Role>, root: nat, v: nat, low: nat, e: Pte)
    requires MemInv(m, role) && IsRoot(role, root) && v < TRAPFRAME_VPN && Private(m, role, root, v)
    requires low < |role| && role[low] == Tbl(root, 0, v / NPTE) && e == Leaf(m, root, v).(w := true, rsw := false)
    ensures m.frames[low].Table? && |m.frames[low].ptes| == NPTE
    ensures var m' := SetEntry(m, low, v % NPTE, e);
            && MemInv(m', role) && SameViews(m, m', role, role, root) && Private(m', role, root, v)
            && Leaf(m', root, v) == e
  {
    TableShape(m, role, low);
    UserLeaf(m, role, root, v);
    LeafWrite(m, role, low, v % NPTE, e);
    var m' := SetEntry(m, low, v % NPTE, e);
    FreeInvFrames(m, m', role);
    hide Leaf;
    Reflag(m, m', role, root, v, e);
    TakenViews(m, m', role, root, v, e);
  }

  lemma TakenViews(m: Phys, m': Phys, role: seq<Role>, root: nat, v: nat, e: Pte)
    requires UserInv(m, role) && IsRoot(role, root) && v < TRAPFRAME_VPN && SameTarget(Leaf(m, root, v), e)
    requires LeafSet(m, m', role, role, root, v, e) && UserDataKept(m, m', role) && |m'.refs| == |role|
    ensures SameViews(m, m', role, role, root)
  {
    hide Leaf, UserInv;
    forall u | 0 <= u < TRAPFRAME_VPN
      ensures ViewAt(m', root, u) == ViewAt(m, root, u) { ViewKept(m, m', role, root, u); }
    OthersKept(m, m', role, role, root);
  }

  lemma AllocFilledInvOf(m: Phys, role: seq<Role>, f: nat)
    requires MemInv(m, role) && m.free != [] && f < |role| && role[f].User?
    ensures m.free[0] < |role| && role[m.free[0]].Free? && f < |m.frames| == |m.refs|
    ensures MemInv(AllocFilled(m, m.frames[f]), role[m.free[0] := Held])
    ensures SameLeaves(m, AllocFilled(m, m.frames[f]), role, role[m.free[0] := Held])
  {
    assert NodeOk(m, role, f);
    AllocFilledInv(m, role, m.frames[f]);
  }

  /** The table for page v is still where it was. */
  lemma CopyPath(m: Phys, m2: Phys, role: seq<Role>, root: nat, v: nat, low: nat)
    requires MemInv(m, role) && v < NVPN && low < |role| && role[low] == Tbl(root, 0, v / NPTE)
    requires m.free != [] && m.free[0] < |role| && role[m.free[0]].Free? && MemInv(m2, role[m.free[0] := Held])
    ensures NodeAt(m2, root, 0, v / NPTE) < |role|
  {
    assert NodeOk(m2, role[m.free[0] := Held], low);
  }

  /** The entry moves to the copy g of its frame, which gives up one reference. */
  lemma CopyMapped(m: Phys, m2: Phys, m3: Phys, role: seq<Role>, root: nat, v: nat, g: nat, e: Pte)
    requires MemInv(m, role) && IsRoot(role, root) && v < TRAPFRAME_VPN && Leaf(m, root, v).v
    requires m.free != [] && g == m.free[0] && g < |role|
    requires var f := Leaf(m, root, v).ppn; f < |m.frames| && m2 == AllocFilled(m, m.frames[f]) && m.refs[f] > 1
    requires e.r && e.w != e.rsw && e.v && e.ppn == g && e.u == Leaf(m, root, v).u && e.x == Leaf(m, root, v).x
    requires m3.refs == m2.refs && m3.free == m2.free && TreeInv(m3, role[g := Held]) && FreeInv(m3, role[g := Held])
    requires LeafSet(m2, m3, role[g := Held], role[g := Held], root, v, e)
    requires GrownFrames(m2, m3, role[g := Held], role[g := Held], root)
    ensures var f := Leaf(m, root, v).ppn;
            f < |m3.refs| && m3.refs[f] > 1 && !role[f].Free? && f != g && |m3.frames| == |m3.refs| == |role|
    ensures var m4, role4 := AfterFree(m3, Leaf(m, root, v).ppn), role[g := User];
            && MemInv(m4, role4) && SameViews(m, m4, role, role4, root) && Private(m4, role4, root, v)
            && Leaf(m4, root, v) == e
  {
    hide Leaf, GrownFrames, ViewAt, TreeInv, FreeInv, UserInv, UserDataKept, LeafSet;
    var f := Leaf(m, root, v).ppn;
    var role2, role4 := role[g := Held], role[g := User];
    UserLeaf(m, role, root, v);
    UserFrame(m, role, f);
    MemParts(m, role);
    TreeLens(m3, role2);
    AllocFilledInv(m, role, m.frames[f]);
    var m4 := AfterFree(m3, f);
    CopyMappedTree(m3, role2, f, g);
    CopyMappedFrames(m, m2, m3, m4, role, root, f, g);
    LeafSetThrough(m, m2, m3, m4, role, role2, role4, root, v, e);
    Remap(m2, m4, role2, role4, root, v, e);
    CopyMappedViews(m, m4, role, role4, root, v, e);
  }

  lemma LeafSetThrough(m: Phys, m2: Phys, m3: Phys, m4: Phys, role: seq<Role>, role2: seq<Role>, role4: seq<Role>,
                       root: nat, v: nat, e: Pte)
    requires IsRoot(role, root) && v < NVPN && SameLeaves(m, m2, role, role2)
    requires LeafSet(m2, m3, role2, role2, root, v, e) && SameLeaves(m3, m4, role2, role4)
    ensures LeafSet(m2, m4, role2, role4, root, v, e) && LeafSet(m, m4, role, role4, root, v, e)
    ensures Leaf(m4, root, v) == e && Leaf(m2, root, v) == Leaf(m, root, v)
  {
    hide Leaf;
  }

  lemma CopyMappedViews(m: Phys, m4: Phys, role: seq<Role>, role4: seq<Role>, root: nat, v: nat, e: Pte)
    requires UserInv(m, role) && IsRoot(role, root) && v < TRAPFRAME_VPN && LeafSet(m, m4, role, role4, root, v, e)
    requires Leaf(m, root, v).v && e.v && e.u == Leaf(m, root, v).u && e.x == Leaf(m, root, v).x && e.ppn < |m4.frames|
    requires Leaf(m, root, v).ppn < |m.frames| && m4.frames[e.ppn] == m.frames[Leaf(m, root, v).ppn]
    requires UserDataKept(m, m4, role) && SameHeld(role, role4)
    ensures SameViews(m, m4, role, role4, root)
  {
    hide Leaf, UserInv;
    forall u | 0 <= u < TRAPFRAME_VPN ensures ViewAt(m4, root, u) == ViewAt(m, root, u) {
      if u != v { ViewKept(m, m4, role, root, u); }
    }
    OthersKept(m, m4, role, role4, root);
  }

  lemma CopyMappedTree(m3: Phys, role2: seq<Role>, f: nat, g: nat)
    requires TreeInv(m3, role2) && FreeInv(m3, role2) && f < |role2| && g < |role2| && f != g
    requires role2[f].User? && role2[g].Held? && m3.refs[f] > 1
    ensures TreeInv(AfterFree(m3, f), role2[g := User]) && FreeInv(AfterFree(m3, f), role2[g := User])
    ensures SameLeaves(m3, AfterFree(m3, f), role2, role2[g := User])
  {
    var m4, role4 := AfterFree(m3, f), role2[g := User];
    forall h | 0 <= h < |role4| && !role4[h].Tbl?
      ensures m4.frames[h].Bytes? && |m4.frames[h].data| == PGSIZE { assert NodeOk(m3, role2, h); }
    NonTableChange(m3, m4, role2, role4);
  }

  lemma CopyMappedFrames(m: Phys, m2: Phys, m3: Phys, m4: Phys, role: seq<Role>, root: nat, f: nat, g: nat)
    requires |m.frames| == |m.refs| == |role| && f < |role| && g < |role| && role[f].User? && role[g].Free?
    requires m.free != [] && g == m.free[0]
    requires m2 == AllocFilled(m, m.frames[f]) && GrownFrames(m2, m3, role[g := Held], role[g := Held], root)
    requires m3.refs[f] > 1 && m4 == AfterFree(m3, f)
    ensures UserDataKept(m, m4, role) && m4.frames[g] == m.frames[f] && SameHeld(role, role[g := User])
  {
    forall h | 0 <= h < |role| && (role[h].User? || h == g) ensures m3.frames[h] == m2.frames[h] {
      assert GrownFrame(m2, m3, role[g := Held], role[g := Held], root, h);
    }
  }

  // ---------- writing user memory ----------

  lemma UserFrame(m: Phys, role: seq<Role>, f: nat)
    requires TreeInv(m, role) && f < |role| && !role[f].Tbl?
    ensures |m.frames| == |role| && m.frames[f].Bytes? && |m.frames[f].data| == PGSIZE
  {
    assert NodeOk(m, role, f);
  }

  /** Storing into a page with one reference is seen by its owner only. */
  lemma WritePrivate(m: Phys, m': Phys, role: seq<Role>, root: nat, v: nat, fr: Frame)
    requires MemInv(m, role) && IsRoot(role, root) && v < TRAPFRAME_VPN && Private(m, role, root, v)
    requires fr.Bytes? && |fr.data| == PGSIZE && m' == m.(frames := m.frames[Leaf(m, root, v).ppn := fr])
    ensures MemInv(m', role) && KeepsOthers(m, m', role, role, root)
    ensures forall u :: 0 <= u < TRAPFRAME_VPN ==>
              ViewAt(m', root, u) ==
              if u == v then Some(Page(fr.data, Leaf(m, root, v).u, Leaf(m, root, v).x)) else ViewAt(m, root, u)
  {
    var f := Leaf(m, root, v).ppn;
    FreeInvFrames(m, m', role);
    forall g | 0 <= g < |role| && !role[g].Tbl?
      ensures m'.frames[g].Bytes? && |m'.frames[g].data| == PGSIZE { assert NodeOk(m, role, g); }
    NonTableChange(m, m', role, role);
    forall g | 0 <= g < |role| && !role[g].User? ensures CountOk(m', role, g) { assert CountOk(m, role, g); }
    UserInvFrame(m, m', role, role);
    hide Leaf;
    forall r, u | IsRoot(role, r) && 0 <= u < TRAPFRAME_VPN && (r != root || u != v)
      ensures ViewAt(m', r, u) == ViewAt(m, r, u) {
      if Leaf(m, r, u).v && Leaf(m, r, u).ppn == f { SoleOwner(m, role, root, v, r, u); }
    }
  }

  function Overlay(o: Option<Page>, u: nat, a: nat, src: seq<byte>): Option<Page> {
    if o.None? then None else Some(o.value.(data := Overwrite(o.value.data, a - u * PGSIZE, src)))
  }

  /** Address b is one the process may use. */
  ghost predicate Usable(m: Phys, root: nat, b: nat) {
    b / PGSIZE < TRAPFRAME_VPN && Leaf(m, root, b / PGSIZE).v && Leaf(m, root, b / PGSIZE).u
  }

  ghost predicate Overlaid(m: Phys, m': Phys, root: nat, a: nat, src: seq<byte>) {
    forall u :: 0 <= u < TRAPFRAME_VPN ==> ViewAt(m', root, u) == Overlay(ViewAt(m, root, u), u, a, src)
  }

  lemma OverwriteTwice(d: seq<byte>, x: int, s1: seq<byte>, s2: seq<byte>)
    ensures Overwrite(Overwrite(d, x, s1), x + |s1|, s2) == Overwrite(d, x, s1 + s2)
  {}

  lemma OverwriteOutside(d: seq<byte>, x: int, s: seq<byte>)
    requires x >= |d| || x + |s| <= 0
    ensures Overwrite(d, x, s) == d
  {}

  lemma OverlaidRefl(m: Phys, root: nat, a: nat)
    ensures Overlaid(m, m, root, a, [])
  {
    forall u | 0 <= u < TRAPFRAME_VPN ensures ViewAt(m, root, u) == Overlay(ViewAt(m, root, u), u, a, []) {
      if ViewAt(m, root, u).Some? {
        assert Overwrite(ViewAt(m, root, u).value.data, a - u * PGSIZE, []) == ViewAt(m, root, u).value.data;
      }
    }
  }

  lemma OverlaidSame(m: Phys, m1: Phys, m2: Phys, root: nat, a: nat, src: seq<byte>)
    requires Overlaid(m, m1, root, a, src)
    requires forall u :: 0 <= u < TRAPFRAME_VPN ==> ViewAt(m2, root, u) == ViewAt(m1, root, u)
    ensures Overlaid(m, m2, root, a, src)
  {
    hide ViewAt;
  }

  /** One more chunk, all of it within page v. */
  lemma OverlaidMore(m: Phys, m1: Phys, m2: Phys, root: nat, a: nat, src: seq<byte>, chunk: seq<byte>, v: nat)
    requires Overlaid(m, m1, root, a, src) && v < TRAPFRAME_VPN
    requires forall u ::
               0 <= u < TRAPFRAME_VPN && ViewAt(m1, root, u).Some? ==> |ViewAt(m1, root, u).value.data| == PGSIZE
    requires v * PGSIZE <= a + |src| && a + |src| + |chunk| <= v * PGSIZE + PGSIZE
    requires forall u :: 0 <= u < TRAPFRAME_VPN ==>
               ViewAt(m2, root, u) ==
                 if u == v then Overlay(ViewAt(m1, root, v), v, a + |src|, chunk) else ViewAt(m1, root, u)
    ensures Overlaid(m, m2, root, a, src + chunk)
  {
    hide ViewAt;
    forall u | 0 <= u < TRAPFRAME_VPN ensures ViewAt(m2, root, u) == Overlay(ViewAt(m, root, u), u, a, src + chunk) {
      if ViewAt(m, root, u).Some? {
        var d, d1 := ViewAt(m, root, u).value.data, ViewAt(m1, root, u).value.data;
        OverwriteTwice(d, a - u * PGSIZE, src, chunk);
        if u != v {
          assert a + |src| - u * PGSIZE >= PGSIZE || a + |src| - u * PGSIZE + |chunk| <= 0;
          OverwriteOutside(d1, a + |src| - u * PGSIZE, chunk);
        }
      }
    }
  }

  lemma ViewLength(m: Phys, role: seq<Role>, root: nat)
    requires MemInv(m, role) && IsRoot(role, root)
    ensures forall u :: 0 <= u < TRAPFRAME_VPN && ViewAt(m, root, u).Some? ==> |ViewAt(m, root, u).value.data| == PGSIZE
  {
    hide Leaf;
    forall u | 0 <= u < TRAPFRAME_VPN && ViewAt(m, root, u).Some? ensures |ViewAt(m, root, u).value.data| == PGSIZE {
      assert LeafOk(m, role, Leaf(m, root, u));
      UserFrame(m, role, Leaf(m, root, u).ppn);
    }
  }

  datatype Prepared = Ready | NotUser | NoMemory

  lemma SameViewsRefl(m: Phys, role: seq<Role>, root: nat)
    ensures SameViews(m, m, role, role, root)
  {}

  lemma SameViewsLeaf(m: Phys, m': Phys, role: seq<Role>, role': seq<Role>, root: nat, v: nat)
    requires SameViews(m, m', role, role', root) && v < TRAPFRAME_VPN
    ensures Leaf(m', root, v).v == Leaf(m, root, v).v
    ensures (Leaf(m, root, v).v ==> Leaf(m', root, v).u == Leaf(m, root, v).u)
  {
    hide Leaf, KeepsOthers;
    assert ViewAt(m', root, v) == ViewAt(m, root, v);
  }

  lemma PrivateParts(m: Phys, role: seq<Role>, root: nat, v: nat)
    requires MemInv(m, role) && Private(m, role, root, v)
    ensures FreeInv(m, role) && TreeInv(m, role) && Leaf(m, root, v).v && Leaf(m, root, v).ppn < |m.frames|
    ensures m.frames[Leaf(m, root, v).ppn].Bytes?
  {
    UserFrame(m, role, Leaf(m, root, v).ppn);
  }

  /** The loop state of copyout: a prefix has been laid over what the process saw at the start. */
  ghost predicate CopiedOut(m: Phys, m': Phys, role: seq<Role>, role': seq<Role>, root: nat, a: nat, src: seq<byte>) {
    && MemInv(m', role') && IsRoot(role', root)
    && KeepsOthers(m, m', role, role', root) && Overlaid(m, m', root, a, src)
    && forall b :: a <= b < a + |src| ==> Usable(m, root, b)
  }

  lemma CopiedOutParts(m: Phys, m': Phys, role: seq<Role>, role': seq<Role>, root: nat, a: nat, src: seq<byte>)
    requires CopiedOut(m, m', role, role', root, a, src)
    ensures MemInv(m', role') && IsRoot(role', root) && IsRoot(role, root)
    ensures forall v :: TRAPFRAME_VPN <= v < NVPN ==> Leaf(m', root, v) == Leaf(m, root, v)
  {
    hide Leaf;
  }

  lemma CopiedOutRefl(m: Phys, role: seq<Role>, root: nat, a: nat)
    requires MemInv(m, role) && IsRoot(role, root)
    ensures CopiedOut(m, m, role, role, root, a, [])
  {
    OverlaidRefl(m, root, a);
  }

  lemma CopiedOutBreak(m: Phys, m1: Phys, m2: Phys, role: seq<Role>, role1: seq<Role>, role2: seq<Role>, root: nat,
                       a: nat, src: seq<byte>)
    requires CopiedOut(m, m1, role, role1, root, a, src) && SameViews(m1, m2, role1, role2, root) && MemInv(m2, role2)
    ensures CopiedOut(m, m2, role, role2, root, a, src)
    ensures forall u ::
              0 <= u < TRAPFRAME_VPN ==>
                && Leaf(m2, root, u).v == Leaf(m1, root, u).v
                && (Leaf(m1, root, u).v ==> Leaf(m2, root, u).u == Leaf(m1, root, u).u)
  {
    KeepsOthersTrans(m, m1, m2, role, role1, role2, root);
    OverlaidSame(m, m1, m2, root, a, src);
    hide Leaf, MemInv;
    forall u | 0 <= u < TRAPFRAME_VPN
      ensures Leaf(m2, root, u).v == Leaf(m1, root, u).v
      ensures (Leaf(m1, root, u).v ==> Leaf(m2, root, u).u == Leaf(m1, root, u).u) {
      assert ViewAt(m2, root, u) == ViewAt(m1, root, u);
    }
  }

  lemma UsableKept(m: Phys, m': Phys, role: seq<Role>, role': seq<Role>, root: nat, a: nat, src: seq<byte>, b: nat)
    requires CopiedOut(m, m', role, role', root, a, src)
    ensures Usable(m', root, b) <==> Usable(m, root, b)
  {
    hide Leaf, MemInv, KeepsOthers;
    if b / PGSIZE < TRAPFRAME_VPN {
      assert ViewAt(m', root, b / PGSIZE) == Overlay(ViewAt(m, root, b / PGSIZE), b / PGSIZE, a, src);
    }
  }

  lemma CopiedOutWrite(m: Phys, m1: Phys, m2: Phys, role: seq<Role>, role1: seq<Role>, root: nat, a: nat,
                       src: seq<byte>, chunk: seq<byte>, v: nat)
    requires CopiedOut(m, m1, role, role1, root, a, src) && v < TRAPFRAME_VPN && Private(m1, role1, root, v)
    requires Leaf(m1, root, v).u
    requires v * PGSIZE <= a + |src| && a + |src| + |chunk| <= v * PGSIZE + PGSIZE
    requires var f := Leaf(m1, root, v).ppn;
             && m1.frames[f].Bytes?
             && m2 == m1.(frames := m1.frames[f := Bytes(Overwrite(m1.frames[f].data, a + |src| - v * PGSIZE, chunk))])
    ensures CopiedOut(m, m2, role, role1, root, a, src + chunk)
  {
    var f := Leaf(m1, root, v).ppn;
    UserFrame(m1, role1, f);
    WritePrivate(m1, m2, role1, root, v, m2.frames[f]);
    ViewLength(m1, role1, root);
    OverlaidMore(m, m1, m2, root, a, src, chunk, v);
    KeepsOthersTrans(m, m1, m2, role, role1, role1, root);
    hide Leaf, MemInv, KeepsOthers, Overlaid;
    forall b | a <= b < a + |src + chunk| ensures Usable(m, root, b) {
      if b >= a + |src| {
        assert b / PGSIZE == v;
        assert Usable(m1, root, b);
        UsableKept(m, m1, role, role1, root, a, src, b);
      }
    }
  }

  // ---------- from page tables to the world of processes ----------

  lemma WritableIff(m: Phys, root: nat, sz: nat, b: nat)
    requires Mapped(m, root, Pages(sz)) && Pages(sz) <= TRAPFRAME_VPN
    ensures Writable(SpaceOf(m, root, sz), b) <==> Usable(m, root, b)
  {
    hide Leaf;
  }

  lemma OverlaidSpace(m: Phys, m': Phys, root: nat, sz: nat, a: nat, src: seq<byte>)
    requires Mapped(m, root, Pages(sz)) && Pages(sz) <= TRAPFRAME_VPN && Overlaid(m, m', root, a, src)
    ensures Mapped(m', root, Pages(sz))
    ensures SpaceOf(m', root, sz) == SpaceOf(m, root, sz).(pages := WriteBytes(SpaceOf(m, root, sz).pages, a, src))
  {
    hide Leaf, Overwrite;
    forall v | 0 <= v < TRAPFRAME_VPN ensures Leaf(m', root, v).v == Leaf(m, root, v).v {
      assert ViewAt(m', root, v) == Overlay(ViewAt(m, root, v), v, a, src);
    }
    var s, s' := SpaceOf(m, root, sz), SpaceOf(m', root, sz);
    forall v | 0 <= v < Pages(sz) ensures s'.pages[v] == WriteBytes(s.pages, a, src)[v] {
      assert ViewAt(m', root, v) == Overlay(ViewAt(m, root, v), v, a, src);
    }
  }

  /** An operation that laid src over process p's memory at address a. */
  lemma OverlaidWorld(m: Phys, m': Phys, role: seq<Role>, role': seq<Role>, proc: seq<Slot>, p: nat, trampoline: nat,
                      a: nat, src: seq<byte>)
    requires ProcInv(m, role, proc, trampoline) && p < |proc| && proc[p].Used?
    requires CopiedOut(m, m', role, role', proc[p].root, a, src)
    ensures ProcInv(m', role', proc, trampoline) && p in View(m, proc)
    ensures View(m', proc) == Write(View(m, proc), p, a, src)
    ensures forall b :: a <= b < a + |src| ==> Writable(View(m, proc)[p], b)
  {
    var root, sz := proc[p].root, proc[p].sz;
    assert SlotOk(m, role, proc[p], trampoline);
    OverlaidSpace(m, m', root, sz, a, src);
    ProcKept(m, m', role, role', proc, p, sz, trampoline);
    assert proc[p := proc[p].(sz := sz)] == proc;
    forall b | a <= b < a + |src| ensures Writable(View(m, proc)[p], b) { WritableIff(m, root, sz, b); }
  }

  lemma StoreSteps(m: Phys, role: seq<Role>, proc: seq<Slot>, p: nat, trampoline: nat, a: nat, b: byte)
    requires ProcInv(m, role, proc, trampoline) && p < |proc| && proc[p].Used?
    ensures Usable(m, proc[p].root, a) ==> Step(View(m, proc), OpStore(p, a, b), Oom(0), View(m, proc))
    ensures !Usable(m, proc[p].root, a) ==> Step(View(m, proc), OpStore(p, a, b), Fault(0), View(m, proc))
  {
    hide Leaf, SpaceOf;
    assert SlotOk(m, role, proc[p], trampoline);
    WritableIff(m, proc[p].root, proc[p].sz, a);
  }

  lemma StoreDone(m: Phys, m': Phys, role: seq<Role>, role': seq<Role>, proc: seq<Slot>, p: nat, trampoline: nat,
                  a: nat, b: byte)
    requires ProcInv(m, role, proc, trampoline) && p < |proc| && proc[p].Used?
    requires CopiedOut(m, m', role, role', proc[p].root, a, [b])
    ensures ProcInv(m', role', proc, trampoline) && Step(View(m, proc), OpStore(p, a, b), Done(0), View(m', proc))
  {
    OverlaidWorld(m, m', role, role', proc, p, trampoline, a, [b]);
    hide View, CopiedOut, ProcInv, WriteBytes;
  }

  lemma CopyoutDone(m: Phys, m': Phys, role: seq<Role>, role': seq<Role>, proc: seq<Slot>, p: nat, trampoline: nat,
                    a: nat, src: seq<byte>,
                    out: Outcome, count: nat)
    requires ProcInv(m, role, proc, trampoline) && p < |proc| && proc[p].Used? && count <= |src|
    requires CopiedOut(m, m', role, role', proc[p].root, a, src[..count])
    requires (out == Done(0) && count == |src|)
             || (count < |src| && (out == Oom(count) || (out == Fault(count) && !Usable(m, proc[p].root, a + count))))
    ensures ProcInv(m', role', proc, trampoline) && Step(View(m, proc), OpCopyout(p, a, src), out, View(m', proc))
  {
    hide Leaf, CopiedOut, ProcInv, WriteBytes, SpaceOf, Step;
    OverlaidWorld(m, m', role, role', proc, p, trampoline, a, src[..count]);
    SpecialNotUser(m, role, proc, p, trampoline);
    WritableIff(m, proc[p].root, proc[p].sz, a + count);
    CopyoutStep(View(m, proc), View(m', proc), p, a, src, out, count);
  }

  lemma CopyoutStep(w: World, w': World, p: nat, a: nat, src: seq<byte>, out: Outcome, count: nat)
    requires p in w && count <= |src| && w' == Write(w, p, a, src[..count])
    requires forall b :: a <= b < a + count ==> Writable(w[p], b)
    requires (out == Done(0) && count == |src|)
             || (count < |src| && (out == Oom(count) || (out == Fault(count) && !Writable(w[p], a + count))))
    ensures Step(w, OpCopyout(p, a, src), out, w')
  {
    hide WriteBytes, Writable;
    if count == |src| { assert src[..count] == src; }
  }

  lemma SpecialNotUser(m: Phys, role: seq<Role>, proc: seq<Slot>, p: nat, trampoline: nat)
    requires ProcInv(m, role, proc, trampoline) && p < |proc| && proc[p].Used?
    ensures IsRoot(role, proc[p].root) && proc[p].sz < UINT_LIMIT && Pages(proc[p].sz) <= TRAPFRAME_VPN
    ensures Mapped(m, proc[p].root, Pages(proc[p].sz))
    ensures forall v :: TRAPFRAME_VPN <= v < NVPN ==> !Leaf(m, proc[p].root, v).u
  {
    hide Leaf;
    assert SlotOk(m, role, proc[p], trampoline);
    forall v | TRAPFRAME_VPN <= v < NVPN
      ensures !Leaf(m, proc[p].root, v).u { assert v == TRAPFRAME_VPN || v == TRAMPOLINE_VPN; }
  }

  lemma UserLeafMaybe(m: Phys, role: seq<Role>, root: nat, v: nat)
    requires UserInv(m, role) && IsRoot(role, root)
    ensures v < TRAPFRAME_VPN && Leaf(m, root, v).v ==> Leaf(m, root, v).w != Leaf(m, root, v).rsw
  {
    if v < TRAPFRAME_VPN && Leaf(m, root, v).v { assert LeafOk(m, role, Leaf(m, root, v)); }
  }

  /** A page mapped writable has one reference. */
  lemma WritablePrivate(m: Phys, role: seq<Role>, root: nat, v: nat)
    requires UserInv(m, role) && IsRoot(role, root) && v < TRAPFRAME_VPN && Leaf(m, root, v).v && Leaf(m, root, v).w
    ensures Private(m, role, root, v)
  {
    assert LeafOk(m, role, Leaf(m, root, v));
  }

  /** The rest of a page a process may use, as the process sees it. */
  lemma ReadChunk(m: Phys, role: seq<Role>, proc: seq<Slot>, p: nat, trampoline: nat, a: nat, n: nat)
    requires MemInv(m, role) && ProcInv(m, role, proc, trampoline) && p < |proc| && proc[p].Used?
    requires Usable(m, proc[p].root, a) && a % PGSIZE + n <= PGSIZE
    ensures var f := Leaf(m, proc[p].root, a / PGSIZE).ppn;
            && f < |m.frames| && m.frames[f].Bytes? && |m.frames[f].data| == PGSIZE && p in View(m, proc)
            && Reads(View(m, proc)[p], a, m.frames[f].data[a % PGSIZE..a % PGSIZE + n])
  {
    hide Leaf, MemInv, ProcInv, Writable, ByteOf, View, IsRoot, Mapped;
    var root := proc[p].root;
    SpecialNotUser(m, role, proc, p, trampoline);
    UsableBytes(m, role, root, a);
    InView(m, proc, p);
    var f := Leaf(m, root, a / PGSIZE).ppn;
    var bytes := m.frames[f].data[a % PGSIZE..a % PGSIZE + n];
    forall b | a <= b < a + |bytes|
      ensures Writable(View(m, proc)[p], b) && bytes[b - a] == ByteOf(View(m, proc)[p], b) {
      SamePage(a, b);
      ReadByte(m, proc, p, b);
    }
  }

  lemma SamePage(a: nat, b: nat)
    requires a <= b && a % PGSIZE + (b - a) < PGSIZE
    ensures b / PGSIZE == a / PGSIZE && b % PGSIZE == a % PGSIZE + (b - a)
  {}

  lemma UsableBytes(m: Phys, role: seq<Role>, root: nat, a: nat)
    requires MemInv(m, role) && IsRoot(role, root) && Usable(m, root, a)
    ensures var f := Leaf(m, root, a / PGSIZE).ppn; f < |m.frames| && m.frames[f].Bytes? && |m.frames[f].data| == PGSIZE
  {
    MemParts(m, role);
    assert LeafOk(m, role, Leaf(m, root, a / PGSIZE));
    UserBytes(m, role, Leaf(m, root, a / PGSIZE).ppn);
  }

  lemma ReadByte(m: Phys, proc: seq<Slot>, p: nat, b: nat)
    requires p < |proc| && proc[p].Used? && Mapped(m, proc[p].root, Pages(proc[p].sz))
    requires Pages(proc[p].sz) <= TRAPFRAME_VPN && Usable(m, proc[p].root, b)
    requires var f := Leaf(m, proc[p].root, b / PGSIZE).ppn;
             f < |m.frames| && m.frames[f].Bytes? && |m.frames[f].data| == PGSIZE
    ensures p in View(m, proc) && Writable(View(m, proc)[p], b)
    ensures ByteOf(View(m, proc)[p], b) == m.frames[Leaf(m, proc[p].root, b / PGSIZE).ppn].data[b % PGSIZE]
  {
    hide Leaf;
    WritableIff(m, proc[p].root, proc[p].sz, b);
  }

  lemma UserBytes(m: Phys, role: seq<Role>, f: nat)
    requires TreeInv(m, role) && f < |role| && role[f].User?
    ensures f < |m.frames| && m.frames[f].Bytes? && |m.frames[f].data| == PGSIZE
  {
    assert NodeOk(m, role, f);
  }

  lemma NotReadable(m: Phys, role: seq<Role>, proc: seq<Slot>, p: nat, trampoline: nat, a: nat)
    requires ProcInv(m, role, proc, trampoline) && p < |proc| && proc[p].Used? && !Usable(m, proc[p].root, a)
    ensures p in View(m, proc) && !Writable(View(m, proc)[p], a)
  {
    SpecialNotUser(m, role, proc, p, trampoline);
    hide Leaf, ProcInv;
    WritableIff(m, proc[p].root, proc[p].sz, a);
  }

  lemma ReadsNone(s: Space, a: nat)
    ensures Reads(s, a, [])
  {}

  lemma ReadsMore(s: Space, a: nat, x: seq<byte>, y: seq<byte>)
    requires Reads(s, a, x) && Reads(s, a + |x|, y)
    ensures Reads(s, a, x + y)
  {
    hide ByteOf, Writable;
  }

  // ---------- growing and shrinking ----------

  /** What every process sees is an address space of whole pages that just cover its size. */
  lemma SpacesShaped(m: Phys, role: seq<Role>, proc: seq<Slot>, trampoline: nat, p: nat)
    requires MemInv(m, role) && ProcInv(m, role, proc, trampoline) && p in View(m, proc)
    ensures Shaped(View(m, proc)[p]) && View(m, proc)[p].sz == proc[p].sz
  {
    hide Leaf;
    var r := proc[p].root;
    assert SlotOk(m, role, proc[p], trampoline);
    forall v | 0 <= v < Pages(proc[p].sz) ensures ViewAt(m, r, v).Some? && |ViewAt(m, r, v).value.data| == PGSIZE {
      var e := Leaf(m, r, v);
      assert LeafOk(m, role, e);
      assert NodeOk(m, role, e.ppn);
    }
  }

  lemma ResizeGrow(m: Phys, m': Phys, root: nat, sz: nat, n: int)
    requires 0 < n && sz < UINT_LIMIT && NewSize(sz, n) >= sz
    requires Mapped(m, root, Pages(sz))
    requires forall v :: 0 <= v < Pages(NewSize(sz, n)) ==>
               ViewAt(m', root, v) == if v < Pages(sz) then ViewAt(m, root, v) else Some(ZeroPage())
    ensures SpaceOf(m', root, NewSize(sz, n)) == Resize(SpaceOf(m, root, sz), n)
  {
    hide ViewAt, ZeroPage;
    assert Pages(sz) <= Pages(NewSize(sz, n));
  }

  lemma ResizeShrink(m: Phys, m': Phys, root: nat, sz: nat, n: int)
    requires n < 0 && sz < UINT_LIMIT && NewSize(sz, n) < sz
    requires forall v :: 0 <= v < Pages(NewSize(sz, n)) ==> ViewAt(m', root, v) == ViewAt(m, root, v)
    ensures SpaceOf(m', root, NewSize(sz, n)) == Resize(SpaceOf(m, root, sz), n)
  {
    hide ViewAt;
    assert Pages(NewSize(sz, n)) <= Pages(sz);
  }

  lemma ResizeNone(m: Phys, m': Phys, root: nat, sz: nat, n: int)
    requires n == 0 || (n > 0 && NewSize(sz, n) < sz) || (n < 0 && NewSize(sz, n) >= sz)
    requires forall v :: 0 <= v < Pages(sz) ==> ViewAt(m', root, v) == ViewAt(m, root, v)
    ensures SpaceOf(m', root, sz) == Resize(SpaceOf(m, root, sz), n)
  {
    hide ViewAt;
  }

  lemma SbrkDone(m: Phys, m': Phys, role: seq<Role>, role': seq<Role>, proc: seq<Slot>, p: nat, sz: nat,
                 trampoline: nat, n: int)
    requires ProcInv(m, role, proc, trampoline) && p < |proc| && proc[p].Used?
    requires KeepsOthers(m, m', role, role', proc[p].root)
    requires sz < UINT_LIMIT && Mapped(m', proc[p].root, Pages(sz))
    requires SpaceOf(m', proc[p].root, sz) == Resize(SpaceOf(m, proc[p].root, proc[p].sz), n)
    ensures ProcInv(m', role', proc[p := proc[p].(sz := sz)], trampoline)
    ensures Step(View(m, proc), OpSbrk(p, n), Done(0), View(m', proc[p := proc[p].(sz := sz)]))
  {
    hide Leaf, KeepsOthers, Mapped, SpaceOf, Resize;
    ProcKept(m, m', role, role', proc, p, sz, trampoline);
  }

  lemma SbrkFailed(m: Phys, m': Phys, role: seq<Role>, role': seq<Role>, proc: seq<Slot>, p: nat, trampoline: nat,
                   n: int)
    requires ProcInv(m, role, proc, trampoline) && p < |proc| && proc[p].Used?
    requires KeepsOthers(m, m', role, role', proc[p].root) && Mapped(m', proc[p].root, Pages(proc[p].sz))
    requires forall v :: 0 <= v < Pages(proc[p].sz) ==> ViewAt(m', proc[p].root, v) == ViewAt(m, proc[p].root, v)
    ensures ProcInv(m', role', proc, trampoline)
    ensures Step(View(m, proc), OpSbrk(p, n), Oom(0), View(m', proc))
  {
    hide Leaf, KeepsOthers, Mapped;
    assert SlotOk(m, role, proc[p], trampoline);
    assert SpaceOf(m', proc[p].root, proc[p].sz) == SpaceOf(m, proc[p].root, proc[p].sz) by { hide ViewAt; }
    ProcKept(m, m', role, role', proc, p, proc[p].sz, trampoline);
    assert proc[p := proc[p].(sz := proc[p].sz)] == proc;
  }

  // ---------- fork ----------

  function Protect(e: Pte): Pte { e.(w := false, rsw := true) }

  /** Nothing that is not root c's was touched: every other root still shows the same frames,
      with the same contents. */
  ghost predicate Beside(m: Phys, m': Phys, role: seq<Role>, role': seq<Role>, c: nat) {
    && |m.frames| == |m.refs| == |role| == |role'| == |m'.frames| == |m'.refs|
    && (forall r :: r != c ==> (IsRoot(role', r) <==> IsRoot(role, r)))
    && (forall r, v :: IsRoot(role, r) && r != c && 0 <= v < TRAPFRAME_VPN ==>
          SameTarget(Leaf(m, r, v), Leaf(m', r, v)) && ViewAt(m', r, v) == ViewAt(m, r, v))
    && (forall r, v :: IsRoot(role, r) && r != c && TRAPFRAME_VPN <= v < NVPN ==> Leaf(m', r, v) == Leaf(m, r, v))
  }

  lemma BesideTrans(m: Phys, m1: Phys, m2: Phys, role: seq<Role>, role1: seq<Role>, role2: seq<Role>, c: nat)
    requires Beside(m, m1, role, role1, c) && Beside(m1, m2, role1, role2, c)
    ensures Beside(m, m2, role, role2, c)
  {
    hide Leaf, ViewAt, IsRoot;
  }

  /** Leaves of other roots unchanged, user frames unchanged: everything beside c is as it was. */
  lemma BesideLeaves(m: Phys, m': Phys, role: seq<Role>, role': seq<Role>, c: nat)
    requires UserInv(m, role) && |m'.refs| == |role'| == |role| && UserDataKept(m, m', role)
    requires forall r :: r != c ==> (IsRoot(role', r) <==> IsRoot(role, r))
    requires forall r, v :: IsRoot(role, r) && r != c && 0 <= v < NVPN ==> Leaf(m', r, v) == Leaf(m, r, v)
    ensures Beside(m, m', role, role', c)
  {
    hide Leaf, UserInv;
    assert |m.frames| == |m.refs| by { UserLens(m, role); }
    forall r, v | IsRoot(role, r) && r != c && 0 <= v < TRAPFRAME_VPN ensures ViewAt(m', r, v) == ViewAt(m, r, v) {
      ViewKept(m, m', role, r, v);
    }
  }

  lemma UserLens(m: Phys, role: seq<Role>)
    requires UserInv(m, role)
    ensures |m.frames| == |m.refs| == |role|
  {}

  lemma GrownBeside(m: Phys, m': Phys, role: seq<Role>, role': seq<Role>, c: nat)
    requires UserInv(m, role) && GrownFrames(m, m', role, role', c) && SameRoots(role, role')
    requires forall r, v :: IsRoot(role, r) && r != c && 0 <= v < NVPN ==> Leaf(m', r, v) == Leaf(m, r, v)
    ensures Beside(m, m', role, role', c) && SameHeld(role, role') && UserDataKept(m, m', role)
  {
    hide Leaf, UserInv;
    forall f | 0 <= f < |role|
      ensures role[f].User? ==> m'.frames[f] == m.frames[f] ensures role'[f].Held? <==> role[f].Held? {
      assert GrownFrame(m, m', role, role', c, f);
    }
    BesideLeaves(m, m', role, role', c);
  }

  /** The parent's entry loses write permission before its frame is shared. */
  lemma ProtectInv(m: Phys, role: seq<Role>, root: nat, v: nat, low: nat, c: nat)
    requires MemInv(m, role) && IsRoot(role, root) && v < TRAPFRAME_VPN && Leaf(m, root, v).v && c != root
    requires low < |role| && role[low] == Tbl(root, 0, v / NPTE)
    ensures m.frames[low].Table? && |m.frames[low].ptes| == NPTE
    ensures var m' := SetEntry(m, low, v % NPTE, Protect(Leaf(m, root, v)));
            && MemInv(m', role) && Beside(m, m', role, role, c)
            && LeafSet(m, m', role, role, root, v, Protect(Leaf(m, root, v)))
            && (forall u :: 0 <= u < TRAPFRAME_VPN && IsRoot(role, c) ==> ViewAt(m', c, u) == ViewAt(m, c, u))
            && (forall u :: TRAPFRAME_VPN <= u < NVPN && IsRoot(role, c) ==> Leaf(m', c, u) == Leaf(m, c, u))
  {
    var e := Protect(Leaf(m, root, v));
    TableShape(m, role, low);
    UserLeaf(m, role, root, v);
    LeafWrite(m, role, low, v % NPTE, e);
    var m' := SetEntry(m, low, v % NPTE, e);
    FreeInvFrames(m, m', role);
    hide Leaf, TreeInv;
    Reflag(m, m', role, root, v, e);
    hide UserInv;
    forall r, u | IsRoot(role, r) && 0 <= u < TRAPFRAME_VPN
      ensures SameTarget(Leaf(m, r, u), Leaf(m', r, u)) && ViewAt(m', r, u) == ViewAt(m, r, u) {
      ViewKept(m, m', role, r, u);
    }
  }

  /** No entry that shares a protected entry's frame is writable. */
  lemma NoWriters(m: Phys, role: seq<Role>, root: nat, v: nat)
    requires UserInv(m, role) && IsRoot(role, root) && v < TRAPFRAME_VPN && Leaf(m, root, v).v && !Leaf(m, root, v).w
    ensures forall r, u ::
              && IsRoot(role, r) && 0 <= u < TRAPFRAME_VPN && Leaf(m, r, u).v
              && Leaf(m, r, u).ppn == Leaf(m, root, v).ppn ==>
                !Leaf(m, r, u).w
  {
    hide Leaf;
    forall r, u |
      && IsRoot(role, r) && 0 <= u < TRAPFRAME_VPN && Leaf(m, r, u).v
      && Leaf(m, r, u).ppn == Leaf(m, root, v).ppn
      ensures !Leaf(m, r, u).w
    {
      assert LeafOk(m, role, Leaf(m, r, u));
      if Leaf(m, r, u).w { SoleOwner(m, role, r, u, root, v); }
    }
  }

  /** The child's entry is in place and the count has been raised. */
  lemma SharedMem(m: Phys, m3: Phys, role: seq<Role>, role3: seq<Role>, root: nat, c: nat, v: nat, e: Pte)
    requires MemInv(m, role) && IsRoot(role, root) && IsRoot(role, c) && v < TRAPFRAME_VPN
    requires Leaf(m, root, v) == e && e.v && !e.w && e.rsw && e.r && !Leaf(m, c, v).v
    requires FreeInv(m3, role3) && TreeInv(m3, role3) && GrownFrames(m, m3, role, role3, c)
    requires LeafSet(m, m3, role, role3, c, v, e)
    ensures e.ppn < |role| == |m3.refs| == |role3| && role[e.ppn].User? && role3[e.ppn].User?
    ensures var m4 := m3.(refs := m3.refs[e.ppn := m3.refs[e.ppn] + 1]);
            MemInv(m4, role3) && LeafSet(m, m4, role, role3, c, v, e)
  {
    UserLeaf(m, role, root, v);
    var f := e.ppn;
    var m4 := m3.(refs := m3.refs[f := m3.refs[f] + 1]);
    SharedCounts(m, m3, role, role3, c, f);
    LeafOfFrames(m3, m4);
    SharedTree(m3, role3, f);
    hide Leaf, TreeInv, FreeInv, UserInv, OtherCounts, GrownFrames;
    NoWriters(m, role, root, v);
    assert LeafSet(m, m4, role, role3, c, v, e);
    Share(m, m4, role, role3, c, v, e);
  }

  lemma SharedViews(m: Phys, m4: Phys, role: seq<Role>, role3: seq<Role>, root: nat, c: nat, v: nat, e: Pte)
    requires UserInv(m, role) && IsRoot(role, root) && IsRoot(role, c) && c != root && v < TRAPFRAME_VPN
    requires Leaf(m, root, v) == e && e.v && LeafSet(m, m4, role, role3, c, v, e)
    requires |m4.refs| == |role3| && UserDataKept(m, m4, role)
    ensures Beside(m, m4, role, role3, c)
    ensures forall u ::
              0 <= u < TRAPFRAME_VPN ==> ViewAt(m4, c, u) == if u == v then ViewAt(m, root, v) else ViewAt(m, c, u)
    ensures forall u :: TRAPFRAME_VPN <= u < NVPN ==> Leaf(m4, c, u) == Leaf(m, c, u)
  {
    hide Leaf, UserInv;
    BesideLeaves(m, m4, role, role3, c);
    ViewKept(m, m4, role, root, v);
    forall u | 0 <= u < TRAPFRAME_VPN
      ensures ViewAt(m4, c, u) == if u == v then ViewAt(m, root, v) else ViewAt(m, c, u) {
      if u != v { ViewKept(m, m4, role, c, u); }
    }
  }

  lemma GrownHeld(m: Phys, m': Phys, role: seq<Role>, role': seq<Role>, c: nat)
    requires GrownFrames(m, m', role, role', c)
    ensures SameHeld(role, role') && UserDataKept(m, m', role)
  {
    forall f | 0 <= f < |role|
      ensures role[f].User? ==> m'.frames[f] == m.frames[f] ensures role'[f].Held? <==> role[f].Held? {
      assert GrownFrame(m, m', role, role', c, f);
    }
  }

  lemma LeafOfFrames(m: Phys, m': Phys)
    requires m.frames == m'.frames
    ensures forall r, u :: Leaf(m', r, u) == Leaf(m, r, u)
  {
    forall r: nat, u: nat ensures Leaf(m', r, u) == Leaf(m, r, u) {
      NodeOfFrames(m, m', r, 0, u / NPTE);
    }
  }

  lemma {:induction false} NodeOfFrames(m: Phys, m': Phys, r: nat, level: nat, i: nat)
    requires m.frames == m'.frames && level <= 2
    ensures NodeAt(m', r, level, i) == NodeAt(m, r, level, i)
    decreases 2 - level
  {
    if level < 2 { NodeOfFrames(m, m', r, level + 1, i / NPTE); }
  }

  lemma SharedTree(m: Phys, role: seq<Role>, f: nat)
    requires TreeInv(m, role) && FreeInv(m, role) && f < |role| && role[f].User?
    ensures var m' := m.(refs := m.refs[f := m.refs[f] + 1]); TreeInv(m', role) && FreeInv(m', role)
  {
    var m' := m.(refs := m.refs[f := m.refs[f] + 1]);
    forall g | 0 <= g < |role| && !role[g].Tbl?
      ensures m'.frames[g].Bytes? && |m'.frames[g].data| == PGSIZE { assert NodeOk(m, role, g); }
    NonTableChange(m, m', role, role);
  }

  lemma SharedCounts(m: Phys, m3: Phys, role: seq<Role>, role3: seq<Role>, c: nat, f: nat)
    requires UserInv(m, role) && GrownFrames(m, m3, role, role3, c) && FreeInv(m3, role3) && TreeInv(m3, role3)
    requires f < |role| && role[f].User?
    ensures role3[f].User? && m3.refs[f] == m.refs[f]
    ensures OtherCounts(m, m3.(refs := m3.refs[f := m3.refs[f] + 1]), role, role3, f)
  {
    assert GrownFrame(m, m3, role, role3, c, f);
    var m4 := m3.(refs := m3.refs[f := m3.refs[f] + 1]);
    forall g | 0 <= g < |role| && g != f
      ensures if role[g].User? then role3[g].User? && m4.refs[g] == m.refs[g]
              else !role3[g].User? && CountOk(m4, role3, g)
    {
      assert GrownFrame(m, m3, role, role3, c, g) && CountOk(m, role, g) && NodeOk(m3, role3, g);
    }
  }

  /** Page u of c is page u of root: one frame, which neither may write before it has its own. */
  ghost predicate SharedAt(m: Phys, root: nat, c: nat, u: nat) {
    Leaf(m, c, u) == Leaf(m, root, u) && Leaf(m, c, u).v && !Leaf(m, c, u).w && Leaf(m, c, u).rsw
  }

  ghost predicate AllShared(m: Phys, root: nat, c: nat, n: nat) {
    forall u :: 0 <= u < n ==> SharedAt(m, root, c, u)
  }

  /** No frame has become a user page. */
  ghost predicate NoNewPage(role: seq<Role>, role': seq<Role>) {
    |role| == |role'| && forall f :: 0 <= f < |role| && role'[f].User? ==> role[f].User?
  }

  /** A shared frame counts at least both its users. */
  lemma SharedCounted(m: Phys, role: seq<Role>, root: nat, c: nat, u: nat)
    requires MemInv(m, role) && IsRoot(role, root) && IsRoot(role, c) && c != root && u < TRAPFRAME_VPN
    requires SharedAt(m, root, c, u)
    ensures Leaf(m, c, u).ppn < |m.refs| && m.refs[Leaf(m, c, u).ppn] >= 2
  {
    hide Leaf, FreeInv, TreeInv;
    var f := Leaf(m, c, u).ppn;
    assert LeafOk(m, role, Leaf(m, c, u)) && CountOk(m, role, f);
    var all := Owners(m, role, f);
    assert (root, u) in all && (c, u) in all - {(root, u)};
    assert |all - {(root, u)}| == |all| - 1;
  }

  /** Fork in progress: the first n pages of root are shared into c, which had none. */
  ghost predicate Forking(m: Phys, m': Phys, role: seq<Role>, role': seq<Role>, root: nat, c: nat, n: nat) {
    && MemInv(m', role') && IsRoot(role', root) && IsRoot(role', c)
    && Beside(m, m', role, role', c) && SameHeld(role, role') && Churn(role, role', c) && AllShared(m', root, c, n)
    && (forall u :: 0 <= u < TRAPFRAME_VPN ==> ViewAt(m', c, u) == if u < n then ViewAt(m, root, u) else None)
    && (forall u :: TRAPFRAME_VPN <= u < NVPN ==> Leaf(m', c, u) == Leaf(m, c, u))
  }

  lemma ForkingStart(m: Phys, role: seq<Role>, root: nat, c: nat)
    requires MemInv(m, role) && IsRoot(role, root) && IsRoot(role, c)
    requires forall u :: 0 <= u < TRAPFRAME_VPN ==> !Leaf(m, c, u).v
    ensures Forking(m, m, role, role, root, c, 0)
  {}

  /** The entries of root and c are the same but at page v. */
  ghost predicate OtherLeaves(m: Phys, m': Phys, root: nat, c: nat, v: nat) {
    forall u :: 0 <= u < TRAPFRAME_VPN && u != v ==>
      Leaf(m', root, u) == Leaf(m, root, u) && Leaf(m', c, u) == Leaf(m, c, u)
  }

  lemma OtherLeavesTrans(m: Phys, m1: Phys, m2: Phys, root: nat, c: nat, v: nat)
    requires OtherLeaves(m, m1, root, c, v) && OtherLeaves(m1, m2, root, c, v)
    ensures OtherLeaves(m, m2, root, c, v)
  {
    hide Leaf;
  }

  lemma LeafSetOthers(m: Phys, m': Phys, role: seq<Role>, role': seq<Role>, root: nat, c: nat, r0: nat, v: nat, e: Pte)
    requires LeafSet(m, m', role, role', r0, v, e) && IsRoot(role, root) && IsRoot(role, c)
    ensures OtherLeaves(m, m', root, c, v)
  {
    hide Leaf;
  }

  lemma SharedMore(m1: Phys, m2: Phys, root: nat, c: nat, n: nat, ok: bool)
    requires AllShared(m1, root, c, n) && OtherLeaves(m1, m2, root, c, n) && n < TRAPFRAME_VPN
    requires ok ==> SharedAt(m2, root, c, n)
    ensures AllShared(m2, root, c, if ok then n + 1 else n)
  {
    hide Leaf;
    forall u | 0 <= u < n ensures SharedAt(m2, root, c, u) { assert SharedAt(m1, root, c, u); }
  }

  /** What one round of uvmcopy does, from m1 to m2. */
  ghost predicate SharedOne(m1: Phys, m2: Phys, role1: seq<Role>, role2: seq<Role>, root: nat, c: nat, v: nat,
                            ok: bool) {
    && MemInv(m2, role2) && Beside(m1, m2, role1, role2, c) && SameHeld(role1, role2) && Churn(role1, role2, c)
    && IsRoot(role2, c) && (ok ==> SharedAt(m2, root, c, v)) && OtherLeaves(m1, m2, root, c, v)
    && (forall u ::
          0 <= u < TRAPFRAME_VPN ==> ViewAt(m2, c, u) == if ok && u == v then ViewAt(m1, root, v) else ViewAt(m1, c, u))
    && (forall u :: TRAPFRAME_VPN <= u < NVPN ==> Leaf(m2, c, u) == Leaf(m1, c, u))
  }

  lemma ForkingMore(m: Phys, m1: Phys, m2: Phys, role: seq<Role>, role1: seq<Role>, role2: seq<Role>, root: nat, c: nat,
                    n: nat, ok: bool)
    requires Forking(m, m1, role, role1, root, c, n) && SharedOne(m1, m2, role1, role2, root, c, n, ok) && root != c
    requires n < TRAPFRAME_VPN
    requires IsRoot(role, root)
    ensures Forking(m, m2, role, role2, root, c, if ok then n + 1 else n)
  {
    hide Leaf, ViewAt, MemInv, Churn, IsRoot, AllShared, SharedAt, OtherLeaves;
    BesideTrans(m, m1, m2, role, role1, role2, c);
    ChurnTrans(role, role1, role2, c);
    SharedMore(m1, m2, root, c, n, ok);
    assert ViewAt(m1, root, n) == ViewAt(m, root, n);
  }

  /** The failure path unmaps the n pages again. */
  lemma ForkingUndone(m: Phys, m1: Phys, m2: Phys, role: seq<Role>, role1: seq<Role>, role2: seq<Role>, root: nat,
                      c: nat, n: nat)
    requires Forking(m, m1, role, role1, root, c, n) && root != c && n <= TRAPFRAME_VPN && MemInv(m2, role2)
    requires RangeCleared(m1, m2, role1, role2, c, 0, n) && KeepsOthers(m1, m2, role1, role2, c)
    requires Churn(role1, role2, c)
    requires forall v :: 0 <= v < TRAPFRAME_VPN ==> ViewAt(m2, c, v) == if 0 <= v < n then None else ViewAt(m1, c, v)
    ensures Forking(m, m2, role, role2, root, c, 0)
  {
    ChurnTrans(role, role1, role2, c);
    MemParts(m2, role2);
    hide Leaf, ViewAt, MemInv, Churn;
    assert Beside(m1, m2, role1, role2, c);
    BesideTrans(m, m1, m2, role, role1, role2, c);
  }

  lemma ProtectLeaves(m: Phys, m1: Phys, role: seq<Role>, root: nat, c: nat, v: nat, e: Pte)
    requires LeafSet(m, m1, role, role, root, v, e) && IsRoot(role, root) && IsRoot(role, c) && c != root && v < NVPN
    ensures Leaf(m1, root, v) == e && Leaf(m1, c, v) == Leaf(m, c, v) && OtherLeaves(m, m1, root, c, v)
  {
    hide Leaf;
  }

  /** m1 is m with page v of root made read-only and marked. */
  ghost predicate Protected(m: Phys, m1: Phys, role: seq<Role>, root: nat, c: nat, v: nat, e: Pte) {
    && MemInv(m1, role) && Beside(m, m1, role, role, c)
    && (forall u :: 0 <= u < TRAPFRAME_VPN ==> ViewAt(m1, c, u) == ViewAt(m, c, u))
    && (forall u :: TRAPFRAME_VPN <= u < NVPN ==> Leaf(m1, c, u) == Leaf(m, c, u))
    && Leaf(m1, root, v) == e && Leaf(m1, c, v) == Leaf(m, c, v)
    && e == Protect(Leaf(m, root, v)) && e.v && e.r && OtherLeaves(m, m1, root, c, v)
  }

  lemma ProtectedParts(m: Phys, m1: Phys, role: seq<Role>, root: nat, c: nat, v: nat, e: Pte)
    requires Protected(m, m1, role, root, c, v, e)
    ensures FreeInv(m1, role) && TreeInv(m1, role)
  {}

  lemma NotShared(m: Phys, m1: Phys, m2: Phys, role: seq<Role>, role2: seq<Role>, root: nat, c: nat, v: nat, e: Pte)
    requires Protected(m, m1, role, root, c, v, e) && IsRoot(role, c) && IsRoot(role, root)
    requires FreeInv(m2, role2) && TreeInv(m2, role2) && GrownFrames(m1, m2, role, role2, c)
    requires SameLeaves(m1, m2, role, role2)
    ensures SharedOne(m, m2, role, role2, root, c, v, false)
  {
    GrownUser(m1, m2, role, role2, c);
    GrownChurn(m1, m2, role, role2, c);
    GrownHeld(m1, m2, role, role2, c);
    hide Leaf, FreeInv, TreeInv, UserInv, Churn, GrownFrames;
    BesideLeaves(m1, m2, role, role2, c);
    assert OtherLeaves(m1, m2, root, c, v);
    OtherLeavesTrans(m, m1, m2, root, c, v);
    forall u | 0 <= u < TRAPFRAME_VPN ensures ViewAt(m2, c, u) == ViewAt(m, c, u) {
      ViewKept(m1, m2, role, c, u);
    }
    BesideTrans(m, m1, m2, role, role, role2, c);
  }

  lemma NowShared(m: Phys, m1: Phys, m3: Phys, role: seq<Role>, role3: seq<Role>, root: nat, c: nat, v: nat, e: Pte)
    requires Protected(m, m1, role, root, c, v, e) && IsRoot(role, root) && IsRoot(role, c) && c != root
    requires v < TRAPFRAME_VPN
    requires !Leaf(m, c, v).v && FreeInv(m3, role3) && TreeInv(m3, role3) && GrownFrames(m1, m3, role, role3, c)
    requires LeafSet(m1, m3, role, role3, c, v, MapPte(e, e.ppn))
    ensures e.ppn < |m3.refs|
    ensures SharedOne(m, m3.(refs := m3.refs[e.ppn := m3.refs[e.ppn] + 1]), role, role3, root, c, v, true)
  {
    hide Leaf, MemInv, FreeInv, TreeInv, UserInv, Churn, GrownFrames, LeafSet, ViewAt;
    assert MapPte(e, e.ppn) == e;
    SharedMem(m1, m3, role, role3, root, c, v, e);
    GrownChurn(m1, m3, role, role3, c);
    GrownHeld(m1, m3, role, role3, c);
    MemParts(m1, role);
    var m4 := m3.(refs := m3.refs[e.ppn := m3.refs[e.ppn] + 1]);
    SharedViews(m1, m4, role, role3, root, c, v, e);
    BesideTrans(m, m1, m4, role, role, role3, c);
    assert ViewAt(m1, root, v) == ViewAt(m, root, v);
    assert IsRoot(role3, c) by { LeafSetRoots(m1, m4, role, role3, c, v, e); }
    LeafSetOthers(m1, m4, role, role3, root, c, c, v, e);
    OtherLeavesTrans(m, m1, m4, root, c, v);
    assert SharedAt(m4, root, c, v) by { LeafSetAt(m1, m4, role, role3, c, root, v, e); }
  }

  lemma LeafSetAt(m: Phys, m': Phys, role: seq<Role>, role': seq<Role>, r0: nat, r: nat, v0: nat, e: Pte)
    requires LeafSet(m, m', role, role', r0, v0, e) && IsRoot(role, r0) && IsRoot(role, r) && r != r0 && v0 < NVPN
    ensures Leaf(m', r0, v0) == e && Leaf(m', r, v0) == Leaf(m, r, v0)
  {
    hide Leaf;
  }

  lemma LeafSetRoots(m: Phys, m': Phys, role: seq<Role>, role': seq<Role>, r0: nat, v0: nat, e: Pte)
    requires LeafSet(m, m', role, role', r0, v0, e)
    ensures SameRoots(role, role')
  {}

  lemma ForkingLeaf(m: Phys, m': Phys, role: seq<Role>, role': seq<Role>, root: nat, c: nat, n: nat)
    requires Forking(m, m', role, role', root, c, n) && n < TRAPFRAME_VPN && IsRoot(role, root) && root != c
    requires Leaf(m, root, n).v
    ensures Leaf(m', root, n).v && !Leaf(m', c, n).v && MemInv(m', role') && IsRoot(role', root) && IsRoot(role', c)
  {
    hide Leaf, MemInv, Churn;
    ViewValid(m', c, n);
  }

  lemma ForkingMapped(m: Phys, m': Phys, role: seq<Role>, role': seq<Role>, root: nat, c: nat, n: nat)
    requires Forking(m, m', role, role', root, c, n) && n <= TRAPFRAME_VPN
    requires forall v :: 0 <= v < n ==> Leaf(m, root, v).v
    ensures MemInv(m', role') && IsRoot(role', c) && Mapped(m', c, n)
  {
    hide Leaf, MemInv, Churn, Beside;
    forall v | 0 <= v < TRAPFRAME_VPN ensures Leaf(m', c, v).v <==> v < n {
      ViewValid(m', c, v);
      ViewValid(m, root, v);
    }
  }

  // ---------- roots come and go ----------

  ghost predicate NoUserLeaves(m: Phys, role: seq<Role>, c: nat) {
    IsRoot(role, c) ==> forall u :: 0 <= u < TRAPFRAME_VPN ==> !Leaf(m, c, u).v
  }

  /** A root that maps no user page can be added or removed without touching the accounting. */
  lemma UserInvRoots(m: Phys, m': Phys, role: seq<Role>, role': seq<Role>, c: nat)
    requires UserInv(m, role) && |m'.frames| == |m'.refs| == |role'| == |role|
    requires forall r :: r != c ==> (IsRoot(role', r) <==> IsRoot(role, r))
    requires forall r, v :: IsRoot(role, r) && r != c && 0 <= v < TRAPFRAME_VPN ==> Leaf(m', r, v) == Leaf(m, r, v)
    requires NoUserLeaves(m, role, c) && NoUserLeaves(m', role', c)
    requires forall f :: 0 <= f < |role| && role[f].User? ==> role'[f].User? && m'.refs[f] == m.refs[f]
    requires forall f :: 0 <= f < |role| && !role[f].User? ==> !role'[f].User? && CountOk(m', role', f)
    ensures UserInv(m', role')
  {
    hide Leaf;
    forall f | 0 <= f < |role'| ensures CountOk(m', role', f) {
      if role'[f].User? {
        assert CountOk(m, role, f);
        OwnersRoots(m, m', role, role', c, f);
      }
    }
    forall r, v | IsRoot(role', r) && 0 <= v < TRAPFRAME_VPN && Leaf(m', r, v).v
      ensures LeafOk(m', role', Leaf(m', r, v)) {
      assert r != c;
      assert LeafOk(m, role, Leaf(m, r, v));
    }
  }

  lemma OwnersRoots(m: Phys, m': Phys, role: seq<Role>, role': seq<Role>, c: nat, f: nat)
    requires |role'| == |role|
    requires forall r :: r != c ==> (IsRoot(role', r) <==> IsRoot(role, r))
    requires forall r, v ::
               IsRoot(role, r) && r != c && 0 <= v < TRAPFRAME_VPN ==> SameTarget(Leaf(m, r, v), Leaf(m', r, v))
    requires NoUserLeaves(m, role, c) && NoUserLeaves(m', role', c)
    ensures Owners(m', role', f) == Owners(m, role, f)
  {
    hide Owners, Leaf, IsRoot;
    forall x: (nat, nat) ensures x in Owners(m', role', f) <==> x in Owners(m, role, f) {
      OwnersIn(m, role, f, x.0, x.1);
      OwnersIn(m', role', f, x.0, x.1);
    }
  }

  lemma NewRootMem(m: Phys, m': Phys, role: seq<Role>, role': seq<Role>, f: nat)
    requires MemInv(m, role) && f < |role| && role[f].Held?
    requires m' == m.(frames := m.frames[f := EmptyTable()]) && role' == role[f := Tbl(f, 2, 0)]
    ensures MemInv(m', role') && IsRoot(role', f) && LeafFree(m', f) && Beside(m, m', role, role', f)
    ensures UserDataKept(m, m', role)
  {
    assert CountOk(m, role, f);
    NewRoot(m, m', role, role', f);
    hide Leaf;
    forall g | 0 <= g < |role| && !role[g].User?
      ensures !role'[g].User? && CountOk(m', role', g) { assert CountOk(m, role, g); }
    UserInvRoots(m, m', role, role', f);
    BesideLeaves(m, m', role, role', f);
  }

  /** After freewalk, every table of the root is a free page, and no other frame changed hands. */
  ghost predicate TreeFreed(role: seq<Role>, role': seq<Role>, root: nat) {
    && |role| == |role'|
    && forall g :: 0 <= g < |role| ==> role'[g] == if role[g].Tbl? && role[g].root == root then Free else role[g]
  }

  lemma FreewalkDone(m: Phys, m1: Phys, role: seq<Role>, role1: seq<Role>, root: nat)
    requires MemInv(m, role) && IsRoot(role, root) && LeafFree(m, root)
    requires TreeInv(m1, role1) && Emptied(m1, root) && Pruned(m, m1, role, role1, root, 2)
    requires root < |role1| && role1[root] == role[root] && m1.refs[root] == 1
    requires FreeInv(AfterFree(m1, root), role1[root := Free])
    ensures var m2, role2 := AfterFree(m1, root), role1[root := Free];
            && MemInv(m2, role2) && Beside(m, m2, role, role2, root) && TreeFreed(role, role2, root)
            && !IsRoot(role2, root)
            && UserDataKept(m, m2, role)
  {
    var m2, role2 := AfterFree(m1, root), role1[root := Free];
    DropRoot(m1, m2, role1, role2, root);
    FreewalkRoles(m, m1, m2, role, role1, role2, root);
    hide Leaf, LeafFree, Emptied;
    assert NoUserLeaves(m, role, root) by { LeafFreeUser(m, role, root); }
    UserInvRoots(m, m2, role, role2, root);
    BesideLeaves(m, m2, role, role2, root);
  }

  lemma LeafFreeUser(m: Phys, role: seq<Role>, root: nat)
    requires LeafFree(m, root)
    ensures NoUserLeaves(m, role, root)
  {}

  lemma FreewalkRoles(m: Phys, m1: Phys, m2: Phys, role: seq<Role>, role1: seq<Role>, role2: seq<Role>, root: nat)
    requires MemInv(m, role) && IsRoot(role, root) && Pruned(m, m1, role, role1, root, 2) && role1[root] == role[root]
    requires m1.refs[root] == 1 && m2 == AfterFree(m1, root) && role2 == role1[root := Free] && FreeInv(m2, role2)
    requires TreeInv(m2, role2)
    requires forall h :: 0 <= h < |role2| && role2[h].Tbl? ==> role2[h].root != root
    ensures TreeFreed(role, role2, root) && UserDataKept(m, m2, role)
    ensures forall f :: 0 <= f < |role| && role[f].User? ==> role2[f].User? && m2.refs[f] == m.refs[f]
    ensures forall f :: 0 <= f < |role| && !role[f].User? ==> !role2[f].User? && CountOk(m2, role2, f)
  {
    hide Leaf;
    forall g | 0 <= g < |role|
      ensures role2[g] == if role[g].Tbl? && role[g].root == root then Free else role[g]
      ensures role[g].User? ==> m2.frames[g] == m.frames[g] && m2.refs[g] == m.refs[g]
      ensures !role[g].User? ==> CountOk(m2, role2, g)
    {
      assert PrunedFrame(m, m1, role, role1, root, 2, g) && NodeOk(m, role, g) && CountOk(m, role, g);
      assert NodeOk(m2, role2, g);
    }
  }

  // ---------- a process's page table is built and taken apart ----------

  /** c is a new root whose tables came from free pages, mapping only what ok1 and ok2 say. */
  ghost predicate Building(m: Phys, m': Phys, role: seq<Role>, role': seq<Role>, c: nat) {
    && MemInv(m', role') && IsRoot(role', c) && !IsRoot(role, c) && c < |role| && role[c].Free?
    && Beside(m, m', role, role', c) && SameHeld(role, role')
    && (forall g :: 0 <= g < |role| ==> role'[g] == role[g] || (role[g].Free? && role'[g].Tbl? && role'[g].root == c))
    && (forall u :: 0 <= u < TRAPFRAME_VPN ==> !Leaf(m', c, u).v)
  }

  lemma BuildingStart(m: Phys, m1: Phys, m2: Phys, role: seq<Role>, role2: seq<Role>, c: nat)
    requires MemInv(m, role) && m.free != [] && c == m.free[0] && m1 == AllocFilled(m, Filled(5))
    requires c < |m1.frames| && m2 == m1.(frames := m1.frames[c := EmptyTable()]) && c < |role|
    requires role2 == role[c := Held][c := Tbl(c, 2, 0)]
    ensures Building(m, m2, role, role2, c) && LeafFree(m2, c)
  {
    AllocFilledInv(m, role, Filled(5));
    NewRootMem(m1, m2, role[c := Held], role2, c);
    hide Leaf, MemInv;
    MemParts(m, role);
    assert UserDataKept(m, m2, role);
    BesideLeaves(m, m1, role, role[c := Held], c);
    BesideTrans(m, m1, m2, role, role[c := Held], role2, c);
  }

  lemma BesideRefl(m: Phys, role: seq<Role>, c: nat)
    requires |m.frames| == |m.refs| == |role|
    ensures Beside(m, m, role, role, c)
  {}

  lemma BuildingParts(m: Phys, m': Phys, role: seq<Role>, role': seq<Role>, c: nat)
    requires Building(m, m', role, role', c)
    ensures MemInv(m', role') && FreeInv(m', role') && TreeInv(m', role') && IsRoot(role', c) && !IsRoot(role, c)
    ensures |m'.frames| == |m'.refs| == |role'|
  {}

  lemma BuildingMore(m: Phys, m1: Phys, m2: Phys, role: seq<Role>, role1: seq<Role>, role2: seq<Role>, c: nat, v: nat,
                     e: Pte)
    requires Building(m, m1, role, role1, c) && FreeInv(m2, role2) && TreeInv(m2, role2)
    requires GrownFrames(m1, m2, role1, role2, c)
    requires TRAPFRAME_VPN <= v < NVPN && (LeafSet(m1, m2, role1, role2, c, v, e) || SameLeaves(m1, m2, role1, role2))
    ensures Building(m, m2, role, role2, c)
    ensures LeafSet(m1, m2, role1, role2, c, v, e) ==>
              && Leaf(m2, c, v) == e
              && forall u :: TRAPFRAME_VPN <= u < NVPN && u != v ==> Leaf(m2, c, u) == Leaf(m1, c, u)
    ensures SameLeaves(m1, m2, role1, role2) && LeafFree(m1, c) ==> LeafFree(m2, c)
  {
    GrownUser(m1, m2, role1, role2, c);
    GrownBeside(m1, m2, role1, role2, c);
    hide Leaf, FreeInv, TreeInv, UserInv;
    BesideTrans(m, m1, m2, role, role1, role2, c);
    forall g | 0 <= g < |role| ensures role2[g] == role[g] || (role[g].Free? && role2[g].Tbl? && role2[g].root == c) {
      assert GrownFrame(m1, m2, role1, role2, c, g);
    }
  }

  lemma BuildingUndone(m: Phys, m1: Phys, m2: Phys, role: seq<Role>, role1: seq<Role>, role2: seq<Role>, c: nat)
    requires TreeInv(m, role) && Building(m, m1, role, role1, c) && TreeFreed(role1, role2, c)
    requires Beside(m1, m2, role1, role2, c)
    ensures role2 == role && Beside(m, m2, role, role2, c)
  {
    forall g | 0 <= g < |role| ensures role2[g] == role[g] {
      assert NodeOk(m, role, g);
    }
    hide Leaf, MemInv, TreeInv;
    BesideTrans(m, m1, m2, role, role1, role2, c);
  }

  /** TRAPFRAME lies in the same level-0 table as TRAMPOLINE, so the second mapping cannot fail. */
  lemma SameLowTable(m: Phys, c: nat)
    requires Leaf(m, c, TRAMPOLINE_VPN).v
    ensures NodeAt(m, c, 0, TRAPFRAME_VPN / NPTE) < |m.frames|
  {
    assert TRAPFRAME_VPN / NPTE == TRAMPOLINE_VPN / NPTE;
  }

  /** The trapframe page goes back. */
  lemma HeldFreed(m: Phys, role: seq<Role>, tf: nat, c: nat)
    requires MemInv(m, role) && tf < |role| && role[tf].Held?
    ensures m.refs[tf] == 1
    ensures MemInv(AfterFree(m, tf), role[tf := Free]) && Beside(m, AfterFree(m, tf), role, role[tf := Free], c)
    ensures SameLeaves(m, AfterFree(m, tf), role, role[tf := Free])
  {
    assert CountOk(m, role, tf);
    FreeUserTree(m, role, tf);
    FreeFreeInv(m, role, tf);
    hide Leaf, TreeInv, FreeInv;
    var m', role' := AfterFree(m, tf), role[tf := Free];
    forall g | 0 <= g < |role| && !role[g].User? ensures CountOk(m', role', g) { assert CountOk(m, role, g); }
    UserInvFrame(m, m', role, role');
    BesideLeaves(m, m', role, role', c);
  }

  lemma DropBeside(m: Phys, m': Phys, role: seq<Role>, role': seq<Role>, root: nat, v0: nat)
    requires MemInv(m, role) && MemInv(m', role') && DroppedFrames(m, m', role, role') && role' == role
    requires LeafSet(m, m', role, role', root, v0, ZERO)
    ensures Beside(m, m', role, role', root)
  {
    hide Leaf, FreeInv, TreeInv, UserInv;
    forall g | 0 <= g < |role| && role[g].User?
      ensures m'.frames[g] == m.frames[g] { assert DroppedFrame(m, m', role, role', g); }
    MemParts(m, role);
    assert UserDataKept(m, m', role);
    BesideLeaves(m, m', role, role', root);
  }

  lemma UnmapBeside(m: Phys, m': Phys, role: seq<Role>, role': seq<Role>, root: nat, a: nat, n: nat)
    requires MemInv(m, role) && MemInv(m', role')
    requires RangeCleared(m, m', role, role', root, a, n) && KeepsOthers(m, m', role, role', root)
    ensures Beside(m, m', role, role', root)
  {
    hide Leaf, FreeInv, TreeInv, UserInv, ViewAt;
    MemParts(m, role);
    MemParts(m', role');
  }

  /** Who gets what when a process goes: its tables, its trapframe and unshared pages are free. */
  ghost predicate Dismantled(role: seq<Role>, role': seq<Role>, root: nat, tf: nat) {
    && |role| == |role'|
    && forall g :: 0 <= g < |role| ==>
         if g == tf || (role[g].Tbl? && role[g].root == root) then role'[g].Free?
         else role'[g] == role[g] || (role[g].User? && role'[g].Free?)
  }

  lemma DismantledRoles(role: seq<Role>, role1: seq<Role>, role2: seq<Role>, root: nat, tf: nat)
    requires tf < |role| && role[tf].Held? && Churn(role[tf := Free], role1, root) && TreeFreed(role1, role2, root)
    ensures Dismantled(role, role2, root, tf)
  {
    forall g | 0 <= g < |role| ensures if g == tf || (role[g].Tbl? && role[g].root == root) then role2[g].Free?
         else role2[g] == role[g] || (role[g].User? && role2[g].Free?) {
      assert ChurnFrame(role[tf := Free][g], role1[g], root);
    }
  }

  /** Only the two special entries and the pages below n are mapped, and they are cleared in turn. */
  lemma SpecialCleared(m: Phys, m1: Phys, m2: Phys, m3: Phys, role: seq<Role>, role1: seq<Role>, role2: seq<Role>,
                       role3: seq<Role>, root: nat, n: nat)
    requires IsRoot(role, root) && Mapped(m, root, n) && n <= TRAPFRAME_VPN
    requires LeafSet(m, m1, role, role1, root, TRAMPOLINE_VPN, ZERO)
    requires LeafSet(m1, m2, role1, role2, root, TRAPFRAME_VPN, ZERO)
    requires RangeCleared(m2, m3, role2, role3, root, 0, n)
    ensures LeafFree(m3, root)
  {
    hide Leaf;
    forall v | 0 <= v < NVPN ensures !Leaf(m3, root, v).v {
      assert v < TRAPFRAME_VPN || v == TRAPFRAME_VPN || v == TRAMPOLINE_VPN;
    }
  }

  lemma RangeClearedRoots(m: Phys, m': Phys, role: seq<Role>, role': seq<Role>, r0: nat, a: nat, n: nat)
    requires RangeCleared(m, m', role, role', r0, a, n) && IsRoot(role, r0)
    ensures IsRoot(role', r0)
  {}

  lemma SpecialStill(m: Phys, m1: Phys, role: seq<Role>, role1: seq<Role>, root: nat)
    requires IsRoot(role, root) && LeafSet(m, m1, role, role1, root, TRAMPOLINE_VPN, ZERO)
    ensures IsRoot(role1, root) && Leaf(m1, root, TRAPFRAME_VPN) == Leaf(m, root, TRAPFRAME_VPN)
  {
    hide Leaf;
  }

  lemma UserStill(m: Phys, m1: Phys, m2: Phys, role: seq<Role>, role1: seq<Role>, role2: seq<Role>, root: nat, n: nat)
    requires IsRoot(role, root) && Mapped(m, root, n) && n <= TRAPFRAME_VPN
    requires LeafSet(m, m1, role, role1, root, TRAMPOLINE_VPN, ZERO)
    requires LeafSet(m1, m2, role1, role2, root, TRAPFRAME_VPN, ZERO)
    ensures IsRoot(role2, root) && forall v :: 0 <= v < n ==> Leaf(m2, root, v).v
  {
    hide Leaf;
  }

  lemma SlotSpecials(m: Phys, m1: Phys, role: seq<Role>, role1: seq<Role>, s: Slot, trampoline: nat)
    requires SlotBase(m, role, s, trampoline) && SameLeaves(m, m1, role, role1)
    ensures IsRoot(role1, s.root)
    ensures Leaf(m1, s.root, TRAMPOLINE_VPN) == TrampolinePte(trampoline)
    ensures Leaf(m1, s.root, TRAPFRAME_VPN) == TrapframePte(s.trapframe)
    ensures forall n: nat :: n <= TRAPFRAME_VPN && Mapped(m, s.root, n) ==> Mapped(m1, s.root, n)
  {
    hide Leaf;
  }

  // ---------- the process table across fork and exit ----------

  lemma SlotBeside(m: Phys, m': Phys, role: seq<Role>, role': seq<Role>, s: Slot, trampoline: nat, c: nat)
    requires Beside(m, m', role, role', c) && SlotOk(m, role, s, trampoline) && s.root != c && role'[s.trapframe].Held?
    ensures SlotOk(m', role', s, trampoline) && SpaceOf(m', s.root, s.sz) == SpaceOf(m, s.root, s.sz)
  {
    hide Leaf, ViewAt;
    forall v | 0 <= v < TRAPFRAME_VPN
      ensures Leaf(m', s.root, v).v == Leaf(m, s.root, v).v && ViewAt(m', s.root, v) == ViewAt(m, s.root, v) {
      assert SameTarget(Leaf(m, s.root, v), Leaf(m', s.root, v));
    }
    SpaceSame(m, m', s.root, s.sz);
  }

  /** The child's slot after a successful uvmcopy: it sees what the parent sees. */
  lemma ChildSlot(m0: Phys, m2: Phys, m3: Phys, role0: seq<Role>, role2: seq<Role>, role3: seq<Role>, s: Slot, c: nat,
                  tf: nat, trampoline: nat)
    requires SlotOk(m0, role0, s, trampoline) && s.root != c && IsRoot(role2, s.root)
    requires forall v :: 0 <= v < TRAPFRAME_VPN ==> ViewAt(m2, s.root, v) == ViewAt(m0, s.root, v)
    requires Forking(m2, m3, role2, role3, s.root, c, Pages(s.sz))
    requires Leaf(m2, c, TRAMPOLINE_VPN) == TrampolinePte(trampoline) && Leaf(m2, c, TRAPFRAME_VPN) == TrapframePte(tf)
    requires tf < |role2| && role2[tf].Held?
    ensures SlotOk(m3, role3, Used(c, tf, s.sz), trampoline)
    ensures SpaceOf(m3, c, s.sz) == SpaceOf(m0, s.root, s.sz)
  {
    hide Leaf, MemInv, Churn;
    forall v | 0 <= v < TRAPFRAME_VPN ensures Leaf(m3, c, v).v <==> v < Pages(s.sz) {
      ViewValid(m3, c, v);
      ViewValid(m0, s.root, v);
      assert ViewAt(m3, c, v) == if v < Pages(s.sz) then ViewAt(m2, s.root, v) else None;
    }
    hide ViewAt;
    assert SpaceOf(m3, c, s.sz).pages == SpaceOf(m0, s.root, s.sz).pages;
  }

  /** Slots other than the one being made or removed stay sound and see the same memory. */
  ghost predicate SlotsKept(m: Phys, m': Phys, role': seq<Role>, proc: seq<Slot>, but: int, trampoline: nat) {
    forall q :: 0 <= q < |proc| && proc[q].Used? && q != but ==>
      && SlotOk(m', role', proc[q], trampoline)
      && SpaceOf(m', proc[q].root, proc[q].sz) == SpaceOf(m, proc[q].root, proc[q].sz)
  }

  lemma SlotsBeside(m: Phys, m': Phys, role: seq<Role>, role': seq<Role>, proc: seq<Slot>, but: int, trampoline: nat,
                    c: nat)
    requires ProcInv(m, role, proc, trampoline) && Beside(m, m', role, role', c)
    requires forall q :: 0 <= q < |proc| && proc[q].Used? && q != but ==> proc[q].root != c
    requires forall q ::
               0 <= q < |proc| && proc[q].Used? && q != but ==>
                 proc[q].trapframe < |role'| && role'[proc[q].trapframe].Held?
    ensures SlotsKept(m, m', role', proc, but, trampoline)
  {
    hide Leaf, Beside, SpaceOf, Mapped;
    forall q | 0 <= q < |proc| && proc[q].Used? && q != but
      ensures SlotOk(m', role', proc[q], trampoline)
      ensures SpaceOf(m', proc[q].root, proc[q].sz) == SpaceOf(m, proc[q].root, proc[q].sz)
    {
      assert SlotOk(m, role, proc[q], trampoline);
      SlotBeside(m, m', role, role', proc[q], trampoline, c);
    }
  }

  lemma SlotFrames(m: Phys, role: seq<Role>, proc: seq<Slot>, trampoline: nat, q: nat)
    requires ProcInv(m, role, proc, trampoline) && q < |proc| && proc[q].Used?
    ensures IsRoot(role, proc[q].root) && proc[q].trapframe < |role| && role[proc[q].trapframe].Held?
  {
    assert SlotOk(m, role, proc[q], trampoline);
  }

  /** A new process joins the table; nobody else notices. */
  lemma AddSlot(m0: Phys, m3: Phys, role0: seq<Role>, role3: seq<Role>, proc: seq<Slot>, k: nat, s: Slot,
                trampoline: nat)
    requires ProcInv(m0, role0, proc, trampoline) && k < |proc| && proc[k].Unused? && SlotOk(m3, role3, s, trampoline)
    requires Beside(m0, m3, role0, role3, s.root) && !IsRoot(role0, s.root) && s.trapframe < |role0|
    requires role0[s.trapframe].Free?
    requires forall f :: 0 <= f < |role0| ==> (role3[f].Held? <==> role0[f].Held? || f == s.trapframe)
    ensures ProcInv(m3, role3, proc[k := s], trampoline)
    ensures View(m3, proc[k := s]) == View(m0, proc)[k := SpaceOf(m3, s.root, s.sz)]
  {
    hide Leaf, Beside, SpaceOf, IsRoot, NoLeak, SlotsKept, View, Mapped;
    BesideLens(m0, m3, role0, role3, s.root);
    forall q | 0 <= q < |proc| && proc[q].Used?
      ensures proc[q].root != s.root && proc[q].trapframe != s.trapframe && proc[q].trapframe < |role3|
      ensures role3[proc[q].trapframe].Held? {
      SlotFrames(m0, role0, proc, trampoline, q);
    }
    SlotsBeside(m0, m3, role0, role3, proc, k, trampoline, s.root);
    AddNoLeak(m0, m3, role0, role3, proc, k, s);
    AddView(m0, m3, role3, proc, k, s, trampoline);
  }

  lemma AddView(m0: Phys, m3: Phys, role3: seq<Role>, proc: seq<Slot>, k: nat, s: Slot, trampoline: nat)
    requires k < |proc| && proc[k].Unused? && SlotsKept(m0, m3, role3, proc, k, trampoline)
    requires SlotOk(m3, role3, s, trampoline)
    ensures AllSlotsOk(m3, role3, proc[k := s], trampoline)
    ensures View(m3, proc[k := s]) == View(m0, proc)[k := SpaceOf(m3, s.root, s.sz)]
  {
    hide Leaf, SpaceOf, Mapped;
  }

  lemma BesideLens(m: Phys, m': Phys, role: seq<Role>, role': seq<Role>, c: nat)
    requires Beside(m, m', role, role', c)
    ensures |m.frames| == |m.refs| == |role| == |role'| == |m'.frames| == |m'.refs|
  {}

  ghost predicate AllSlotsOk(m: Phys, role: seq<Role>, proc: seq<Slot>, trampoline: nat) {
    forall q :: 0 <= q < |proc| && proc[q].Used? ==> SlotOk(m, role, proc[q], trampoline)
  }

  lemma ExitView(m: Phys, m': Phys, role': seq<Role>, proc: seq<Slot>, p: nat, trampoline: nat)
    requires p < |proc| && proc[p].Used? && SlotsKept(m, m', role', proc, p, trampoline)
    ensures AllSlotsOk(m', role', proc[p := Unused], trampoline)
    ensures Step(View(m, proc), OpExit(p), Done(0), View(m', proc[p := Unused]))
  {
    hide Leaf, SpaceOf, SlotOk;
    assert View(m', proc[p := Unused]) == View(m, proc) - {p};
  }

  lemma AddNoLeak(m0: Phys, m3: Phys, role0: seq<Role>, role3: seq<Role>, proc: seq<Slot>, k: nat, s: Slot)
    requires s.Used? && Beside(m0, m3, role0, role3, s.root) && NoLeak(role0, proc) && k < |proc| && proc[k].Unused?
    requires forall f :: 0 <= f < |role0| ==> (role3[f].Held? <==> role0[f].Held? || f == s.trapframe)
    ensures NoLeak(role3, proc[k := s])
  {
    hide Leaf, ViewAt;
    var proc' := proc[k := s];
    forall f | 0 <= f < |role3| && (IsRoot(role3, f) || role3[f].Held?) ensures InSomeSlot(proc', f) {
      if f == s.root || f == s.trapframe {
        assert proc'[k].Used? && (proc'[k].root == f || proc'[k].trapframe == f);
      } else {
        assert InSomeSlot(proc, f);
        var q :| 0 <= q < |proc| && proc[q].Used? && (proc[q].root == f || proc[q].trapframe == f);
        assert proc'[q] == proc[q];
      }
    }
  }

  lemma ExitTable(m: Phys, m': Phys, role: seq<Role>, role': seq<Role>, proc: seq<Slot>, p: nat, trampoline: nat)
    requires ProcInv(m, role, proc, trampoline) && p < |proc| && proc[p].Used?
    requires Beside(m, m', role, role', proc[p].root) && Dismantled(role, role', proc[p].root, proc[p].trapframe)
    requires !IsRoot(role', proc[p].root)
    ensures ProcInv(m', role', proc[p := Unused], trampoline)
    ensures Step(View(m, proc), OpExit(p), Done(0), View(m', proc[p := Unused]))
  {
    hide Leaf, Beside, SpaceOf, SlotOk, NoLeak, SlotsKept, Step, View;
    var proc' := proc[p := Unused];
    SlotFrames(m, role, proc, trampoline, p);
    forall q | 0 <= q < |proc| && proc[q].Used? && q != p
      ensures proc[q].root != proc[p].root && proc[q].trapframe < |role'| && role'[proc[q].trapframe].Held? {
      SlotFrames(m, role, proc, trampoline, q);
    }
    SlotsBeside(m, m', role, role', proc, p, trampoline, proc[p].root);
    ExitNoLeak(m, m', role, role', proc, p);
    ExitView(m, m', role', proc, p, trampoline);
  }

  lemma ExitNoLeak(m: Phys, m': Phys, role: seq<Role>, role': seq<Role>, proc: seq<Slot>, p: nat)
    requires NoLeak(role, proc) && p < |proc| && proc[p].Used?
    requires Beside(m, m', role, role', proc[p].root) && Dismantled(role, role', proc[p].root, proc[p].trapframe)
    requires !IsRoot(role', proc[p].root)
    requires IsRoot(role, proc[p].root) && proc[p].trapframe < |role| && role[proc[p].trapframe].Held?
    ensures NoLeak(role', proc[p := Unused])
  {
    hide Leaf, ViewAt;
    var proc' := proc[p := Unused];
    forall f | 0 <= f < |role'| && (IsRoot(role', f) || role'[f].Held?) ensures InSomeSlot(proc', f) {
      assert InSomeSlot(proc, f);
      var q :| 0 <= q < |proc| && proc[q].Used? && (proc[q].root == f || proc[q].trapframe == f);
      assert proc'[q] == proc[q];
    }
  }

  // ---------- a failed fork leaves no trace ----------

  /** If every other root still shows its frames, no user frame can have been lost. */
  lemma RolesBack(m: Phys, m': Phys, role: seq<Role>, role': seq<Role>, c: nat)
    requires MemInv(m, role) && MemInv(m', role') && Beside(m, m', role, role', c) && !IsRoot(role, c)
    requires !IsRoot(role', c)
    requires forall g :: 0 <= g < |role| ==> role'[g] == role[g] || ((role[g].User? || role[g].Free?) && role'[g].Free?)
    ensures role' == role && m'.refs == m.refs && multiset(m'.free) == multiset(m.free)
  {
    hide Leaf, TreeInv, ViewAt;
    forall g | 0 <= g < |role| ensures role'[g] == role[g] {
      if role[g].User? { StillOwned(m, m', role, role', c, g); }
    }
    assert role' == role;
    forall g | 0 <= g < |role| ensures m'.refs[g] == m.refs[g] {
      assert CountOk(m, role, g) && CountOk(m', role', g);
      OwnersRoots(m, m', role, role', c, g);
    }
    SameFreePages(m, m', role);
  }

  lemma StillOwned(m: Phys, m': Phys, role: seq<Role>, role': seq<Role>, c: nat, g: nat)
    requires UserInv(m, role) && UserInv(m', role') && Beside(m, m', role, role', c) && !IsRoot(role, c)
    requires g < |role| && role[g].User?
    ensures role'[g].User?
  {
    hide Leaf, ViewAt;
    assert CountOk(m, role, g);
    assert Owners(m, role, g) != {};
    var o :| o in Owners(m, role, g);
    assert SameTarget(Leaf(m, o.0, o.1), Leaf(m', o.0, o.1));
    assert LeafOk(m', role', Leaf(m', o.0, o.1));
  }

  lemma SameFreePages(m: Phys, m': Phys, role: seq<Role>)
    requires FreeInv(m, role) && FreeInv(m', role)
    ensures multiset(m'.free) == multiset(m.free)
  {
    forall x ensures multiset(m'.free)[x] == multiset(m.free)[x] {
      OnceEach(m.free, x);
      OnceEach(m'.free, x);
    }
  }

  lemma {:induction false} OnceEach(s: seq<nat>, x: nat)
    requires forall j, k :: 0 <= j < k < |s| ==> s[j] != s[k]
    ensures multiset(s)[x] == if x in s then 1 else 0
  {
    if s != [] {
      assert s == [s[0]] + s[1..];
      OnceEach(s[1..], x);
    }
  }

  lemma ForkRoles(m0: Phys, role0: seq<Role>, role1: seq<Role>, role2: seq<Role>, role3: seq<Role>, role4: seq<Role>,
                  c: nat, tf: nat)
    requires TreeInv(m0, role0) && tf < |role0| && role0[tf].Free? && role1 == role0[tf := Held] && c < |role1|
    requires role1[c].Free?
    requires |role2| == |role1|
    requires forall g ::
               0 <= g < |role1| ==> role2[g] == role1[g] || (role1[g].Free? && role2[g].Tbl? && role2[g].root == c)
    requires Churn(role2, role3, c) && Dismantled(role3, role4, c, tf)
    ensures |role4| == |role0| && !IsRoot(role0, c)
    ensures forall g ::
              0 <= g < |role0| ==> role4[g] == role0[g] || ((role0[g].User? || role0[g].Free?) && role4[g].Free?)
  {
    forall g | 0 <= g < |role0| ensures role4[g] == role0[g] || ((role0[g].User? || role0[g].Free?) && role4[g].Free?) {
      assert NodeOk(m0, role0, g);
      assert ChurnFrame(role2[g], role3[g], c);
    }
  }

  // ---------- fork, step by step ----------

  lemma SlotParts(m: Phys, role: seq<Role>, proc: seq<Slot>, p: nat, trampoline: nat)
    requires ProcInv(m, role, proc, trampoline) && p < |proc| && proc[p].Used?
    ensures SlotBase(m, role, proc[p], trampoline) && Mapped(m, proc[p].root, Pages(proc[p].sz))
    ensures IsRoot(role, proc[p].root) && Pages(proc[p].sz) <= TRAPFRAME_VPN
  {
    assert SlotOk(m, role, proc[p], trampoline);
  }

  lemma KeptAll(m: Phys, m': Phys, role': seq<Role>, proc: seq<Slot>, trampoline: nat)
    requires SlotsKept(m, m', role', proc, -1, trampoline)
    ensures AllSlotsOk(m', role', proc, trampoline) && View(m', proc) == View(m, proc)
  {
    hide Leaf, SlotOk, SpaceOf;
  }

  /** Memory is as good as m: same roles, and every root shows what it did. */
  ghost predicate AsBefore(m: Phys, m': Phys, role: seq<Role>, role': seq<Role>) {
    && MemInv(m', role') && role' == role && m'.refs == m.refs && multiset(m'.free) == multiset(m.free)
    && exists c: nat :: !IsRoot(role, c) && Beside(m, m', role, role', c)
  }

  lemma AsBeforeWith(m: Phys, m': Phys, role: seq<Role>, role': seq<Role>, c: nat)
    requires MemInv(m, role) && MemInv(m', role') && role' == role && !IsRoot(role, c) && Beside(m, m', role, role', c)
    ensures AsBefore(m, m', role, role')
  {
    hide Leaf, MemInv, IsRoot, Beside;
    RolesBack(m, m', role, role', c);
  }

  lemma AsBeforeParts(m: Phys, m': Phys, role: seq<Role>, role': seq<Role>)
    requires AsBefore(m, m', role, role')
    ensures MemInv(m', role') && role' == role && m'.refs == m.refs && multiset(m'.free) == multiset(m.free)
  {}

  lemma AsBeforeRefl(m: Phys, role: seq<Role>)
    requires MemInv(m, role)
    ensures AsBefore(m, m, role, role)
  {
    BesideRefl(m, role, |role|);
    assert !IsRoot(role, |role|);
  }

  /** Nothing happened that any process can see. */
  lemma ForkNothing(m: Phys, m': Phys, role: seq<Role>, role': seq<Role>, proc: seq<Slot>, p: nat, trampoline: nat)
    requires ProcInv(m, role, proc, trampoline) && p < |proc| && proc[p].Used? && AsBefore(m, m', role, role')
    ensures ProcInv(m', role', proc, trampoline) && Step(View(m, proc), OpFork(p), Oom(0), View(m', proc))
  {
    hide Leaf, MemInv, Beside, SlotOk, View, NoLeak, SlotsKept;
    var c: nat :| !IsRoot(role, c) && Beside(m, m', role, role', c);
    forall q | 0 <= q < |proc| && proc[q].Used?
      ensures proc[q].root != c && proc[q].trapframe < |role'| && role'[proc[q].trapframe].Held? {
      SlotFrames(m, role, proc, trampoline, q);
    }
    SlotsBeside(m, m', role, role', proc, -1, trampoline, c);
    KeptAll(m, m', role', proc, trampoline);
    assert p in View(m, proc) by { InView(m, proc, p); }
  }

  lemma InView(m: Phys, proc: seq<Slot>, p: nat)
    requires p < |proc| && proc[p].Used?
    ensures p in View(m, proc)
  {}

  /** State after tf was taken: m1 = kalloc(m0). */
  ghost predicate TookPage(m0: Phys, m1: Phys, role0: seq<Role>, tf: nat) {
    && MemInv(m0, role0) && m0.free != [] && tf == m0.free[0] && tf < |role0| && role0[tf].Free?
    && |m0.frames| == |m0.refs| && tf < |m0.frames| && m1 == AllocFilled(m0, Filled(5))
  }

  lemma TookBeside(m0: Phys, m1: Phys, role0: seq<Role>, tf: nat, c: nat)
    requires TookPage(m0, m1, role0, tf)
    ensures MemInv(m1, role0[tf := Held]) && Beside(m0, m1, role0, role0[tf := Held], c)
    ensures SameRoots(role0, role0[tf := Held])
  {
    AllocFilledInv(m0, role0, Filled(5));
    hide Leaf, FreeInv, TreeInv, UserInv;
    MemParts(m1, role0[tf := Held]);
    BesideLeaves(m0, m1, role0, role0[tf := Held], c);
  }

  lemma ForkNoTable(m0: Phys, m1: Phys, m2: Phys, role0: seq<Role>, tf: nat, c: nat)
    requires TookPage(m0, m1, role0, tf) && MemInv(m2, role0[tf := Held])
    requires Beside(m1, m2, role0[tf := Held], role0[tf := Held], c) && !IsRoot(role0[tf := Held], c)
    ensures |m2.frames| == |m2.refs| == |role0| && m2.refs[tf] == 1 && !IsRoot(role0, c)
    ensures FreeInv(m2, role0[tf := Held])
    ensures role0[tf := Held][tf := Free] == role0
    ensures AsBefore(m0, AfterFree(m2, tf), role0, role0)
  {
    var role1 := role0[tf := Held];
    TookBeside(m0, m1, role0, tf, c);
    HeldFreed(m2, role1, tf, c);
    MemParts(m2, role1);
    assert role1[tf := Free] == role0;
    hide Leaf, FreeInv, TreeInv, UserInv, Beside;
    BesideTrans(m0, m1, m2, role0, role1, role1, c);
    BesideTrans(m0, m2, AfterFree(m2, tf), role0, role1, role0, c);
    AsBeforeWith(m0, AfterFree(m2, tf), role0, role0, c);
  }

  lemma ForkReady(m0: Phys, m1: Phys, m2: Phys, role0: seq<Role>, role2: seq<Role>, proc: seq<Slot>, p: nat,
                  trampoline: nat, c: nat, tf: nat)
    requires TookPage(m0, m1, role0, tf) && Building(m1, m2, role0[tf := Held], role2, c)
    requires ProcInv(m0, role0, proc, trampoline) && p < |proc| && proc[p].Used?
    ensures MemInv(m2, role2) && IsRoot(role2, proc[p].root) && IsRoot(role2, c) && proc[p].root != c
    ensures !IsRoot(role0, c)
    ensures Mapped(m2, proc[p].root, Pages(proc[p].sz)) && Beside(m0, m2, role0, role2, c)
    ensures forall u :: 0 <= u < TRAPFRAME_VPN ==> !Leaf(m2, c, u).v
    ensures forall v :: 0 <= v < TRAPFRAME_VPN ==> ViewAt(m2, proc[p].root, v) == ViewAt(m0, proc[p].root, v)
  {
    var role1 := role0[tf := Held];
    TookBeside(m0, m1, role0, tf, c);
    SlotParts(m0, role0, proc, p, trampoline);
    hide Leaf, ViewAt, MemInv, ProcInv, SlotBase;
    BesideTrans(m0, m1, m2, role0, role1, role2, c);
    forall v | 0 <= v < TRAPFRAME_VPN ensures Leaf(m2, proc[p].root, v).v <==> v < Pages(proc[p].sz) {
      assert SameTarget(Leaf(m0, proc[p].root, v), Leaf(m2, proc[p].root, v));
    }
  }

  lemma ForkFailing(m0: Phys, m1: Phys, m2: Phys, m3: Phys, role0: seq<Role>, role2: seq<Role>, role3: seq<Role>,
                    proc: seq<Slot>, p: nat, trampoline: nat, c: nat, tf: nat)
    requires TookPage(m0, m1, role0, tf) && Building(m1, m2, role0[tf := Held], role2, c)
    requires ProcInv(m0, role0, proc, trampoline) && p < |proc| && proc[p].Used?
    requires Forking(m2, m3, role2, role3, proc[p].root, c, 0)
    requires Leaf(m2, c, TRAMPOLINE_VPN) == TrampolinePte(trampoline) && Leaf(m2, c, TRAPFRAME_VPN) == TrapframePte(tf)
    ensures MemInv(m3, role3) && SlotBase(m3, role3, Used(c, tf, 0), trampoline) && Mapped(m3, c, Pages(0))
  {
    ForkingMapped(m2, m3, role2, role3, proc[p].root, c, 0);
    hide Leaf, MemInv, ProcInv, Beside, Churn;
  }

  lemma ForkFailed(m0: Phys, m1: Phys, m2: Phys, m3: Phys, m4: Phys, role0: seq<Role>, role2: seq<Role>,
                   role3: seq<Role>, role4: seq<Role>,
                   proc: seq<Slot>, p: nat, trampoline: nat, c: nat, tf: nat)
    requires TookPage(m0, m1, role0, tf) && Building(m1, m2, role0[tf := Held], role2, c)
    requires ProcInv(m0, role0, proc, trampoline) && p < |proc| && proc[p].Used?
    requires Forking(m2, m3, role2, role3, proc[p].root, c, 0)
    requires MemInv(m4, role4) && Beside(m3, m4, role3, role4, c) && Dismantled(role3, role4, c, tf)
    requires !IsRoot(role4, c)
    ensures role4 == role0
    ensures ProcInv(m4, role4, proc, trampoline) && Step(View(m0, proc), OpFork(p), Oom(0), View(m4, proc))
    ensures m4.refs == m0.refs && multiset(m4.free) == multiset(m0.free)
  {
    hide Leaf, FreeInv, TreeInv, UserInv, Beside, Dismantled, ProcInv, Churn, Step, View, ViewAt;
    ForkReady(m0, m1, m2, role0, role2, proc, p, trampoline, c, tf);
    BesideTrans(m0, m2, m3, role0, role2, role3, c);
    BesideTrans(m0, m3, m4, role0, role3, role4, c);
    ForkRoles(m0, role0, role0[tf := Held], role2, role3, role4, c, tf);
    RolesBack(m0, m4, role0, role4, c);
    AsBeforeWith(m0, m4, role0, role4, c);
    ForkNothing(m0, m4, role0, role4, proc, p, trampoline);
  }

  lemma ForkNoPage(m1: Phys, m2: Phys, role0: seq<Role>, role2: seq<Role>, role3: seq<Role>, c: nat, tf: nat)
    requires tf < |role0| && Building(m1, m2, role0[tf := Held], role2, c) && Churn(role2, role3, c)
    ensures NoNewPage(role0, role3)
  {
    hide MemInv, Beside, Leaf, IsRoot;
    forall f | 0 <= f < |role3| && role3[f].User? ensures role0[f].User? { assert ChurnFrame(role2[f], role3[f], c); }
  }

  lemma ForkDone(m0: Phys, m1: Phys, m2: Phys, m3: Phys, role0: seq<Role>, role2: seq<Role>, role3: seq<Role>,
                 proc: seq<Slot>, p: nat, k: nat, trampoline: nat, c: nat, tf: nat)
    requires TookPage(m0, m1, role0, tf) && Building(m1, m2, role0[tf := Held], role2, c)
    requires ProcInv(m0, role0, proc, trampoline) && p < |proc| && proc[p].Used? && k < |proc| && proc[k].Unused?
    requires Forking(m2, m3, role2, role3, proc[p].root, c, Pages(proc[p].sz))
    requires Leaf(m2, c, TRAMPOLINE_VPN) == TrampolinePte(trampoline) && Leaf(m2, c, TRAPFRAME_VPN) == TrapframePte(tf)
    ensures MemInv(m3, role3) && ProcInv(m3, role3, proc[k := Used(c, tf, proc[p].sz)], trampoline)
    ensures Step(View(m0, proc), OpFork(p), Done(k), View(m3, proc[k := Used(c, tf, proc[p].sz)]))
    ensures AllShared(m3, proc[p].root, c, Pages(proc[p].sz)) && NoNewPage(role0, role3)
  {
    hide Leaf, MemInv, Beside, Churn, Step, View, ViewAt, SpaceOf, Mapped, NoNewPage, AllShared;
    ForkNoPage(m1, m2, role0, role2, role3, c, tf);
    ForkReady(m0, m1, m2, role0, role2, proc, p, trampoline, c, tf);
    BesideTrans(m0, m2, m3, role0, role2, role3, c);
    assert SlotOk(m0, role0, proc[p], trampoline);
    ChildSlot(m0, m2, m3, role0, role2, role3, proc[p], c, tf, trampoline);
    AddSlot(m0, m3, role0, role3, proc, k, Used(c, tf, proc[p].sz), trampoline);
    ForkStep(m0, m3, proc, p, k, Used(c, tf, proc[p].sz));
  }

  lemma ForkStep(m0: Phys, m3: Phys, proc: seq<Slot>, p: nat, k: nat, s: Slot)
    requires p < |proc| && proc[p].Used? && k < |proc| && proc[k].Unused? && s.Used?
    requires SpaceOf(m3, s.root, s.sz) == SpaceOf(m0, proc[p].root, proc[p].sz)
    requires View(m3, proc[k := s]) == View(m0, proc)[k := SpaceOf(m3, s.root, s.sz)]
    ensures Step(View(m0, proc), OpFork(p), Done(k), View(m3, proc[k := s]))
  {
    hide SpaceOf;
  }

  // ---------- the first process, and the page below a stack ----------

  /** A process with no memory of its own joins the table. */
  lemma SpawnDone(m0: Phys, m1: Phys, m2: Phys, role0: seq<Role>, role2: seq<Role>, proc: seq<Slot>, k: nat,
                  trampoline: nat, c: nat, tf: nat)
    requires TookPage(m0, m1, role0, tf) && Building(m1, m2, role0[tf := Held], role2, c)
    requires ProcInv(m0, role0, proc, trampoline) && k < |proc| && proc[k].Unused?
    requires Leaf(m2, c, TRAMPOLINE_VPN) == TrampolinePte(trampoline) && Leaf(m2, c, TRAPFRAME_VPN) == TrapframePte(tf)
    ensures MemInv(m2, role2) && IsRoot(role2, c) && forall u :: 0 <= u < TRAPFRAME_VPN ==> !Leaf(m2, c, u).v
    ensures ProcInv(m2, role2, proc[k := Used(c, tf, 0)], trampoline)
    ensures View(m2, proc[k := Used(c, tf, 0)]) == View(m0, proc)[k := Space(0, [])]
  {
    hide Leaf, MemInv, Beside, View, ViewAt;
    TookBeside(m0, m1, role0, tf, c);
    BesideTrans(m0, m1, m2, role0, role0[tf := Held], role2, c);
    assert SlotOk(m2, role2, Used(c, tf, 0), trampoline);
    AddSlot(m0, m2, role0, role2, proc, k, Used(c, tf, 0), trampoline);
    assert SpaceOf(m2, c, 0) == Space(0, []);
  }

  /** One page laid over with the code is what the first process sees. */
  lemma UserinitDone(m2: Phys, m3: Phys, m4: Phys, role2: seq<Role>, role3: seq<Role>, role4: seq<Role>,
                     proc: seq<Slot>, k: nat, trampoline: nat, code: seq<byte>)
    requires |code| < PGSIZE && ProcInv(m2, role2, proc, trampoline) && k < |proc| && proc[k].Used?
    requires KeepsOthers(m2, m3, role2, role3, proc[k].root)
    requires forall u ::
               0 <= u < TRAPFRAME_VPN ==> ViewAt(m3, proc[k].root, u) == if u == 0 then Some(ZeroPage()) else None
    requires CopiedOut(m3, m4, role3, role4, proc[k].root, 0, code)
    ensures ProcInv(m4, role4, proc[k := proc[k].(sz := PGSIZE)], trampoline)
    ensures View(m4, proc[k := proc[k].(sz := PGSIZE)]) == View(m2, proc)[k := FirstSpace(code)]
  {
    hide Leaf, MemInv, ProcInv, View, KeepsOthers, ViewAt, Overlaid, SpaceOf, FirstSpace, Mapped;
    KeepsOthersTrans(m2, m3, m4, role2, role3, role4, proc[k].root);
    FirstPage(m3, m4, proc[k].root, code);
    ProcKept(m2, m4, role2, role4, proc, k, PGSIZE, trampoline);
  }

  lemma FirstPage(m3: Phys, m4: Phys, root: nat, code: seq<byte>)
    requires |code| < PGSIZE && Overlaid(m3, m4, root, 0, code)
    requires forall u :: 0 <= u < TRAPFRAME_VPN ==> ViewAt(m3, root, u) == if u == 0 then Some(ZeroPage()) else None
    ensures Mapped(m4, root, Pages(PGSIZE)) && SpaceOf(m4, root, PGSIZE) == FirstSpace(code)
  {
    hide Leaf, ViewAt;
    forall v | 0 <= v < TRAPFRAME_VPN ensures Leaf(m4, root, v).v <==> v < 1 {
      ViewValid(m4, root, v);
      assert ViewAt(m4, root, v) == Overlay(ViewAt(m3, root, v), v, 0, code);
    }
    assert ViewAt(m4, root, 0) == Overlay(ViewAt(m3, root, 0), 0, 0, code);
    assert Overwrite(ZeroPage().data, 0, code) == code + seq(PGSIZE - |code|, _ => 0);
  }

  ghost predicate Cleared(m: Phys, m': Phys, root: nat, v: nat) {
    && ViewAt(m, root, v).Some? && ViewAt(m', root, v) == Some(ViewAt(m, root, v).value.(user := false))
    && forall u :: 0 <= u < TRAPFRAME_VPN && u != v ==> ViewAt(m', root, u) == ViewAt(m, root, u)
  }

  /** uvmclear takes a page from the process's reach and changes nothing else. */
  lemma ClearInv(m: Phys, role: seq<Role>, root: nat, v: nat, low: nat, e: Pte)
    requires MemInv(m, role) && IsRoot(role, root) && v < TRAPFRAME_VPN && Leaf(m, root, v).v
    requires low < |role| && role[low] == Tbl(root, 0, v / NPTE) && e == Leaf(m, root, v).(u := false)
    ensures m.frames[low].Table? && |m.frames[low].ptes| == NPTE
    ensures var m' := SetEntry(m, low, v % NPTE, e);
            && MemInv(m', role) && KeepsOthers(m, m', role, role, root)
            && Cleared(m, m', root, v)
  {
    TableShape(m, role, low);
    UserLeaf(m, role, root, v);
    LeafWrite(m, role, low, v % NPTE, e);
    var m' := SetEntry(m, low, v % NPTE, e);
    FreeInvFrames(m, m', role);
    hide Leaf;
    Reflag(m, m', role, root, v, e);
    forall u | 0 <= u < TRAPFRAME_VPN && u != v
      ensures ViewAt(m', root, u) == ViewAt(m, root, u) { ViewKept(m, m', role, root, u); }
    OthersKept(m, m', role, role, root);
  }

  lemma ClearNone(m: Phys, proc: seq<Slot>, p: nat, a: nat)
    requires p < |proc| && proc[p].Used? && a / PGSIZE >= Pages(proc[p].sz)
    ensures Step(View(m, proc), OpClear(p, a), Fault(0), View(m, proc))
  {
    hide ViewAt;
  }

  lemma MappedLeaf(m: Phys, root: nat, n: nat, v: nat)
    requires Mapped(m, root, n) && v < n <= TRAPFRAME_VPN
    ensures Leaf(m, root, v).v
  {
    hide Leaf;
  }

  lemma NotLive(m: Phys, proc: seq<Slot>, op: Op)
    ensures !(op.p < |proc| && proc[op.p].Used?) ==> Step(View(m, proc), op, Fault(0), View(m, proc))
  {}

  lemma NotInView(m: Phys, proc: seq<Slot>, k: nat)
    requires k < |proc| && proc[k].Unused?
    ensures k !in View(m, proc)
  {}

  lemma FirstViews(m2: Phys, m3: Phys, root: nat)
    requires forall u :: 0 <= u < TRAPFRAME_VPN ==> !Leaf(m2, root, u).v
    requires forall u ::
               0 <= u < TRAPFRAME_VPN ==>
                 ViewAt(m3, root, u) == if u == 0 then Some(ZeroPage()) else ViewAt(m2, root, u)
    ensures forall u :: 0 <= u < TRAPFRAME_VPN ==> ViewAt(m3, root, u) == if u == 0 then Some(ZeroPage()) else None
  {
    hide Leaf;
  }

  lemma KeptRoot(m: Phys, m': Phys, role: seq<Role>, role': seq<Role>, root: nat)
    requires KeepsOthers(m, m', role, role', root) && IsRoot(role, root) && MemInv(m', role')
    ensures IsRoot(role', root) && UserInv(m', role')
  {
    hide Leaf;
  }

  lemma ClearSpace(m: Phys, m': Phys, root: nat, sz: nat, v: nat)
    requires Cleared(m, m', root, v) && Mapped(m, root, Pages(sz)) && v < Pages(sz) <= TRAPFRAME_VPN
    ensures Mapped(m', root, Pages(sz)) && SpaceOf(m', root, sz) == Clear(SpaceOf(m, root, sz), v)
  {
    hide Leaf;
    forall u | 0 <= u < TRAPFRAME_VPN ensures Leaf(m', root, u).v == Leaf(m, root, u).v {
      ViewValid(m, root, u);
      ViewValid(m', root, u);
    }
    hide ViewAt;
  }

  lemma ClearDone(m: Phys, m': Phys, role: seq<Role>, proc: seq<Slot>, p: nat, trampoline: nat, a: nat)
    requires ProcInv(m, role, proc, trampoline) && p < |proc| && proc[p].Used? && a / PGSIZE < Pages(proc[p].sz)
    requires KeepsOthers(m, m', role, role, proc[p].root) && Cleared(m, m', proc[p].root, a / PGSIZE)
    ensures ProcInv(m', role, proc, trampoline) && Step(View(m, proc), OpClear(p, a), Done(0), View(m', proc))
  {
    hide Leaf, ProcInv, KeepsOthers, Cleared, Mapped, ViewAt;
    SpecialNotUser(m, role, proc, p, trampoline);
    ClearSpace(m, m', proc[p].root, proc[p].sz, a / PGSIZE);
    ProcKept(m, m', role, role, proc, p, proc[p].sz, trampoline);
    assert proc[p := proc[p].(sz := proc[p].sz)] == proc;
  }

  // ---------- accounting, stated outright ----------

  /** References the kernel itself holds: one for a table page or a page it keeps. */
  function KernelRefs(x: Role): nat { if x.Held? || x.Tbl? then 1 else 0 }

  /** Each count is the number of user entries, over all page tables, plus the kernel's own
      references; it is zero exactly for the pages on the free list, each there once. */
  lemma Accounting(m: Phys, role: seq<Role>, f: nat)
    requires MemInv(m, role) && f < |role|
    ensures m.refs[f] == |Owners(m, role, f)| + KernelRefs(role[f])
    ensures (m.refs[f] == 0 <==> role[f].Free?) && (f in m.free <==> role[f].Free?)
    ensures multiset(m.free)[f] == if m.refs[f] == 0 then 1 else 0
  {
    assert CountOk(m, role, f);
    if !role[f].User? { NoOwners(m, role, f); }
    OnceEach(m.free, f);
  }

  /** Every user entry is either writable or copy-on-write, and a writable one is the only
      reference to its page. */
  lemma EntryKinds(m: Phys, role: seq<Role>, r: nat, v: nat)
    requires MemInv(m, role) && IsRoot(role, r) && v < TRAPFRAME_VPN && Leaf(m, r, v).v
    ensures var e := Leaf(m, r, v);
            e.w != e.rsw && e.ppn < |role| && (e.w ==> m.refs[e.ppn] == 1 && Owners(m, role, e.ppn) == {(r, v)})
  {
    var e := Leaf(m, r, v);
    assert LeafOk(m, role, e);
    if e.w {
      forall x: (nat, nat) ensures x in Owners(m, role, e.ppn) <==> x in {(r, v)} {
        OwnersIn(m, role, e.ppn, x.0, x.1);
        OwnersIn(m, role, e.ppn, r, v);
        if x in Owners(m, role, e.ppn) { SoleOwner(m, role, r, v, x.0, x.1); }
      }
    }
  }

  /** When no process is left, every page is back on the free list. */
  lemma NothingLeaks(m: Phys, role: seq<Role>, proc: seq<Slot>, trampoline: nat, f: nat)
    requires MemInv(m, role) && ProcInv(m, role, proc, trampoline) && f < |role|
    requires forall q :: 0 <= q < |proc| ==> proc[q].Unused?
    ensures f in m.free && m.refs[f] == 0
  {
    assert forall g :: !InSomeSlot(proc, g);
    assert forall g :: 0 <= g < |role| ==> !IsRoot(role, g) && !role[g].Held?;
    assert NodeOk(m, role, f) && !role[f].Tbl?;
    assert Owners(m, role, f) == {};
    assert CountOk(m, role, f);
  }

  lemma FreeInvHeld(m: Phys, m': Phys, role: seq<Role>, i: nat)
    requires FreeInv(m, role) && i < |role| && role[i].Held? && m' == m.(refs := m.refs[i := 1])
    ensures FreeInv(m', role)
  {}

  /** With every page free and no process, the machine is sound and empty. */
  lemma BootInv(m: Phys, role: seq<Role>, proc: seq<Slot>, trampoline: nat)
    requires FreeInv(m, role) && forall f :: 0 <= f < |role| ==> role[f].Free? && m.frames[f] == Filled(1)
    requires proc == seq(NPROC, _ => Unused)
    ensures MemInv(m, role) && ProcInv(m, role, proc, trampoline) && View(m, proc) == map[]
  {
    hide Leaf;
  }
}
