/** The memory side of the kernel: kalloc.c, vm.c, the write-fault branch of trap.c, and
    the parts of proc.c that give a process its memory and take it back.

    Each update of a reference count, and each operation of the class, is one atomic step. */
module KernelMemory {
  import opened Sv39
  import opened Eager
  import opened Cow
  import opened MemorySteps

  /** The memory, what each frame is for, and the process table. */
  datatype Machine = Machine(m: Phys, role: seq<Role>, proc: seq<Slot>)

  ghost predicate Sound(k: Machine, trampoline: nat) { MemInv(k.m, k.role) && ProcInv(k.m, k.role, k.proc, trampoline) }

  /** Memory or slots are too short for op: the only excuse for running out. */
  ghost predicate Short(k: Machine, op: Op, k': Machine) {
    && op.p < |k.proc| && k.proc[op.p].Used?
    && match op
       case OpFork(p) => (forall q :: 0 <= q < |k.proc| ==> k.proc[q].Used?) || |k.m.free| < 4 + 2 * Pages(k.proc[p].sz)
       case OpStore(_, _, _) => k.m.free == []
       case OpCopyout(_, _, _) => k'.m.free == []
       case OpSbrk(p, n) => n > 0 && |k.m.free| < 3 * (Pages(NewSize(k.proc[p].sz, n)) - Pages(k.proc[p].sz))
       case _ => false
  }

  /** Every state on the way is sound and looks like ws, and no operation runs out without an excuse. */
  ghost predicate Behind(ks: seq<Machine>, ops: seq<Op>, outs: seq<Outcome>, ws: seq<World>, trampoline: nat) {
    && |ks| == |ws| == |ops| + 1 == |outs| + 1
    && (forall i :: 0 <= i < |ks| ==> Sound(ks[i], trampoline) && ws[i] == View(ks[i].m, ks[i].proc))
    && forall i :: 0 <= i < |ops| && outs[i].Oom? ==> Short(ks[i], ops[i], ks[i + 1])
  }

  lemma BehindMore(ks: seq<Machine>, ops: seq<Op>, outs: seq<Outcome>, ws: seq<World>, trampoline: nat, op: Op,
                   out: Outcome, k: Machine)
    requires Behind(ks, ops, outs, ws, trampoline) && Sound(k, trampoline) && (out.Oom? ==> Short(ks[|ops|], op, k))
    ensures Behind(ks + [k], ops + [op], outs + [out], ws + [View(k.m, k.proc)], trampoline)
  {
    hide Sound, Short, View;
  }

  class Kernel {
    const frames: array<Frame>
    const refCount: array<nat>
    var freelist: seq<nat>
    var proc: seq<Slot>
    const trampoline: nat
    ghost var role: seq<Role>

    ghost function Mem(): Phys
      reads this, frames, refCount
    { Phys(frames[..], refCount[..], freelist) }

    // ---------- kalloc.c ----------

    method Kalloc() returns (page: Option<nat>)
      requires FreeInv(Mem(), role) && TreeInv(Mem(), role)
      modifies this`freelist, this`role, frames, refCount
      ensures FreeInv(Mem(), role) && TreeInv(Mem(), role)
      ensures SameLeaves(old(Mem()), Mem(), old(role), role)
      ensures page.None? <==> old(freelist) == []
      ensures page.None? ==> Mem() == old(Mem()) && role == old(role)
      ensures page.Some? ==>
                && page.value == old(freelist)[0] && page.value < |role|
                && Mem() == AfterAlloc(old(Mem())) && role == old(role)[page.value := Held]
                && AllBytes(frames[page.value], 5)
    {
      if freelist == [] { return None; }
      AllocInv(Mem(), role);
      ghost var m := Mem();
      var f := freelist[0];
      freelist := freelist[1..];
      refCount[f] := 1;
      frames[f] := Filled(5);
      role := role[f := Held];
      assert Mem() == AfterAlloc(m);
      page := Some(f);
    }

    method Kfree(f: nat)
      requires FreeInv(Mem(), role) && f < |role| && !role[f].Free? && refCount[f] > 0
      modifies this`freelist, this`role, frames, refCount
      ensures FreeInv(Mem(), role)
      ensures Mem() == AfterFree(old(Mem()), f)
      ensures role == if old(refCount[f]) == 1 then old(role)[f := Free] else old(role)
      ensures old(refCount[f]) == 1 ==> AllBytes(frames[f], 1)
    {
      FreeFreeInv(Mem(), role, f);
      ghost var m := Mem();
      refCount[f] := refCount[f] - 1;
      if refCount[f] > 0 {
        assert Mem() == AfterFree(m, f);
        return;
      }
      frames[f] := Filled(1);
      freelist := [f] + freelist;
      role := role[f := Free];
      assert Mem() == AfterFree(m, f);
    }

    // ---------- vm.c ----------

    /** *pte = e, for the k-th entry of table f. */
    method StorePte(f: nat, k: nat, e: Pte)
      requires f < frames.Length && frames[f].Table? && k < |frames[f].ptes|
      modifies frames
      ensures Mem() == SetEntry(old(Mem()), f, k, e)
    {
      ghost var m := Mem();
      frames[f] := Table(frames[f].ptes[k := e]);
      assert Mem() == SetEntry(m, f, k, e);
    }

    /** Zero the held page f and link it in at entry k of table g. */
    method AddTable(g: nat, k: nat, f: nat)
      requires FreeInv(Mem(), role) && TreeInv(Mem(), role) && refCount.Length == frames.Length
      requires g < |role| && f < |role| && k < NPTE && role[g].Tbl? && role[g].level > 0
      requires InLevel(role[g].level - 1, role[g].idx * NPTE + k)
      requires role[f].Held? && refCount[f] == 1 && !Entry(Mem(), g, k).v
      modifies this`role, frames
      ensures FreeInv(Mem(), role) && TreeInv(Mem(), role)
      ensures SameLeaves(old(Mem()), Mem(), old(role), role)
      ensures role == old(role)[f := Tbl(old(role)[g].root, old(role)[g].level - 1, old(role)[g].idx * NPTE + k)]
      ensures refCount[..] == old(refCount[..]) && freelist == old(freelist)
      ensures forall h :: 0 <= h < |role| && h != f && h != g ==> frames[h] == old(frames[h])
      ensures Entry(Mem(), g, k) == Link(f)
    {
      ghost var m, role0 := Mem(), role;
      assert NodeOk(m, role, g) && NodeOk(m, role, f);
      frames[f] := EmptyTable();
      frames[g] := Table(frames[g].ptes[k := Link(f)]);
      role := role[f := Tbl(role[g].root, role[g].level - 1, role[g].idx * NPTE + k)];
      assert Mem() == m.(frames := m.frames[f := EmptyTable()][g := Table(m.frames[g].ptes[k := Link(f)])]);
      LinkTable(m, Mem(), role0, role, g, k, f);
    }

    /** AddTable for a page just taken from the free list: the tree grows and no mapping changes. */
    method AddFreshTable(g: nat, k: nat) returns (page: Option<nat>)
      requires FreeInv(Mem(), role) && TreeInv(Mem(), role)
      requires g < |role| && k < NPTE && role[g].Tbl? && role[g].level > 0
      requires InLevel(role[g].level - 1, role[g].idx * NPTE + k) && !Entry(Mem(), g, k).v
      modifies this`freelist, this`role, frames, refCount
      ensures FreeInv(Mem(), role) && TreeInv(Mem(), role)
      ensures Grown(old(Mem()), Mem(), old(role), role, old(role)[g].root)
      ensures page.None? ==> Mem() == old(Mem()) && role == old(role) && freelist == []
      ensures page.Some? ==> page.value < |role|
      ensures page.Some? ==>
                role[page.value] == Tbl(old(role)[g].root, old(role)[g].level - 1, old(role)[g].idx * NPTE + k)
      ensures |freelist| + 1 >= |old(freelist)|
    {
      ghost var m, role0 := Mem(), role;
      page := Kalloc();
      if page.None? { return; }
      ghost var f := page.value;
      assert Entry(Mem(), g, k) == Entry(m, g, k);
      AddTable(g, k, page.value);
      assert NodeOk(m, role0, g);
      forall h | 0 <= h < |role| ensures GrownFrame(m, Mem(), role0, role, role0[g].root, h) {
      }
    }

    /** The level-0 table that holds v's entry; tables are created on the way if alloc. */
    method Walk(root: nat, v: nat, alloc: bool) returns (low: Option<nat>)
      requires FreeInv(Mem(), role) && TreeInv(Mem(), role) && IsRoot(role, root) && v < NVPN
      modifies this`freelist, this`role, frames, refCount
      ensures FreeInv(Mem(), role) && TreeInv(Mem(), role)
      ensures Grown(old(Mem()), Mem(), old(role), role, root)
      ensures low.Some? ==> low.value < |role| && role[low.value] == Tbl(root, 0, v / NPTE)
      ensures low.None? ==> NodeAt(old(Mem()), root, 0, v / NPTE) == |old(role)|
      ensures low.None? ==> (alloc ==> freelist == [] && |old(freelist)| <= 1)
      ensures |freelist| + 2 >= |old(freelist)|
      ensures !alloc || NodeAt(old(Mem()), root, 0, v / NPTE) < |old(role)| ==> Mem() == old(Mem()) && role == old(role)
    {
      ghost var m, role0 := Mem(), role;
      GrownRefl(m, role, root);
      hide FreeInv, TreeInv, SameLeaves, GrownFrames, NodeAt, Px, PathIndex;
      var table: nat, level: nat := root, 2;
      assert PathIndex(2, v) == 0 && PathIndex(0, v) == v / NPTE by { PathEnds(v); }
      while level > 0
        invariant level <= 2
        invariant FreeInv(Mem(), role) && TreeInv(Mem(), role)
        invariant Grown(m, Mem(), role0, role, root)
        invariant table < |role| && role[table] == Tbl(root, level, PathIndex(level, v))
        invariant (Mem() == m && role == role0) || (alloc && NodeAt(m, root, 0, v / NPTE) == |role0|)
        invariant |freelist| + 2 - level >= |old(freelist)|
      {
        WalkStep(Mem(), role, root, table, level, v);
        var k := Px(level, v);
        var e := frames[table].ptes[k];
        if e.v {
          table := e.ppn;
        } else {
          if !alloc { return None; }
          ghost var m1, role1 := Mem(), role;
          var page := AddFreshTable(table, k);
          GrownTrans(m, m1, Mem(), role0, role1, role, root);
          if page.None? { return None; }
          table := page.value;
        }
        level := level - 1;
      }
      return Some(table);
    }

    /** The body of mappages' loop: find or make the place for page v, and store e there. */
    method MapOne(root: nat, v: nat, e: Pte) returns (ok: bool)
      requires FreeInv(Mem(), role) && TreeInv(Mem(), role) && IsRoot(role, root) && v < NVPN
      modifies this`freelist, this`role, frames, refCount
      ensures FreeInv(Mem(), role) && TreeInv(Mem(), role)
      ensures GrownFrames(old(Mem()), Mem(), old(role), role, root)
      ensures |freelist| + 2 >= |old(freelist)|
      ensures !ok ==> SameLeaves(old(Mem()), Mem(), old(role), role) && freelist == [] && |old(freelist)| <= 1
                      && NodeAt(old(Mem()), root, 0, v / NPTE) == |old(role)|
      ensures ok ==> LeafSet(old(Mem()), Mem(), old(role), role, root, v, e)
      ensures NodeAt(old(Mem()), root, 0, v / NPTE) < |old(role)| ==>
                role == old(role) && refCount[..] == old(refCount[..]) && freelist == old(freelist)
    {
      ghost var m, role0 := Mem(), role;
      var low := Walk(root, v, true);
      if low.None? { return false; }
      ghost var m2 := Mem();
      assert NodeOk(m2, role, low.value);
      LeafWrite(m2, role, low.value, v % NPTE, e);
      StorePte(low.value, v % NPTE, e);
      MapPagesFrames(m, m2, Mem(), role0, role, root, low.value);
      LeafSetAfter(m, m2, Mem(), role0, role, root, v, e);
      ok := true;
    }

    /** mappages: fails only when a table page is needed and there is none. */
    method MapPages(root: nat, va: nat, size: nat, ppn: nat, perm: Pte) returns (ok: bool, ghost done: nat)
      requires FreeInv(Mem(), role) && TreeInv(Mem(), role) && IsRoot(role, root)
      requires size > 0 && va + size - 1 < NVPN * PGSIZE
      modifies this`freelist, this`role, frames, refCount
      ensures FreeInv(Mem(), role) && TreeInv(Mem(), role)
      ensures GrownFrames(old(Mem()), Mem(), old(role), role, root)
      ensures RangeMapped(old(Mem()), Mem(), old(role), role, root, va / PGSIZE, done, ppn, perm)
      ensures done <= (va + size - 1) / PGSIZE + 1 - va / PGSIZE
      ensures ok <==> done == (va + size - 1) / PGSIZE + 1 - va / PGSIZE
      ensures if ok then |freelist| + 2 * done >= |old(freelist)| else freelist == [] && |old(freelist)| <= 2 * done + 1
      ensures done == 0 ==> NodeAt(old(Mem()), root, 0, va / PGSIZE / NPTE) == |old(role)|
      ensures va / PGSIZE == (va + size - 1) / PGSIZE
              && NodeAt(old(Mem()), root, 0, va / PGSIZE / NPTE) < |old(role)| ==>
                role == old(role) && refCount[..] == old(refCount[..]) && freelist == old(freelist)
    {
      hide FreeInv, TreeInv, SameLeaves, GrownFrames, RangeMapped, LeafSet, NodeAt;
      ghost var m, role0 := Mem(), role;
      var a, last := va / PGSIZE, (va + size - 1) / PGSIZE;
      ghost var first := a;
      var pa := ppn;
      done := 0;
      TreeLens(m, role);
      RangeMappedRefl(m, role, root, first, ppn, perm);
      while true
        invariant FreeInv(Mem(), role) && TreeInv(Mem(), role) && IsRoot(role, root)
        invariant first <= a <= last < NVPN && done == a - first && pa == ppn + done
        invariant GrownFrames(m, Mem(), role0, role, root)
        invariant RangeMapped(m, Mem(), role0, role, root, first, done, ppn, perm)
        invariant done == 0 ==> Mem() == m && role == role0
        invariant |freelist| + 2 * done >= |old(freelist)|
        decreases last - a
      {
        ghost var m1, role1 := Mem(), role;
        ok := MapOne(root, a, MapPte(perm, pa));
        GrownFramesTrans(m, m1, Mem(), role0, role1, role, root);
        RangeExtend(m, m1, Mem(), role0, role1, role, root, first, done, ppn, perm, ok);
        if !ok { return; }
        done := done + 1;
        if a == last { return; }
        a := a + 1;
        pa := pa + 1;
      }
    }

    /** The body of uvmunmap's loop. The panics for an absent or non-leaf entry are unreachable. */
    method UnmapOne(root: nat, v: nat, doFree: bool)
      requires MemInv(Mem(), role) && IsRoot(role, root) && v < NVPN
      requires Leaf(Mem(), root, v).v && IsLeafPte(Leaf(Mem(), root, v)) && (doFree <==> v < TRAPFRAME_VPN)
      modifies this`freelist, this`role, frames, refCount
      ensures MemInv(Mem(), role)
      ensures LeafSet(old(Mem()), Mem(), old(role), role, root, v, ZERO)
      ensures DroppedFrames(old(Mem()), Mem(), old(role), role)
      ensures !doFree ==> role == old(role) && freelist == old(freelist) && refCount[..] == old(refCount[..])
    {
      ghost var m, role0 := Mem(), role;
      var low := Walk(root, v, false);
      LeafInLow(m, role, root, v, low);
      var e := frames[low.value].ptes[v % NPTE];
      assert e.v && IsLeafPte(e);
      if doFree {
        UnmapFreeInv(m, role, root, v, low.value, e.ppn);
        Kfree(e.ppn);
      } else {
        UnmapKeepInv(m, role, root, v, low.value);
      }
      StorePte(low.value, v % NPTE, ZERO);
    }

    /** uvmunmap over pages processes own: every page of the range is freed once and no
        one else notices. */
    method UvmunmapFree(root: nat, a: nat, npages: nat)
      requires MemInv(Mem(), role) && IsRoot(role, root) && a + npages <= TRAPFRAME_VPN
      requires forall v :: a <= v < a + npages ==> Leaf(Mem(), root, v).v
      modifies this`freelist, this`role, frames, refCount
      ensures MemInv(Mem(), role)
      ensures RangeCleared(old(Mem()), Mem(), old(role), role, root, a, npages)
      ensures KeepsOthers(old(Mem()), Mem(), old(role), role, root) && Churn(old(role), role, root)
      ensures forall v ::
                0 <= v < TRAPFRAME_VPN ==>
                  ViewAt(Mem(), root, v) == if a <= v < a + npages then None else ViewAt(old(Mem()), root, v)
    {
      ghost var m, role0 := Mem(), role;
      UnmappingStart(m, role, root, a);
      var i := 0;
      while i < npages
        invariant i <= npages && Unmapping(m, Mem(), role0, role, root, a, i)
      {
        hide Leaf, MemInv, FreeInv, TreeInv, UserInv, DroppedFrames, LeafSet, Unmapping, IsLeafPte, IsRoot;
        ghost var m1, role1 := Mem(), role;
        UnmappingNext(m, m1, role0, role1, root, a, i);
        UnmapOne(root, a + i, true);
        UnmappingMore(m, m1, Mem(), role0, role1, role, root, a, i);
        i := i + 1;
      }
    }

    /** freewalk: frees table f and all tables below it. m1 and role1 describe memory just
        before f itself goes, when the rest of the tree is still sound. */
    method Freewalk(f: nat) returns (ghost m1: Phys, ghost role1: seq<Role>)
      requires FreeInv(Mem(), role) && TreeInv(Mem(), role)
      requires f < |role| && role[f].Tbl? && LeafFree(Mem(), role[f].root)
      modifies this`freelist, this`role, frames, refCount
      ensures TreeInv(m1, role1) && Emptied(m1, f) && LeafFree(m1, old(role)[f].root)
      ensures Pruned(old(Mem()), m1, old(role), role1, old(role)[f].root, old(role)[f].level)
      ensures f < |role1| && role1[f] == old(role)[f] && m1.refs[f] == 1
      ensures FreeInv(Mem(), role) && Mem() == AfterFree(m1, f) && role == role1[f := Free]
      decreases role[f].level
    {
      ghost var m, role0, r, l := Mem(), role, role[f].root, role[f].level;
      PrunedRefl(m, role, r, l);
      for i := 0 to NPTE
        invariant FreeInv(Mem(), role) && TreeInv(Mem(), role) && LeafFree(Mem(), r)
        invariant Pruned(m, Mem(), role0, role, r, l)
        invariant f < |role| && role[f] == role0[f]
        invariant forall k :: 0 <= k < i ==> !Entry(Mem(), f, k).v
      {
        ghost var ma, rolea := Mem(), role;
        NodeEntry(ma, rolea, f, i);
        hide Leaf, FreeInv, TreeInv, LeafFree, Pruned, Emptied;
        var pte := frames[f].ptes[i];
        if pte.v && !IsLeafPte(pte) {
          var child := pte.ppn;
          ghost var mc, rolec := Freewalk(child);
          PrunedParent(ma, mc, rolea, rolec, f, i, child);
          StorePte(f, i, ZERO);
          FreeInvFrames(AfterFree(mc, child), Mem(), role);
          PrunedUnlink(ma, mc, Mem(), rolea, rolec, role, f, i, child);
          PrunedTrans(m, ma, Mem(), role0, rolea, role, r, l);
        } else if pte.v {
          assert false; // panic("freewalk: leaf")
        }
      }
      TableShape(Mem(), role, f);
      m1, role1 := Mem(), role;
      Kfree(f);
    }

    /** The body of uvmalloc's loop: a zeroed page at v, or nothing. */
    method AllocUserPage(root: nat, v: nat) returns (ok: bool)
      requires MemInv(Mem(), role) && IsRoot(role, root) && v < TRAPFRAME_VPN && !Leaf(Mem(), root, v).v
      modifies this`freelist, this`role, frames, refCount
      ensures MemInv(Mem(), role) && KeepsOthers(old(Mem()), Mem(), old(role), role, root)
      ensures forall u :: 0 <= u < TRAPFRAME_VPN ==>
                ViewAt(Mem(), root, u) == if ok && u == v then Some(ZeroPage()) else ViewAt(old(Mem()), root, u)
      ensures if ok then |freelist| + 3 >= |old(freelist)| else |old(freelist)| <= 2
      ensures ok ==> Leaf(Mem(), root, v).v && Leaf(Mem(), root, v).w && Leaf(Mem(), root, v).u
    {
      hide Leaf, MemInv, FreeInv, TreeInv, UserInv, KeepsOthers, ViewAt, GrownFrames, SameLeaves, UserDataKept,
          RangeMapped, LeafSet;
      ghost var m, role0 := Mem(), role;
      MemParts(m, role);
      RangeClearedRefl(m, role, root, 0);
      var page := Kalloc();
      if page.None? { return false; }
      AllocFilledInv(m, role0, Filled(0));
      ghost var m2, role2 := AllocFilled(m, Filled(0)), role;
      MemParts(m2, role2);
      frames[page.value] := Filled(0);
      assert Mem() == m2;
      OnePage(v);
      ghost var done;
      ok, done := MapPages(root, v * PGSIZE, PGSIZE, page.value, USER_PERM);
      RangeOne(m2, Mem(), role2, role, root, v, done, page.value, USER_PERM);
      if !ok {
        FreshNotViews(m, m2, Mem(), role0, role2, role, root, page.value);
        Kfree(page.value);
        return;
      }
      FreshViews(m, m2, Mem(), role0, role2, role, root, v, page.value);
      role := role[page.value := User];
    }

    /** uvmdealloc: shrink to newsz. */
    method Uvmdealloc(root: nat, oldsz: nat, newsz: nat) returns (sz: nat)
      requires MemInv(Mem(), role) && IsRoot(role, root) && oldsz < UINT_LIMIT && Mapped(Mem(), root, Pages(oldsz))
      modifies this`freelist, this`role, frames, refCount
      ensures MemInv(Mem(), role) && KeepsOthers(old(Mem()), Mem(), old(role), role, root)
      ensures sz == (if newsz < oldsz then newsz else oldsz) && Mapped(Mem(), root, Pages(sz))
      ensures forall v :: 0 <= v < Pages(sz) ==> ViewAt(Mem(), root, v) == ViewAt(old(Mem()), root, v)
    {
      RangeClearedRefl(Mem(), role, root, 0);
      if newsz >= oldsz { return oldsz; }
      if Pages(newsz) < Pages(oldsz) {
        UvmunmapFree(root, Pages(newsz), Pages(oldsz) - Pages(newsz));
      }
      return newsz;
    }

    /** uvmalloc: grow to newsz with zeroed pages; None stands for its 0, with nothing changed. */
    method Uvmalloc(root: nat, oldsz: nat, newsz: nat) returns (sz: Option<nat>)
      requires MemInv(Mem(), role) && IsRoot(role, root) && Mapped(Mem(), root, Pages(oldsz))
      requires oldsz < UINT_LIMIT && newsz < UINT_LIMIT
      modifies this`freelist, this`role, frames, refCount
      ensures MemInv(Mem(), role) && KeepsOthers(old(Mem()), Mem(), old(role), role, root)
      ensures sz.Some? ==> sz.value == (if newsz < oldsz then oldsz else newsz) && Mapped(Mem(), root, Pages(sz.value))
      ensures sz.None? ==> Mapped(Mem(), root, Pages(oldsz)) && newsz >= oldsz
      ensures sz.None? ==> |old(freelist)| < 3 * (Pages(newsz) - Pages(oldsz))
      ensures forall v :: 0 <= v < Pages(if sz.Some? then sz.value else oldsz) ==>
                ViewAt(Mem(), root, v) == if v < Pages(oldsz) then ViewAt(old(Mem()), root, v) else Some(ZeroPage())
    {
      hide Leaf, FreeInv, TreeInv, UserInv, MemInv, KeepsOthers, IsRoot, ViewAt;
      ghost var m, role0 := Mem(), role;
      MemParts(m, role);
      RangeClearedRefl(m, role, root, 0);
      if newsz < oldsz { return Some(oldsz); }
      var first := Pages(oldsz);
      var a := first;
      while a * PGSIZE < newsz
        invariant first <= a <= Pages(newsz)
        invariant MemInv(Mem(), role) && IsRoot(role, root) && KeepsOthers(m, Mem(), role0, role, root)
        invariant Mapped(Mem(), root, a)
        invariant forall v :: 0 <= v < a ==>
                    ViewAt(Mem(), root, v) == if v < first then ViewAt(m, root, v) else Some(ZeroPage())
        invariant |freelist| + 3 * (a - first) >= |old(freelist)|
        decreases Pages(newsz) - a
      {
        ghost var m1, role1 := Mem(), role;
        assert !Leaf(m1, root, a).v;
        var ok := AllocUserPage(root, a);
        KeepsOthersTrans(m, m1, Mem(), role0, role1, role, root);
        KeptRoot(m1, Mem(), role1, role, root);
        AllocMapped(m1, Mem(), root, a, ok);
        if !ok {
          ghost var m2, role2 := Mem(), role;
          var back := Uvmdealloc(root, a * PGSIZE, first * PGSIZE);
          KeepsOthersTrans(m, m2, Mem(), role0, role2, role, root);
          return None;
        }
        a := a + 1;
      }
      return Some(newsz);
    }

    /** Move page v to a copy of its frame, left writable or still marked copy-on-write. */
    method CopyPage(root: nat, v: nat, low: nat, e: Pte, writable: bool) returns (ok: bool)
      requires MemInv(Mem(), role) && IsRoot(role, root) && v < TRAPFRAME_VPN
      requires low < |role| && role[low] == Tbl(root, 0, v / NPTE)
      requires Leaf(Mem(), root, v) == e && e.v && e.ppn < |role| && role[e.ppn].User? && e.r
      requires refCount.Length == |role| && refCount[e.ppn] > 1
      modifies this`freelist, this`role, frames, refCount
      ensures MemInv(Mem(), role)
      ensures ok ==> SameViews(old(Mem()), Mem(), old(role), role, root) && Private(Mem(), role, root, v)
      ensures ok ==> old(freelist) != []
      ensures ok ==> Leaf(Mem(), root, v) == e.(w := writable, rsw := !writable, ppn := old(freelist)[0])
      ensures !ok ==> Mem() == old(Mem()) && role == old(role) && freelist == []
    {
      ghost var m, role0 := Mem(), role;
      hide Leaf, FreeInv, TreeInv, UserInv, SameViews, Private, GrownFrames, SameLeaves, UserDataKept, RangeMapped,
          LeafSet, NodeAt;
      var page := Kalloc();
      if page.None? { return false; }
      ghost var m2 := AllocFilled(m, m.frames[e.ppn]);
      AllocFilledInvOf(m, role0, e.ppn);
      CopyPath(m, m2, role0, root, v, low);
      frames[page.value] := frames[e.ppn];
      assert Mem() == m2;
      OnePage(v);
      var perm := e.(w := writable, rsw := !writable);
      ghost var done;
      ok, done := MapPages(root, v * PGSIZE, PGSIZE, page.value, perm);
      assert ok; // the table for v exists, so mappages cannot fail
      RangeOne(m2, Mem(), role, role, root, v, done, page.value, perm);
      CopyMapped(m, m2, Mem(), role0, root, v, page.value, MapPte(perm, page.value));
      Kfree(e.ppn);
      role := role[page.value := User];
      assert role == role0[page.value := User];
    }

    /** The copy-on-write core that usertrap and copyout share: take the page over if this is
        the only reference, else move to a copy. */
    method BreakSharing(root: nat, v: nat, low: nat, writable: bool) returns (ok: bool)
      requires MemInv(Mem(), role) && IsRoot(role, root) && v < TRAPFRAME_VPN
      requires low < |role| && role[low] == Tbl(root, 0, v / NPTE)
      requires Leaf(Mem(), root, v).v && Leaf(Mem(), root, v).rsw
      modifies this`freelist, this`role, frames, refCount
      ensures MemInv(Mem(), role)
      ensures ok ==> SameViews(old(Mem()), Mem(), old(role), role, root) && Private(Mem(), role, root, v)
      ensures ok && writable ==> Leaf(Mem(), root, v).w && Leaf(Mem(), root, v).u == Leaf(old(Mem()), root, v).u
      ensures ok ==> var f := Leaf(old(Mem()), root, v).ppn;
                f < |old(Mem()).refs| && Leaf(Mem(), root, v).w == (writable || old(Mem()).refs[f] == 1)
      ensures !ok ==> Mem() == old(Mem()) && role == old(role) && freelist == []
    {
      ghost var m, role0 := Mem(), role;
      LeafInLow(m, role, root, v, Some(low));
      UserLeaf(m, role, root, v);
      hide Leaf, FreeInv, TreeInv, UserInv, SameViews;
      var e := frames[low].ptes[v % NPTE];
      if refCount[e.ppn] == 1 {
        TakeOver(m, role, root, v, low, e.(w := true, rsw := false));
        StorePte(low, v % NPTE, e.(w := true, rsw := false));
        return true;
      }
      ok := CopyPage(root, v, low, e, writable);
    }

    /** memmove(pa0 + off, src, |src|) into frame f. */
    method WriteFrame(f: nat, off: nat, src: seq<byte>)
      requires f < frames.Length && frames[f].Bytes?
      modifies frames
      ensures Mem() == old(Mem()).(frames := old(frames[..])[f := Bytes(Overwrite(old(frames[f].data), off, src))])
    {
      ghost var m := Mem();
      frames[f] := Bytes(Overwrite(frames[f].data, off, src));
      assert Mem().frames == m.frames[f := Bytes(Overwrite(m.frames[f].data, off, src))];
    }

    /** copyout's preparation of page v: it must be the process's, and not shared. */
    method PreparePage(root: nat, v: nat) returns (r: Prepared)
      requires MemInv(Mem(), role) && IsRoot(role, root)
      requires forall u :: TRAPFRAME_VPN <= u < NVPN ==> !Leaf(Mem(), root, u).u
      modifies this`freelist, this`role, frames, refCount
      ensures MemInv(Mem(), role)
      ensures r.Ready? ==> v < TRAPFRAME_VPN && SameViews(old(Mem()), Mem(), old(role), role, root)
      ensures r.Ready? ==> Private(Mem(), role, root, v) && Leaf(Mem(), root, v).u
      ensures r.Ready? && !Leaf(old(Mem()), root, v).w ==> var f := Leaf(old(Mem()), root, v).ppn;
                f < |old(Mem()).refs| && Leaf(Mem(), root, v).w == (old(Mem()).refs[f] == 1)
      ensures !r.Ready? ==> Mem() == old(Mem()) && role == old(role)
      ensures r.NotUser? ==> !(v < TRAPFRAME_VPN && Leaf(Mem(), root, v).v && Leaf(Mem(), root, v).u)
      ensures r.NoMemory? ==> freelist == []
    {
      ghost var m, role0 := Mem(), role;
      SameViewsRefl(m, role, root);
      if v >= NVPN { return NotUser; }
      hide Leaf, FreeInv, TreeInv, UserInv, SameViews, NodeAt, Grown;
      var low := Walk(root, v, false);
      NoLowNoLeaf(m, root, v, low);
      if low.None? { return NotUser; }
      LowLeaf(m, role, root, v, low.value);
      var e := frames[low.value].ptes[v % NPTE];
      if !e.v || !e.u { return NotUser; }
      UserLeaf(m, role, root, v);
      if !e.w && e.rsw {
        var ok := BreakSharing(root, v, low.value, false);
        if !ok { return NoMemory; }
        SameViewsLeaf(m, Mem(), role0, role, root, v);
      }
      return Ready;
    }

    /** One round of copyout's loop: the bytes that fit in the page at dstva + count. */
    method CopyChunk(root: nat, dstva: nat, src: seq<byte>, count: nat, ghost m: Phys, ghost role0: seq<Role>)
      returns (prep: Prepared, n: nat)
      requires count < |src| && CopiedOut(m, Mem(), role0, role, root, dstva, src[..count])
      requires forall v :: TRAPFRAME_VPN <= v < NVPN ==> !Leaf(m, root, v).u
      modifies this`freelist, this`role, frames, refCount
      ensures prep.Ready? ==> 0 < n && count + n <= |src|
      ensures prep.Ready? ==> CopiedOut(m, Mem(), role0, role, root, dstva, src[..count + n])
      ensures !prep.Ready? ==> CopiedOut(m, Mem(), role0, role, root, dstva, src[..count])
      ensures prep.NotUser? ==> !Usable(m, root, dstva + count)
      ensures prep.NoMemory? ==> freelist == []
    {
      hide Leaf, MemInv, FreeInv, TreeInv, SameViews, KeepsOthers, Overlaid, CopiedOut, Private, IsRoot, Overwrite;
      var a := dstva + count;
      var v := a / PGSIZE;
      var off := a - v * PGSIZE;
      n := if PGSIZE - off > |src| - count then |src| - count else PGSIZE - off;
      ghost var done, chunk := src[..count], src[count..count + n];
      CopiedOutParts(m, Mem(), role0, role, root, dstva, done);
      UsableKept(m, Mem(), role0, role, root, dstva, done, a);
      ghost var m1, role1 := Mem(), role;
      prep := PreparePage(root, v);
      if !prep.Ready? { return; }
      CopiedOutBreak(m, m1, Mem(), role0, role1, role, root, dstva, done);
      Poke(root, dstva, done, src[count..count + n], a, m, role0);
      assert done + chunk == src[..count + n];
    }

    /** Write a chunk at address a, within one page that is private to the process. */
    method Poke(root: nat, ghost start: nat, ghost done: seq<byte>, chunk: seq<byte>, a: nat, ghost m: Phys,
                ghost role0: seq<Role>)
      requires CopiedOut(m, Mem(), role0, role, root, start, done) && a == start + |done|
      requires a / PGSIZE < TRAPFRAME_VPN && a % PGSIZE + |chunk| <= PGSIZE
      requires Private(Mem(), role, root, a / PGSIZE) && Leaf(Mem(), root, a / PGSIZE).u
      modifies this`freelist, this`role, frames, refCount
      ensures CopiedOut(m, Mem(), role0, role, root, start, done + chunk)
    {
      ghost var m2 := Mem();
      CopiedOutParts(m, m2, role0, role, root, start, done);
      PrivateParts(m2, role, root, a / PGSIZE);
      hide Leaf, MemInv, FreeInv, TreeInv, CopiedOut, Private, IsRoot, Overwrite;
      var pa := Walkaddr(root, a / PGSIZE);
      WriteFrame(pa.value, a % PGSIZE, chunk);
      CopiedOutWrite(m, m2, Mem(), role0, role, root, start, done, chunk, a / PGSIZE);
    }

    /** copyout: `count` bytes reach the process. If not all of them do, either address
        dstva + count is not the process's, or memory ran out. */
    method Copyout(root: nat, dstva: nat, src: seq<byte>) returns (ok: bool, count: nat, oom: bool)
      requires MemInv(Mem(), role) && IsRoot(role, root)
      requires forall v :: TRAPFRAME_VPN <= v < NVPN ==> !Leaf(Mem(), root, v).u
      modifies this`freelist, this`role, frames, refCount
      ensures count <= |src| && (ok <==> count == |src|)
      ensures CopiedOut(old(Mem()), Mem(), old(role), role, root, dstva, src[..count])
      ensures !ok && !oom ==> !Usable(old(Mem()), root, dstva + count)
      ensures oom ==> !ok && freelist == []
    {
      ghost var m, role0 := Mem(), role;
      count, oom := 0, false;
      CopiedOutRefl(m, role, root, dstva);
      assert src[..0] == [];
      while count < |src|
        invariant count <= |src| && !oom
        invariant CopiedOut(m, Mem(), role0, role, root, dstva, src[..count])
        decreases |src| - count
      {
        hide Leaf, CopiedOut, Usable;
        var prep, n := CopyChunk(root, dstva, src, count, m, role0);
        if !prep.Ready? { return false, count, prep.NoMemory?; }
        count := count + n;
      }
      ok := true;
    }

    /** walkaddr: the frame of a page the process may use, else None. */
    method Walkaddr(root: nat, v: nat) returns (pa: Option<nat>)
      requires FreeInv(Mem(), role) && TreeInv(Mem(), role) && IsRoot(role, root)
      modifies this`freelist, this`role, frames, refCount
      ensures Mem() == old(Mem()) && role == old(role)
      ensures pa.Some? <==> v < NVPN && Leaf(Mem(), root, v).v && Leaf(Mem(), root, v).u
      ensures pa.Some? ==> pa.value == Leaf(Mem(), root, v).ppn
    {
      if v >= NVPN { return None; }
      var low := Walk(root, v, false);
      NoLowNoLeaf(Mem(), root, v, low);
      if low.None? { return None; }
      LowLeaf(Mem(), role, root, v, low.value);
      var e := frames[low.value].ptes[v % NPTE];
      if !e.v || !e.u { return None; }
      return Some(e.ppn);
    }

    // ---------- trap.c and the system calls on user memory ----------

    ghost predicate Valid()
      reads this, frames, refCount
    {
      MemInv(Mem(), role) && ProcInv(Mem(), role, proc, trampoline)
    }

    ghost function K(): Machine
      reads this, frames, refCount
    { Machine(Mem(), role, proc) }

    /** What the processes see. */
    ghost function World(): World
      reads this, frames, refCount
    { View(Mem(), proc) }

    /** The write-page-fault branch of usertrap. A process is killed only for touching what is
        not its own or not copy-on-write, or because memory ran out. */
    method WriteFault(root: nat, sz: nat, stval: nat) returns (killed: bool, oom: bool)
      requires MemInv(Mem(), role) && IsRoot(role, root) && sz < UINT_LIMIT
      modifies this`freelist, this`role, frames, refCount
      ensures MemInv(Mem(), role)
      ensures !killed ==> stval / PGSIZE < TRAPFRAME_VPN && SameViews(old(Mem()), Mem(), old(role), role, root)
                          && Private(Mem(), role, root, stval / PGSIZE)
                          && Leaf(Mem(), root, stval / PGSIZE).w && Leaf(Mem(), root, stval / PGSIZE).u
      ensures killed ==> Mem() == old(Mem()) && role == old(role)
      ensures oom ==> killed && freelist == [] && stval / PGSIZE < TRAPFRAME_VPN
                      && Leaf(Mem(), root, stval / PGSIZE).v && Leaf(Mem(), root, stval / PGSIZE).u
      ensures killed && !oom ==>
                stval / PGSIZE * PGSIZE > sz
                || !Leaf(Mem(), root, stval / PGSIZE).v
                || !Leaf(Mem(), root, stval / PGSIZE).u
                || !Leaf(Mem(), root, stval / PGSIZE).rsw
    {
      MemParts(Mem(), role);
      hide Leaf, FreeInv, TreeInv, UserInv, SameViews, NodeAt, Grown, Private;
      var v := stval / PGSIZE;
      if v * PGSIZE > sz { return true, false; }
      var low := Walk(root, v, false);
      NoLowNoLeaf(Mem(), root, v, low);
      if low.None? { return true, false; }
      LowLeaf(Mem(), role, root, v, low.value);
      var e := frames[low.value].ptes[v % NPTE];
      if !e.rsw || !e.v || !e.u { return true, false; }
      var ok := BreakSharing(root, v, low.value, true);
      return !ok, !ok;
    }

    /** A user store of byte b at address a: the hardware's translation, the fault, the retry. */
    method StoreByte(root: nat, sz: nat, a: nat, b: byte) returns (killed: bool, oom: bool)
      requires MemInv(Mem(), role) && IsRoot(role, root) && sz < UINT_LIMIT && Mapped(Mem(), root, Pages(sz))
      requires forall v :: TRAPFRAME_VPN <= v < NVPN ==> !Leaf(Mem(), root, v).u
      modifies this`freelist, this`role, frames, refCount
      ensures !killed ==> CopiedOut(old(Mem()), Mem(), old(role), role, root, a, [b])
      ensures killed ==> Mem() == old(Mem()) && role == old(role)
      ensures oom ==> killed && freelist == []
      ensures killed && !oom ==> !Usable(old(Mem()), root, a)
      ensures oom ==> Usable(old(Mem()), root, a)
    {
      ghost var m, role0 := Mem(), role;
      var v := a / PGSIZE;
      CopiedOutRefl(m, role, root, a);
      MemParts(m, role);
      UserLeafMaybe(m, role, root, v);
      hide Leaf, MemInv, FreeInv, TreeInv, UserInv, SameViews, CopiedOut, Private, IsRoot;
      killed, oom := false, false;
      var e := ReadPte(root, v);
      if e.v && e.u && e.w {
        WritablePrivate(m, role, root, v);
      } else {
        killed, oom := WriteFault(root, sz, a);
        if killed { return; }
        CopiedOutBreak(m, m, Mem(), role0, role0, role, root, a, []);
      }
      Poke(root, a, [], [b], a, m, role0);
      assert [] + [b] == [b];
    }

    method Store(p: nat, a: nat, b: byte) returns (out: Outcome)
      requires Valid() && p < |proc| && proc[p].Used?
      modifies this`freelist, this`role, frames, refCount
      ensures Valid()
      ensures Step(old(World()), OpStore(p, a, b), out, World())
      ensures out.Oom? ==> freelist == [] && Mem() == old(Mem())
    {
      hide Leaf, MemInv, ProcInv, CopiedOut, IsRoot, Mapped, Step, View, Usable;
      ghost var m, role0 := Mem(), role;
      SpecialNotUser(m, role, proc, p, trampoline);
      StoreSteps(m, role, proc, p, trampoline, a, b);
      var killed, oom := StoreByte(proc[p].root, proc[p].sz, a, b);
      if killed { return if oom then Oom(0) else Fault(0); }
      CopiedOutParts(m, Mem(), role0, role, proc[p].root, a, [b]);
      StoreDone(m, Mem(), role0, role, proc, p, trampoline, a, b);
      out := Done(0);
    }

    /** copyout to process p, as read, wait and the other system calls use it. */
    method CopyoutTo(p: nat, a: nat, src: seq<byte>) returns (out: Outcome)
      requires Valid() && p < |proc| && proc[p].Used?
      modifies this`freelist, this`role, frames, refCount
      ensures Valid()
      ensures Step(old(World()), OpCopyout(p, a, src), out, World())
      ensures out.Oom? ==> freelist == []
    {
      hide Leaf, MemInv, ProcInv, CopiedOut, IsRoot, Mapped, Step, View, Usable;
      ghost var m, role0 := Mem(), role;
      SpecialNotUser(m, role, proc, p, trampoline);
      var ok, count, oom := Copyout(proc[p].root, a, src);
      CopiedOutParts(m, Mem(), role0, role, proc[p].root, a, src[..count]);
      out := if ok then Done(0) else if oom then Oom(count) else Fault(count);
      CopyoutDone(m, Mem(), role0, role, proc, p, trampoline, a, src, out, count);
    }

    /** copyin from process p: the bytes the process itself would read, as far as it may read. */
    method Copyin(p: nat, srcva: nat, len: nat) returns (ok: bool, dst: seq<byte>)
      requires Valid() && p < |proc| && proc[p].Used?
      modifies this`freelist, this`role, frames, refCount
      ensures Valid() && Mem() == old(Mem()) && World() == old(World()) && p in World()
      ensures Reads(World()[p], srcva, dst)
      ensures if ok then |dst| == len else |dst| < len && !Writable(World()[p], srcva + |dst|)
    {
      hide Leaf, MemInv, ProcInv, IsRoot, View, Writable, ByteOf, Reads;
      ghost var m, role0 := Mem(), role;
      SpecialNotUser(m, role, proc, p, trampoline);
      InView(m, proc, p);
      MemParts(m, role);
      dst := [];
      ReadsNone(World()[p], srcva);
      while |dst| < len
        invariant |dst| <= len && Mem() == m && role == role0 && p in World() && Reads(World()[p], srcva, dst)
      {
        var a := srcva + |dst|;
        var pa := Walkaddr(proc[p].root, a / PGSIZE);
        if pa.None? {
          NotReadable(m, role, proc, p, trampoline, a);
          return false, dst;
        }
        var n := PGSIZE - a % PGSIZE;
        if n > len - |dst| { n := len - |dst|; }
        ReadChunk(m, role, proc, p, trampoline, a, n);
        var chunk := frames[pa.value].data[a % PGSIZE..a % PGSIZE + n];
        ReadsMore(World()[p], srcva, dst, chunk);
        dst := dst + chunk;
      }
      ok := true;
    }

    /** The entry the hardware finds for page v. */
    method ReadPte(root: nat, v: nat) returns (e: Pte)
      requires FreeInv(Mem(), role) && TreeInv(Mem(), role) && IsRoot(role, root)
      modifies this`freelist, this`role, frames, refCount
      ensures Mem() == old(Mem()) && role == old(role)
      ensures e == if v < NVPN then Leaf(Mem(), root, v) else ZERO
    {
      if v >= NVPN { return ZERO; }
      var low := Walk(root, v, false);
      NoLowNoLeaf(Mem(), root, v, low);
      if low.None? { return ZERO; }
      LowLeaf(Mem(), role, root, v, low.value);
      return frames[low.value].ptes[v % NPTE];
    }

    /** growproc, with its 32-bit size arithmetic. */
    method Sbrk(p: nat, n: int) returns (out: Outcome)
      requires Valid() && p < |proc| && proc[p].Used?
      modifies this`freelist, this`role, this`proc, frames, refCount
      ensures Valid()
      ensures Step(old(World()), OpSbrk(p, n), out, World())
      ensures out.Done? && -0x8000_0000 <= n < 0x8000_0000 ==>
                proc[p].Used? &&
                proc[p].sz == if 0 <= old(proc[p].sz) + n < 0x1_0000_0000 then old(proc[p].sz) + n else old(proc[p].sz)
      ensures out.Oom? ==> n > 0 && proc == old(proc)
      ensures out.Oom? ==> |old(freelist)| < 3 * (Pages(NewSize(proc[p].sz, n)) - Pages(proc[p].sz))
    {
      hide Leaf, MemInv, ProcInv, KeepsOthers, Mapped, Step, View, SpaceOf, ViewAt, IsRoot, Resize, Pages, NewSize;
      ghost var m, role0 := Mem(), role;
      SpecialNotUser(m, role, proc, p, trampoline);
      assert |m.frames| == |m.refs| == |role| by { MemParts(m, role); }
      RangeClearedRefl(m, role, proc[p].root, 0);
      NewSizeFits(proc[p].sz, n);
      var root, sz := proc[p].root, proc[p].sz;
      var newsz := sz;
      if n > 0 {
        var r := Uvmalloc(root, sz, NewSize(sz, n));
        if r.None? {
          SbrkFailed(m, Mem(), role0, role, proc, p, trampoline, n);
          return Oom(0);
        }
        newsz := r.value;
        if NewSize(sz, n) >= sz { ResizeGrow(m, Mem(), root, sz, n); } else { ResizeNone(m, Mem(), root, sz, n); }
      } else if n < 0 {
        newsz := Uvmdealloc(root, sz, NewSize(sz, n));
        if NewSize(sz, n) < sz { ResizeShrink(m, Mem(), root, sz, n); } else { ResizeNone(m, Mem(), root, sz, n); }
      } else {
        ResizeNone(m, Mem(), root, sz, n);
      }
      SbrkDone(m, Mem(), role0, role, proc, p, newsz, trampoline, n);
      proc := proc[p := proc[p].(sz := newsz)];
      out := Done(0);
    }

    // ---------- fork and exit ----------

    /** Take write permission from page v of root; e is the new entry. */
    method ProtectPage(root: nat, ghost c: nat, v: nat) returns (e: Pte)
      requires MemInv(Mem(), role) && IsRoot(role, root) && IsRoot(role, c) && c != root && v < TRAPFRAME_VPN
      requires Leaf(Mem(), root, v).v
      modifies this`freelist, this`role, frames, refCount
      ensures role == old(role) && freelist == old(freelist) && Protected(old(Mem()), Mem(), role, root, c, v, e)
    {
      ghost var m := Mem();
      var low := Walk(root, v, false);
      LeafInLow(m, role, root, v, low);
      UserLeaf(m, role, root, v);
      ProtectInv(m, role, root, v, low.value, c);
      hide Leaf, MemInv, Beside, LeafSet, ViewAt, Grown;
      e := Protect(frames[low.value].ptes[v % NPTE]);
      StorePte(low.value, v % NPTE, e);
      ProtectLeaves(m, Mem(), role, root, c, v, e);
    }

    /** One round of uvmcopy: page v of root becomes copy-on-write and is shared into c. */
    method ShareOne(root: nat, c: nat, v: nat) returns (ok: bool)
      requires MemInv(Mem(), role) && IsRoot(role, root) && IsRoot(role, c) && c != root && v < TRAPFRAME_VPN
      requires Leaf(Mem(), root, v).v && !Leaf(Mem(), c, v).v
      modifies this`freelist, this`role, frames, refCount
      ensures SharedOne(old(Mem()), Mem(), old(role), role, root, c, v, ok)
      ensures if ok then |freelist| + 2 >= |old(freelist)| else |old(freelist)| <= 1
    {
      ghost var m, role0 := Mem(), role;
      OnePage(v);
      hide Leaf, MemInv, FreeInv, TreeInv, UserInv, GrownFrames, RangeMapped, LeafSet, Protected, SharedOne, SameLeaves,
          NodeAt, IsRoot;
      var e := ProtectPage(root, c, v);
      ghost var m1 := Mem();
      ProtectedParts(m, m1, role, root, c, v, e);
      ghost var done;
      ok, done := MapPages(c, v * PGSIZE, PGSIZE, e.ppn, e);
      RangeOne(m1, Mem(), role0, role, c, v, done, e.ppn, e);
      if !ok {
        NotShared(m, m1, Mem(), role0, role, root, c, v, e);
        return;
      }
      NowShared(m, m1, Mem(), role0, role, root, c, v, e);
      AddRef(e.ppn);
    }

    method AddRef(f: nat)
      requires f < refCount.Length
      modifies refCount
      ensures Mem() == old(Mem()).(refs := old(refCount[..])[f := old(refCount[f]) + 1])
    {
      ghost var r := refCount[..];
      refCount[f] := refCount[f] + 1;
      assert refCount[..] == r[f := r[f] + 1];
    }

    /** uvmcopy: share every page below sz, or none. */
    method Uvmcopy(root: nat, c: nat, sz: nat) returns (ok: bool)
      requires MemInv(Mem(), role) && IsRoot(role, root) && IsRoot(role, c) && c != root
      requires Pages(sz) <= TRAPFRAME_VPN && Mapped(Mem(), root, Pages(sz))
      requires forall u :: 0 <= u < TRAPFRAME_VPN ==> !Leaf(Mem(), c, u).v
      modifies this`freelist, this`role, frames, refCount
      ensures Forking(old(Mem()), Mem(), old(role), role, root, c, if ok then Pages(sz) else 0)
      ensures !ok ==> |old(freelist)| < 2 * Pages(sz)
    {
      hide Leaf, MemInv, Forking, SharedOne, IsRoot, RangeCleared, KeepsOthers, Churn, ViewAt;
      ghost var m, role0 := Mem(), role;
      ForkingStart(m, role, root, c);
      var i := 0;
      while i * PGSIZE < sz
        invariant 0 <= i <= Pages(sz) && Forking(m, Mem(), role0, role, root, c, i)
        invariant |freelist| + 2 * i >= |old(freelist)|
        decreases Pages(sz) - i
      {
        ghost var m1, role1 := Mem(), role;
        assert Leaf(m, root, i).v;
        ForkingLeaf(m, m1, role0, role1, root, c, i);
        ok := ShareOne(root, c, i);
        ForkingMore(m, m1, Mem(), role0, role1, role, root, c, i, ok);
        if !ok {
          ghost var m2, role2 := Mem(), role;
          ForkingMapped(m, m2, role0, role2, root, c, i);
          UvmunmapFree(c, 0, i);
          ForkingUndone(m, m2, Mem(), role0, role2, role, root, c, i);
          return;
        }
        i := i + 1;
      }
      ok := true;
    }

    /** uvmfree of a page table with no leaves left. */
    method UvmfreeTables(root: nat)
      requires MemInv(Mem(), role) && IsRoot(role, root) && LeafFree(Mem(), root)
      modifies this`freelist, this`role, frames, refCount
      ensures MemInv(Mem(), role) && !IsRoot(role, root)
      ensures TreeFreed(old(role), role, root) && Beside(old(Mem()), Mem(), old(role), role, root)
      ensures UserDataKept(old(Mem()), Mem(), old(role))
    {
      ghost var m, role0 := Mem(), role;
      ghost var m1, role1 := Freewalk(root);
      hide Leaf, LeafFree, Emptied, Pruned, TreeFreed, Beside, MemInv, FreeInv, TreeInv;
      FreewalkDone(m, m1, role0, role1, root);
    }

    /** proc_pagetable: a root with the trampoline and the trapframe mapped, or nothing at all. */
    method ProcPagetable(tf: nat) returns (root: Option<nat>, ghost c: nat)
      requires MemInv(Mem(), role)
      modifies this`freelist, this`role, frames, refCount
      ensures MemInv(Mem(), role)
      ensures root.None? ==> role == old(role) && !IsRoot(role, c) && Beside(old(Mem()), Mem(), role, role, c)
      ensures root.Some? ==> root.value == c && Building(old(Mem()), Mem(), old(role), role, c)
                             && Leaf(Mem(), c, TRAMPOLINE_VPN) == TrampolinePte(trampoline)
                             && Leaf(Mem(), c, TRAPFRAME_VPN) == TrapframePte(tf)
      // The kernel's code at the top, to run but not to write or to use from user mode; below it the
      // trapframe, to read and write from the kernel alone.
      ensures root.Some? ==> Leaf(Mem(), c, 0x3FF_FFFF) == Pte(true, true, false, true, false, false, trampoline)
      ensures root.Some? ==> Leaf(Mem(), c, 0x3FF_FFFE) == Pte(true, true, true, false, false, false, tf)
      ensures if root.Some? then |freelist| + 3 >= |old(freelist)| else |old(freelist)| <= 2
    {
      ghost var m, role0 := Mem(), role;
      c := |role|;
      BesideRefl(m, role, c);
      var page := Kalloc();
      if page.None? { return None, c; }
      c := page.value;
      ghost var m1 := AllocFilled(m, Filled(5));
      assert Mem() == m1;
      frames[page.value] := EmptyTable();
      assert Mem() == m1.(frames := m1.frames[c := EmptyTable()]);
      role := role[c := Tbl(c, 2, 0)];
      BuildingStart(m, m1, Mem(), role0, role, c);
      hide Leaf, MemInv, FreeInv, TreeInv, UserInv, Building, Beside, LeafFree, TreeFreed, GrownFrames, RangeMapped,
          LeafSet, SameLeaves, NodeAt, UserDataKept;
      BuildingParts(m, Mem(), role0, role, c);
      OnePage(TRAMPOLINE_VPN);
      OnePage(TRAPFRAME_VPN);
      ghost var m2, role2 := Mem(), role;
      var ok, done := MapPages(page.value, TRAMPOLINE_VPN * PGSIZE, PGSIZE, trampoline, TrampolinePte(0));
      RangeOne(m2, Mem(), role2, role, c, TRAMPOLINE_VPN, done, trampoline, TrampolinePte(0));
      BuildingMore(m, m2, Mem(), role0, role2, role, c, TRAMPOLINE_VPN, TrampolinePte(trampoline));
      BuildingParts(m, Mem(), role0, role, c);
      ghost var m3, role3 := Mem(), role;
      if !ok {
        UvmfreeTables(page.value);
        BuildingUndone(m, m3, Mem(), role0, role3, role, c);
        return None, c;
      }
      SameLowTable(m3, c);
      ok, done := MapPages(page.value, TRAPFRAME_VPN * PGSIZE, PGSIZE, tf, TrapframePte(0));
      assert ok; // the table is there, so this mappages cannot fail
      RangeOne(m3, Mem(), role3, role, c, TRAPFRAME_VPN, done, tf, TrapframePte(0));
      BuildingMore(m, m3, Mem(), role0, role3, role, c, TRAPFRAME_VPN, TrapframePte(tf));
      BuildingParts(m, Mem(), role0, role, c);
      root := Some(page.value);
    }

    /** freeproc's part about memory: the trapframe, then proc_freepagetable. */
    method FreeMemory(s: Slot)
      requires MemInv(Mem(), role) && SlotBase(Mem(), role, s, trampoline) && Mapped(Mem(), s.root, Pages(s.sz))
      modifies this`freelist, this`role, frames, refCount
      ensures MemInv(Mem(), role) && !IsRoot(role, s.root)
      ensures Beside(old(Mem()), Mem(), old(role), role, s.root) && Dismantled(old(role), role, s.root, s.trapframe)
    {
      ghost var m, role0, root, n := Mem(), role, s.root, Pages(s.sz);
      HeldFreed(m, role, s.trapframe, root);
      hide Leaf, MemInv, FreeInv, TreeInv, UserInv, Beside, LeafFree, TreeFreed, GrownFrames, RangeCleared, LeafSet,
          SameLeaves,
        DroppedFrames, KeepsOthers, Churn, ViewAt, Mapped, Dismantled, IsRoot, UserDataKept;
      MemParts(m, role);
      Kfree(s.trapframe);
      ghost var ma, rolea := Mem(), role;
      SlotSpecials(m, ma, role0, rolea, s, trampoline);
      UnmapOne(s.root, TRAMPOLINE_VPN, false);
      ghost var mb := Mem();
      SpecialStill(ma, mb, rolea, role, root);
      UnmapOne(s.root, TRAPFRAME_VPN, false);
      ghost var mc := Mem();
      UserStill(ma, mb, mc, rolea, rolea, rolea, root, n);
      UvmunmapFree(s.root, 0, Pages(s.sz));
      ghost var md, roled := Mem(), role;
      SpecialCleared(ma, mb, mc, md, rolea, rolea, rolea, roled, root, n);
      RangeClearedRoots(mc, md, rolea, roled, root, 0, n);
      UvmfreeTables(s.root);
      DismantledRoles(role0, roled, role, root, s.trapframe);
      DropBeside(ma, mb, rolea, rolea, root, TRAMPOLINE_VPN);
      DropBeside(mb, mc, rolea, rolea, root, TRAPFRAME_VPN);
      UnmapBeside(mc, md, rolea, roled, root, 0, n);
      BesideTrans(m, ma, mb, role0, rolea, rolea, root);
      BesideTrans(m, mb, mc, role0, rolea, rolea, root);
      BesideTrans(m, mc, md, role0, rolea, roled, root);
      BesideTrans(m, md, Mem(), role0, roled, role, root);
    }

    /** exit and wait: the process's memory goes back. */
    method Exit(p: nat) returns (out: Outcome)
      requires Valid() && p < |proc| && proc[p].Used?
      modifies this`freelist, this`role, this`proc, frames, refCount
      ensures Valid()
      ensures Step(old(World()), OpExit(p), out, World())
      ensures !out.Oom?
    {
      ghost var m, role0 := Mem(), role;
      SlotParts(m, role, proc, p, trampoline);
      hide Leaf, MemInv, ProcInv, Beside, Dismantled, Step, View, SlotBase, Mapped, IsRoot;
      FreeMemory(proc[p]);
      ExitTable(m, Mem(), role0, role, proc, p, trampoline);
      proc := proc[p := Unused];
      out := Done(0);
    }

    /** allocproc's search for an unused slot. */
    method FindUnused() returns (k: Option<nat>)
      ensures k.Some? ==> k.value < |proc| && proc[k.value].Unused?
      ensures k.None? ==> forall q :: 0 <= q < |proc| ==> proc[q].Used?
    {
      var i := 0;
      while i < |proc|
        invariant 0 <= i <= |proc|
        invariant forall q :: 0 <= q < i ==> proc[q].Used?
      {
        if proc[i].Unused? { return Some(i); }
        i := i + 1;
      }
      k := None;
    }

    /** allocproc's allocations: a trapframe page and a page table, or nothing. */
    method AllocMemory() returns (r: Option<(nat, nat)>, ghost m1: Phys)
      requires MemInv(Mem(), role)
      modifies this`freelist, this`role, frames, refCount
      ensures r.None? ==> AsBefore(old(Mem()), Mem(), old(role), role)
      ensures r.Some? ==> var (root, tf) := r.value;
                && TookPage(old(Mem()), m1, old(role), tf) && Building(m1, Mem(), old(role)[tf := Held], role, root)
                && Leaf(Mem(), root, TRAMPOLINE_VPN) == TrampolinePte(trampoline)
                && Leaf(Mem(), root, TRAPFRAME_VPN) == TrapframePte(tf)
      ensures if r.Some? then |freelist| + 4 >= |old(freelist)| else |old(freelist)| <= 3
    {
      ghost var m0, role0 := Mem(), role;
      AsBeforeRefl(m0, role);
      m1 := m0;
      var tf := Kalloc();
      if tf.None? { return None, m1; }
      AllocFilledInv(m0, role0, Filled(5));
      m1 := Mem();
      assert m1 == AllocFilled(m0, Filled(5));
      hide Leaf, FreeInv, TreeInv, UserInv, Beside, IsRoot, Building, UserDataKept, SameLeaves, AsBefore;
      var root, c := ProcPagetable(tf.value);
      if root.None? {
        ForkNoTable(m0, m1, Mem(), role0, tf.value, c);
        Kfree(tf.value);
        return None, m1;
      }
      r := Some((root.value, tf.value));
    }

    /** fork: parent and child share every page, and no page is copied. If it fails, every count and
        the set of free pages are as before, and no process sees a difference; and it fails only for
        want of a slot or of pages. */
    method Fork(p: nat) returns (out: Outcome)
      requires Valid() && p < |proc| && proc[p].Used?
      modifies this`freelist, this`role, this`proc, frames, refCount
      ensures Valid()
      ensures Step(old(World()), OpFork(p), out, World())
      ensures out.Done? ==>
        && out.child < |proc| && proc[out.child].Used? && proc[p] == old(proc[p]) && NoNewPage(old(role), role)
        && AllShared(Mem(), proc[p].root, proc[out.child].root, Pages(proc[p].sz))
      ensures out.Oom? ==> refCount[..] == old(refCount[..]) && multiset(freelist) == multiset(old(freelist))
      ensures out.Oom? ==> proc == old(proc)
      ensures out.Oom? ==>
                (forall q :: 0 <= q < |proc| ==> proc[q].Used?) || |old(freelist)| < 4 + 2 * Pages(proc[p].sz)
    {
      hide Leaf, MemInv, ProcInv, Beside, Dismantled, Step, View, SlotBase, Mapped, IsRoot, Building, Forking, TookPage,
          AsBefore;
      ghost var m0, role0 := Mem(), role;
      SlotParts(m0, role, proc, p, trampoline);
      AsBeforeRefl(m0, role);
      ForkNothing(m0, m0, role, role, proc, p, trampoline);
      var k := FindUnused();
      if k.None? { return Oom(0); }
      var r, m1 := AllocMemory();
      ghost var m2, role2 := Mem(), role;
      if r.None? {
        ForkNothing(m0, m2, role0, role2, proc, p, trampoline);
        AsBeforeParts(m0, m2, role0, role2);
        return Oom(0);
      }
      var (root, tf) := r.value;
      ForkReady(m0, m1, m2, role0, role2, proc, p, trampoline, root, tf);
      var ok := Uvmcopy(proc[p].root, root, proc[p].sz);
      ghost var m3, role3 := Mem(), role;
      if !ok {
        ForkFailing(m0, m1, m2, m3, role0, role2, role3, proc, p, trampoline, root, tf);
        FreeMemory(Used(root, tf, 0));
        ForkFailed(m0, m1, m2, m3, Mem(), role0, role2, role3, role, proc, p, trampoline, root, tf);
        return Oom(0);
      }
      ForkDone(m0, m1, m2, m3, role0, role2, role3, proc, p, k.value, trampoline, root, tf);
      proc := proc[k.value := Used(root, tf, proc[p].sz)];
      out := Done(k.value);
    }

    /** uvmclear on process p's page at address a. */
    method Uvmclear(p: nat, a: nat) returns (out: Outcome)
      requires Valid() && p < |proc| && proc[p].Used?
      modifies this`freelist, this`role, frames, refCount
      ensures Valid()
      ensures Step(old(World()), OpClear(p, a), out, World())
      ensures !out.Oom?
    {
      hide Leaf, FreeInv, TreeInv, UserInv, ProcInv, IsRoot, Mapped, Step, View, KeepsOthers, ViewAt, Cleared;
      ghost var m, root, v := Mem(), proc[p].root, a / PGSIZE;
      SpecialNotUser(m, role, proc, p, trampoline);
      if a / PGSIZE >= Pages(proc[p].sz) {
        ClearNone(m, proc, p, a);
        return Fault(0);
      }
      MappedLeaf(m, root, Pages(proc[p].sz), v);
      var low := Walk(proc[p].root, a / PGSIZE, false);
      LeafInLow(m, role, root, v, low);
      var e := frames[low.value].ptes[a / PGSIZE % NPTE];
      ClearInv(m, role, root, v, low.value, e.(u := false));
      StorePte(low.value, a / PGSIZE % NPTE, e.(u := false));
      ClearDone(m, Mem(), role, proc, p, trampoline, a);
      out := Done(0);
    }

    // ---------- boot and whole runs ----------

    /** userinit: the first process, whose only page starts with its code. False is where the source
        panics or follows a null pointer: the code does not fit, or there is no slot or no memory. */
    method Userinit(code: seq<byte>) returns (ok: bool, k: nat)
      requires Valid()
      modifies this`freelist, this`role, this`proc, frames, refCount
      ensures !ok ==>
                |code| >= PGSIZE || (forall q :: 0 <= q < |old(proc)| ==> old(proc)[q].Used?) || |old(freelist)| < 7
      ensures |code| >= PGSIZE ==> !ok
      ensures ok ==> Valid() && k !in old(World()) && World() == old(World())[k := FirstSpace(code)]
    {
      hide Leaf, MemInv, UserInv, ProcInv, Beside, View, SlotBase, Mapped, IsRoot, Building, TookPage, AsBefore,
          KeepsOthers, CopiedOut, ViewAt, Private, FirstSpace;
      ghost var m0, role0 := Mem(), role;
      ok, k := false, 0;
      if |code| >= PGSIZE { return; }
      var slot := FindUnused();
      if slot.None? { return; }
      k := slot.value;
      NotInView(m0, proc, k);
      var r, m1 := AllocMemory();
      if r.None? { return; }
      var (root, tf) := r.value;
      ghost var m2, role2 := Mem(), role;
      SpawnDone(m0, m1, m2, role0, role2, proc, k, trampoline, root, tf);
      proc := proc[k := Used(root, tf, 0)];
      ok := AllocUserPage(root, 0);
      if !ok { return; }
      ghost var m3, role3 := Mem(), role;
      FirstViews(m2, m3, root);
      KeptRoot(m2, m3, role2, role3, root);
      WritablePrivate(m3, role, root, 0);
      CopiedOutRefl(m3, role, root, 0);
      Poke(root, 0, [], code, 0, m3, role3);
      assert [] + code == code;
      UserinitDone(m2, m3, Mem(), role2, role3, role, proc, k, trampoline, code);
      CopiedOutParts(m3, Mem(), role3, role, root, 0, code);
      proc := proc[k := proc[k].(sz := PGSIZE)];
    }

    /** freerange: each page gets a count of one and is then freed. */
    method Freerange()
      requires freelist == [] && |role| == frames.Length == refCount.Length
      requires forall f :: 0 <= f < |role| ==> role[f].Held? && frames[f] == Filled(1)
      modifies this`freelist, this`role, frames, refCount
      ensures FreeInv(Mem(), role) && |freelist| == |role| == old(|role|)
      ensures forall f :: 0 <= f < |role| ==> role[f].Free? && frames[f] == Filled(1)
    {
      var i := 0;
      while i < frames.Length
        invariant 0 <= i <= frames.Length && |freelist| == i && |role| == frames.Length
        invariant forall f :: 0 <= f < |role| ==> role[f] == (if f < i then Free else Held) && frames[f] == Filled(1)
        invariant FreeInv(Mem(), role)
      {
        hide FreeInv, Filled;
        ghost var m := Mem();
        refCount[i] := 1;
        FreeInvHeld(m, Mem(), role, i);
        Kfree(i);
        i := i + 1;
      }
    }

    /** kinit, and the empty process table. */
    constructor (npages: nat, trampoline: nat)
      ensures Valid() && frames.Length == npages && this.trampoline == trampoline
      ensures World() == map[] && |freelist| == npages && |proc| == 64
      ensures fresh(frames) && fresh(refCount)
    {
      this.trampoline := trampoline;
      frames := new Frame[npages](_ => Filled(1));
      refCount := new nat[npages](_ => 0);
      freelist := [];
      proc := seq(NPROC, _ => Unused);
      role := seq(npages, _ => Held);
      new;
      Freerange();
      BootInv(Mem(), role, proc, trampoline);
    }

    /** One operation, whichever it is. */
    method Do(op: Op) returns (out: Outcome)
      requires Valid()
      modifies this`freelist, this`role, this`proc, frames, refCount
      ensures Valid()
      ensures Step(old(World()), op, out, World())
      ensures out.Oom? ==> Short(old(K()), op, K())
    {
      hide MemInv, ProcInv, Step, View, Pages;
      NotLive(Mem(), proc, op);
      if !(op.p < |proc| && proc[op.p].Used?) { return Fault(0); }
      match op
      case OpFork(p) => out := Fork(p);
      case OpStore(p, a, b) => out := Store(p, a, b);
      case OpCopyout(p, a, src) => out := CopyoutTo(p, a, src);
      case OpSbrk(p, n) => out := Sbrk(p, n);
      case OpClear(p, a) => out := Uvmclear(p, a);
      case OpExit(p) => out := Exit(p);
    }

    /** Copy-on-write refines eager copy: over any sequence of operations, what the processes
        see is a run of the machine whose fork copies every page, and an operation runs out of
        memory only when memory is short. */
    method Execute(ops: seq<Op>) returns (outs: seq<Outcome>, ghost ws: seq<World>, ghost ks: seq<Machine>)
      requires Valid()
      modifies this`freelist, this`role, this`proc, frames, refCount
      ensures Valid()
      ensures Run(old(World()), ops, outs, ws) && ws[|ops|] == World()
      ensures Behind(ks, ops, outs, ws, trampoline) && ks[0] == old(K()) && ks[|ops|] == K()
    {
      hide Step, MemInv, ProcInv, View, Short;
      outs, ws, ks := [], [World()], [K()];
      var i := 0;
      while i < |ops|
        invariant 0 <= i <= |ops| && Valid()
        invariant Run(old(World()), ops[..i], outs, ws) && ws[i] == World()
        invariant Behind(ks, ops[..i], outs, ws, trampoline) && ks[0] == old(K()) && ks[i] == K()
      {
        var out := Do(ops[i]);
        RunMore(old(World()), ops[..i], outs, ws, ops[i], out, World());
        BehindMore(ks, ops[..i], outs, ws, trampoline, ops[i], out, K());
        outs, ws, ks := outs + [out], ws + [World()], ks + [K()];
        assert ops[..i + 1] == ops[..i] + [ops[i]];
        i := i + 1;
      }
      assert ops[..i] == ops;
    }
  }
}
