/** What fork means to a process: the machine in which fork copies every page at once.
    The copy-on-write kernel is proved to be indistinguishable from it. */
module Eager {
  import opened Sv39

  const TRAMPOLINE_VPN: nat := NVPN - 1
  const TRAPFRAME_VPN: nat := NVPN - 2
  const UINT_LIMIT: nat := 0x1_0000_0000

  /** `user` is false for a page the process may not touch, such as exec's stack guard; `exec` says
      whether it may run what is there. */
  datatype Page = Page(data: seq<byte>, user: bool, exec: bool)
  datatype Space = Space(sz: nat, pages: seq<Page>)
  type World = map<nat, Space>

  /** PGROUNDUP(sz) / PGSIZE. */
  function Pages(sz: nat): nat { (sz + PGSIZE - 1) / PGSIZE }

  predicate Writable(s: Space, a: nat) { a / PGSIZE < |s.pages| && s.pages[a / PGSIZE].user }

  /** The byte a process reads at address a. */
  function ByteOf(s: Space, a: nat): byte {
    if Writable(s, a) && a % PGSIZE < |s.pages[a / PGSIZE].data| then s.pages[a / PGSIZE].data[a % PGSIZE] else 0
  }

  /** bytes is what a process may read from address a on. */
  ghost predicate Reads(s: Space, a: nat, bytes: seq<byte>) {
    forall b :: a <= b < a + |bytes| ==> Writable(s, b) && bytes[b - a] == ByteOf(s, b)
  }

  /** src laid over data from start on, which may lie before it; what does not fit is dropped. */
  function Overwrite(data: seq<byte>, start: int, src: seq<byte>): seq<byte> {
    seq(|data|, o requires 0 <= o < |data| => if start <= o < start + |src| then src[o - start] else data[o])
  }

  /** src laid over the address space at address a, byte by byte. */
  function WriteBytes(pages: seq<Page>, a: nat, src: seq<byte>): seq<Page> {
    seq(|pages|, v requires 0 <= v < |pages| => pages[v].(data := Overwrite(pages[v].data, a - v * PGSIZE, src)))
  }

  function ZeroPage(): Page { Page(seq(PGSIZE, _ => 0), true, true) }

  function Write(w: World, p: nat, a: nat, src: seq<byte>): World
    requires p in w
  { w[p := w[p].(pages := WriteBytes(w[p].pages, a, src))] }

  function Fork(w: World, p: nat, c: nat): World
    requires p in w
  { w[c := w[p]] }

  /** growproc: `uint sz`, so the new size is taken modulo 2^32, and a size that wrapped is ignored. */
  function NewSize(sz: nat, n: int): nat { (sz + n) % UINT_LIMIT }

  /** Growing takes effect just when the sum fits 32 bits, and shrinking just when it is not negative. */
  lemma NewSizeFits(sz: nat, n: int)
    requires sz < UINT_LIMIT
    ensures NewSize(sz, n) < UINT_LIMIT
    ensures -0x8000_0000 <= n < 0x8000_0000 ==>
              (0 <= sz + n < 0x1_0000_0000 <==> if n >= 0 then NewSize(sz, n) >= sz else NewSize(sz, n) < sz)
    ensures 0 <= sz + n < 0x1_0000_0000 ==> NewSize(sz, n) == sz + n
  {}

  function Resize(s: Space, n: int): Space {
    var z := NewSize(s.sz, n);
    if n > 0 && z >= s.sz then
      Space(z, s.pages + seq(if Pages(z) > |s.pages| then Pages(z) - |s.pages| else 0, _ => ZeroPage()))
    else if n < 0 && z < s.sz then
      Space(z, if Pages(z) <= |s.pages| then s.pages[..Pages(z)] else s.pages)
    else s
  }

  /** Page v is taken from the process's reach, as exec does with the page below the stack. */
  function Clear(s: Space, v: nat): Space
    requires v < |s.pages|
  { s.(pages := s.pages[v := s.pages[v].(user := false)]) }

  /** The first process: one page that starts with its code. */
  function FirstSpace(code: seq<byte>): Space
    requires |code| < PGSIZE
  { Space(PGSIZE, [Page(code + seq(PGSIZE - |code|, _ => 0), true, true)]) }

  // ---------- what the operations mean, address by address ----------

  /** A size and its pages agree: every page is whole, every address below the size is on a page,
      and no page lies wholly past the size. */
  ghost predicate Shaped(s: Space) {
    && s.sz < 0x1_0000_0000 && |s.pages| == Pages(s.sz)
    && forall v :: 0 <= v < |s.pages| ==> |s.pages[v].data| == 4096
  }

  /** The pages cover the size and are no more than that takes. */
  lemma PagesCover(sz: nat)
    ensures sz <= Pages(sz) * 4096 < sz + 4096
  {}

  /** The process reads back what was written, and every other address reads as before. */
  lemma WriteSeen(w: World, p: nat, a: nat, src: seq<byte>, b: nat)
    requires p in w && Shaped(w[p])
    ensures var w' := Write(w, p, a, src);
            && Shaped(w'[p]) && w'[p].sz == w[p].sz && (Writable(w'[p], b) <==> Writable(w[p], b))
            && (Writable(w[p], b) ==> ByteOf(w'[p], b) == if a <= b < a + |src| then src[b - a] else ByteOf(w[p], b))
            && forall q :: q in w && q != p ==> q in w' && w'[q] == w[q]
  {
    if b / PGSIZE < |w[p].pages| {
      var v := b / PGSIZE;
      assert b == v * PGSIZE + b % PGSIZE;
      assert Write(w, p, a, src)[p].pages[v].data == Overwrite(w[p].pages[v].data, a - v * PGSIZE, src);
    }
  }

  /** growproc's new size, and the bytes around it: those on a page that stays are kept, and a page
      that is new reads as zeroes. */
  lemma ResizeSeen(s: Space, n: int, b: nat)
    requires Shaped(s) && -0x8000_0000 <= n < 0x8000_0000
    ensures var s' := Resize(s, n);
            && Shaped(s') && s'.sz == (if 0 <= s.sz + n < 0x1_0000_0000 then s.sz + n else s.sz)
            && (b / 4096 < |s.pages| && b / 4096 < |s'.pages| ==> s'.pages[b / 4096] == s.pages[b / 4096])
            && (|s.pages| <= b / 4096 < |s'.pages| ==> Writable(s', b) && ByteOf(s', b) == 0)
  {}

  /** Growing by n and then shrinking by n gives back the same address space. */
  lemma GrowShrink(s: Space, n: int)
    requires Shaped(s) && 0 < n && s.sz + n < 0x1_0000_0000
    ensures Resize(Resize(s, n), -n) == s
  {
    assert NewSize(s.sz, n) == s.sz + n && NewSize(s.sz + n, -n) == s.sz;
    assert Pages(s.sz) <= Pages(s.sz + n);
    assert Resize(s, n).pages[..|s.pages|] == s.pages;
  }

  // ---------- operations and runs ----------

  datatype Op =
    | OpFork(p: nat)
    | OpStore(p: nat, a: nat, b: byte)
    | OpCopyout(p: nat, a: nat, src: seq<byte>)
    | OpSbrk(p: nat, n: int)
    | OpClear(p: nat, a: nat)
    | OpExit(p: nat)

  /** Done: the operation succeeded (for fork, into slot `child`). Fault: it failed as it would
      have with eager copies. Oom: memory or process slots ran out; a copyout may have
      written its first `count` bytes by then. */
  datatype Outcome = Done(child: nat) | Fault(count: nat) | Oom(count: nat)

  predicate AllWritable(s: Space, a: nat, n: nat) {
    forall b :: a <= b < a + n ==> Writable(s, b)
  }

  /** One step of the eager machine: which outcomes are possible and what each leaves behind.
      An operation in the name of no live process does nothing. */
  ghost predicate Step(w: World, op: Op, out: Outcome, w': World) {
    if op.p !in w then out == Fault(0) && w' == w else
    match op
    case OpFork(p) =>
      (match out
       case Done(c) => c !in w && w' == Fork(w, p, c)
       case Fault(_) => false
       case Oom(_) => w' == w)
    case OpStore(p, a, b) =>
      (match out
       case Done(_) => Writable(w[p], a) && w' == Write(w, p, a, [b])
       case Fault(_) => !Writable(w[p], a) && w' == w
       case Oom(_) => Writable(w[p], a) && w' == w)
    case OpCopyout(p, a, src) =>
      (match out
       case Done(_) => AllWritable(w[p], a, |src|) && w' == Write(w, p, a, src)
       case Fault(k) => k < |src| && AllWritable(w[p], a, k) && !Writable(w[p], a + k) && w' == Write(w, p, a, src[..k])
       case Oom(k) => k < |src| && AllWritable(w[p], a, k) && w' == Write(w, p, a, src[..k]))
    case OpSbrk(p, n) =>
      (match out
       case Done(_) => w' == w[p := Resize(w[p], n)]
       case Fault(_) => false
       case Oom(_) => w' == w)
    case OpClear(p, a) =>
      (match out
       case Done(_) => a / PGSIZE < |w[p].pages| && w' == w[p := Clear(w[p], a / PGSIZE)]
       case Fault(_) => a / PGSIZE >= |w[p].pages| && w' == w
       case Oom(_) => false)
    case OpExit(p) => out.Done? && w' == w - {p}
  }

  ghost predicate Run(w: World, ops: seq<Op>, outs: seq<Outcome>, ws: seq<World>) {
    && |outs| == |ops| && |ws| == |ops| + 1 && ws[0] == w
    && forall i :: 0 <= i < |ops| ==> Step(ws[i], ops[i], outs[i], ws[i + 1])
  }

  lemma RunMore(w: World, ops: seq<Op>, outs: seq<Outcome>, ws: seq<World>, op: Op, out: Outcome, w': World)
    requires Run(w, ops, outs, ws) && Step(ws[|ops|], op, out, w')
    ensures Run(w, ops + [op], outs + [out], ws + [w'])
  {
    hide Step;
  }
}

/** The copy-on-write invariant and how each change of a page-table entry keeps it. */
module Cow {
  import opened Sv39
  import opened Eager

  datatype Slot = Unused | Used(root: nat, trapframe: nat, sz: nat)

  // ---------- reference accounting ----------

  /** The user leaf entries, over all page tables, that refer to frame f. */
  ghost function Owners(m: Phys, role: seq<Role>, f: nat): set<(nat, nat)> {
    set r: nat, v: nat {:trigger Leaf(m, r, v)} |
      0 <= r < |role| && 0 <= v < TRAPFRAME_VPN && IsRoot(role, r) && Leaf(m, r, v).v && Leaf(m, r, v).ppn == f
      :: (r, v)
  }

  ghost predicate CountOk(m: Phys, role: seq<Role>, f: nat)
    requires |m.refs| == |role| && f < |role|
  {
    match role[f]
    case Free => m.refs[f] == 0
    case User => m.refs[f] == |Owners(m, role, f)| && m.refs[f] > 0
    case _ => m.refs[f] == 1
  }

  ghost predicate LeafOk(m: Phys, role: seq<Role>, e: Pte)
    requires |m.refs| == |role|
  {
    && e.r && e.w != e.rsw
    && e.ppn < |role| && role[e.ppn].User?
    && (e.w ==> m.refs[e.ppn] == 1)
  }

  ghost predicate UserInv(m: Phys, role: seq<Role>) {
    && |m.frames| == |m.refs| == |role|
    && (forall r, v :: IsRoot(role, r) && 0 <= v < TRAPFRAME_VPN && Leaf(m, r, v).v ==> LeafOk(m, role, Leaf(m, r, v)))
    && (forall f :: 0 <= f < |role| ==> CountOk(m, role, f))
  }

  ghost predicate MemInv(m: Phys, role: seq<Role>) {
    FreeInv(m, role) && TreeInv(m, role) && UserInv(m, role)
  }

  // ---------- changes of one leaf ----------

  ghost predicate SameRoots(role: seq<Role>, role': seq<Role>) {
    |role| == |role'| && forall r :: IsRoot(role', r) <==> IsRoot(role, r)
  }

  /** m' maps page v0 of root r0 by e and every other page as m does. */
  ghost predicate LeafSet(m: Phys, m': Phys, role: seq<Role>, role': seq<Role>, r0: nat, v0: nat, e: Pte) {
    && SameRoots(role, role')
    && forall r, v :: IsRoot(role, r) && 0 <= v < NVPN ==>
         Leaf(m', r, v) == if r == r0 && v == v0 then e else Leaf(m, r, v)
  }

  /** A LeafSet below the trapframe, where processes' own pages are. */
  ghost predicate OneLeaf(m: Phys, m': Phys, role: seq<Role>, role': seq<Role>, r0: nat, v0: nat, e: Pte) {
    IsRoot(role, r0) && v0 < TRAPFRAME_VPN && LeafSet(m, m', role, role', r0, v0, e)
  }

  ghost predicate SameLeaves(m: Phys, m': Phys, role: seq<Role>, role': seq<Role>) {
    && SameRoots(role, role')
    && forall r, v :: IsRoot(role, r) && 0 <= v < NVPN ==> Leaf(m', r, v) == Leaf(m, r, v)
  }

  ghost predicate SameUserLeaves(m: Phys, m': Phys, role: seq<Role>, role': seq<Role>) {
    && SameRoots(role, role')
    && forall r, v :: IsRoot(role, r) && 0 <= v < TRAPFRAME_VPN ==> Leaf(m', r, v) == Leaf(m, r, v)
  }

  predicate Refers(e: Pte, f: nat) { e.v && e.ppn == f }

  lemma OwnersIn(m: Phys, role: seq<Role>, f: nat, r: nat, v: nat)
    ensures (r, v) in Owners(m, role, f) <==> IsRoot(role, r) && v < TRAPFRAME_VPN && Refers(Leaf(m, r, v), f)
  {
    hide Leaf;
  }

  lemma OwnersOneLeafSet(m: Phys, m': Phys, role: seq<Role>, role': seq<Role>, r0: nat, v0: nat, e: Pte, f: nat)
    requires OneLeaf(m, m', role, role', r0, v0, e)
    ensures Owners(m', role', f) == Owners(m, role, f) - {(r0, v0)} + if Refers(e, f) then {(r0, v0)} else {}
  {
    hide Owners, Leaf, IsRoot;
    forall x: (nat, nat)
      ensures x in Owners(m', role', f) <==>
              x in Owners(m, role, f) - {(r0, v0)} + if Refers(e, f) then {(r0, v0)} else {}
    {
      OwnersIn(m, role, f, x.0, x.1);
      OwnersIn(m', role', f, x.0, x.1);
    }
  }

  lemma OwnersOneLeaf(m: Phys, m': Phys, role: seq<Role>, role': seq<Role>, r0: nat, v0: nat, e: Pte, f: nat)
    requires OneLeaf(m, m', role, role', r0, v0, e)
    ensures |Owners(m', role', f)| ==
            |Owners(m, role, f)| - (if Refers(Leaf(m, r0, v0), f) then 1 else 0) + (if Refers(e, f) then 1 else 0)
  {
    hide Owners, Leaf;
    var o := Owners(m, role, f);
    OwnersOneLeafSet(m, m', role, role', r0, v0, e, f);
    OwnersIn(m, role, f, r0, v0);
    if (r0, v0) !in o { assert o - {(r0, v0)} == o; }
  }

  /** Changes that touch no user mapping and no user frame keep the accounting. */
  lemma UserInvFrame(m: Phys, m': Phys, role: seq<Role>, role': seq<Role>)
    requires UserInv(m, role) && SameUserLeaves(m, m', role, role') && |m'.frames| == |m'.refs| == |role'|
    requires forall f :: 0 <= f < |role| && role[f].User? ==> role'[f].User? && m'.refs[f] == m.refs[f]
    requires forall f :: 0 <= f < |role| && !role[f].User? ==> !role'[f].User? && CountOk(m', role', f)
    ensures UserInv(m', role')
  {
    forall f | 0 <= f < |role'| ensures CountOk(m', role', f) {
      if role'[f].User? {
        assert CountOk(m, role, f);
        assert Owners(m', role', f) == Owners(m, role, f);
      }
    }
    forall r, v | IsRoot(role', r) && 0 <= v < TRAPFRAME_VPN && Leaf(m', r, v).v
      ensures LeafOk(m', role', Leaf(m', r, v)) {
      assert LeafOk(m, role, Leaf(m, r, v));
    }
  }

  /** Flipping between write permission and the copy-on-write mark, the frame staying the same. */
  lemma Reflag(m: Phys, m': Phys, role: seq<Role>, r0: nat, v0: nat, e: Pte)
    requires UserInv(m, role) && OneLeaf(m, m', role, role, r0, v0, e)
    requires |m'.frames| == |m.frames| && m'.refs == m.refs
    requires Leaf(m, r0, v0).v && e.v && e.ppn == Leaf(m, r0, v0).ppn && e.r && e.w != e.rsw
    requires e.w ==> m.refs[Leaf(m, r0, v0).ppn] == 1
    ensures UserInv(m', role)
  {
    forall f | 0 <= f < |role| ensures CountOk(m', role, f) {
      assert CountOk(m, role, f);
      OwnersOneLeaf(m, m', role, role, r0, v0, e, f);
    }
    forall r, v | IsRoot(role, r) && 0 <= v < TRAPFRAME_VPN && Leaf(m', r, v).v
      ensures LeafOk(m', role, Leaf(m', r, v)) {
      assert Leaf(m, r, v).v;
      assert LeafOk(m, role, Leaf(m, r, v));
    }
  }

  /** Frames other than f0 are user frames with the same counts as before, or are counted soundly. */
  ghost predicate OtherCounts(m: Phys, m': Phys, role: seq<Role>, role': seq<Role>, f0: nat) {
    && |m.frames| == |m.refs| == |role| == |role'| == |m'.refs| == |m'.frames|
    && forall f :: 0 <= f < |role| && f != f0 ==>
         if role[f].User? then role'[f].User? && m'.refs[f] == m.refs[f] else !role'[f].User? && CountOk(m', role', f)
  }

  /** A page the kernel holds becomes a user page when it is mapped. */
  lemma MapFresh(m: Phys, m': Phys, role: seq<Role>, role': seq<Role>, r0: nat, v0: nat, e: Pte)
    requires UserInv(m, role) && OneLeaf(m, m', role, role', r0, v0, e) && OtherCounts(m, m', role, role', e.ppn)
    requires !Leaf(m, r0, v0).v && e.v && e.r && e.w != e.rsw
    requires e.ppn < |role| && role[e.ppn].Held? && role'[e.ppn].User? && m'.refs[e.ppn] == 1
    ensures UserInv(m', role')
  {
    forall f | 0 <= f < |role| ensures CountOk(m', role', f) {
      assert CountOk(m, role, f);
      OwnersOneLeaf(m, m', role, role', r0, v0, e, f);
      if f == e.ppn { NoOwners(m, role, f); }
    }
    forall r, v | IsRoot(role', r) && 0 <= v < TRAPFRAME_VPN && Leaf(m', r, v).v
      ensures LeafOk(m', role', Leaf(m', r, v)) {
      if r != r0 || v != v0 { assert LeafOk(m, role, Leaf(m, r, v)); }
    }
  }

  lemma NoOwners(m: Phys, role: seq<Role>, f: nat)
    requires UserInv(m, role) && f < |role| && !role[f].User?
    ensures Owners(m, role, f) == {}
  {
  }

  /** A user page is shared into one more place, and its count goes up by one. */
  lemma Share(m: Phys, m': Phys, role: seq<Role>, role': seq<Role>, r0: nat, v0: nat, e: Pte)
    requires UserInv(m, role) && OneLeaf(m, m', role, role', r0, v0, e) && OtherCounts(m, m', role, role', e.ppn)
    requires !Leaf(m, r0, v0).v && e.v && e.r && !e.w && e.rsw
    requires e.ppn < |role| && role[e.ppn].User? && role'[e.ppn].User? && m'.refs[e.ppn] == m.refs[e.ppn] + 1
    requires forall r, v ::
               IsRoot(role, r) && 0 <= v < TRAPFRAME_VPN && Leaf(m, r, v).v && Leaf(m, r, v).ppn == e.ppn ==>
                 !Leaf(m, r, v).w
    ensures UserInv(m', role')
  {
    forall f | 0 <= f < |role| ensures CountOk(m', role', f) {
      assert CountOk(m, role, f);
      OwnersOneLeaf(m, m', role, role', r0, v0, e, f);
    }
    forall r, v | IsRoot(role', r) && 0 <= v < TRAPFRAME_VPN && Leaf(m', r, v).v
      ensures LeafOk(m', role', Leaf(m', r, v)) {
      if r != r0 || v != v0 { assert LeafOk(m, role, Leaf(m, r, v)); }
    }
  }

  /** A writable entry is the only one that refers to its frame. */
  lemma SoleOwner(m: Phys, role: seq<Role>, r: nat, v: nat, r': nat, v': nat)
    requires UserInv(m, role) && IsRoot(role, r) && IsRoot(role, r') && v < TRAPFRAME_VPN && v' < TRAPFRAME_VPN
    requires Leaf(m, r, v).v && Leaf(m, r', v').v && Leaf(m, r, v).ppn == Leaf(m, r', v').ppn
    requires m.refs[Leaf(m, r, v).ppn] == 1
    ensures r == r' && v == v'
  {
    assert LeafOk(m, role, Leaf(m, r, v));
    var f := Leaf(m, r, v).ppn;
    assert CountOk(m, role, f);
    var o := Owners(m, role, f);
    assert (r, v) in o && (r', v') in o;
    assert |o - {(r, v)}| == 0;
    assert (r', v') !in o - {(r, v)};
  }

  /** kfree on the frame an entry referred to, the entry being cleared. */
  lemma Unmap(m: Phys, m': Phys, role: seq<Role>, role': seq<Role>, r0: nat, v0: nat)
    requires UserInv(m, role) && OneLeaf(m, m', role, role', r0, v0, ZERO) && Leaf(m, r0, v0).v
    requires |m'.frames| == |m.frames|
    requires var f := Leaf(m, r0, v0).ppn;
             f < |role| && m.refs[f] > 0
             && m'.refs == m.refs[f := m.refs[f] - 1]
             && role' == if m.refs[f] == 1 then role[f := Free] else role
    ensures UserInv(m', role')
  {
    var f0 := Leaf(m, r0, v0).ppn;
    assert LeafOk(m, role, Leaf(m, r0, v0));
    forall f | 0 <= f < |role| ensures CountOk(m', role', f) {
      assert CountOk(m, role, f);
      OwnersOneLeaf(m, m', role, role', r0, v0, ZERO, f);
    }
    forall r, v | IsRoot(role', r) && 0 <= v < TRAPFRAME_VPN && Leaf(m', r, v).v
      ensures LeafOk(m', role', Leaf(m', r, v)) {
      assert r != r0 || v != v0;
      assert LeafOk(m, role, Leaf(m, r, v));
      if Leaf(m, r, v).ppn == f0 && m.refs[f0] == 1 { SoleOwner(m, role, r0, v0, r, v); }
    }
  }

  /** The write fault on a shared page: the entry moves to a private copy and the shared
      frame loses one reference. */
  lemma Remap(m: Phys, m': Phys, role: seq<Role>, role': seq<Role>, r0: nat, v0: nat, e: Pte)
    requires UserInv(m, role) && OneLeaf(m, m', role, role', r0, v0, e) && Leaf(m, r0, v0).v
    requires |m'.frames| == |m.frames| && e.v && e.r && e.w != e.rsw
    requires e.ppn < |role| && role[e.ppn].Held? && role' == role[e.ppn := User]
    requires var f := Leaf(m, r0, v0).ppn;
             f < |role| && m.refs[f] > 1 && m'.refs == m.refs[f := m.refs[f] - 1]
    ensures UserInv(m', role')
  {
    var f0 := Leaf(m, r0, v0).ppn;
    assert LeafOk(m, role, Leaf(m, r0, v0));
    assert CountOk(m, role, e.ppn);
    forall f | 0 <= f < |role| ensures CountOk(m', role', f) {
      assert CountOk(m, role, f);
      OwnersOneLeaf(m, m', role, role', r0, v0, e, f);
      if f == e.ppn { NoOwners(m, role, f); }
    }
    forall r, v | IsRoot(role', r) && 0 <= v < TRAPFRAME_VPN && Leaf(m', r, v).v
      ensures LeafOk(m', role', Leaf(m', r, v)) {
      if r != r0 || v != v0 { assert LeafOk(m, role, Leaf(m, r, v)); }
    }
  }

  // ---------- what processes see ----------

  function DataOf(m: Phys, f: nat): seq<byte> {
    if f < |m.frames| && m.frames[f].Bytes? then m.frames[f].data else []
  }

  /** Page v as the process with root r sees it. */
  function ViewAt(m: Phys, r: nat, v: nat): Option<Page> {
    var e := Leaf(m, r, v);
    if e.v then Some(Page(DataOf(m, e.ppn), e.u, e.x)) else None
  }

  function SpaceOf(m: Phys, r: nat, sz: nat): Space {
    Space(sz, seq(Pages(sz), v requires 0 <= v < Pages(sz) =>
      if ViewAt(m, r, v).Some? then ViewAt(m, r, v).value else Page([], false, false)))
  }

  /** The address spaces of all processes. */
  function View(m: Phys, proc: seq<Slot>): World {
    map p: nat | p < |proc| && proc[p].Used? :: SpaceOf(m, proc[p].root, proc[p].sz)
  }

  ghost predicate SameHeld(role: seq<Role>, role': seq<Role>) {
    |role| == |role'| && forall f :: 0 <= f < |role| ==> (role'[f].Held? <==> role[f].Held?)
  }

  /** Only what process r0 sees of its own pages may have changed. */
  ghost predicate KeepsOthers(m: Phys, m': Phys, role: seq<Role>, role': seq<Role>, r0: nat) {
    && SameRoots(role, role') && SameHeld(role, role')
    && (forall r, v :: IsRoot(role, r) && r != r0 && 0 <= v < TRAPFRAME_VPN ==> ViewAt(m', r, v) == ViewAt(m, r, v))
    && (forall r, v :: IsRoot(role, r) && TRAPFRAME_VPN <= v < NVPN ==> Leaf(m', r, v) == Leaf(m, r, v))
  }

  lemma KeepsOthersTrans(m: Phys, m1: Phys, m2: Phys, role: seq<Role>, role1: seq<Role>, role2: seq<Role>, r0: nat)
    requires KeepsOthers(m, m1, role, role1, r0) && KeepsOthers(m1, m2, role1, role2, r0)
    ensures KeepsOthers(m, m2, role, role2, r0)
  {
    hide Leaf, ViewAt;
  }

  // ---------- the process table ----------

  const NPROC: nat := 64

  function TrampolinePte(ppn: nat): Pte { Pte(true, true, false, true, false, false, ppn) }
  function TrapframePte(ppn: nat): Pte { Pte(true, true, true, false, false, false, ppn) }

  /** Exactly the pages below n are mapped. */
  ghost predicate Mapped(m: Phys, r: nat, n: nat) {
    forall v :: 0 <= v < TRAPFRAME_VPN ==> (Leaf(m, r, v).v <==> v < n)
  }

  ghost predicate SlotBase(m: Phys, role: seq<Role>, s: Slot, trampoline: nat) {
    && s.Used? && IsRoot(role, s.root)
    && s.trapframe < |role| && role[s.trapframe].Held?
    && Leaf(m, s.root, TRAMPOLINE_VPN) == TrampolinePte(trampoline)
    && Leaf(m, s.root, TRAPFRAME_VPN) == TrapframePte(s.trapframe)
    && s.sz < UINT_LIMIT
  }

  ghost predicate SlotOk(m: Phys, role: seq<Role>, s: Slot, trampoline: nat) {
    SlotBase(m, role, s, trampoline) && Mapped(m, s.root, Pages(s.sz))
  }

  ghost predicate InSomeSlot(proc: seq<Slot>, f: nat) {
    exists p :: 0 <= p < |proc| && proc[p].Used? && (proc[p].root == f || proc[p].trapframe == f)
  }

  ghost predicate Distinct(proc: seq<Slot>) {
    forall p, q :: 0 <= p < q < |proc| && proc[p].Used? && proc[q].Used? ==>
      proc[p].root != proc[q].root && proc[p].trapframe != proc[q].trapframe
  }

  /** Every root and every page the kernel holds belongs to a process: nothing leaks. */
  ghost predicate NoLeak(role: seq<Role>, proc: seq<Slot>) {
    forall f :: 0 <= f < |role| && (IsRoot(role, f) || role[f].Held?) ==> InSomeSlot(proc, f)
  }

  ghost predicate ProcInv(m: Phys, role: seq<Role>, proc: seq<Slot>, trampoline: nat) {
    && |proc| == NPROC
    && (forall p :: 0 <= p < |proc| && proc[p].Used? ==> SlotOk(m, role, proc[p], trampoline))
    && Distinct(proc) && NoLeak(role, proc)
  }

  lemma SpaceSame(m: Phys, m': Phys, r: nat, sz: nat)
    requires Pages(sz) <= TRAPFRAME_VPN
    requires forall v :: 0 <= v < TRAPFRAME_VPN ==> ViewAt(m', r, v) == ViewAt(m, r, v)
    ensures SpaceOf(m', r, sz) == SpaceOf(m, r, sz)
  {
    hide ViewAt;
  }

  lemma SlotKept(m: Phys, m': Phys, role: seq<Role>, role': seq<Role>, s: Slot, trampoline: nat, r0: nat)
    requires KeepsOthers(m, m', role, role', r0) && SlotBase(m, role, s, trampoline)
    ensures SlotBase(m', role', s, trampoline)
    ensures s.root != r0 && SlotOk(m, role, s, trampoline) ==>
              SlotOk(m', role', s, trampoline) && SpaceOf(m', s.root, s.sz) == SpaceOf(m, s.root, s.sz)
  {
    hide Leaf;
    if s.root != r0 && SlotOk(m, role, s, trampoline) {
      forall v | 0 <= v < TRAPFRAME_VPN
        ensures Leaf(m', s.root, v).v == Leaf(m, s.root, v).v && ViewAt(m', s.root, v) == ViewAt(m, s.root, v) {
        assert ViewAt(m', s.root, v) == ViewAt(m, s.root, v);
      }
      SpaceSame(m, m', s.root, s.sz);
    }
  }

  /** An operation on process p that keeps p's slot sound and everyone else's view keeps the
      table sound, and changes the world only at p. */
  lemma ProcKept(m: Phys, m': Phys, role: seq<Role>, role': seq<Role>, proc: seq<Slot>, p: nat, sz: nat,
                 trampoline: nat)
    requires ProcInv(m, role, proc, trampoline) && p < |proc| && proc[p].Used?
    requires KeepsOthers(m, m', role, role', proc[p].root)
    requires sz < UINT_LIMIT && Mapped(m', proc[p].root, Pages(sz))
    ensures ProcInv(m', role', proc[p := proc[p].(sz := sz)], trampoline)
    ensures View(m', proc[p := proc[p].(sz := sz)]) == View(m, proc)[p := SpaceOf(m', proc[p].root, sz)]
  {
    hide Leaf, ViewAt, SpaceOf, Mapped, NoLeak, KeepsOthers;
    var proc' := proc[p := proc[p].(sz := sz)];
    forall q | 0 <= q < |proc| && proc[q].Used?
      ensures SlotOk(m', role', proc'[q], trampoline)
      ensures q != p ==> SpaceOf(m', proc[q].root, proc[q].sz) == SpaceOf(m, proc[q].root, proc[q].sz)
    {
      SlotKept(m, m', role, role', proc[q], trampoline, proc[p].root);
    }
    NoLeakKept(m, m', role, role', proc, p, sz, proc[p].root);
  }

  lemma NoLeakKept(m: Phys, m': Phys, role: seq<Role>, role': seq<Role>, proc: seq<Slot>, p: nat, sz: nat, r0: nat)
    requires NoLeak(role, proc) && KeepsOthers(m, m', role, role', r0) && p < |proc| && proc[p].Used?
    ensures NoLeak(role', proc[p := proc[p].(sz := sz)])
  {
    hide Leaf, ViewAt, IsRoot;
    var proc' := proc[p := proc[p].(sz := sz)];
    forall f | 0 <= f < |role'| && (IsRoot(role', f) || role'[f].Held?) ensures InSomeSlot(proc', f) {
      assert InSomeSlot(proc, f);
      var q :| 0 <= q < |proc| && proc[q].Used? && (proc[q].root == f || proc[q].trapframe == f);
      assert proc'[q].Used? && proc'[q].root == proc[q].root && proc'[q].trapframe == proc[q].trapframe;
    }
  }
}
