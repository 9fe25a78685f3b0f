/** Block allocation, the inode block map, and reading and writing files, over block contents as
    the log and the cache below present them. */
module FileSystem {
  import opened FileBlocks
  import Common
  import LogMachine

  function Min(a: nat, b: nat): nat { if a < b then a else b }

  function IBlock(sb: Super, inum: nat): nat { inum / 16 + sb.inodestart }

  /** The inodes lie one after the other, 64 bytes each, from inodestart on, and none straddles two blocks.
      The 64 bytes are four 16-bit fields, the size and the block numbers; an indirect block is full of them. */
  lemma InodePlace(sb: Super, inum: nat)
    ensures IBlock(sb, inum) >= sb.inodestart
    ensures 1024 * (IBlock(sb, inum) - sb.inodestart) + 64 * (inum % 16) == 64 * inum && 64 * (inum % 16) + 64 <= 1024
    ensures 4 * 2 + 4 + 4 * (NDIRECT + 1) == 64 && 4 * NINDIRECT == 1024
  {}

  ghost predicate IsBitmap(sb: Super, b: nat) {
    sb.bmapstart <= b < sb.bmapstart + (sb.size + BPB - 1) / BPB
  }

  /** Only the extra blocks and blocks of the bitmap were logged. */
  ghost predicate LoggedOnly(sb: Super, before: set<nat>, after: set<nat>, extra: set<nat>) {
    before <= after && forall x :: x in after ==> x in before || x in extra || IsBitmap(sb, x)
  }

  lemma LoggedGrows(sb: Super, before: set<nat>, after: set<nat>, extra: set<nat>)
    requires LoggedOnly(sb, before, after, extra)
    ensures before <= after
  {}

  lemma LoggedToo(sb: Super, before: set<nat>, after: set<nat>, extra: set<nat>, x: nat)
    requires LoggedOnly(sb, before, after, extra) && x in extra
    ensures LoggedOnly(sb, before, after + {x}, extra)
  {}

  /** Every block whose contents changed was given to log_write. */
  ghost predicate Noted(d: seq<seq<byte>>, d': seq<seq<byte>>, logged: set<nat>) {
    |d'| == |d| && forall b :: 0 <= b < |d| && d'[b] != d[b] ==> b in logged
  }

  lemma NotedSelf(d: seq<seq<byte>>, logged: set<nat>)
    ensures Noted(d, d, logged)
  {}

  lemma NotedTrans(d: seq<seq<byte>>, d1: seq<seq<byte>>, d2: seq<seq<byte>>, logged1: set<nat>, logged2: set<nat>)
    requires Noted(d, d1, logged1) && Noted(d1, d2, logged2) && logged1 <= logged2
    ensures Noted(d, d2, logged2)
  {}

  /** The same, but for the block that `spare` owns. */
  ghost predicate NotedBut(d: seq<seq<byte>>, d': seq<seq<byte>>, logged: set<nat>, owner: seq<Owner>, spare: Owner) {
    |d'| == |d| == |owner| && forall b :: 0 <= b < |d| && d'[b] != d[b] ==> b in logged || owner[b] == spare
  }

  lemma NotedTorn(d: seq<seq<byte>>, d1: seq<seq<byte>>, d2: seq<seq<byte>>, logged1: set<nat>, logged2: set<nat>,
                  owner: seq<Owner>, addr: nat)
    requires Noted(d, d1, logged1) && logged1 <= logged2 && addr < |owner| == |d2|
    requires Noted(d1, d2, logged2 + {addr})
    ensures NotedBut(d, d2, logged2, owner, owner[addr])
  {}

  lemma NotedMore(d: seq<seq<byte>>, d': seq<seq<byte>>, logged: set<nat>, owner: seq<Owner>, spare: Owner, x: nat)
    ensures Noted(d, d', logged) ==> Noted(d, d', logged + {x})
    ensures Noted(d, d', logged) && |owner| == |d| ==> NotedBut(d, d', logged, owner, spare)
    ensures NotedBut(d, d', logged, owner, spare) ==> NotedBut(d, d', logged + {x}, owner, spare)
  {}

  /** The indirect block of a file, if it has one. */
  function Ind(ino: Inode): set<nat> {
    if |ino.addrs| == NDIRECT + 1 && ino.addrs[NDIRECT] != 0 then {ino.addrs[NDIRECT]} else {}
  }

  lemma BitAt(base: nat, bi: nat)
    requires base % BPB == 0 && bi < BPB
    ensures (base + bi) / BPB == base / BPB && (base + bi) % BPB == bi && (base + bi) % 8 == bi % 8
  {}

  ghost predicate SmallOps(before: seq<set<nat>>, after: seq<set<nat>>) {
    before <= after && forall k :: |before| <= k < |after| ==> |after[k]| <= 7
  }

  /** How many chunks filewrite makes of n bytes. */
  function Chunks(n: nat): nat { (n + 3 * BSIZE - 1) / (3 * BSIZE) }

  lemma ChunkNext(k: nat, n1: nat, n: nat)
    requires k % (3 * BSIZE) == 0 && k + n1 <= n && (n1 == 3 * BSIZE || (0 < n1 < 3 * BSIZE && k + n1 == n))
    ensures Chunks(k + n1) == Chunks(k) + 1 && (k + n1 < n ==> (k + n1) % (3 * BSIZE) == 0)
  {}

  lemma SmallStart(ops: seq<set<nat>>)
    ensures SmallOps(ops, ops) && Chunks(0) == 0
  {}

  lemma SmallNext(before: seq<set<nat>>, ops: seq<set<nat>>, one: set<nat>)
    requires SmallOps(before, ops) && |one| <= 7
    ensures SmallOps(before, ops + [one])
  {}

  /** Block b was given to log_write by one of the operations from `from` on. */
  ghost predicate InSome(ops: seq<set<nat>>, from: nat, b: nat) {
    exists k :: from <= k < |ops| && b in ops[k]
  }

  ghost predicate NotedIn(d: seq<seq<byte>>, d': seq<seq<byte>>, ops: seq<set<nat>>, from: nat) {
    |d'| == |d| && forall b :: 0 <= b < |d| && d'[b] != d[b] ==> InSome(ops, from, b)
  }

  ghost predicate NotedInBut(d: seq<seq<byte>>, d': seq<seq<byte>>, ops: seq<set<nat>>, from: nat, owner: seq<Owner>,
                             spare: Owner) {
    && |d'| == |d| == |owner|
    && forall b :: 0 <= b < |d| && d'[b] != d[b] ==> InSome(ops, from, b) || owner[b] == spare
  }

  /** Every inode that changed on disk is in a block that some operation logged. */
  ghost predicate InodesIn(sb: Super, c: seq<Inode>, c': seq<Inode>, ops: seq<set<nat>>, from: nat) {
    |c'| == |c| && forall j :: 0 <= j < |c| && c'[j] != c[j] ==> InSome(ops, from, IBlock(sb, j))
  }

  lemma InSomeMore(ops: seq<set<nat>>, from: nat, one: set<nat>)
    requires from <= |ops|
    ensures forall b :: InSome(ops, from, b) || b in one ==> InSome(ops + [one], from, b)
  {
    forall b | InSome(ops, from, b) || b in one ensures InSome(ops + [one], from, b) {
      if InSome(ops, from, b) {
        var k :| from <= k < |ops| && b in ops[k];
        assert b in (ops + [one])[k];
      } else {
        assert b in (ops + [one])[|ops|];
      }
    }
  }

  lemma NotedInStart(d: seq<seq<byte>>, sb: Super, c: seq<Inode>, ops: seq<set<nat>>)
    ensures NotedIn(d, d, ops, |ops|) && InodesIn(sb, c, c, ops, |ops|)
  {}

  lemma NotedInMore(d: seq<seq<byte>>, d1: seq<seq<byte>>, d2: seq<seq<byte>>, ops: seq<set<nat>>, from: nat,
                    one: set<nat>, owner: seq<Owner>, spare: Owner)
    requires from <= |ops| && NotedIn(d, d1, ops, from)
    ensures d1 == d2 || Noted(d1, d2, one) ==> NotedIn(d, d2, ops + [one], from)
    ensures NotedBut(d1, d2, one, owner, spare) ==> NotedInBut(d, d2, ops + [one], from, owner, spare)
  {
    hide InSome;
    InSomeMore(ops, from, one);
  }

  lemma InodesInMore(sb: Super, c: seq<Inode>, c1: seq<Inode>, c2: seq<Inode>, ops: seq<set<nat>>, from: nat,
                     one: set<nat>)
    requires from <= |ops| && InodesIn(sb, c, c1, ops, from) && |c2| == |c1|
    requires forall j :: 0 <= j < |c1| && c2[j] != c1[j] ==> IBlock(sb, j) in one
    ensures InodesIn(sb, c, c2, ops + [one], from)
  {
    hide InSome, IBlock;
    InSomeMore(ops, from, one);
  }

  /** Any interleaving of operations that are chunks of filewrite, crashes and recoveries included,
      leaves log_write room: each operation writes only what its chunk logged. */
  lemma FilewriteFits(l: LogMachine.Layout, ss: seq<LogMachine.State>, labels: seq<LogMachine.Label>,
                      before: seq<set<nat>>, ops: seq<set<nat>>, chunk: map<nat, nat>, i: nat)
    requires LogMachine.Run(l, ss, labels) && LogMachine.Init(l, ss[0].disk, ss[0]) && LogMachine.DiskOk(l, ss[0].disk)
    requires i < |ss|
    requires SmallOps(before, ops) && forall id :: id in chunk ==> |before| <= chunk[id] < |ops|
    requires LogMachine.KeepsTo(ss, labels, map id | id in chunk :: ops[chunk[id]])
    ensures !ss[i].phase.Panicked?
  {
    hide LogMachine.Run, LogMachine.Init, LogMachine.DiskOk, LogMachine.KeepsTo;
    LogMachine.PlannedFits(l, ss, labels, map id | id in chunk :: ops[chunk[id]], i);
  }

  class FS {
    const sb: Super
    const disk: array<seq<byte>>
    /** Inodes in memory, and as iupdate last wrote them. */
    const inodes: array<Inode>
    const dinodes: array<Inode>
    ghost var owner: seq<Owner>
    /** Blocks given to log_write since begin_op, and those of each operation that has ended. */
    ghost var logged: set<nat>
    ghost var ops: seq<set<nat>>

    /** A new file system, as mkfs leaves it before it adds files: the metadata blocks marked in use. */
    constructor (s: Super)
      requires SuperOk(s) && s.nmeta < BPB
      ensures Valid() && sb == s && fresh(disk) && fresh(inodes) && fresh(dinodes)
      ensures forall i :: 0 <= i < s.ninodes == inodes.Length ==> inodes[i] == Empty()
      ensures |owner| == s.size && forall b :: 0 <= b < s.size ==> owner[b] == if b < s.nmeta then Meta else Free
    {
      sb := s;
      disk := new seq<byte>[s.size](_ => Zeros());
      inodes := new Inode[s.ninodes](_ => Empty());
      dinodes := new Inode[s.ninodes](_ => Empty());
      owner := seq(s.size, b => if b < s.nmeta then Meta else Free);
      logged, ops := {}, [];
      new;
      NoneMarked(sb, disk[..]);
      var b := 0;
      while b < sb.nmeta
        invariant 0 <= b <= sb.nmeta && Blocks(sb, disk[..]) && MarkedBelow(sb, disk[..], b)
        invariant forall i :: 0 <= i < inodes.Length ==> inodes[i] == Empty() == dinodes[i]
        invariant owner == seq(s.size, b => if b < s.nmeta then Meta else Free)
      {
        MarkUpTo(b);
        b := b + 1;
      }
      FreshInv(sb, Im(), owner);
      assert Whole(sb, Im());
    }

    method MarkUpTo(b: nat)
      requires Blocks(sb, disk[..]) && b < sb.nmeta && MarkedBelow(sb, disk[..], b)
      modifies disk
      ensures Blocks(sb, disk[..]) && MarkedBelow(sb, disk[..], b + 1)
    {
      hide Bit, Pow2;
      BBlockMeta(sb, b);
      var m := BBlock(sb, b);
      var k := b % BPB / 8;
      ghost var was := disk[..];
      assert |was[m]| == BSIZE && !InUse(sb, was, b);
      ByteLimit();
      SetBitFits(disk[m][k], b % 8, 8);
      disk[m] := disk[m][k := disk[m][k] + Pow2(b % 8)];
      assert disk[..] == Mark(sb, was, b);
      forall c: nat | c < sb.size ensures BBlock(sb, c) < sb.size && (InUse(sb, disk[..], c) <==> c < b + 1) {
        BBlockMeta(sb, c);
        MarkOne(sb, was, b, c);
      }
    }

    ghost function Im(): Image
      reads disk, inodes
    { Image(disk[..], inodes[..]) }

    /** Bitmap, inodes and owners agree. */
    ghost predicate Sound()
      reads this, disk, inodes
    { inodes != dinodes && dinodes.Length == inodes.Length && FsInv(sb, Im(), owner) }

    ghost predicate NoneHeld()
      reads this
    { forall b :: 0 <= b < |owner| ==> !owner[b].Held? }

    /** Between operations: no block is lost, no file has a hole, and the inodes on disk are those
        in memory. */
    ghost predicate Valid()
      reads this, disk, inodes, dinodes
    { Sound() && NoneHeld() && dinodes[..] == inodes[..] && Whole(sb, Im()) }

    lemma Shapes()
      requires Sound()
      ensures ImageOk(sb, Im()) && SuperOk(sb) && disk.Length == sb.size && inodes.Length == sb.ninodes
      ensures |owner| == sb.size
      ensures forall b :: 0 <= b < disk.Length ==> |disk[b]| == BSIZE
      ensures forall i ::
                0 <= i < inodes.Length ==>
                  && |inodes[i].addrs| == NDIRECT + 1 && inodes[i].addrs[NDIRECT] < sb.size
                  && inodes[i].size <= MAXFILE * BSIZE
    {
      var im := Im();
      assert forall b :: 0 <= b < disk.Length ==> disk[b] == im.disk[b];
      assert forall i :: 0 <= i < inodes.Length ==> inodes[i] == im.inodes[i] && InodeOk(sb, im.inodes[i]);
    }

    lemma ScanBit(base: nat, bi: nat)
      requires Sound() && base % BPB == 0 && bi < BPB && base + bi < sb.size
      ensures disk.Length == sb.size == |owner| && BBlock(sb, base) < sb.size && |disk[BBlock(sb, base)]| == BSIZE
      ensures owner[base + bi].Free? <==> !Bit(disk[BBlock(sb, base)][bi / 8], bi % 8)
    {
      Shapes();
      hide RefsOk, OwnedOk, Bit;
      BitAt(base, bi);
      BBlockMeta(sb, base);
      assert InUse(sb, disk[..], base + bi) == Bit(disk[BBlock(sb, base)][bi / 8], bi % 8);
    }

    /** The scan of balloc: the lowest free block, in blocks of the bitmap. */
    method FindFree() returns (ok: bool, b: nat)
      requires Sound()
      ensures ok ==> b < sb.size && owner[b].Free? && forall c :: 0 <= c < b ==> !owner[c].Free?
      ensures !ok ==> forall c :: 0 <= c < sb.size ==> !owner[c].Free?
    {
      hide Sound, Bit, InUse;
      Shapes();
      ok, b := false, 0;
      var base := 0;
      while base < sb.size
        invariant base % BPB == 0 && forall c :: 0 <= c < base && c < sb.size ==> !owner[c].Free?
      {
        ok, b := ScanBlock(base);
        if ok { return; }
        base := base + BPB;
      }
    }

    /** balloc's scan of one bitmap block. */
    method ScanBlock(base: nat) returns (ok: bool, b: nat)
      requires Sound() && base % BPB == 0 && base < sb.size
      requires forall c :: 0 <= c < base && c < |owner| ==> !owner[c].Free?
      ensures ok ==> b < sb.size == |owner| && owner[b].Free? && forall c :: 0 <= c < b ==> !owner[c].Free?
      ensures !ok ==> forall c :: 0 <= c < base + BPB && c < |owner| ==> !owner[c].Free?
    {
      hide Sound, Bit, InUse;
      Shapes();
      BBlockMeta(sb, base);
      var bp := disk[BBlock(sb, base)];
      var bi := 0;
      while bi < BPB && base + bi < sb.size
        invariant 0 <= bi <= BPB && forall c :: 0 <= c < base + bi && c < sb.size ==> !owner[c].Free?
      {
        ScanBit(base, bi);
        if !Bit(bp[bi / 8], bi % 8) {
          return true, base + bi;
        }
        bi := bi + 1;
      }
      return false, 0;
    }

    /** Allocate a zeroed block: false is the "out of blocks" panic. */
    method Balloc() returns (ok: bool, b: nat)
      requires Sound()
      modifies disk, `owner, `logged
      ensures Sound()
      ensures !ok ==> disk[..] == old(disk[..]) && owner == old(owner) && logged == old(logged)
      ensures !ok ==> forall c :: 0 <= c < sb.size ==> !owner[c].Free?
      ensures ok ==>
        && 0 < b < sb.size == |old(owner)| && old(owner)[b].Free? && owner == old(owner)[b := Held]
        && (forall c :: 0 <= c < b ==> !old(owner)[c].Free?)
        && disk[b] == Zeros() && (forall c :: sb.nmeta <= c < sb.size && c != b ==> disk[c] == old(disk[c]))
        && SameFiles(sb, old(Im()), Im()) && logged == old(logged) + {BBlock(sb, b), b} && IsBitmap(sb, BBlock(sb, b))
        && Noted(old(disk[..]), disk[..], logged)
    {
      Shapes();
      ok, b := FindFree();
      if ok {
        ghost var im := Im();
        MarkInv(sb, im, owner, b, Zeros());
        BBlockMeta(sb, b);
        assert 0 < b && sb.nmeta <= b by { assert !owner[b].Meta?; }
        hide RefsOk, OwnedOk, Bit, Pow2, Marked;
        var m := BBlock(sb, b);
        var k := b % BPB / 8;
        SetBitFits(disk[m][k], b % 8, 8);
        ByteLimit();
        disk[m] := disk[m][k := disk[m][k] + Pow2(b % 8)];
        disk[b] := Zeros();
        owner := owner[b := Held];
        logged := logged + {m, b};
        assert disk[..] == Mark(sb, im.disk, b)[b := Zeros()];
        assert Im() == im.(disk := disk[..]);
        UnownedRaw(sb, im, Im(), old(owner));
      }
    }

    /** Free a block: false is the "freeing free block" panic. A block that nothing refers to any
        more goes back with no file changed. The inodes are those that count: while itrunc works,
        its inode is already seen as empty. */
    method Bfree(b: nat, ghost ino: seq<Inode>) returns (ok: bool)
      requires FsInv(sb, Image(disk[..], ino), owner) && b < sb.size
      modifies disk, `owner, `logged
      ensures BBlock(sb, b) < disk.Length && |old(disk[BBlock(sb, b)])| == BSIZE && ok == old(InUse(sb, disk[..], b))
      ensures !ok ==> disk[..] == old(disk[..]) && owner == old(owner) && logged == old(logged)
      ensures ok ==> disk[..] == Unmark(sb, old(disk[..]), b) && logged == old(logged) + {BBlock(sb, b)}
      ensures ok ==> IsBitmap(sb, BBlock(sb, b)) && Noted(old(disk[..]), disk[..], logged)
      ensures |owner| == sb.size == |old(owner)| && ok == !old(owner)[b].Free?
      ensures old(owner)[b].Held? ==>
        && FsInv(sb, Image(disk[..], ino), owner) && owner == old(owner)[b := Free]
        && (forall c :: sb.nmeta <= c < sb.size ==> disk[c] == old(disk[c]))
        && SameFiles(sb, old(Image(disk[..], ino)), Image(disk[..], ino))
    {
      ghost var im := Image(disk[..], ino);
      BBlockMeta(sb, b);
      var m := BBlock(sb, b);
      var k := b % BPB / 8;
      assert |disk[m]| == BSIZE by { assert |im.disk[m]| == BSIZE; }
      assert InUse(sb, im.disk, b) == Bit(disk[m][k], b % 8);
      if !Bit(disk[m][k], b % 8) { return false; }
      if owner[b].Held? { UnmarkInv(sb, im, owner, b); }
      hide RefsOk, OwnedOk, Bit, Pow2, Marked;
      ClearBit(disk[m][k], b % 8, 0);
      disk[m] := disk[m][k := disk[m][k] - Pow2(b % 8)];
      logged := logged + {m};
      assert disk[..] == Unmark(sb, im.disk, b);
      if owner[b].Held? {
        owner := owner[b := Free];
        UnownedRaw(sb, im, Image(disk[..], ino), old(owner));
      }
      return true;
    }

    /** bmap for a direct block. */
    method MapDirect(i: nat, bn: nat) returns (ok: bool, addr: nat)
      requires Sound() && NoneHeld() && i < inodes.Length && bn < NDIRECT
      modifies disk, inodes, `owner, `logged
      ensures !ok ==> NoFree()
      ensures ok ==> Sound() && NoneHeld() && Mapped(i, bn, addr) && KeptFiles(old(Im()), Im(), i)
      ensures ok ==> OwnersKept(old(owner), owner)
      ensures ok ==> LoggedOnly(sb, old(logged), logged, {addr}) && Noted(old(disk[..]), disk[..], logged)
      ensures old(|inodes[i].addrs| > bn && inodes[i].addrs[bn] != 0) ==>
                ok && Im() == old(Im()) && owner == old(owner) && logged == old(logged)
    {
      hide FsInv, ImageOk, SameFiles;
      Shapes();
      ghost var im := Im();
      ok, addr := true, inodes[i].addrs[bn];
      if addr == 0 {
        ok, addr := Balloc();
        if ok {
          Shapes();
          ghost var im1, owner1 := Im(), owner;
          LinkDirect(sb, im1, owner1, i, bn, addr);
          DirectRaw(sb, im1, owner1, i, bn, addr);
          inodes[i] := inodes[i].(addrs := inodes[i].addrs[bn := addr]);
          owner := owner[addr := Data(i, bn)];
          assert Im() == im1.(inodes := im1.inodes[i := im1.inodes[i].(addrs := im1.inodes[i].addrs[bn := addr])]);
          SameTrans(sb, im, im1, Im());
        }
      } else {
        SameSelf(sb, im);
      }
      if ok { DirectMapped(i, bn); }
    }

    lemma DirectMapped(i: nat, bn: nat)
      requires Sound() && i < inodes.Length && bn < NDIRECT && |inodes[i].addrs| > bn && inodes[i].addrs[bn] != 0
      ensures Mapped(i, bn, inodes[i].addrs[bn])
    {
      Shapes();
      hide RefsOk, OwnedOk, Marked, AddrOf;
      OwnedAddr(sb, Im(), owner, i, bn);
      DirectAddr(disk[..], inodes[i], bn);
    }

    /** bmap's indirect block. */
    method MapIndirect(i: nat) returns (ok: bool, addr: nat)
      requires Sound() && NoneHeld() && i < inodes.Length
      modifies disk, inodes, `owner, `logged
      ensures !ok ==> NoFree()
      ensures ok ==> Sound() && NoneHeld() && 0 < addr < disk.Length && inodes[i].addrs[NDIRECT..] == [addr]
      ensures ok ==> KeptFiles(old(Im()), Im(), i)
      ensures ok ==> OwnersKept(old(owner), owner)
      ensures ok ==> LoggedOnly(sb, old(logged), logged, {addr}) && Noted(old(disk[..]), disk[..], logged)
      ensures old(|inodes[i].addrs| > NDIRECT && inodes[i].addrs[NDIRECT] != 0) ==>
                ok && Im() == old(Im()) && owner == old(owner) && logged == old(logged)
    {
      Shapes();
      hide RefsOk, OwnedOk, Marked, Relinked, SameFiles, AddrOf, Raw;
      ghost var im := Im();
      ok, addr := true, inodes[i].addrs[NDIRECT];
      if addr == 0 {
        ok, addr := Balloc();
        if ok {
          Shapes();
          ghost var im1, owner1 := Im(), owner;
          inodes[i] := inodes[i].(addrs := inodes[i].addrs[NDIRECT := addr]);
          owner := owner[addr := Indirect(i)];
          assert Im() == im1.(inodes := im1.inodes[i := im1.inodes[i].(addrs := im1.inodes[i].addrs[NDIRECT := addr])]);
          LinkIndirect(sb, im1, owner1, i, addr);
          LinkIndirectRaw(sb, im1, owner1, i, addr);
          SameTrans(sb, im, im1, Im());
        }
      } else {
        SameSelf(sb, im);
      }
    }

    /** Enter a new block in the indirect block. */
    method SetEntry(i: nat, k: nat, addr: nat)
      requires Sound() && i < inodes.Length && k < NINDIRECT && 0 < addr < |owner| && owner[addr].Held?
      requires Entry(i, k) == 0 && addr < disk.Length && disk[addr] == Zeros()
      requires inodes[i].addrs[NDIRECT..] != [0]
      modifies disk, `owner, `logged
      ensures Sound() && owner == old(owner)[addr := Data(i, NDIRECT + k)]
      ensures logged == old(logged) + {inodes[i].addrs[NDIRECT..][0]} && Noted(old(disk[..]), disk[..], logged)
      ensures ImageOk(sb, old(Im())) && SameFiles(sb, old(Im()), Im()) && Entry(i, k) == addr
    {
      Shapes();
      var x := inodes[i].addrs[NDIRECT];
      assert inodes[i].addrs[NDIRECT..] == [x];
      hide RefsOk, OwnedOk, Marked, Relinked, SameFiles, AddrOf, Raw, Word, SetWord;
      ghost var im := Im();
      OwnedAddr(sb, im, owner, i, NDIRECT + k);
      WordSet(disk[x], k, addr, k);
      disk[x] := SetWord(disk[x], k, addr);
      owner := owner[addr := Data(i, NDIRECT + k)];
      logged := logged + {x};
      assert Im() == im.(disk := im.disk[x := SetWord(im.disk[x], k, addr)]);
      EntryLinked(sb, im, old(owner), i, k, addr);
    }

    /** Entry k of file i's indirect block, if it has one. */
    ghost function Entry(i: nat, k: nat): nat
      reads this, disk, inodes
      requires Sound() && i < inodes.Length && k < NINDIRECT
    {
      Shapes();
      if inodes[i].addrs[NDIRECT] == 0 then 0 else Word(disk[inodes[i].addrs[NDIRECT]], k)
    }

    method NewEntry(i: nat, k: nat) returns (ok: bool, addr: nat)
      requires Sound() && NoneHeld() && i < inodes.Length && k < NINDIRECT && inodes[i].addrs[NDIRECT..] != [0]
      requires Entry(i, k) == 0
      modifies disk, `owner, `logged
      ensures !ok ==> NoFree()
      ensures ok ==> Sound() && NoneHeld() && addr != 0 && Entry(i, k) == addr && ImageOk(sb, old(Im()))
      ensures ok ==> SameFiles(sb, old(Im()), Im())
      ensures ok ==> OwnersKept(old(owner), owner)
      ensures ok ==> LoggedOnly(sb, old(logged), logged, {addr} + Ind(inodes[i]))
      ensures ok ==> old(Ind(inodes[i])) <= Ind(inodes[i]) && Noted(old(disk[..]), disk[..], logged)
    {
      Shapes();
      IndirectOwned(i);
      assert inodes[i].addrs[NDIRECT..] == [inodes[i].addrs[NDIRECT]];
      hide FsInv, ImageOk, SameFiles, Word;
      ghost var im := Im();
      ok, addr := Balloc();
      if ok {
        Shapes();
        ghost var im1 := Im();
        ghost var logged1 := logged;
        SetEntry(i, k, addr);
        Shapes();
        SameTrans(sb, im, im1, Im());
        NotedTrans(im.disk, im1.disk, disk[..], logged1, logged);
      }
    }

    /** bmap's entry k of the indirect block. */
    method MapEntry(i: nat, k: nat) returns (ok: bool, addr: nat)
      requires Sound() && NoneHeld() && i < inodes.Length && k < NINDIRECT && inodes[i].addrs[NDIRECT..] != [0]
      modifies disk, `owner, `logged
      ensures !ok ==> NoFree()
      ensures ok ==> Sound() && NoneHeld() && Mapped(i, NDIRECT + k, addr) && KeptFiles(old(Im()), Im(), i)
      ensures ok ==> OwnersKept(old(owner), owner)
      ensures ok ==> LoggedOnly(sb, old(logged), logged, {addr} + Ind(inodes[i]))
      ensures ok ==> old(Ind(inodes[i])) <= Ind(inodes[i]) && Noted(old(disk[..]), disk[..], logged)
      ensures old(Entry(i, k)) != 0 ==> ok && Im() == old(Im()) && owner == old(owner) && logged == old(logged)
    {
      Shapes();
      var x := inodes[i].addrs[NDIRECT];
      assert inodes[i].addrs[NDIRECT..] == [x];
      hide FsInv, ImageOk, SameFiles, AddrOf, Word;
      ok, addr := true, Word(disk[x], k);
      if addr == 0 {
        ok, addr := NewEntry(i, k);
      } else {
        SameSelf(sb, Im());
      }
      if ok {
        Shapes();
        EntryOwned(i, k);
      }
    }

    lemma IndirectOwned(i: nat)
      requires Sound() && i < inodes.Length
      ensures var x := inodes[i].addrs[NDIRECT..];
              |x| == 1 && x[0] < |owner| && (x[0] != 0 ==> x[0] >= sb.nmeta && owner[x[0]] == Indirect(i))
    {
      Shapes();
      var x := inodes[i].addrs[NDIRECT];
      OwnedAddr(sb, Im(), owner, i, 0);
      if x != 0 { NotMeta(sb, Im(), owner, x); }
    }

    lemma EntryOwned(i: nat, k: nat)
      requires Sound() && i < inodes.Length && k < NINDIRECT && Entry(i, k) != 0
      ensures Mapped(i, NDIRECT + k, Entry(i, k))
    {
      Shapes();
      hide RefsOk, OwnedOk, Marked, Word;
      OwnedAddr(sb, Im(), owner, i, NDIRECT + k);
      EntryAddr(disk[..], inodes[i], NDIRECT + k);
    }

    /** The block that holds block bn of file i, allocated if there is none. */
    method Bmap(i: nat, bn: nat) returns (ok: bool, addr: nat)
      requires Sound() && NoneHeld() && i < inodes.Length
      modifies disk, inodes, `owner, `logged
      ensures !ok ==> bn >= MAXFILE || NoFree()
      ensures ok ==> bn < MAXFILE && Sound() && NoneHeld() && Mapped(i, bn, addr) && KeptFiles(old(Im()), Im(), i)
      ensures ok ==> OwnersKept(old(owner), owner) && KeptAddrs(sb, old(Im()), Im())
      ensures ok ==> LoggedOnly(sb, old(logged), logged, {addr} + Ind(inodes[i]))
      ensures ok ==> old(Ind(inodes[i])) <= Ind(inodes[i]) && Noted(old(disk[..]), disk[..], logged)
      ensures bn < MAXFILE && old(HasBlock(i, bn)) ==> ok && Im() == old(Im()) && owner == old(owner)
      ensures bn < MAXFILE && old(HasBlock(i, bn)) ==> logged == old(logged)
    {
      hide FsInv, SameFiles;
      Shapes();
      if bn < NDIRECT {
        ok, addr := MapDirect(i, bn);
      } else if bn < MAXFILE {
        ghost var im := Im();
        ok, addr := MapIndirect(i);
        if ok {
          ghost var im1, logged1 := Im(), logged;
          assert inodes[i].addrs[NDIRECT..][0] != 0;
          Shapes();
          ok, addr := MapEntry(i, bn - NDIRECT);
          if ok {
            SameTrans(sb, im, im1, Im());
            NotedTrans(im.disk, im1.disk, disk[..], logged1, logged);
          }
        }
      } else {
        return false, 0;
      }
      if ok {
        Shapes();
        AddrsKept(sb, old(Im()), Im(), old(owner), owner);
      }
    }

    /** iupdate. */
    method Iupdate(i: nat)
      requires i < inodes.Length == dinodes.Length && dinodes != inodes
      modifies dinodes, `logged
      ensures dinodes[..] == old(dinodes[..])[i := inodes[i]] && logged == old(logged) + {IBlock(sb, i)}
    {
      dinodes[i] := inodes[i];
      logged := logged + {IBlock(sb, i)};
    }

    /** itrunc frees the file's blocks, exactly those, and never a free one. */
    method Itrunc(i: nat)
      requires Valid() && i < inodes.Length
      modifies disk, inodes, dinodes, `owner, `logged
      ensures Valid() && inodes[..] == old(inodes[..])[i := Empty()]
      ensures owner == Released(old(owner), i)
      ensures Noted(old(disk[..]), disk[..], logged) && IBlock(sb, i) in logged
      ensures LoggedOnly(sb, old(logged), logged, {IBlock(sb, i)})
      ensures ImageOk(sb, old(Im()))
      ensures forall j :: 0 <= j < inodes.Length && j != i ==> Contents(sb, Im(), j) == Contents(sb, old(Im()), j)
    {
      ghost var im, owner0 := Im(), owner;
      ghost var ino := im.inodes[i := Empty()];
      TruncStart(i);
      owner := Freeing(owner0, i, 0);
      TruncDirect(i, im, owner0);
      TruncIndirect(i, im, owner0);
      inodes[i] := inodes[i].(size := 0);
      assert inodes[i] == Empty() by { assert inodes[i].addrs == Empty().addrs; }
      assert inodes[..] == ino;
      Iupdate(i);
      TruncEnd(sb, im, Im(), owner0, i);
      WholeTruncated(sb, im, Im(), owner0, i);
    }

    lemma TruncStart(i: nat)
      requires Sound() && i < inodes.Length
      ensures FsInv(sb, Image(disk[..], inodes[..][i := Empty()]), Freeing(owner, i, 0))
    {
      DetachInv(sb, Im(), owner, i);
      assert Freeing(owner, i, 0) == Detached(owner, i);
    }

    /** itrunc in progress: the file is as good as empty, and its blocks below k are free. */
    ghost predicate Truncating(i: nat, im: Image, owner0: seq<Owner>, k: nat)
      reads this, disk
    {
      && FsInv(sb, im, owner0) && i < |im.inodes| && k <= MAXFILE && disk.Length == sb.size
      && FsInv(sb, Image(disk[..], im.inodes[i := Empty()]), owner) && owner == Freeing(owner0, i, k)
      && (forall c :: sb.nmeta <= c < sb.size ==> disk[c] == im.disk[c]) && Noted(im.disk, disk[..], logged)
    }

    method FreeOne(i: nat, ghost im: Image, ghost owner0: seq<Owner>, k: nat, addr: nat)
      requires Truncating(i, im, owner0, k) && k < MAXFILE && addr == AddrOf(im.disk, im.inodes[i], k)
      modifies disk, `owner, `logged
      ensures Truncating(i, im, owner0, k + 1) && LoggedOnly(sb, old(logged), logged, {})
    {
      hide RefsOk, OwnedOk, Marked, AddrOf;
      OwnedAddr(sb, im, owner0, i, k);
      FreeingNext(sb, im, owner0, i, k);
      if addr != 0 {
        var ok := Bfree(addr, im.inodes[i := Empty()]);
      }
    }

    method TruncDirect(i: nat, ghost im: Image, ghost owner0: seq<Owner>)
      requires Truncating(i, im, owner0, 0) && inodes.Length == |im.inodes| && inodes[..] == im.inodes
      modifies disk, inodes, `owner, `logged
      ensures Truncating(i, im, owner0, NDIRECT) && |inodes[i].addrs| == NDIRECT + 1
      ensures LoggedOnly(sb, old(logged), logged, {})
      ensures forall k :: 0 <= k < NDIRECT ==> inodes[i].addrs[k] == 0
      ensures inodes[i].addrs[NDIRECT] == im.inodes[i].addrs[NDIRECT]
      ensures forall j :: 0 <= j < inodes.Length && j != i ==> inodes[j] == im.inodes[j]
    {
      hide Freeing, AddrOf, RefsOk, OwnedOk, Marked;
      assert InodeOk(sb, im.inodes[i]);
      var k := 0;
      while k < NDIRECT
        invariant 0 <= k <= NDIRECT && Truncating(i, im, owner0, k) && |inodes[i].addrs| == NDIRECT + 1
        invariant LoggedOnly(sb, old(logged), logged, {})
        invariant forall m :: 0 <= m <= NDIRECT ==> inodes[i].addrs[m] == if m < k then 0 else im.inodes[i].addrs[m]
        invariant forall j :: 0 <= j < inodes.Length && j != i ==> inodes[j] == im.inodes[j]
      {
        DirectAddr(im.disk, im.inodes[i], k);
        FreeOne(i, im, owner0, k, inodes[i].addrs[k]);
        inodes[i] := inodes[i].(addrs := inodes[i].addrs[k := 0]);
        k := k + 1;
      }
    }

    method FreeEntries(i: nat, ghost im: Image, ghost owner0: seq<Owner>, x: nat)
      requires Truncating(i, im, owner0, NDIRECT) && x == im.inodes[i].addrs[NDIRECT] != 0
      modifies disk, `owner, `logged
      ensures Truncating(i, im, owner0, MAXFILE) && LoggedOnly(sb, old(logged), logged, {})
    {
      hide RefsOk, OwnedOk, Marked, AddrOf, Word, Freeing;
      assert InodeOk(sb, im.inodes[i]);
      OwnedAddr(sb, im, owner0, i, 0);
      NotMeta(sb, im, owner0, x);
      var a := disk[x];
      assert |a| == BSIZE by { assert |im.disk[x]| == BSIZE; }
      var j := 0;
      while j < NINDIRECT
        invariant 0 <= j <= NINDIRECT && Truncating(i, im, owner0, NDIRECT + j)
        invariant LoggedOnly(sb, old(logged), logged, {})
      {
        EntryAddr(im.disk, im.inodes[i], NDIRECT + j);
        FreeOne(i, im, owner0, NDIRECT + j, Word(a, j));
        j := j + 1;
      }
    }

    method TruncIndirect(i: nat, ghost im: Image, ghost owner0: seq<Owner>)
      requires Truncating(i, im, owner0, NDIRECT) && i < inodes.Length && |inodes[i].addrs| == NDIRECT + 1
      requires inodes[i].addrs[NDIRECT] == im.inodes[i].addrs[NDIRECT]
      modifies disk, inodes, `owner, `logged
      ensures FsInv(sb, Image(disk[..], im.inodes[i := Empty()]), owner) && owner == Released(owner0, i)
      ensures |im.disk| == disk.Length == sb.size && forall c :: sb.nmeta <= c < sb.size ==> disk[c] == im.disk[c]
      ensures inodes[..] == old(inodes[..])[i := old(inodes[i]).(addrs := old(inodes[i]).addrs[NDIRECT := 0])]
      ensures LoggedOnly(sb, old(logged), logged, {}) && Noted(im.disk, disk[..], logged)
    {
      hide RefsOk, OwnedOk, Marked, AddrOf, Word, Freeing, Released;
      assert InodeOk(sb, im.inodes[i]);
      var x := inodes[i].addrs[NDIRECT];
      if x == 0 {
        ReleasedNone(sb, im, owner0, i);
        assert inodes[i].addrs == inodes[i].addrs[NDIRECT := 0];
        assert inodes[..] == old(inodes[..])[i := old(inodes[i]).(addrs := old(inodes[i]).addrs[NDIRECT := 0])];
        return;
      }
      FreeEntries(i, im, owner0, x);
      ReleasedAll(sb, im, owner0, i, x);
      var ok := Bfree(x, im.inodes[i := Empty()]);
      inodes[i] := inodes[i].(addrs := inodes[i].addrs[NDIRECT := 0]);
    }

    /** Copy into a mapped block. */
    method PatchBlock(i: nat, pos: nat, bytes: seq<byte>, addr: nat, log: bool)
      requires Sound() && i < inodes.Length && pos < MAXFILE * BSIZE && pos % BSIZE + |bytes| <= BSIZE
      requires Mapped(i, pos / BSIZE, addr)
      modifies disk, `logged
      ensures Sound() && ImageOk(sb, old(Im())) && Shaped() && Written(sb, old(Im()), Im(), i, pos, bytes)
      ensures logged == if log then old(logged) + {addr} else old(logged)
      ensures Noted(old(disk[..]), disk[..], {addr})
    {
      Shapes();
      ghost var im := Im();
      hide RefsOk, OwnedOk, Marked, Raw, AddrOf, Written;
      BlockWritten(sb, im, owner, i, pos, bytes);
      disk[addr] := Patch(disk[addr], pos % BSIZE, bytes);
      if log { logged := logged + {addr}; }
      assert Im() == im.(disk := im.disk[addr := Patch(im.disk[addr], pos % BSIZE, bytes)]);
    }

    /** One turn of writei's loop: map the block and copy into it; a copy cut short is not logged. */
    method WriteChunk(i: nat, pos: nat, bytes: seq<byte>, log: bool) returns (ok: bool, addr: nat)
      requires Sound() && NoneHeld() && i < inodes.Length && pos < MAXFILE * BSIZE && pos % BSIZE + |bytes| <= BSIZE
      modifies disk, inodes, `owner, `logged
      ensures !ok ==> NoFree()
      ensures ok ==> Sound() && NoneHeld() && ImageOk(sb, old(Im())) && Written(sb, old(Im()), Im(), i, pos, bytes)
      ensures ok ==> OwnersKept(old(owner), owner) && Data(i, pos / BSIZE) in owner
      ensures ok ==> LoggedOnly(sb, old(logged), logged, {addr} + Ind(inodes[i]))
      ensures ok ==> old(Ind(inodes[i])) <= Ind(inodes[i])
      ensures ok ==> addr < disk.Length == |owner| && owner[addr] == Data(i, pos / BSIZE)
      ensures ok ==> Noted(old(disk[..]), disk[..], if log then logged else logged + {addr})
    {
      hide FsInv, Raw, AddrOf, ImageOk, Written, SameFiles, Mapped, LoggedOnly, Ind, OwnersKept, KeptAddrs, KeptFiles;
      ghost var im := Im();
      ok, addr := Bmap(i, pos / BSIZE);
      if ok {
        MappedOwned(i, pos / BSIZE, addr);
        ghost var im1 := Im();
        KeptWritten(im, im1, i, pos);
        LoggedToo(sb, old(logged), logged, {addr} + Ind(inodes[i]), addr);
        PatchBlock(i, pos, bytes, addr, log);
        WrittenMore(sb, im, im1, Im(), i, pos, [], bytes);
        assert [] + bytes == bytes;
      }
    }

    lemma KeptWritten(im: Image, im': Image, i: nat, pos: nat)
      requires KeptFiles(im, im', i) && i < |im.inodes|
      ensures ImageOk(sb, im) && ImageOk(sb, im') && |im'.inodes| == |im.inodes| && Written(sb, im, im', i, pos, [])
    {
      hide Raw, AddrOf;
      SameWritten(sb, im, im', i, pos);
    }

    lemma MappedOwned(i: nat, bn: nat, addr: nat)
      requires Sound() && i < inodes.Length && bn < MAXFILE && Mapped(i, bn, addr)
      ensures Data(i, bn) in owner && addr < disk.Length == |owner| && owner[addr] == Data(i, bn)
    {
      assert owner[addr] == Data(i, bn);
    }

    /** writei's loop. The caller's memory yields the bytes of src and no more; a copy that runs out
        has still moved up to `torn` bytes into the block. E is the set of file blocks written. */
    method WriteLoop(i: nat, src: seq<byte>, off: nat, n: nat, torn: nat)
      returns (ok: bool, tot: nat, ghost t: nat, ghost E: set<nat>)
      requires Sound() && NoneHeld() && i < inodes.Length && off + n <= MAXFILE * BSIZE
      modifies disk, inodes, `owner, `logged
      ensures !ok ==> NoFree()
      ensures ok ==> tot <= n && tot + t <= |src| && t < BSIZE && (tot == n <==> n <= |src|) && (tot == n ==> t == 0)
      ensures ok ==> off + tot + t <= MAXFILE * BSIZE
      ensures ok ==> Sound() && NoneHeld() && ImageOk(sb, old(Im()))
      ensures ok ==> Written(sb, old(Im()), Im(), i, off, src[..tot + t])
      ensures ok ==> OwnersKept(old(owner), owner) && Covered(owner, i, off, off + tot)
      ensures ok ==> LoggedOnly(sb, old(logged), logged, E + Ind(inodes[i])) && |E| * BSIZE < off % BSIZE + n + BSIZE
      ensures ok && tot == n ==> Noted(old(disk[..]), disk[..], logged)
      ensures ok ==> NotedBut(old(disk[..]), disk[..], logged, owner, Data(i, (off + tot) / BSIZE))
    {
      hide FsInv, ImageOk, Written, LoggedOnly, Ind, OwnersKept, Covered, Counted, Noted, NotedBut;
      CoveredStart(owner, i, off);
      ghost var im := Im();
      Shapes();
      ok, tot, t, E := true, 0, 0, {};
      WriteStart(sb, im, i, off, src, logged, Ind(inodes[i]));
      ghost var c := 0;
      CountStart(off, n);
      NotedSelf(disk[..], logged);
      while tot < n
        invariant ok && tot <= n && tot <= |src| && t == 0 && Writing(im, i, off, src[..tot], old(logged), E)
        invariant OwnersKept(old(owner), owner) && Covered(owner, i, off, off + tot)
        invariant Counted(E, c, off, tot, n) && Noted(im.disk, disk[..], logged)
      {
        var pos := off + tot;
        var m := Min(n - tot, BSIZE - pos % BSIZE);
        ghost var im1, logged1, ind1, owner1 := Im(), logged, Ind(inodes[i]), owner;
        var addr;
        var k := if tot + m <= |src| then m else Min(torn, |src| - tot);
        ok, addr := WriteChunk(i, pos, src[tot..tot + k], tot + m <= |src|);
        if !ok { return; }
        Shapes();
        WriteNext(im, im1, i, off, src, tot, k, old(logged), logged1, ind1, E, addr);
        CountNext(E, c, off, tot, n, m, addr);
        CoveredNext(old(owner), owner1, owner, i, off, pos, pos + m);
        LoggedGrows(sb, logged1, logged, {addr} + Ind(inodes[i]));
        E, c := E + {addr}, c + 1;
        if tot + m > |src| {
          t := k;
          NotedTorn(im.disk, im1.disk, disk[..], logged1, logged, owner, addr);
          return;
        }
        NotedTrans(im.disk, im1.disk, disk[..], logged1, logged);
        tot := tot + m;
      }
      CountEnd(E, c, off, tot, n);
      Shapes();
      NotedMore(im.disk, disk[..], logged, owner, Data(i, (off + tot) / BSIZE), 0);
    }

    /** Where writei's loop stands. */
    ghost predicate Writing(im: Image, i: nat, off: nat, bytes: seq<byte>, before: set<nat>, E: set<nat>)
      reads this, disk, inodes
    {
      && Sound() && NoneHeld() && ImageOk(sb, im) && i < |im.inodes| == inodes.Length
      && Shaped() && Written(sb, im, Im(), i, off, bytes) && LoggedOnly(sb, before, logged, E + Ind(inodes[i]))
    }

    ghost predicate Shaped()
      reads this, disk, inodes
    { ImageOk(sb, Im()) }

    lemma WriteNext(im: Image, im1: Image, i: nat, off: nat, src: seq<byte>, tot: nat, k: nat,
                    before: set<nat>, logged1: set<nat>, ind1: set<nat>, E: set<nat>, addr: nat)
      requires tot + k <= |src| && Sound() && NoneHeld() && ImageOk(sb, im) && ImageOk(sb, im1)
      requires i < |im.inodes| == inodes.Length && |im1.inodes| == inodes.Length
      requires Written(sb, im, im1, i, off, src[..tot]) && LoggedOnly(sb, before, logged1, E + ind1)
      requires ind1 <= Ind(inodes[i])
      requires Shaped() && Written(sb, im1, Im(), i, off + tot, src[tot..tot + k])
      requires LoggedOnly(sb, logged1, logged, {addr} + Ind(inodes[i]))
      ensures Writing(im, i, off, src[..tot + k], before, E + {addr})
    {
      hide Written, FsInv, ImageOk, Ind;
      WrittenMore(sb, im, im1, Im(), i, off, src[..tot], src[tot..tot + k]);
      assert src[..tot] + src[tot..tot + k] == src[..tot + k];
    }

    /** Write n bytes of the caller's memory at off: false is a panic for lack of blocks, -1 an error. */
    method Writei(i: nat, src: seq<byte>, off: nat, n: nat, torn: nat) returns (ok: bool, r: int, ghost E: set<nat>)
      requires Valid() && i < inodes.Length && off < WORD_LIMIT && n < WORD_LIMIT
      modifies disk, inodes, dinodes, `owner, `logged
      ensures !ok ==> NoFree()
      ensures old(off > inodes[i].size) || off + n > MAXFILE * BSIZE ==>
        && ok && r == -1 && Im() == old(Im()) && dinodes[..] == old(dinodes[..]) && owner == old(owner)
        && logged == old(logged)
      ensures ok && old(off <= inodes[i].size) && off + n <= MAXFILE * BSIZE ==>
        && Valid() && 0 <= r <= n && (r == n <==> n <= |src|) && ImageOk(sb, old(Im()))
        && Result(old(Im()), i, off, src, r, n)
        && LoggedOnly(sb, old(logged), logged, E + Ind(inodes[i]) + {IBlock(sb, i)})
        && |E| * BSIZE < off % BSIZE + n + BSIZE && IBlock(sb, i) in logged
        && (r == n ==> Noted(old(disk[..]), disk[..], logged))
        && NotedBut(old(disk[..]), disk[..], logged, owner, Data(i, (off + r) / BSIZE))
      ensures ok ==> forall j :: 0 <= j < dinodes.Length && j != i ==> dinodes[j] == old(dinodes[j])
    {
      hide FsInv, ImageOk, Written, LoggedOnly, Ind, Contents, Splice, Whole, OwnersKept, Covered, Noted, NotedBut;
      Shapes();
      E := {};
      if off > inodes[i].size || off + n >= WORD_LIMIT { return true, -1, {}; }
      if off + n > MAXFILE * BSIZE { return true, -1, {}; }
      ghost var im := Im();
      var tot; ghost var t;
      ok, tot, t, E := WriteLoop(i, src, off, n, torn);
      if !ok { return ok, 0, E; }
      ghost var im1 := Im();
      Shapes();
      assert && im1.inodes[i].size == im.inodes[i].size
             && (forall j :: 0 <= j < inodes.Length && j != i ==> inodes[j] == im.inodes[j]) by {
        WrittenInodes(sb, im, im1, i, off, src[..tot + t]);
      }
      WrittenContents(sb, im, im1, i, off, src[..tot + t], tot);
      ResizeInv(sb, im1, owner, i, Max(im.inodes[i].size, off + tot));
      if off + tot > inodes[i].size {
        inodes[i] := inodes[i].(size := off + tot);
      }
      assert Im() == im1.(inodes := im1.inodes[i := im1.inodes[i].(size := Max(im.inodes[i].size, off + tot))]);
      WholeWritten(sb, im, Im(), old(owner), owner, i, off, off + tot);
      IndSame(im1.inodes[i], inodes[i]);
      LoggedWith(sb, old(logged), logged, E + Ind(inodes[i]), IBlock(sb, i));
      NotedMore(im.disk, disk[..], logged, owner, Data(i, (off + tot) / BSIZE), IBlock(sb, i));
      Iupdate(i);
      assert dinodes[..] == inodes[..];
      assert AfterWrite(Contents(sb, im, i), off, src, tot, n, t, Contents(sb, Im(), i)) by { ContentsSize(sb, im, i); }
      r := tot;
    }

    /** What a write that stopped after r bytes leaves: those r bytes in place, perhaps some more of a
        block it could not finish, every other file alone. */
    ghost predicate Result(im: Image, i: nat, off: nat, src: seq<byte>, r: int, n: nat)
      reads this, disk, inodes
      requires ImageOk(sb, im)
    {
      && Shaped() && i < |im.inodes| == inodes.Length && 0 <= r <= n && off <= im.inodes[i].size
      && (exists t: nat :: AfterWrite(Contents(sb, im, i), off, src, r, n, t, Contents(sb, Im(), i)))
      && (forall j :: 0 <= j < inodes.Length && j != i ==> Contents(sb, Im(), j) == Contents(sb, im, j))
    }

    /** Read n bytes at off into memory with room for `room`: false is a panic for lack of blocks,
        which only a file with holes can meet. */
    method Readi(i: nat, off: nat, n: nat, room: nat) returns (ok: bool, r: int, out: seq<byte>)
      requires Sound() && NoneHeld() && i < inodes.Length && off < WORD_LIMIT && n < WORD_LIMIT
      modifies disk, inodes, `owner, `logged
      ensures ImageOk(sb, old(Im())) && (!ok ==> NoFree() && !NoHoles(sb, old(Im()), i))
      ensures ok ==> Sound() && NoneHeld() && ImageOk(sb, old(Im())) && Shaped() && SameFiles(sb, old(Im()), Im())
      ensures NoHoles(sb, old(Im()), i) ==> Im() == old(Im()) && owner == old(owner) && logged == old(logged)
      ensures ok ==> Noted(old(disk[..]), disk[..], logged)
      ensures old(Valid()) ==> ok && Valid() && Im() == old(Im()) && owner == old(owner) && logged == old(logged)
      ensures ok && (old(off > inodes[i].size) || off + n >= WORD_LIMIT) ==> r == 0 && out == []
      ensures ok && old(off <= inodes[i].size) && off + n < WORD_LIMIT ==>
        var want := Min(n, old(inodes[i].size) - off);
        && (r == -1 <==> want > room)
        && (r != -1 ==>
              && r == want && |Contents(sb, old(Im()), i)| == old(inodes[i].size)
              && out == Contents(sb, old(Im()), i)[off..off + want])
    {
      hide FsInv, ImageOk, SameFiles, Contents, AddrOf, NoHoles, OwnersKept, KeptAddrs, Noted, LoggedOnly, Ind;
      Shapes();
      ghost var im := Im();
      SameSelf(sb, im);
      NotedSelf(disk[..], logged);
      assert old(Valid()) ==> NoHoles(sb, im, i);
      ok, r, out := true, 0, [];
      if off > inodes[i].size || off + n >= WORD_LIMIT { return; }
      var want := if off + n > inodes[i].size then inodes[i].size - off else n;
      ContentsSize(sb, im, i);
      var tot := 0;
      while tot < want
        invariant tot <= want && tot <= room && Reading(im, i, off, tot, out) && want <= im.inodes[i].size - off
        invariant NoHoles(sb, im, i) ==> Im() == im && owner == old(owner) && logged == old(logged)
        invariant Noted(im.disk, disk[..], logged)
      {
        var pos := off + tot;
        assert NoHoles(sb, im, i) ==>
          pos / BSIZE < MAXFILE && HasBlock(i, pos / BSIZE) by { if NoHoles(sb, im, i) { HoleFree(sb, im, i, pos); } }
        ghost var im1, logged1 := Im(), logged;
        var addr;
        ok, addr := Bmap(i, pos / BSIZE);
        if !ok { return; }
        Shapes();
        LoggedGrows(sb, logged1, logged, {addr} + Ind(inodes[i]));
        NotedTrans(im.disk, im1.disk, disk[..], logged1, logged);
        var m := Min(want - tot, BSIZE - pos % BSIZE);
        if tot + m > room { SameTrans(sb, im, im1, Im()); return true, -1, out; }
        ReadNext(im, im1, i, off, tot, m, addr, out);
        out := out + disk[addr][pos % BSIZE..pos % BSIZE + m];
        tot := tot + m;
      }
      r := tot;
    }

    ghost predicate Reading(im: Image, i: nat, off: nat, tot: nat, out: seq<byte>)
      reads this, disk, inodes
    {
      && Sound() && NoneHeld() && ImageOk(sb, im) && Shaped() && SameFiles(sb, im, Im())
      && i < |im.inodes| == inodes.Length
      && off + tot <= |Contents(sb, im, i)| && out == Contents(sb, im, i)[off..off + tot]
    }

    lemma ReadNext(im: Image, im1: Image, i: nat, off: nat, tot: nat, m: nat, addr: nat, out: seq<byte>)
      requires Sound() && NoneHeld() && ImageOk(sb, im) && ImageOk(sb, im1) && SameFiles(sb, im, im1)
      requires i < |im.inodes| == inodes.Length
      requires KeptFiles(im1, Im(), i) && (off + tot) / BSIZE < MAXFILE && Mapped(i, (off + tot) / BSIZE, addr)
      requires off + tot + m <= im.inodes[i].size && (off + tot) % BSIZE + m <= BSIZE
      requires |Contents(sb, im, i)| == im.inodes[i].size && out == Contents(sb, im, i)[off..off + tot]
      ensures addr < disk.Length && |disk[addr]| == BSIZE
      ensures Reading(im, i, off, tot + m, out + disk[addr][(off + tot) % BSIZE..(off + tot) % BSIZE + m])
    {
      hide FsInv, Contents;
      Shapes();
      SameTrans(sb, im, im1, Im());
      var pos := off + tot;
      var bytes := disk[addr][pos % BSIZE..pos % BSIZE + m];
      assert Contents(sb, im, i)[pos..pos + m] == bytes by {
        assert InodeOk(sb, im.inodes[i]);
        forall k | 0 <= k < m ensures Contents(sb, im, i)[pos + k] == bytes[k] {
          ContentsAt(sb, im, i, pos + k);
          assert (pos + k) / BSIZE == pos / BSIZE && (pos + k) % BSIZE == pos % BSIZE + k;
          assert Raw(im.disk, im.inodes[i], pos + k) == Raw(Im().disk, Im().inodes[i], pos + k);
        }
      }
      assert Contents(sb, im, i)[off..off + tot + m] ==
               Contents(sb, im, i)[off..pos] + Contents(sb, im, i)[pos..pos + m];
    }

    ghost method BeginOp()
      modifies `logged
      ensures logged == {}
    { logged := {}; }

    ghost method EndOp()
      modifies `ops
      ensures ops == old(ops) + [logged]
    { ops := ops + [logged]; }

    /** One chunk of filewrite: a writei between begin_op and end_op. */
    method WriteOp(i: nat, src: seq<byte>, off: nat, n: nat, torn: nat) returns (ok: bool, r: int)
      requires Valid() && i < inodes.Length && off < WORD_LIMIT && n <= 3 * BSIZE
      modifies disk, inodes, dinodes, `owner, `logged, `ops
      ensures !ok ==> NoFree() && ops == old(ops)
      ensures ok ==> Valid() && Shaped() && ImageOk(sb, old(Im())) && ops == old(ops) + [logged]
      ensures ok ==> (sb.size <= BPB ==> |logged| <= 7)
      ensures ok && (old(off > inodes[i].size) || off + n > MAXFILE * BSIZE) ==> r == -1 && Im() == old(Im())
      ensures ok && old(off <= inodes[i].size) && off + n <= MAXFILE * BSIZE ==>
        && 0 <= r <= n && (r == n <==> n <= |src|) && Result(old(Im()), i, off, src, r, n)
        && (r == n ==> Noted(old(disk[..]), disk[..], logged))
        && NotedBut(old(disk[..]), disk[..], logged, owner, Data(i, (off + r) / BSIZE))
      ensures ok ==> forall j :: 0 <= j < dinodes.Length && dinodes[j] != old(dinodes[j]) ==> IBlock(sb, j) in logged
    {
      hide FsInv, ImageOk, Contents, LoggedOnly, Ind, IsBitmap, Noted, NotedBut, IBlock;
      Shapes();
      BeginOp();
      ghost var E;
      ok, r, E := Writei(i, src, off, n, torn);
      if !ok { return; }
      Shapes();
      if r != -1 && sb.size <= BPB { FewLogged(sb, {}, logged, E, inodes[i], IBlock(sb, i), off, n); }
      EndOp();
    }

    /** The inode case of filewrite: chunks of at most three blocks' bytes, each its own operation,
        which logs at most seven blocks if one block holds the bitmap. */
    method Filewrite(i: nat, src: seq<byte>, foff: nat, n: int, torn: nat) returns (ok: bool, ret: int, off: nat)
      requires Valid() && i < inodes.Length && foff < WORD_LIMIT && n < 0x8000_0000
      modifies disk, inodes, dinodes, `owner, `logged, `ops
      ensures !ok ==> NoFree()
      ensures ok ==> Valid() && ImageOk(sb, old(Im())) && Shaped()
      ensures ok && ret == n && n > 0 ==>
        && off == foff + n && n <= |src| && foff <= |Contents(sb, old(Im()), i)|
        && Contents(sb, Im(), i) == Splice(Contents(sb, old(Im()), i), foff, src[..n])
        && |ops| == |old(ops)| + Chunks(n)
      ensures ok ==>
                forall j :: 0 <= j < inodes.Length && j != i ==> Contents(sb, Im(), j) == Contents(sb, old(Im()), j)
      ensures ok ==> (ret == n || ret == -1)
      ensures ok && n > 0 ==> (ret == -1 <==> n > |src| || foff + n > MAXFILE * BSIZE || old(foff > inodes[i].size))
      ensures ok && n <= 0 ==> ret == (if n == 0 then 0 else -1) && off == foff && Im() == old(Im()) && ops == old(ops)
      ensures sb.size <= BPB ==> SmallOps(old(ops), ops)
      ensures ok && ret == n ==> NotedIn(old(disk[..]), disk[..], ops, |old(ops)|)
      ensures ok ==> NotedInBut(old(disk[..]), disk[..], ops, |old(ops)|, owner, Data(i, off / BSIZE))
      ensures ok ==> InodesIn(sb, old(dinodes[..]), dinodes[..], ops, |old(ops)|)
    {
      hide FsInv, ImageOk, Contents, Result, Splice, Valid, Filing, Others, Shaped, SmallOps, Chunks, Noted, NotedBut,
          NotedIn, NotedInBut, InodesIn, IBlock;
      ghost var im := Im();
      FilingStart(i, foff, src);
      SmallStart(ops);
      NotedInStart(disk[..], sb, dinodes[..], ops);
      ghost var c := dinodes[..];
      ok, ret, off := true, -1, foff;
      var max := (LogMachine.MAXOPBLOCKS - 1 - 1 - 2) / 2 * BSIZE;
      var k := 0;
      while k < n
        invariant 0 <= k <= |src| && (k <= n || k == 0) && off == foff + k && ok
        invariant (n <= 0 ==> Im() == im && ops == old(ops))
        invariant foff <= im.inodes[i].size ==> Filing(im, i, foff, src, k) && foff + k <= MAXFILE * BSIZE
        invariant foff > im.inodes[i].size ==> k == 0 && Valid() && Shaped() && Im() == im
        invariant sb.size <= BPB ==> SmallOps(old(ops), ops)
        invariant |ops| - |old(ops)| == Chunks(k) && (k < n ==> k % max == 0)
        invariant NotedIn(im.disk, disk[..], ops, |old(ops)|) && InodesIn(sb, c, dinodes[..], ops, |old(ops)|)
        decreases n - k
      {
        var n1 := n - k;
        if n1 > max { n1 := max; }
        ghost var im1 := Im();
        if foff <= im.inodes[i].size {
          FilingRoom(im, i, foff, src, k);
          FilingParts(im, i, foff, src, k);
        }
        ghost var ops1, c1 := ops, dinodes[..];
        var r;
        ok, r := WriteOp(i, src[k..], off, n1, torn);
        if !ok { return false, -1, off; }
        if sb.size <= BPB { SmallNext(old(ops), ops1, logged); }
        ChunkNext(k, n1, n);
        if r != -1 { FilingNext(im, im1, i, foff, src, k, r, n1); }
        if r > 0 { off := off + r; }
        NotedInMore(im.disk, im1.disk, disk[..], ops1, |old(ops)|, logged, owner, Data(i, off / BSIZE));
        InodesInMore(sb, c, c1, dinodes[..], ops1, |old(ops)|, logged);
        if r == -1 { NotedInAll(im.disk, |old(ops)|, Data(i, off / BSIZE)); }
        if r != n1 { return true, -1, off; }
        k := k + r;
      }
      if foff <= im.inodes[i].size { FilingParts(im, i, foff, src, k); }
      NotedInAll(im.disk, |old(ops)|, Data(i, off / BSIZE));
      ret := if k == n then n else -1;
    }

    lemma NotedInAll(d: seq<seq<byte>>, from: nat, spare: Owner)
      requires Valid() && NotedIn(d, disk[..], ops, from)
      ensures NotedInBut(d, disk[..], ops, from, owner, spare)
    {
      hide FsInv, InSome;
      Shapes();
    }

    lemma FilingStart(i: nat, foff: nat, src: seq<byte>)
      requires Valid() && i < inodes.Length
      ensures ImageOk(sb, Im()) && Shaped() && inodes[i].size <= MAXFILE * BSIZE
      ensures foff <= inodes[i].size ==> Filing(Im(), i, foff, src, 0)
    {
      hide FsInv, ImageOk, Contents;
      Shapes();
      ContentsSize(sb, Im(), i);
      if foff <= inodes[i].size { SpliceNone(Contents(sb, Im(), i), foff, src); }
    }

    lemma FilingRoom(im: Image, i: nat, foff: nat, src: seq<byte>, k: nat)
      requires Filing(im, i, foff, src, k)
      ensures Valid() && Shaped() && ImageOk(sb, Im()) && i < inodes.Length
      ensures foff + k <= inodes[i].size <= MAXFILE * BSIZE
    {
      hide FsInv, ImageOk, Contents;
      Shapes();
      ContentsSize(sb, Im(), i);
      SpliceSize(Contents(sb, im, i), foff, src[..k]);
    }

    lemma FilingParts(im: Image, i: nat, foff: nat, src: seq<byte>, k: nat)
      requires Filing(im, i, foff, src, k)
      ensures Valid() && ImageOk(sb, im) && Shaped() && i < |im.inodes| == inodes.Length && k <= |src|
      ensures foff <= |Contents(sb, im, i)|
      ensures Contents(sb, Im(), i) == Splice(Contents(sb, im, i), foff, src[..k])
      ensures forall j :: 0 <= j < inodes.Length && j != i ==> Contents(sb, Im(), j) == Contents(sb, im, j)
    {
      hide FsInv, ImageOk, Contents, Splice;
    }

    ghost predicate Filing(im: Image, i: nat, foff: nat, src: seq<byte>, k: nat)
      reads this, disk, inodes, dinodes
    {
      && Valid() && ImageOk(sb, im) && Shaped() && i < |im.inodes| == inodes.Length && k <= |src|
      && foff <= |Contents(sb, im, i)|
      && Contents(sb, Im(), i) == Splice(Contents(sb, im, i), foff, src[..k])
      && Others(im, i)
    }

    ghost predicate Others(im: Image, i: nat)
      reads this, disk, inodes
      requires ImageOk(sb, im) && Shaped() && |im.inodes| == inodes.Length
    { forall j :: 0 <= j < inodes.Length && j != i ==> Contents(sb, Im(), j) == Contents(sb, im, j) }

    lemma FilingNext(im: Image, im1: Image, i: nat, foff: nat, src: seq<byte>, k: nat, r: int, n1: nat)
      requires Valid() && Shaped() && ImageOk(sb, im) && ImageOk(sb, im1)
      requires i < |im.inodes| == |im1.inodes| == inodes.Length && k <= |src| && foff <= |Contents(sb, im, i)|
      requires Contents(sb, im1, i) == Splice(Contents(sb, im, i), foff, src[..k])
      requires Result(im1, i, foff + k, src[k..], r, n1)
      requires forall j :: 0 <= j < inodes.Length && j != i ==> Contents(sb, im1, j) == Contents(sb, im, j)
      ensures forall j :: 0 <= j < inodes.Length && j != i ==> Contents(sb, Im(), j) == Contents(sb, im, j)
      ensures r == n1 ==> k + n1 <= |src| && Filing(im, i, foff, src, k + n1)
    {
      hide FsInv, ImageOk, Contents, Splice, Valid;
      if r == n1 {
        var t: nat :| AfterWrite(Contents(sb, im1, i), foff + k, src[k..], r, n1, t, Contents(sb, Im(), i));
        WriteSucceeds(Contents(sb, im1, i), foff + k, src[k..], n1, t, Contents(sb, Im(), i));
        assert src[k..][..n1] == src[k..k + n1] && src[..k] + src[k..k + n1] == src[..k + n1];
        SpliceMore(Contents(sb, im, i), foff, src[..k], src[k..k + n1]);
      }
    }

    ghost predicate HasBlock(i: nat, bn: nat)
      reads this, disk, inodes
      requires Sound() && i < inodes.Length && bn < MAXFILE
    {
      Shapes();
      AddrOf(disk[..], inodes[i], bn) != 0
    }

    ghost predicate NoFree()
      reads this
    { forall c :: 0 <= c < |owner| ==> !owner[c].Free? }

    /** Block bn of file i is block addr. */
    ghost predicate Mapped(i: nat, bn: nat, addr: nat)
      reads this, disk, inodes
      requires Sound() && i < inodes.Length && bn < MAXFILE
    {
      Shapes();
      addr == AddrOf(disk[..], inodes[i], bn) && 0 < addr < disk.Length == |owner| && owner[addr] == Data(i, bn)
    }

    /** All files read as before, and the inodes other than i are untouched. */
    ghost predicate KeptFiles(im: Image, im': Image, i: nat) {
      && ImageOk(sb, im) && ImageOk(sb, im') && SameFiles(sb, im, im')
      && (forall j :: 0 <= j < |im.inodes| && j != i ==> im'.inodes[j] == im.inodes[j])
      && (i < |im.inodes| && im.inodes[i].addrs[NDIRECT] != 0 ==>
            im'.inodes[i].addrs[NDIRECT] == im.inodes[i].addrs[NDIRECT])
    }
  }

  lemma SameSelf(sb: Super, im: Image)
    requires ImageOk(sb, im)
    ensures SameFiles(sb, im, im)
  {}

  lemma SameWritten(sb: Super, im: Image, im': Image, i: nat, off: nat)
    requires ImageOk(sb, im) && ImageOk(sb, im') && i < |im.inodes| && SameFiles(sb, im, im')
    requires forall j :: 0 <= j < |im.inodes| && j != i ==> im'.inodes[j] == im.inodes[j]
    ensures Written(sb, im, im', i, off, [])
  {
    hide Raw, AddrOf;
  }

  /** Contents c become c' by a write that placed r of n bytes, and t more of a block not finished. */
  ghost predicate AfterWrite(c: seq<byte>, off: nat, src: seq<byte>, r: nat, n: nat, t: nat, c': seq<byte>) {
    && t < BSIZE && r + t <= |src| && (r == n ==> t == 0) && off <= |c|
    && var all := Splice(c, off, src[..r + t]);
    Max(|c|, off + r) <= |all| && c' == all[..Max(|c|, off + r)]
  }

  /** A write that succeeds splices its bytes into the file. */
  lemma WriteSucceeds(c: seq<byte>, off: nat, src: seq<byte>, n: nat, t: nat, c': seq<byte>)
    requires AfterWrite(c, off, src, n, n, t, c')
    ensures c' == Splice(c, off, src[..n])
  {}

  ghost predicate MarkedBelow(sb: Super, disk: seq<seq<byte>>, b: nat)
    requires Blocks(sb, disk)
  { forall c: nat :: c < sb.size ==> BBlock(sb, c) < sb.size && (InUse(sb, disk, c) <==> c < b) }

  lemma {:induction false} BitZero(k: nat)
    ensures !Bit(0, k)
  {
    if k > 0 { BitZero(k - 1); }
  }

  lemma NoneMarked(sb: Super, disk: seq<seq<byte>>)
    requires SuperOk(sb) && |disk| == sb.size && forall b :: 0 <= b < |disk| ==> disk[b] == Zeros()
    ensures Blocks(sb, disk) && MarkedBelow(sb, disk, 0)
  {
    forall c: nat | c < sb.size ensures BBlock(sb, c) < sb.size && !InUse(sb, disk, c) {
      BBlockMeta(sb, c);
      BitZero(c % 8);
    }
  }

  lemma FreshInv(sb: Super, im: Image, owner: seq<Owner>)
    requires Blocks(sb, im.disk) && MarkedBelow(sb, im.disk, sb.nmeta) && |im.inodes| == sb.ninodes
    requires forall i :: 0 <= i < |im.inodes| ==> im.inodes[i] == Empty()
    requires |owner| == sb.size && forall b :: 0 <= b < |owner| ==> owner[b] == if b < sb.nmeta then Meta else Free
    ensures FsInv(sb, im, owner)
  {
    hide Bit;
  }

  /** No block below the file's size is missing. */
  ghost predicate NoHoles(sb: Super, im: Image, i: nat)
    requires ImageOk(sb, im) && i < |im.inodes|
  { forall bn: nat :: bn < MAXFILE && bn * BSIZE < im.inodes[i].size ==> AddrOf(im.disk, im.inodes[i], bn) != 0 }

  ghost predicate Whole(sb: Super, im: Image) {
    ImageOk(sb, im) && forall i :: 0 <= i < |im.inodes| ==> NoHoles(sb, im, i)
  }

  /** Every block of a file that was there is there still, in the same place. */
  ghost predicate KeptAddrs(sb: Super, im: Image, im': Image)
    requires ImageOk(sb, im) && ImageOk(sb, im')
  {
    forall j, bn: nat :: 0 <= j < |im.inodes| && bn < MAXFILE && AddrOf(im.disk, im.inodes[j], bn) != 0 ==>
      AddrOf(im'.disk, im'.inodes[j], bn) == AddrOf(im.disk, im.inodes[j], bn)
  }

  /** The same, as the owners tell it. */
  ghost predicate OwnersKept(owner: seq<Owner>, owner': seq<Owner>) {
    |owner'| == |owner| && forall b :: 0 <= b < |owner| && owner[b].Data? ==> owner'[b] == owner[b]
  }

  lemma AddrsKept(sb: Super, im: Image, im': Image, owner: seq<Owner>, owner': seq<Owner>)
    requires FsInv(sb, im, owner) && FsInv(sb, im', owner') && OwnersKept(owner, owner')
    ensures KeptAddrs(sb, im, im')
  {
    assert |owner| == |owner'| == sb.size;
    hide Marked, Word;
    forall j, bn: nat | 0 <= j < |im.inodes| && bn < MAXFILE && AddrOf(im.disk, im.inodes[j], bn) != 0
      ensures AddrOf(im'.disk, im'.inodes[j], bn) == AddrOf(im.disk, im.inodes[j], bn)
    {
      OwnedAddr(sb, im, owner, j, bn);
      assert owner'[AddrOf(im.disk, im.inodes[j], bn)] == Data(j, bn);
    }
  }

  /** Every block of file i that starts from lo on and below hi is there. */
  ghost predicate Covered(owner: seq<Owner>, i: nat, lo: nat, hi: nat) {
    forall bn: nat :: bn < MAXFILE && lo <= bn * BSIZE < hi ==> Data(i, bn) in owner
  }

  lemma CoveredNext(owner0: seq<Owner>, owner: seq<Owner>, owner': seq<Owner>, i: nat, lo: nat, hi: nat, hi': nat)
    requires Covered(owner, i, lo, hi) && OwnersKept(owner0, owner) && OwnersKept(owner, owner')
    requires lo <= hi < hi' <= hi - hi % BSIZE + BSIZE && Data(i, hi / BSIZE) in owner'
    ensures Covered(owner', i, lo, hi') && Covered(owner', i, lo, hi) && OwnersKept(owner0, owner')
  {
    forall bn: nat | bn < MAXFILE && lo <= bn * BSIZE < hi' ensures Data(i, bn) in owner' {
      if bn * BSIZE < hi { KeptIn(owner, owner', Data(i, bn)); } else { assert bn == hi / BSIZE; }
    }
  }

  lemma CoveredStart(owner: seq<Owner>, i: nat, off: nat)
    ensures Covered(owner, i, off, off) && OwnersKept(owner, owner)
  {}

  lemma KeptIn(owner: seq<Owner>, owner': seq<Owner>, o: Owner)
    requires OwnersKept(owner, owner') && o.Data? && o in owner
    ensures o in owner'
  {
    var b :| 0 <= b < |owner| && owner[b] == o;
    assert owner'[b] == o;
  }

  lemma NoHolesOwned(sb: Super, im: Image, owner: seq<Owner>, i: nat)
    requires FsInv(sb, im, owner) && i < |im.inodes|
    ensures NoHoles(sb, im, i) <==> Covered(owner, i, 0, im.inodes[i].size)
  {
    ZeroMeta(sb, im, owner);
    hide Marked, Word;
    forall bn: nat | bn < MAXFILE ensures AddrOf(im.disk, im.inodes[i], bn) != 0 <==> Data(i, bn) in owner {
      OwnedAddr(sb, im, owner, i, bn);
      if Data(i, bn) in owner {
        var b :| 0 <= b < |owner| && owner[b] == Data(i, bn);
        assert AddrOf(im.disk, im.inodes[owner[b].inum], owner[b].bn) == b;
      }
    }
  }

  /** Growing a file over blocks just written, other files keeping theirs, makes no hole. */
  lemma WholeWritten(sb: Super, im: Image, im2: Image, owner: seq<Owner>, owner': seq<Owner>, i: nat, off: nat, hi: nat)
    requires FsInv(sb, im, owner) && FsInv(sb, im2, owner') && OwnersKept(owner, owner') && Whole(sb, im)
    requires i < |im.inodes| && off <= im.inodes[i].size && Covered(owner', i, off, hi)
    requires im2.inodes[i].size == Max(im.inodes[i].size, hi)
    requires forall j :: 0 <= j < |im.inodes| && j != i ==> im2.inodes[j].size == im.inodes[j].size
    ensures Whole(sb, im2)
  {
    hide RefsOk, OwnedOk, Marked, AddrOf, NoHoles;
    forall j | 0 <= j < |im2.inodes| ensures NoHoles(sb, im2, j) {
      assert NoHoles(sb, im, j);
      NoHolesOwned(sb, im, owner, j);
      NoHolesOwned(sb, im2, owner', j);
      forall bn: nat | bn < MAXFILE && bn * BSIZE < im2.inodes[j].size ensures Data(j, bn) in owner' {
        if bn * BSIZE < im.inodes[j].size { KeptIn(owner, owner', Data(j, bn)); }
      }
    }
  }

  /** Truncating a file makes no hole. */
  lemma WholeTruncated(sb: Super, im: Image, im2: Image, owner: seq<Owner>, i: nat)
    requires FsInv(sb, im, owner) && FsInv(sb, im2, Released(owner, i)) && Whole(sb, im)
    requires i < |im.inodes| && im2.inodes == im.inodes[i := Empty()]
    ensures Whole(sb, im2)
  {
    hide RefsOk, OwnedOk, Marked, AddrOf, NoHoles;
    forall j | 0 <= j < |im2.inodes| ensures NoHoles(sb, im2, j) {
      assert NoHoles(sb, im, j);
      NoHolesOwned(sb, im, owner, j);
      NoHolesOwned(sb, im2, Released(owner, i), j);
      if j != i {
        forall bn: nat | bn < MAXFILE && bn * BSIZE < im.inodes[j].size ensures Data(j, bn) in Released(owner, i) {
          assert Data(j, bn) in owner;
          var b :| 0 <= b < |owner| && owner[b] == Data(j, bn);
          assert Released(owner, i)[b] == Data(j, bn);
        }
      }
    }
  }

  lemma HoleFree(sb: Super, im: Image, i: nat, pos: nat)
    requires ImageOk(sb, im) && i < |im.inodes| && NoHoles(sb, im, i) && pos < im.inodes[i].size
    ensures pos / BSIZE < MAXFILE && AddrOf(im.disk, im.inodes[i], pos / BSIZE) != 0
  {
    assert InodeOk(sb, im.inodes[i]);
  }

  lemma SpliceNone(c: seq<byte>, off: nat, src: seq<byte>)
    requires off <= |c|
    ensures Splice(c, off, src[..0]) == c
  {}

  lemma SpliceSize(c: seq<byte>, off: nat, a: seq<byte>)
    requires off <= |c|
    ensures |Splice(c, off, a)| == Max(|c|, off + |a|)
  {}

  lemma SpliceMore(c: seq<byte>, off: nat, a: seq<byte>, b: seq<byte>)
    requires off <= |c|
    ensures off + |a| <= |Splice(c, off, a)| && Splice(Splice(c, off, a), off + |a|, b) == Splice(c, off, a + b)
  {}

  /** A chunk of at most three blocks' bytes logs at most seven blocks: four of data, one each of
      bitmap, indirect block and inodes. */
  lemma FewLogged(sb: Super, before: set<nat>, after: set<nat>, E: set<nat>, ino: Inode, ib: nat, off: nat, n: nat)
    requires LoggedOnly(sb, before, after, E + Ind(ino) + {ib}) && |E| * BSIZE < off % BSIZE + n + BSIZE
    requires n <= 3 * BSIZE && sb.size <= BPB
    ensures |after - before| <= 7 && (before == {} ==> |after| <= 7)
  {
    var all := E + Ind(ino) + {ib} + {sb.bmapstart};
    assert after - before <= all by {
      forall x | x in after - before ensures x in all {
        if IsBitmap(sb, x) { assert x == sb.bmapstart; }
      }
    }
    Common.SubsetSize(after - before, all);
    if before == {} { assert after - before == after; }
    assert |E + Ind(ino)| <= |E| + 1;
    assert |E + Ind(ino) + {ib}| <= |E| + 2;
  }

  lemma ContentsAt(sb: Super, im: Image, i: nat, p: nat)
    requires ImageOk(sb, im) && i < |im.inodes| && p < im.inodes[i].size
    ensures p < |Contents(sb, im, i)| && p < MAXFILE * BSIZE && Contents(sb, im, i)[p] == Raw(im.disk, im.inodes[i], p)
  {
    assert InodeOk(sb, im.inodes[i]);
  }

  lemma ContentsSize(sb: Super, im: Image, i: nat)
    requires ImageOk(sb, im) && i < |im.inodes|
    ensures |Contents(sb, im, i)| == im.inodes[i].size
  {}

  lemma WriteStart(sb: Super, im: Image, i: nat, off: nat, src: seq<byte>, logged: set<nat>, ind: set<nat>)
    requires ImageOk(sb, im) && i < |im.inodes|
    ensures Written(sb, im, im, i, off, src[..0]) && LoggedOnly(sb, logged, logged, {} + ind)
  {
    hide Raw;
  }

  /** A write at off that has got to tot of n bytes has visited c blocks, no more than it must. */
  ghost predicate Counted(E: set<nat>, c: nat, off: nat, tot: nat, n: nat) {
    && |E| <= c && (c == 0 ==> tot == 0) && c * BSIZE < off % BSIZE + tot + BSIZE
    && (tot < n && c > 0 ==> (off + tot) % BSIZE == 0 && c * BSIZE == off % BSIZE + tot)
  }

  lemma CountStart(off: nat, n: nat)
    ensures Counted({}, 0, off, 0, n)
  {}

  lemma CountNext(E: set<nat>, c: nat, off: nat, tot: nat, n: nat, m: nat, addr: nat)
    requires Counted(E, c, off, tot, n) && tot < n && m == Min(n - tot, BSIZE - (off + tot) % BSIZE)
    ensures Counted(E + {addr}, c + 1, off, tot + m, n) && |E + {addr}| * BSIZE < off % BSIZE + n + BSIZE
  {}

  lemma CountEnd(E: set<nat>, c: nat, off: nat, tot: nat, n: nat)
    requires Counted(E, c, off, tot, n) && tot <= n
    ensures |E| * BSIZE < off % BSIZE + n + BSIZE
  {}

  lemma WrittenInodes(sb: Super, im: Image, im': Image, i: nat, off: nat, bytes: seq<byte>)
    requires ImageOk(sb, im) && ImageOk(sb, im') && i < |im.inodes| && Written(sb, im, im', i, off, bytes)
    ensures im'.inodes[i].size == im.inodes[i].size
    ensures forall j :: 0 <= j < |im.inodes| && j != i ==> im'.inodes[j] == im.inodes[j]
  {}

  lemma ResizeInv(sb: Super, im: Image, owner: seq<Owner>, i: nat, size: nat)
    requires FsInv(sb, im, owner) && i < |im.inodes| && size <= MAXFILE * BSIZE
    ensures FsInv(sb, im.(inodes := im.inodes[i := im.inodes[i].(size := size)]), owner)
  {
    var im' := im.(inodes := im.inodes[i := im.inodes[i].(size := size)]);
    hide Marked, Word;
    forall j, n: nat | 0 <= j < |im.inodes| && n < MAXFILE
      ensures AddrOf(im'.disk, im'.inodes[j], n) == AddrOf(im.disk, im.inodes[j], n) {}
  }

  lemma IndSame(a: Inode, b: Inode)
    requires a.addrs == b.addrs
    ensures Ind(a) == Ind(b)
  {}

  lemma LoggedWith(sb: Super, before: set<nat>, after: set<nat>, extra: set<nat>, x: nat)
    requires LoggedOnly(sb, before, after, extra)
    ensures LoggedOnly(sb, before, after + {x}, extra + {x})
  {}

  lemma SameTrans(sb: Super, im: Image, im1: Image, im2: Image)
    requires ImageOk(sb, im) && ImageOk(sb, im1) && ImageOk(sb, im2) && SameFiles(sb, im, im1)
    requires SameFiles(sb, im1, im2)
    ensures SameFiles(sb, im, im2)
  {
    hide Raw, AddrOf;
    forall j, p: nat | 0 <= j < |im.inodes| && p < MAXFILE * BSIZE
      ensures Raw(im2.disk, im2.inodes[j], p) == Raw(im.disk, im.inodes[j], p) {
      assert Raw(im1.disk, im1.inodes[j], p) == Raw(im.disk, im.inodes[j], p);
    }
  }

  lemma DirectAddr(disk: seq<seq<byte>>, ino: Inode, bn: nat)
    requires |ino.addrs| == NDIRECT + 1 && bn < NDIRECT
    requires ino.addrs[NDIRECT] == 0 || (ino.addrs[NDIRECT] < |disk| && |disk[ino.addrs[NDIRECT]]| == BSIZE)
    ensures AddrOf(disk, ino, bn) == ino.addrs[bn]
  {}

  /** Owners while file i is truncated: its data blocks below k free, its others held. */
  function Freeing(owner: seq<Owner>, i: nat, k: nat): seq<Owner> {
    seq(|owner|, b requires 0 <= b < |owner| =>
      if BelongsTo(owner[b], i) then (if owner[b].Data? && owner[b].bn < k then Free else Held) else owner[b])
  }

  /** Owners once file i is truncated: its blocks free, no others touched. */
  function Released(owner: seq<Owner>, i: nat): seq<Owner> {
    seq(|owner|, b requires 0 <= b < |owner| => if BelongsTo(owner[b], i) then Free else owner[b])
  }

  lemma FreeingNext(sb: Super, im: Image, owner: seq<Owner>, i: nat, k: nat)
    requires FsInv(sb, im, owner) && i < |im.inodes| && k < MAXFILE
    ensures var a := AddrOf(im.disk, im.inodes[i], k);
            && (a == 0 ==> Freeing(owner, i, k + 1) == Freeing(owner, i, k))
            && (a != 0 ==>
                  && a < |owner| && Freeing(owner, i, k)[a].Held?
                  && Freeing(owner, i, k + 1) == Freeing(owner, i, k)[a := Free])
  {
    assert |owner| == sb.size;
    hide RefsOk, Marked, Word;
    OwnedAddr(sb, im, owner, i, k);
    var a := AddrOf(im.disk, im.inodes[i], k);
    forall b | 0 <= b < |owner| && owner[b] == Data(i, k) ensures b == a {
      assert AddrOf(im.disk, im.inodes[owner[b].inum], owner[b].bn) == b;
    }
    assert a == 0 ==> owner[0] != Data(i, k) by { ZeroMeta(sb, im, owner); }
  }

  lemma ZeroMeta(sb: Super, im: Image, owner: seq<Owner>)
    requires FsInv(sb, im, owner)
    ensures |owner| > 0 && owner[0].Meta?
  {}

  lemma ReleasedAll(sb: Super, im: Image, owner: seq<Owner>, i: nat, x: nat)
    requires FsInv(sb, im, owner) && i < |im.inodes| && x == im.inodes[i].addrs[NDIRECT] != 0
    ensures x < |owner| && Released(owner, i) == Freeing(owner, i, MAXFILE)[x := Free]
    ensures Freeing(owner, i, MAXFILE)[x].Held?
  {
    OwnedAddr(sb, im, owner, i, 0);
    assert |owner| == sb.size;
    hide RefsOk, Marked, Word, AddrOf;
    forall b | 0 <= b < |owner| && owner[b] == Indirect(i) ensures b == x {
      assert im.inodes[owner[b].inum].addrs[NDIRECT] == b;
    }
  }

  lemma ReleasedNone(sb: Super, im: Image, owner: seq<Owner>, i: nat)
    requires FsInv(sb, im, owner) && i < |im.inodes| && im.inodes[i].addrs[NDIRECT] == 0
    ensures Released(owner, i) == Freeing(owner, i, NDIRECT)
  {
    ZeroMeta(sb, im, owner);
    assert |owner| == sb.size;
    hide RefsOk, Marked, Word;
    forall b | 0 <= b < |owner| && BelongsTo(owner[b], i) ensures owner[b].Data? && owner[b].bn < NDIRECT {
      assert !owner[b].Indirect?;
      assert owner[b].Data? ==> AddrOf(im.disk, im.inodes[owner[b].inum], owner[b].bn) == b;
    }
  }

  /** Truncating one file leaves every other file's contents alone. */
  lemma TruncEnd(sb: Super, im: Image, im': Image, owner: seq<Owner>, i: nat)
    requires FsInv(sb, im, owner) && ImageOk(sb, im') && i < |im.inodes| && im'.inodes == im.inodes[i := Empty()]
    requires forall c :: sb.nmeta <= c < sb.size ==> im'.disk[c] == im.disk[c]
    ensures forall j :: 0 <= j < |im.inodes| && j != i ==> Contents(sb, im', j) == Contents(sb, im, j)
  {
    forall b | 0 <= b < sb.size && (owner[b].Data? || owner[b].Indirect?)
      ensures im'.disk[b] == im.disk[b] { NotMeta(sb, im, owner, b); }
    hide RefsOk, OwnedOk, Marked, Contents;
    forall j | 0 <= j < |im.inodes| && j != i ensures Contents(sb, im', j) == Contents(sb, im, j) {
      SameContents(sb, im, im', owner, j);
    }
  }

  lemma EntryLinked(sb: Super, im: Image, owner: seq<Owner>, i: nat, k: nat, b: nat)
    requires FsInv(sb, im, owner) && i < |im.inodes| && im.inodes[i].addrs[NDIRECT] != 0 && k < NINDIRECT
    requires Word(im.disk[im.inodes[i].addrs[NDIRECT]], k) == 0 && 0 < b < sb.size && owner[b].Held?
    requires im.disk[b] == Zeros()
    ensures var x := im.inodes[i].addrs[NDIRECT];
            var im' := im.(disk := im.disk[x := SetWord(im.disk[x], k, b)]);
            FsInv(sb, im', owner[b := Data(i, NDIRECT + k)]) && SameFiles(sb, im, im')
  {
    hide RefsOk, OwnedOk, Marked, Relinked, SameFiles, AddrOf, Raw, Word, SetWord;
    var x := im.inodes[i].addrs[NDIRECT];
    var im' := im.(disk := im.disk[x := SetWord(im.disk[x], k, b)]);
    LinkEntry(sb, im, owner, i, k, b);
    EntryRelinks(sb, im, owner, i, k, b);
    EntryAddr(im.disk, im.inodes[i], NDIRECT + k);
    RelinkRaw(sb, im, im', owner, i, NDIRECT + k, b);
  }

  lemma EntryAddr(disk: seq<seq<byte>>, ino: Inode, bn: nat)
    requires |ino.addrs| == NDIRECT + 1 && NDIRECT <= bn < MAXFILE && ino.addrs[NDIRECT] != 0
    requires ino.addrs[NDIRECT] < |disk| && |disk[ino.addrs[NDIRECT]]| == BSIZE
    ensures AddrOf(disk, ino, bn) == Word(disk[ino.addrs[NDIRECT]], bn - NDIRECT)
  {}

  lemma NotMeta(sb: Super, im: Image, owner: seq<Owner>, b: nat)
    requires FsInv(sb, im, owner) && b < sb.size && !owner[b].Meta?
    ensures b >= sb.nmeta
  {}

  lemma DirectRaw(sb: Super, im: Image, owner: seq<Owner>, i: nat, bn: nat, b: nat)
    requires FsInv(sb, im, owner) && i < |im.inodes| && bn < NDIRECT && im.inodes[i].addrs[bn] == 0 && 0 < b < sb.size
    requires im.disk[b] == Zeros()
    ensures var im' := im.(inodes := im.inodes[i := im.inodes[i].(addrs := im.inodes[i].addrs[bn := b])]);
            ImageOk(sb, im') && SameFiles(sb, im, im')
  {
    hide RefsOk, OwnedOk, Marked, Word;
    RelinkRaw(sb, im, im.(inodes := im.inodes[i := im.inodes[i].(addrs := im.inodes[i].addrs[bn := b])]), owner, i, bn,
              b);
  }
}
