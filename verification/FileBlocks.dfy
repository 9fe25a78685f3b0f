/** The disk image of the file system: bitmap, inodes with direct and indirect block numbers, and
    what each block is for. Block numbers in indirect blocks are little-endian 32-bit words. */
module FileBlocks {
  import Sv39

  type byte = Sv39.byte

  const BSIZE: nat := 1024
  const NDIRECT: nat := 12
  const NINDIRECT: nat := 256
  const MAXFILE: nat := NDIRECT + NINDIRECT
  const BPB: nat := 8192
  const WORD_LIMIT: nat := 0x1_0000_0000

  datatype Super = Super(size: nat, ninodes: nat, nmeta: nat, inodestart: nat, bmapstart: nat)
  datatype Inode = Inode(size: nat, addrs: seq<nat>)

  /** What the file system holds: blocks as bread returns them, and the inodes. */
  datatype Image = Image(disk: seq<seq<byte>>, inodes: seq<Inode>)

  /** What a block is for. Held: allocated and about to be linked, or unlinked and about to be freed. */
  datatype Owner = Meta | Free | Held | Data(inum: nat, bn: nat) | Indirect(inum: nat)

  ghost predicate SuperOk(sb: Super) {
    && 1 <= sb.bmapstart && sb.bmapstart + (sb.size + BPB - 1) / BPB <= sb.nmeta <= sb.size < WORD_LIMIT
  }

  // ---------- words and bits in a block ----------

  function Word(b: seq<byte>, k: nat): nat
    requires |b| == BSIZE && k < NINDIRECT
  { b[4 * k] as nat + 0x100 * b[4 * k + 1] as nat + 0x1_0000 * b[4 * k + 2] as nat + 0x100_0000 * b[4 * k + 3] as nat }

  function SetWord(b: seq<byte>, k: nat, v: nat): seq<byte>
    requires |b| == BSIZE && k < NINDIRECT && v < WORD_LIMIT
  {
    b[4 * k := v % 0x100][4 * k + 1 := v / 0x100 % 0x100]
     [4 * k + 2 := v / 0x1_0000 % 0x100][4 * k + 3 := v / 0x100_0000]
  }

  /** A 32-bit number is its four bytes. */
  lemma FourBytes(v: nat)
    requires v < WORD_LIMIT
    ensures v ==
              v % 0x100 + 0x100 * (v / 0x100 % 0x100) + 0x1_0000 * (v / 0x1_0000 % 0x100) +
                  0x100_0000 * (v / 0x100_0000)
  {
    assert v / 0x1_0000 == v / 0x100 / 0x100 && v / 0x100_0000 == v / 0x1_0000 / 0x100;
  }

  lemma SetWordAt(b: seq<byte>, k: nat, v: nat, x: nat)
    requires |b| == BSIZE && k < NINDIRECT && v < WORD_LIMIT && x < BSIZE
    ensures |SetWord(b, k, v)| == BSIZE
    ensures !(4 * k <= x < 4 * k + 4) ==> SetWord(b, k, v)[x] == b[x]
  {}

  lemma WordSet(b: seq<byte>, k: nat, v: nat, j: nat)
    requires |b| == BSIZE && k < NINDIRECT && v < WORD_LIMIT && j < NINDIRECT
    ensures |SetWord(b, k, v)| == BSIZE
    ensures Word(SetWord(b, k, v), j) == if j == k then v else Word(b, j)
  {
    if j == k {
      FourBytes(v);
    } else {
      hide SetWord;
      SetWordAt(b, k, v, 4 * j);
      SetWordAt(b, k, v, 4 * j + 1);
      SetWordAt(b, k, v, 4 * j + 2);
      SetWordAt(b, k, v, 4 * j + 3);
    }
  }

  function Zeros(): seq<byte> { seq(BSIZE, _ => 0) }

  function Pow2(k: nat): nat { if k == 0 then 1 else 2 * Pow2(k - 1) }

  /** Bit k of x. Setting a clear bit k adds 2^k, clearing a set one takes it away. */
  predicate Bit(x: nat, k: nat) { if k == 0 then x % 2 == 1 else Bit(x / 2, k - 1) }

  lemma {:induction false} SetBit(x: nat, k: nat, j: nat)
    requires !Bit(x, k)
    ensures Bit(x + Pow2(k), j) == (j == k || Bit(x, j))
  {
    if k > 0 && j > 0 { SetBit(x / 2, k - 1, j - 1); }
    if k > 0 { assert (x + Pow2(k)) / 2 == x / 2 + Pow2(k - 1); }
  }

  lemma {:induction false} ClearBit(x: nat, k: nat, j: nat)
    requires Bit(x, k)
    ensures x >= Pow2(k) && Bit(x - Pow2(k), j) == (j != k && Bit(x, j))
  {
    if k > 0 {
      ClearBit(x / 2, k - 1, if j > 0 then j - 1 else 0);
      assert (x - Pow2(k)) / 2 == x / 2 - Pow2(k - 1);
    }
  }

  lemma Halves(x: nat, k: nat)
    ensures if k == 0 then Pow2(k) == 1 && (Bit(x, k) <==> x % 2 == 1)
            else Pow2(k) == 2 * Pow2(k - 1) && (Bit(x, k) <==> Bit(x / 2, k - 1))
  {}

  /** A byte stays a byte. */
  lemma {:induction false} SetBitFits(x: nat, k: nat, n: nat)
    requires !Bit(x, k) && k < n && x < Pow2(n)
    ensures x + Pow2(k) < Pow2(n)
  {
    hide Pow2, Bit;
    var h := x / 2;
    assert 2 * h <= x <= 2 * h + 1;
    Halves(x, k);
    Halves(x, n);
    if k > 0 { SetBitFits(h, k - 1, n - 1); }
  }

  lemma ByteLimit() ensures Pow2(8) == 256 {
    assert Pow2(4) == 16;
  }

  // ---------- the bitmap ----------

  function BBlock(sb: Super, b: nat): nat { b / BPB + sb.bmapstart }

  predicate InUse(sb: Super, disk: seq<seq<byte>>, b: nat)
    requires BBlock(sb, b) < |disk| && |disk[BBlock(sb, b)]| == BSIZE
  { Bit(disk[BBlock(sb, b)][b % BPB / 8], b % 8) }

  /** The bitmap's bits lie one after the other from bmapstart on, block b's the b-th, in full blocks of 1024 bytes. */
  lemma BitPlace(sb: Super, b: nat)
    ensures BBlock(sb, b) >= sb.bmapstart && b % BPB / 8 < 1024
    ensures 8192 * (BBlock(sb, b) - sb.bmapstart) + 8 * (b % BPB / 8) + b % 8 == b
  {
    var c := b % BPB;
    assert b == 8192 * (b / BPB) + c;
    assert c % 8 == b % 8;
    assert c == 8 * (c / 8) + c % 8;
  }

  ghost predicate Blocks(sb: Super, disk: seq<seq<byte>>) {
    SuperOk(sb) && |disk| == sb.size && forall b :: 0 <= b < |disk| ==> |disk[b]| == BSIZE
  }

  lemma BBlockMeta(sb: Super, b: nat)
    requires SuperOk(sb) && b < sb.size
    ensures sb.bmapstart <= BBlock(sb, b) < sb.nmeta
  {}

  /** balloc's and bfree's change to the bitmap. */
  function Mark(sb: Super, disk: seq<seq<byte>>, b: nat): seq<seq<byte>>
    requires Blocks(sb, disk) && b < sb.size && BBlock(sb, b) < sb.size && !InUse(sb, disk, b)
  {
    var x := disk[BBlock(sb, b)];
    var k := b % BPB / 8;
    SetBitFits(x[k], b % 8, 8); ByteLimit();
    disk[BBlock(sb, b) := x[k := x[k] + Pow2(b % 8)]]
  }

  function Unmark(sb: Super, disk: seq<seq<byte>>, b: nat): seq<seq<byte>>
    requires Blocks(sb, disk) && b < sb.size && BBlock(sb, b) < sb.size && InUse(sb, disk, b)
  {
    var x := disk[BBlock(sb, b)];
    var k := b % BPB / 8;
    ClearBit(x[k], b % 8, 0);
    disk[BBlock(sb, b) := x[k := x[k] - Pow2(b % 8)]]
  }

  lemma MarkOne(sb: Super, disk: seq<seq<byte>>, b: nat, c: nat)
    requires Blocks(sb, disk) && b < sb.size && c < sb.size && BBlock(sb, b) < sb.size && BBlock(sb, c) < sb.size
    requires !InUse(sb, disk, b)
    ensures Blocks(sb, Mark(sb, disk, b)) && InUse(sb, Mark(sb, disk, b), c) == (c == b || InUse(sb, disk, c))
  {
    if b / BPB == c / BPB && b % BPB / 8 == c % BPB / 8 {
      SetBit(disk[BBlock(sb, b)][b % BPB / 8], b % 8, c % 8);
      SameByte(b, c);
    }
  }

  lemma UnmarkOne(sb: Super, disk: seq<seq<byte>>, b: nat, c: nat)
    requires Blocks(sb, disk) && b < sb.size && c < sb.size && BBlock(sb, b) < sb.size && BBlock(sb, c) < sb.size
    requires InUse(sb, disk, b)
    ensures Blocks(sb, Unmark(sb, disk, b)) && InUse(sb, Unmark(sb, disk, b), c) == (c != b && InUse(sb, disk, c))
  {
    if b / BPB == c / BPB && b % BPB / 8 == c % BPB / 8 {
      ClearBit(disk[BBlock(sb, b)][b % BPB / 8], b % 8, c % 8);
      SameByte(b, c);
    }
  }

  lemma SameByte(b: nat, c: nat)
    requires b / BPB == c / BPB && b % BPB / 8 == c % BPB / 8
    ensures b % 8 == c % 8 <==> b == c
  {}

  // ---------- inodes ----------

  /** The block that holds block bn of a file, 0 if none does. */
  function AddrOf(disk: seq<seq<byte>>, ino: Inode, bn: nat): nat
    requires |ino.addrs| == NDIRECT + 1 && bn < MAXFILE
    requires ino.addrs[NDIRECT] == 0 || (ino.addrs[NDIRECT] < |disk| && |disk[ino.addrs[NDIRECT]]| == BSIZE)
  {
    if bn < NDIRECT then ino.addrs[bn]
    else if ino.addrs[NDIRECT] == 0 then 0
    else Word(disk[ino.addrs[NDIRECT]], bn - NDIRECT)
  }

  ghost predicate InodeOk(sb: Super, ino: Inode) {
    |ino.addrs| == NDIRECT + 1 && ino.addrs[NDIRECT] < sb.size && ino.size <= MAXFILE * BSIZE
  }

  ghost predicate ImageOk(sb: Super, im: Image) {
    Blocks(sb, im.disk) && |im.inodes| == sb.ninodes && forall i :: 0 <= i < |im.inodes| ==> InodeOk(sb, im.inodes[i])
  }

  /** Bitmap and owners agree. */
  ghost predicate Marked(sb: Super, disk: seq<seq<byte>>, owner: seq<Owner>)
    requires Blocks(sb, disk)
  {
    && |owner| == sb.size
    && (forall b :: 0 <= b < sb.size ==> (owner[b].Meta? <==> b < sb.nmeta))
    && (forall b: nat :: b < sb.size ==> BBlock(sb, b) < sb.size && (owner[b].Free? <==> !InUse(sb, disk, b)))
  }

  /** Every block number in an inode or an indirect block names a block owned by that very slot. */
  ghost predicate RefsOk(sb: Super, im: Image, owner: seq<Owner>)
    requires ImageOk(sb, im) && |owner| == sb.size
  {
    && (forall i, bn: nat :: 0 <= i < |im.inodes| && bn < MAXFILE && AddrOf(im.disk, im.inodes[i], bn) != 0 ==>
          AddrOf(im.disk, im.inodes[i], bn) < sb.size && owner[AddrOf(im.disk, im.inodes[i], bn)] == Data(i, bn))
    && (forall i ::
          0 <= i < |im.inodes| && im.inodes[i].addrs[NDIRECT] != 0 ==>
            owner[im.inodes[i].addrs[NDIRECT]] == Indirect(i))
  }

  /** Every owned block is in the slot that owns it. */
  ghost predicate OwnedOk(sb: Super, im: Image, owner: seq<Owner>)
    requires ImageOk(sb, im) && |owner| == sb.size
  {
    forall b :: 0 <= b < |owner| ==>
      && (owner[b].Data? ==>
            && owner[b].inum < |im.inodes| && owner[b].bn < MAXFILE
            && AddrOf(im.disk, im.inodes[owner[b].inum], owner[b].bn) == b)
      && (owner[b].Indirect? ==> owner[b].inum < |im.inodes| && im.inodes[owner[b].inum].addrs[NDIRECT] == b)
  }

  ghost predicate FsInv(sb: Super, im: Image, owner: seq<Owner>) {
    ImageOk(sb, im) && Marked(sb, im.disk, owner) && RefsOk(sb, im, owner) && OwnedOk(sb, im, owner)
  }

  // ---------- file contents ----------

  /** Byte p of a file, whatever its size; what no block holds is zero. */
  function Raw(disk: seq<seq<byte>>, ino: Inode, p: nat): byte
    requires |ino.addrs| == NDIRECT + 1 && p < MAXFILE * BSIZE
    requires ino.addrs[NDIRECT] == 0 || (ino.addrs[NDIRECT] < |disk| && |disk[ino.addrs[NDIRECT]]| == BSIZE)
  {
    var a := AddrOf(disk, ino, p / BSIZE);
    if a == 0 || a >= |disk| || |disk[a]| != BSIZE then 0 else disk[a][p % BSIZE]
  }

  function Contents(sb: Super, im: Image, i: nat): seq<byte>
    requires ImageOk(sb, im) && i < |im.inodes|
  {
    seq(im.inodes[i].size, p requires 0 <= p < im.inodes[i].size => Raw(im.disk, im.inodes[i], p))
  }

  predicate BelongsTo(o: Owner, i: nat) { (o.Data? || o.Indirect?) && o.inum == i }

  lemma OwnedAddr(sb: Super, im: Image, owner: seq<Owner>, i: nat, bn: nat)
    requires FsInv(sb, im, owner) && i < |im.inodes| && bn < MAXFILE
    ensures InodeOk(sb, im.inodes[i])
    ensures im.inodes[i].addrs[NDIRECT] != 0 ==> owner[im.inodes[i].addrs[NDIRECT]] == Indirect(i)
    ensures var a := AddrOf(im.disk, im.inodes[i], bn); a != 0 ==> a < sb.size && owner[a] == Data(i, bn)
  {}

  /** A file reads the same if its own blocks do. */
  lemma SameRaw(sb: Super, im: Image, im': Image, owner: seq<Owner>, i: nat, p: nat)
    requires FsInv(sb, im, owner) && ImageOk(sb, im') && i < |im.inodes| && im'.inodes[i].addrs == im.inodes[i].addrs
    requires p < MAXFILE * BSIZE
    requires forall b :: 0 <= b < sb.size && BelongsTo(owner[b], i) ==> im'.disk[b] == im.disk[b]
    ensures AddrOf(im'.disk, im'.inodes[i], p / BSIZE) == AddrOf(im.disk, im.inodes[i], p / BSIZE)
    ensures Raw(im'.disk, im'.inodes[i], p) == Raw(im.disk, im.inodes[i], p)
  {
    OwnedAddr(sb, im, owner, i, p / BSIZE);
    hide RefsOk, OwnedOk, Marked, Word;
  }

  lemma SameContents(sb: Super, im: Image, im': Image, owner: seq<Owner>, i: nat)
    requires FsInv(sb, im, owner) && ImageOk(sb, im') && i < |im.inodes| && im'.inodes[i] == im.inodes[i]
    requires forall b :: 0 <= b < sb.size && BelongsTo(owner[b], i) ==> im'.disk[b] == im.disk[b]
    ensures Contents(sb, im', i) == Contents(sb, im, i)
  {
    hide RefsOk, OwnedOk, Marked, Raw, AddrOf;
    forall p | 0 <= p < im.inodes[i].size ensures Raw(im'.disk, im'.inodes[i], p) == Raw(im.disk, im.inodes[i], p) {
      SameRaw(sb, im, im', owner, i, p);
    }
  }

  // ---------- steps ----------

  predicate Loose(o: Owner) { o.Free? || o.Held? }

  /** Changes to blocks that are not indirect blocks, and to which loose blocks are free. */
  lemma FrameInv(sb: Super, im: Image, im': Image, owner: seq<Owner>, owner': seq<Owner>)
    requires FsInv(sb, im, owner) && im'.inodes == im.inodes && Blocks(sb, im'.disk) && Marked(sb, im'.disk, owner')
    requires forall b :: 0 <= b < sb.size && owner[b].Indirect? ==> im'.disk[b] == im.disk[b]
    requires forall b :: 0 <= b < sb.size ==> owner'[b] == owner[b] || (Loose(owner[b]) && Loose(owner'[b]))
    ensures FsInv(sb, im', owner')
  {
    assert |owner'| == sb.size;
    hide Marked, Word;
    forall i, bn: nat | 0 <= i < |im.inodes| && bn < MAXFILE
      ensures AddrOf(im'.disk, im'.inodes[i], bn) == AddrOf(im.disk, im.inodes[i], bn) {
      OwnedAddr(sb, im, owner, i, bn);
    }
  }

  lemma MarkInv(sb: Super, im: Image, owner: seq<Owner>, b: nat, x: seq<byte>)
    requires FsInv(sb, im, owner) && b < sb.size && owner[b].Free? && |x| == BSIZE
    ensures BBlock(sb, b) < sb.nmeta && !InUse(sb, im.disk, b) && |Mark(sb, im.disk, b)| == sb.size
    ensures FsInv(sb, im.(disk := Mark(sb, im.disk, b)[b := x]), owner[b := Held])
  {
    hide RefsOk, OwnedOk, Bit, Pow2;
    BBlockMeta(sb, b);
    var disk' := Mark(sb, im.disk, b)[b := x];
    MarkOne(sb, im.disk, b, b);
    forall c: nat | c < sb.size
      ensures BBlock(sb, c) < sb.size && (owner[b := Held][c].Free? <==> !InUse(sb, disk', c)) {
      BBlockMeta(sb, c);
      MarkOne(sb, im.disk, b, c);
    }
    FrameInv(sb, im, im.(disk := disk'), owner, owner[b := Held]);
  }

  lemma UnmarkInv(sb: Super, im: Image, owner: seq<Owner>, b: nat)
    requires FsInv(sb, im, owner) && b < sb.size && owner[b].Held?
    ensures BBlock(sb, b) < sb.nmeta && InUse(sb, im.disk, b)
    ensures FsInv(sb, im.(disk := Unmark(sb, im.disk, b)), owner[b := Free])
  {
    hide RefsOk, OwnedOk, Bit, Pow2;
    BBlockMeta(sb, b);
    var disk' := Unmark(sb, im.disk, b);
    UnmarkOne(sb, im.disk, b, b);
    forall c: nat | c < sb.size
      ensures BBlock(sb, c) < sb.size && (owner[b := Free][c].Free? <==> !InUse(sb, disk', c)) {
      BBlockMeta(sb, c);
      UnmarkOne(sb, im.disk, b, c);
    }
    FrameInv(sb, im, im.(disk := disk'), owner, owner[b := Free]);
  }

  /** Writing a data block. */
  lemma WriteInv(sb: Super, im: Image, owner: seq<Owner>, b: nat, x: seq<byte>)
    requires FsInv(sb, im, owner) && b < sb.size && owner[b].Data? && |x| == BSIZE
    ensures FsInv(sb, im.(disk := im.disk[b := x]), owner)
  {
    hide RefsOk, OwnedOk, Bit;
    forall c: nat | c < sb.size
      ensures BBlock(sb, c) < sb.size && (owner[c].Free? <==> !InUse(sb, im.disk[b := x], c)) {
      BBlockMeta(sb, c);
    }
    FrameInv(sb, im, im.(disk := im.disk[b := x]), owner, owner);
  }

  /** A held block put in the empty slot m of inode i, all other slots as before. */
  ghost predicate Relinked(sb: Super, im: Image, im': Image, i: nat, m: nat, b: nat)
    requires ImageOk(sb, im) && ImageOk(sb, im') && i < |im.inodes| && m < MAXFILE
  {
    && (forall j :: 0 <= j < |im.inodes| ==> im'.inodes[j].addrs[NDIRECT] == im.inodes[j].addrs[NDIRECT])
    && (forall j, n: nat :: 0 <= j < |im.inodes| && n < MAXFILE ==>
          AddrOf(im'.disk, im'.inodes[j], n) == if j == i && n == m then b else AddrOf(im.disk, im.inodes[j], n))
  }

  lemma RelinkInv(sb: Super, im: Image, im': Image, owner: seq<Owner>, i: nat, m: nat, b: nat)
    requires FsInv(sb, im, owner) && ImageOk(sb, im') && i < |im.inodes| && m < MAXFILE && 0 < b < sb.size
    requires owner[b].Held?
    requires Relinked(sb, im, im', i, m, b) && AddrOf(im.disk, im.inodes[i], m) == 0
    requires Marked(sb, im'.disk, owner[b := Data(i, m)])
    ensures FsInv(sb, im', owner[b := Data(i, m)])
  {
    assert |owner| == sb.size;
    hide Marked, Word;
    var owner' := owner[b := Data(i, m)];
    forall c | 0 <= c < |owner'| && owner'[c].Data?
      ensures owner'[c].inum < |im'.inodes| && owner'[c].bn < MAXFILE
      ensures AddrOf(im'.disk, im'.inodes[owner'[c].inum], owner'[c].bn) == c {
      if c != b { assert AddrOf(im.disk, im.inodes[owner[c].inum], owner[c].bn) == c; }
    }
  }

  /** Linking a held block as direct block bn. */
  lemma LinkDirect(sb: Super, im: Image, owner: seq<Owner>, i: nat, bn: nat, b: nat)
    requires FsInv(sb, im, owner) && i < |im.inodes| && bn < NDIRECT && im.inodes[i].addrs[bn] == 0 && 0 < b < sb.size
    requires owner[b].Held?
    ensures FsInv(sb, im.(inodes := im.inodes[i := im.inodes[i].(addrs := im.inodes[i].addrs[bn := b])]),
                  owner[b := Data(i, bn)])
  {
    hide RefsOk, OwnedOk, Word;
    MarkedKept(sb, im.disk, im.disk, owner, owner[b := Data(i, bn)]);
    RelinkInv(sb, im, im.(inodes := im.inodes[i := im.inodes[i].(addrs := im.inodes[i].addrs[bn := b])]), owner, i, bn,
              b);
  }

  /** Linking a held, zeroed block as the indirect block. */
  lemma LinkIndirect(sb: Super, im: Image, owner: seq<Owner>, i: nat, b: nat)
    requires FsInv(sb, im, owner) && i < |im.inodes| && im.inodes[i].addrs[NDIRECT] == 0 && 0 < b < sb.size
    requires owner[b].Held? && im.disk[b] == Zeros()
    ensures FsInv(sb, im.(inodes := im.inodes[i := im.inodes[i].(addrs := im.inodes[i].addrs[NDIRECT := b])]),
                  owner[b := Indirect(i)])
  {
    var im' := im.(inodes := im.inodes[i := im.inodes[i].(addrs := im.inodes[i].addrs[NDIRECT := b])]);
    forall k: nat | k < NINDIRECT ensures Word(im.disk[b], k) == 0 {}
    hide Bit, Word;
    forall j, n: nat | 0 <= j < |im.inodes| && n < MAXFILE
      ensures AddrOf(im'.disk, im'.inodes[j], n) == AddrOf(im.disk, im.inodes[j], n) {}
  }

  lemma EntryRelinks(sb: Super, im: Image, owner: seq<Owner>, i: nat, k: nat, b: nat)
    requires FsInv(sb, im, owner) && i < |im.inodes| && im.inodes[i].addrs[NDIRECT] != 0 && k < NINDIRECT && b < sb.size
    ensures var x := im.inodes[i].addrs[NDIRECT];
            var im' := im.(disk := im.disk[x := SetWord(im.disk[x], k, b)]);
            ImageOk(sb, im') && Relinked(sb, im, im', i, NDIRECT + k, b) && owner[x] == Indirect(i)
  {
    var x := im.inodes[i].addrs[NDIRECT];
    var im' := im.(disk := im.disk[x := SetWord(im.disk[x], k, b)]);
    hide RefsOk, OwnedOk, Marked, Word, SetWord;
    OwnedAddr(sb, im, owner, i, NDIRECT + k);
    WordSet(im.disk[x], k, b, k);
    forall j, n: nat | 0 <= j < |im.inodes| && n < MAXFILE
      ensures AddrOf(im'.disk, im'.inodes[j], n) ==
                if j == i && n == NDIRECT + k then b else AddrOf(im.disk, im.inodes[j], n) {
      OwnedAddr(sb, im, owner, j, n);
      if n >= NDIRECT { WordSet(im.disk[x], k, b, n - NDIRECT); }
    }
  }

  /** Linking a held block in entry k of the indirect block. */
  lemma LinkEntry(sb: Super, im: Image, owner: seq<Owner>, i: nat, k: nat, b: nat)
    requires FsInv(sb, im, owner) && i < |im.inodes| && im.inodes[i].addrs[NDIRECT] != 0 && k < NINDIRECT
    requires Word(im.disk[im.inodes[i].addrs[NDIRECT]], k) == 0 && 0 < b < sb.size && owner[b].Held?
    ensures var x := im.inodes[i].addrs[NDIRECT];
            FsInv(sb, im.(disk := im.disk[x := SetWord(im.disk[x], k, b)]), owner[b := Data(i, NDIRECT + k)])
  {
    var x := im.inodes[i].addrs[NDIRECT];
    var im' := im.(disk := im.disk[x := SetWord(im.disk[x], k, b)]);
    EntryRelinks(sb, im, owner, i, k, b);
    hide RefsOk, OwnedOk, Word, SetWord, Bit, Relinked;
    MarkedKept(sb, im.disk, im'.disk, owner, owner[b := Data(i, NDIRECT + k)]);
    RelinkInv(sb, im, im', owner, i, NDIRECT + k, b);
  }

  lemma MarkedKept(sb: Super, disk: seq<seq<byte>>, disk': seq<seq<byte>>, owner: seq<Owner>, owner': seq<Owner>)
    requires Blocks(sb, disk) && Blocks(sb, disk') && Marked(sb, disk, owner) && |owner'| == |owner|
    requires forall b :: 0 <= b < sb.nmeta ==> disk'[b] == disk[b]
    requires forall b ::
               0 <= b < sb.size ==> (owner'[b].Free? <==> owner[b].Free?) && (owner'[b].Meta? <==> owner[b].Meta?)
    ensures Marked(sb, disk', owner')
  {
    hide Bit;
    forall b: nat | b < sb.size
      ensures BBlock(sb, b) < sb.size && (owner'[b].Free? <==> !InUse(sb, disk', b)) { BBlockMeta(sb, b); }
  }

  /** An inode emptied: all its blocks loose. */
  function Empty(): Inode { Inode(0, seq(NDIRECT + 1, _ => 0)) }

  function Detached(owner: seq<Owner>, i: nat): seq<Owner> {
    seq(|owner|, b requires 0 <= b < |owner| => if BelongsTo(owner[b], i) then Held else owner[b])
  }

  lemma DetachInv(sb: Super, im: Image, owner: seq<Owner>, i: nat)
    requires FsInv(sb, im, owner) && i < |im.inodes|
    ensures FsInv(sb, im.(inodes := im.inodes[i := Empty()]), Detached(owner, i))
  {
    var im', owner' := im.(inodes := im.inodes[i := Empty()]), Detached(owner, i);
    MarkedKept(sb, im.disk, im.disk, owner, owner');
    hide Bit, Marked, Word;
    forall j, n: nat | 0 <= j < |im.inodes| && n < MAXFILE
      ensures AddrOf(im'.disk, im'.inodes[j], n) == if j == i then 0 else AddrOf(im.disk, im.inodes[j], n) {}
  }

  // ---------- what the steps do to file contents ----------

  /** Every file reads the same at every offset. */
  ghost predicate SameFiles(sb: Super, im: Image, im': Image)
    requires ImageOk(sb, im) && ImageOk(sb, im')
  {
    && (forall j :: 0 <= j < |im.inodes| ==> im'.inodes[j].size == im.inodes[j].size)
    && (forall j, p: nat :: 0 <= j < |im.inodes| && p < MAXFILE * BSIZE ==>
          Raw(im'.disk, im'.inodes[j], p) == Raw(im.disk, im.inodes[j], p))
  }

  /** Blocks that no file owns may change. */
  lemma UnownedRaw(sb: Super, im: Image, im': Image, owner: seq<Owner>)
    requires FsInv(sb, im, owner) && ImageOk(sb, im') && im'.inodes == im.inodes
    requires forall b :: 0 <= b < sb.size && (owner[b].Data? || owner[b].Indirect?) ==> im'.disk[b] == im.disk[b]
    ensures SameFiles(sb, im, im')
  {
    hide RefsOk, OwnedOk, Marked, Raw, AddrOf;
    forall j, p: nat | 0 <= j < |im.inodes| && p < MAXFILE * BSIZE
      ensures Raw(im'.disk, im'.inodes[j], p) == Raw(im.disk, im.inodes[j], p) {
      SameRaw(sb, im, im', owner, j, p);
    }
  }

  /** A zeroed block put in an empty slot: a hole read as zeros before and still does. */
  lemma RelinkRaw(sb: Super, im: Image, im': Image, owner: seq<Owner>, i: nat, m: nat, b: nat)
    requires FsInv(sb, im, owner) && ImageOk(sb, im') && i < |im.inodes| && m < MAXFILE && 0 < b < sb.size
    requires Relinked(sb, im, im', i, m, b) && AddrOf(im.disk, im.inodes[i], m) == 0 && im'.disk[b] == Zeros()
    requires forall j :: 0 <= j < |im.inodes| ==> im'.inodes[j].size == im.inodes[j].size
    requires forall c :: 0 <= c < sb.size && owner[c].Data? ==> im'.disk[c] == im.disk[c]
    ensures SameFiles(sb, im, im')
  {
    forall j, p: nat | 0 <= j < |im.inodes| && p < MAXFILE * BSIZE
      ensures Raw(im'.disk, im'.inodes[j], p) == Raw(im.disk, im.inodes[j], p) {
      OwnedAddr(sb, im, owner, j, p / BSIZE);
      RelinkRawAt(sb, im, im', owner, i, m, b, j, p);
    }
  }

  lemma RelinkRawAt(sb: Super, im: Image, im': Image, owner: seq<Owner>, i: nat, m: nat, b: nat, j: nat, p: nat)
    requires FsInv(sb, im, owner) && ImageOk(sb, im') && i < |im.inodes| && m < MAXFILE && 0 < b < sb.size
    requires j < |im.inodes| && p < MAXFILE * BSIZE
    requires Relinked(sb, im, im', i, m, b) && AddrOf(im.disk, im.inodes[i], m) == 0 && im'.disk[b] == Zeros()
    requires forall c :: 0 <= c < sb.size && owner[c].Data? ==> im'.disk[c] == im.disk[c]
    ensures Raw(im'.disk, im'.inodes[j], p) == Raw(im.disk, im.inodes[j], p)
  {
    OwnedAddr(sb, im, owner, j, p / BSIZE);
    hide RefsOk, OwnedOk, Marked, AddrOf;
    assert AddrOf(im'.disk, im'.inodes[j], p / BSIZE) ==
             if j == i && p / BSIZE == m then b else AddrOf(im.disk, im.inodes[j], p / BSIZE);
  }

  lemma LinkIndirectRaw(sb: Super, im: Image, owner: seq<Owner>, i: nat, b: nat)
    requires FsInv(sb, im, owner) && i < |im.inodes| && im.inodes[i].addrs[NDIRECT] == 0 && 0 < b < sb.size
    requires im.disk[b] == Zeros()
    ensures var im' := im.(inodes := im.inodes[i := im.inodes[i].(addrs := im.inodes[i].addrs[NDIRECT := b])]);
            ImageOk(sb, im') && SameFiles(sb, im, im')
  {
    var im' := im.(inodes := im.inodes[i := im.inodes[i].(addrs := im.inodes[i].addrs[NDIRECT := b])]);
    hide RefsOk, OwnedOk, Marked;
    forall k: nat | k < NINDIRECT ensures Word(im.disk[b], k) == 0 {}
    hide Word;
    forall j, p: nat | 0 <= j < |im.inodes| && p < MAXFILE * BSIZE
      ensures Raw(im'.disk, im'.inodes[j], p) == Raw(im.disk, im.inodes[j], p) {}
  }

  /** A block with bytes lo, lo + 1, ... replaced. */
  function Patch(x: seq<byte>, lo: nat, bytes: seq<byte>): seq<byte>
    requires lo + |bytes| <= |x|
  { x[..lo] + bytes + x[lo + |bytes|..] }

  /** Writing part of block bn of file i changes exactly those bytes of that file. */
  lemma WriteRaw(sb: Super, im: Image, owner: seq<Owner>, i: nat, bn: nat, lo: nat, bytes: seq<byte>, j: nat, p: nat)
    requires FsInv(sb, im, owner) && i < |im.inodes| && j < |im.inodes| && bn < MAXFILE && lo + |bytes| <= BSIZE
    requires p < MAXFILE * BSIZE
    requires AddrOf(im.disk, im.inodes[i], bn) != 0
    ensures var a := AddrOf(im.disk, im.inodes[i], bn);
            && a < |im.disk| && |im.disk[a]| == BSIZE && owner[a] == Data(i, bn)
            && var disk' := im.disk[a := Patch(im.disk[a], lo, bytes)];
            && Blocks(sb, disk')
            && Raw(disk', im.inodes[j], p) ==
               if j == i && bn * BSIZE + lo <= p < bn * BSIZE + lo + |bytes| then bytes[p - bn * BSIZE - lo]
               else Raw(im.disk, im.inodes[j], p)
  {
    OwnedAddr(sb, im, owner, i, bn);
    OwnedAddr(sb, im, owner, j, p / BSIZE);
    hide RefsOk, OwnedOk, Marked, Word;
    var a := AddrOf(im.disk, im.inodes[i], bn);
    var disk' := im.disk[a := Patch(im.disk[a], lo, bytes)];
    assert AddrOf(disk', im.inodes[j], p / BSIZE) == AddrOf(im.disk, im.inodes[j], p / BSIZE);
    if AddrOf(im.disk, im.inodes[j], p / BSIZE) == a { assert j == i && p / BSIZE == bn; }
  }

  /** File bytes from off on replaced, the file growing if need be. */
  function Splice(c: seq<byte>, off: nat, bytes: seq<byte>): seq<byte>
    requires off <= |c|
  { if off + |bytes| <= |c| then Patch(c, off, bytes) else c[..off] + bytes }

  /** File i got the given bytes at off; every other byte of every file, and every other inode, is
      as it was. */
  ghost predicate Written(sb: Super, im: Image, im': Image, i: nat, off: nat, bytes: seq<byte>)
    requires ImageOk(sb, im) && ImageOk(sb, im') && i < |im.inodes|
  {
    && (forall j :: 0 <= j < |im.inodes| ==> im'.inodes[j].size == im.inodes[j].size)
    && (forall j :: 0 <= j < |im.inodes| && j != i ==> im'.inodes[j] == im.inodes[j])
    && (forall j, p: nat :: 0 <= j < |im.inodes| && p < MAXFILE * BSIZE ==>
          Raw(im'.disk, im'.inodes[j], p) ==
            if j == i && off <= p < off + |bytes| then bytes[p - off] else Raw(im.disk, im.inodes[j], p))
  }

  lemma WrittenMore(sb: Super, im: Image, im1: Image, im2: Image, i: nat, off: nat, a: seq<byte>, b: seq<byte>)
    requires ImageOk(sb, im) && ImageOk(sb, im1) && ImageOk(sb, im2) && i < |im.inodes|
    requires Written(sb, im, im1, i, off, a) && Written(sb, im1, im2, i, off + |a|, b)
    ensures Written(sb, im, im2, i, off, a + b)
  {
    hide Raw, AddrOf;
    forall j, p: nat | 0 <= j < |im.inodes| && p < MAXFILE * BSIZE
      ensures Raw(im2.disk, im2.inodes[j], p) ==
              if j == i && off <= p < off + |a + b| then (a + b)[p - off] else Raw(im.disk, im.inodes[j], p) {
      assert Raw(im1.disk, im1.inodes[j], p) ==
               if j == i && off <= p < off + |a| then a[p - off] else Raw(im.disk, im.inodes[j], p);
    }
  }

  /** Writing into a mapped block. */
  lemma BlockWritten(sb: Super, im: Image, owner: seq<Owner>, i: nat, pos: nat, bytes: seq<byte>)
    requires FsInv(sb, im, owner) && i < |im.inodes| && pos < MAXFILE * BSIZE && pos % BSIZE + |bytes| <= BSIZE
    requires AddrOf(im.disk, im.inodes[i], pos / BSIZE) != 0
    ensures var a := AddrOf(im.disk, im.inodes[i], pos / BSIZE);
            && a < |im.disk| && |im.disk[a]| == BSIZE
            && var im' := im.(disk := im.disk[a := Patch(im.disk[a], pos % BSIZE, bytes)]);
            FsInv(sb, im', owner) && Written(sb, im, im', i, pos, bytes)
  {
    hide RefsOk, OwnedOk, Marked, Raw, AddrOf;
    WriteRaw(sb, im, owner, i, pos / BSIZE, pos % BSIZE, bytes, i, 0);
    OwnedAddr(sb, im, owner, i, pos / BSIZE);
    var a := AddrOf(im.disk, im.inodes[i], pos / BSIZE);
    var im' := im.(disk := im.disk[a := Patch(im.disk[a], pos % BSIZE, bytes)]);
    WriteInv(sb, im, owner, a, Patch(im.disk[a], pos % BSIZE, bytes));
    forall j, p: nat | 0 <= j < |im.inodes| && p < MAXFILE * BSIZE
      ensures Raw(im'.disk, im'.inodes[j], p) ==
              if j == i && pos <= p < pos + |bytes| then bytes[p - pos] else Raw(im.disk, im.inodes[j], p) {
      WriteRaw(sb, im, owner, i, pos / BSIZE, pos % BSIZE, bytes, j, p);
    }
  }

  function Max(a: nat, b: nat): nat { if a < b then b else a }

  /** The file after a write of which the first r bytes count. */
  lemma WrittenContents(sb: Super, im: Image, im1: Image, i: nat, off: nat, bytes: seq<byte>, r: nat)
    requires ImageOk(sb, im) && ImageOk(sb, im1) && i < |im.inodes| && Written(sb, im, im1, i, off, bytes)
    requires r <= |bytes| && off <= im.inodes[i].size && off + |bytes| <= MAXFILE * BSIZE
    ensures var size := Max(im.inodes[i].size, off + r);
            var im2 := im1.(inodes := im1.inodes[i := im1.inodes[i].(size := size)]);
            && ImageOk(sb, im2)
            && size <= |Splice(Contents(sb, im, i), off, bytes)|
            && Contents(sb, im2, i) == Splice(Contents(sb, im, i), off, bytes)[..size]
            && forall j :: 0 <= j < |im.inodes| && j != i ==> Contents(sb, im2, j) == Contents(sb, im, j)
  {
    hide Raw, AddrOf;
    var size := Max(im.inodes[i].size, off + r);
    var im2 := im1.(inodes := im1.inodes[i := im1.inodes[i].(size := size)]);
    assert InodeOk(sb, im1.inodes[i]);
    assert ImageOk(sb, im2);
    forall j | 0 <= j < |im.inodes| && j != i ensures Contents(sb, im2, j) == Contents(sb, im, j) {
      OtherContents(sb, im, im1, im2, i, off, bytes, j);
    }
    var c, c' := Contents(sb, im, i), Contents(sb, im2, i);
    forall p | 0 <= p < size ensures c'[p] == if off <= p < off + |bytes| then bytes[p - off] else c[p] {
      SizeRaw(im1.disk, im1.inodes[i], size, p);
      assert Raw(im1.disk, im1.inodes[i], p) ==
               if off <= p < off + |bytes| then bytes[p - off] else Raw(im.disk, im.inodes[i], p);
    }
    SplicedAt(c, c', off, bytes);
  }

  /** The size has no part in where bytes are. */
  lemma SizeRaw(disk: seq<seq<byte>>, ino: Inode, size: nat, p: nat)
    requires |ino.addrs| == NDIRECT + 1 && p < MAXFILE * BSIZE
    requires ino.addrs[NDIRECT] == 0 || (ino.addrs[NDIRECT] < |disk| && |disk[ino.addrs[NDIRECT]]| == BSIZE)
    ensures Raw(disk, ino.(size := size), p) == Raw(disk, ino, p)
  {}

  lemma SplicedAt(c: seq<byte>, c': seq<byte>, off: nat, bytes: seq<byte>)
    requires off <= |c| <= |c'| <= Max(|c|, off + |bytes|)
    requires forall p :: 0 <= p < |c'| ==> c'[p] == if off <= p < off + |bytes| then bytes[p - off] else c[p]
    ensures |c'| <= |Splice(c, off, bytes)| && c' == Splice(c, off, bytes)[..|c'|]
  {}

  lemma OtherContents(sb: Super, im: Image, im1: Image, im2: Image, i: nat, off: nat, bytes: seq<byte>, j: nat)
    requires ImageOk(sb, im) && ImageOk(sb, im1) && ImageOk(sb, im2) && i < |im.inodes|
    requires Written(sb, im, im1, i, off, bytes)
    requires j < |im.inodes| && j != i && im2.disk == im1.disk && im2.inodes[j] == im1.inodes[j]
    ensures Contents(sb, im2, j) == Contents(sb, im, j)
  {
    hide Raw, AddrOf;
    assert InodeOk(sb, im.inodes[j]);
    forall p | 0 <= p < im.inodes[j].size ensures Raw(im2.disk, im2.inodes[j], p) == Raw(im.disk, im.inodes[j], p) {}
  }

  /** Every referenced block is in use, is not metadata, and is referenced once: two slots that name
      the same block are the same slot, and no data block is an indirect block. */
  lemma OneReference(sb: Super, im: Image, owner: seq<Owner>, i: nat, bn: nat, j: nat, bm: nat)
    requires FsInv(sb, im, owner) && i < |im.inodes| && j < |im.inodes| && bn < MAXFILE && bm < MAXFILE
    requires AddrOf(im.disk, im.inodes[i], bn) != 0
    ensures var a := AddrOf(im.disk, im.inodes[i], bn);
            && sb.nmeta <= a < sb.size && BBlock(sb, a) < sb.size && InUse(sb, im.disk, a)
            && (a == AddrOf(im.disk, im.inodes[j], bm) ==> i == j && bn == bm) && a != im.inodes[j].addrs[NDIRECT]
            && (im.inodes[j].addrs[NDIRECT] != 0 && im.inodes[j].addrs[NDIRECT] == im.inodes[i].addrs[NDIRECT] ==>
                  i == j)
  {
    OwnedAddr(sb, im, owner, i, bn);
    OwnedAddr(sb, im, owner, j, bm);
    hide RefsOk, OwnedOk, Bit, Word;
  }

  /** No block is lost: one in use and not held is metadata or has its one reference. */
  lemma NoneLost(sb: Super, im: Image, owner: seq<Owner>, b: nat)
    requires FsInv(sb, im, owner) && sb.nmeta <= b < sb.size && !owner[b].Held?
    ensures BBlock(sb, b) < sb.size
    ensures InUse(sb, im.disk, b) <==>
            (exists i: nat ::
               && i < |im.inodes|
               && (|| im.inodes[i].addrs[NDIRECT] == b
                   || exists bn: nat :: bn < MAXFILE && AddrOf(im.disk, im.inodes[i], bn) == b))
  {
    hide Bit, Word;
    if InUse(sb, im.disk, b) {
      assert owner[b].Data? || owner[b].Indirect?;
      if owner[b].Data? { assert AddrOf(im.disk, im.inodes[owner[b].inum], owner[b].bn) == b; }
    } else {
      forall i: nat, bn: nat | i < |im.inodes| && bn < MAXFILE
        ensures im.inodes[i].addrs[NDIRECT] != b && AddrOf(im.disk, im.inodes[i], bn) != b {
        OwnedAddr(sb, im, owner, i, bn);
      }
    }
  }
}
