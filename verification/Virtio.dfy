/** The disk driver and the device it shares its rings with (sections 2.6 and 5.2 of virtio 1.1).
    The driver's methods run under the disk lock; the device takes requests and completes them in
    any order between them. Ring indices are 16 bits wide and wrap. */
module Virtio {
  import opened Common
  import opened Sv39

  const NUM: nat := 8
  const WRAP: nat := 0x1_0000

  const BSIZE: nat := 1024

  type Block = s: seq<byte> | |s| == BSIZE witness seq(BSIZE, _ => 0)

  /** Where a descriptor points. */
  datatype Addr = Null | OpOf(i: nat) | DataOf(b: nat) | StatusOf(i: nat)
  datatype Desc = Desc(addr: Addr, len: nat, next: nat, hasNext: bool, deviceWrites: bool)
  datatype Op = Op(write: bool, sector: nat)
  datatype Info = Info(b: Option<nat>, status: nat)

  /** A request in flight: in the avail ring, with the device, in the used ring, or seen. */
  datatype Phase = Offered | Taken | Used | Seen
  datatype Req = Req(b: nat, blockno: nat, write: bool, d1: nat, d2: nat, phase: Phase)

  const NODESC := Desc(Null, 0, 0, false, false)

  /** virtio_disk_rw's sector: a 32-bit product. */
  function Sector(blockno: nat): nat { blockno * (BSIZE / 512) % 0x1_0000_0000 }

  /** The device's medium is so many bytes, addressed by sectors of 512; a transfer of n bytes covers
      the sectors from the one the request names. */
  predicate Room(store: seq<byte>, sector: nat, n: nat) { 512 * sector + n <= |store| }

  function Fetch(store: seq<byte>, sector: nat, n: nat): seq<byte>
    requires Room(store, sector, n)
  { store[512 * sector..512 * sector + n] }

  function Put(store: seq<byte>, sector: nat, bytes: seq<byte>): seq<byte>
    requires Room(store, sector, |bytes|)
  { store[..512 * sector] + bytes + store[512 * sector + |bytes|..] }

  /** Two blocks lie apart on the medium, in the order of their numbers; the product names the block
      exactly when it does not overflow. */
  lemma SectorsApart(b: nat, c: nat)
    ensures Sector(b) == 2 * b <==> b < 0x8000_0000
    ensures b < c < 0x8000_0000 ==> Sector(b) + 2 <= Sector(c)
    ensures Sector(b + 0x8000_0000) == Sector(b)
  {}

  /** Block b of the medium. */
  ghost predicate HasBlock(store: seq<byte>, b: nat) { b < 0x8000_0000 && 1024 * b + 1024 <= |store| }

  ghost function BlockAt(store: seq<byte>, b: nat): (r: Block)
    requires HasBlock(store, b)
  { store[1024 * b..1024 * b + 1024] }

  /** The medium changes in block b, which becomes `bytes`, and in no other. */
  ghost predicate PutOne(store: seq<byte>, store': seq<byte>, b: nat, bytes: Block) {
    && |store'| == |store|
    && forall c {:trigger HasBlock(store, c)} ::
         HasBlock(store, c) ==> BlockAt(store', c) == if b == c then bytes else BlockAt(store, c)
  }

  lemma PutOneBlock(store: seq<byte>, b: nat, bytes: Block)
    requires HasBlock(store, b)
    ensures Room(store, Sector(b), BSIZE) && Fetch(store, Sector(b), BSIZE) == BlockAt(store, b)
    ensures PutOne(store, Put(store, Sector(b), bytes), b, bytes)
  {
    hide BlockAt, Fetch, Put;
    PutBlock(store, b, b, bytes);
    forall c | HasBlock(store, c)
      ensures BlockAt(Put(store, Sector(b), bytes), c) == if b == c then bytes else BlockAt(store, c) {
      PutBlock(store, b, c, bytes);
    }
  }

  /** A block reads back as it was written, and no other block changes. */
  lemma PutBlock(store: seq<byte>, b: nat, c: nat, bytes: Block)
    requires HasBlock(store, b) && HasBlock(store, c)
    ensures Room(store, Sector(b), BSIZE) && Fetch(store, Sector(b), BSIZE) == BlockAt(store, b)
    ensures |Put(store, Sector(b), bytes)| == |store|
    ensures BlockAt(Put(store, Sector(b), bytes), c) == if b == c then bytes else BlockAt(store, c)
  {
    var after := Put(store, Sector(b), bytes);
    if b == c {
      assert BlockAt(after, c) == bytes;
    } else {
      assert BlockAt(after, c) == BlockAt(store, c);
    }
  }

  predicate InChain(h: nat, r: Req, i: nat) { i == h || i == r.d1 || i == r.d2 }

  function NumFree(free: seq<bool>): nat {
    if free == [] then 0 else NumFree(free[..|free| - 1]) + (if free[|free| - 1] then 1 else 0)
  }

  lemma {:induction false} NumFreeSet(free: seq<bool>, i: nat, v: bool)
    requires i < |free| && free[i] != v
    ensures NumFree(free[i := v]) == NumFree(free) + (if v then 1 else -1)
  {
    var n := |free| - 1;
    if i < n {
      NumFreeSet(free[..n], i, v);
      assert free[i := v][..n] == free[..n][i := v];
    } else {
      assert free[i := v][..n] == free[..n];
    }
  }

  lemma {:induction false} NumFreeNone(free: seq<bool>)
    requires forall i :: 0 <= i < |free| ==> !free[i]
    ensures NumFree(free) == 0
  {
    if free != [] { NumFreeNone(free[..|free| - 1]); }
  }

  lemma {:induction false} NumFreeAll(free: seq<bool>)
    requires forall i :: 0 <= i < |free| ==> free[i]
    ensures NumFree(free) == |free|
  {
    if free != [] { NumFreeAll(free[..|free| - 1]); }
  }

  /** The chain of a request, as the driver formatted it. */
  ghost predicate Formatted(desc: seq<Desc>, info: seq<Info>, ops: seq<Op>, h: nat, r: Req) {
    && h < |desc| == |info| == |ops| && r.d1 < |desc| && r.d2 < |desc|
    && desc[h] == Desc(OpOf(h), 16, r.d1, true, false)
    && desc[r.d1] == Desc(DataOf(r.b), BSIZE, r.d2, true, !r.write)
    && desc[r.d2] == Desc(StatusOf(h), 1, 0, false, true)
    && ops[h] == Op(r.write, Sector(r.blockno)) && info[h].b == Some(r.b)
  }

  /** Entries from the reader's index on, at their places in the ring. */
  ghost predicate RingHolds(ring: seq<nat>, from: nat, entries: seq<nat>) {
    |ring| == NUM && |entries| <= NUM && forall k :: 0 <= k < |entries| ==> ring[(from + k) % NUM] == entries[k]
  }

  /** The free descriptors and the chains in flight: disjoint, and between them all there are. */
  ghost predicate Chains(free: seq<bool>, desc: seq<Desc>, reqs: map<nat, Req>) {
    && |free| == |desc| == NUM && NumFree(free) + 3 * |reqs| == NUM
    && (forall h ::
          h in reqs ==>
            && h < NUM && reqs[h].d1 < NUM && reqs[h].d2 < NUM && h != reqs[h].d1 && h != reqs[h].d2
            && reqs[h].d1 != reqs[h].d2)
    && (forall g, h, i: nat :: g in reqs && h in reqs && InChain(g, reqs[g], i) && InChain(h, reqs[h], i) ==> g == h)
    && (forall h, i: nat :: h in reqs && InChain(h, reqs[h], i) && i < NUM ==> !free[i])
    && (forall i :: 0 <= i < NUM && free[i] ==> desc[i] == NODESC)
  }

  /** Each request's chain says what to do with which buffer, and no two requests share a buffer. */
  ghost predicate Requests(desc: seq<Desc>, info: seq<Info>, ops: seq<Op>, reqs: map<nat, Req>, busy: set<nat>) {
    && |desc| == |info| == |ops| == NUM
    && (forall h :: h in reqs ==> h < NUM && Formatted(desc, info, ops, h, reqs[h]))
    && (forall g, h :: g in reqs && h in reqs && reqs[g].b == reqs[h].b ==> g == h)
    && (forall h :: h in reqs ==> (reqs[h].b in busy <==> !reqs[h].phase.Seen?))
    && (forall h :: h in reqs && reqs[h].phase.Used? ==> info[h].status == 0)
  }

  /** A ring's unread entries are the requests in one phase, each once. */
  ghost predicate Entries(reqs: map<nat, Req>, entries: seq<nat>, ph: Phase) {
    && Distinct(entries)
    && (forall k :: 0 <= k < |entries| ==> entries[k] in reqs && reqs[entries[k]].phase == ph)
    && (forall h :: h in reqs && reqs[h].phase == ph ==> h in entries)
  }

  ghost predicate Ring(ring: seq<nat>, reader: nat, writer: nat, entries: seq<nat>) {
    && reader < WRAP && writer == (reader + |entries|) % WRAP && RingHolds(ring, reader, entries)
  }

  datatype Queue = Queue(free: seq<bool>, desc: seq<Desc>, info: seq<Info>, ops: seq<Op>, aring: seq<nat>,
                         uring: seq<nat>,
                         availIdx: nat, devAvail: nat, usedIdx: nat, devUsed: nat, busy: set<nat>,
                         reqs: map<nat, Req>, offered: seq<nat>, used: seq<nat>)

  ghost predicate QueueInv(q: Queue) {
    && Chains(q.free, q.desc, q.reqs) && Requests(q.desc, q.info, q.ops, q.reqs, q.busy)
    && Entries(q.reqs, q.offered, Offered) && Ring(q.aring, q.devAvail, q.availIdx, q.offered)
    && Entries(q.reqs, q.used, Used) && Ring(q.uring, q.usedIdx, q.devUsed, q.used)
  }

  /** At most two requests are in flight. */
  lemma AtMostTwo(q: Queue)
    requires QueueInv(q)
    ensures |q.reqs| <= 2 && NumFree(q.free) + 3 * |q.reqs| == NUM
  {}

  lemma {:induction false} FewEntries(s: seq<nat>, keys: set<nat>)
    requires Distinct(s) && forall k :: 0 <= k < |s| ==> s[k] in keys
    ensures |s| <= |keys|
  {
    if s != [] {
      var n := |s| - 1;
      FewEntries(s[..n], keys - {s[n]});
    }
  }

  lemma FewUnread(q: Queue, entries: seq<nat>, ph: Phase)
    requires QueueInv(q) && Entries(q.reqs, entries, ph)
    ensures |entries| <= |q.reqs| <= 2
  {
    FewEntries(entries, q.reqs.Keys);
    assert |q.reqs.Keys| == |q.reqs|;
  }

  /** A 16-bit index names the same place in the ring before and after it wraps. */
  lemma WrapPlace(i: nat)
    ensures i % WRAP % NUM == i % NUM
  {}

  /** Adding an entry overwrites no unread one, whatever the indices. */
  lemma RingAdd(ring: seq<nat>, reader: nat, writer: nat, entries: seq<nat>, x: nat)
    requires Ring(ring, reader, writer, entries) && |entries| < NUM
    ensures Ring(ring[writer % NUM := x], reader, (writer + 1) % WRAP, entries + [x])
  {
    WrapPlace(reader + |entries|);
    var es := entries + [x];
    forall k | 0 <= k < |es| ensures ring[writer % NUM := x][(reader + k) % NUM] == es[k] {
      if k < |entries| { assert (reader + k) % NUM != (reader + |entries|) % NUM by { Apart(reader, k, |entries|); } }
    }
  }

  lemma Apart(r: nat, j: nat, k: nat)
    requires j < k < NUM
    ensures (r + j) % NUM != (r + k) % NUM
  {}

  lemma RingTake(ring: seq<nat>, reader: nat, writer: nat, entries: seq<nat>)
    requires Ring(ring, reader, writer, entries) && entries != []
    ensures ring[reader % NUM] == entries[0] && Ring(ring, (reader + 1) % WRAP, writer, entries[1..])
  {
    WrapPlace(reader + 1);
    forall k | 0 <= k < |entries| - 1 ensures ring[((reader + 1) % WRAP + k) % NUM] == entries[1..][k] {
      Shifted(reader, k);
      assert entries[1..][k] == entries[k + 1];
    }
  }

  lemma Shifted(r: nat, k: nat)
    ensures ((r + 1) % WRAP + k) % NUM == (r + (k + 1)) % NUM
  {}

  /** The driver sees new completions exactly when there are some. */
  lemma RingEmpty(ring: seq<nat>, reader: nat, writer: nat, entries: seq<nat>)
    requires Ring(ring, reader, writer, entries)
    ensures reader == writer <==> entries == []
  {}

  // ---------- what each step does to the queue ----------

  /** Buffer b is in no request: its caller holds its lock. */
  ghost predicate Idle(q: Queue, b: nat) { b !in q.busy && forall h :: h in q.reqs ==> q.reqs[h].b != b }

  ghost predicate ThreeFree(q: Queue, h: nat, d1: nat, d2: nat) {
    && |q.free| == NUM && h < NUM && d1 < NUM && d2 < NUM && h != d1 && h != d2 && d1 != d2 && q.free[h] && q.free[d1]
    && q.free[d2]
    && |q.desc| == |q.info| == |q.ops| == |q.aring| == NUM
  }

  /** virtio_disk_rw up to the notification. */
  ghost function Submitted(q: Queue, h: nat, d1: nat, d2: nat, b: nat, blockno: nat, write: bool): Queue
    requires ThreeFree(q, h, d1, d2)
  {
    q.(free := q.free[h := false][d1 := false][d2 := false],
       desc := q.desc[h := Desc(OpOf(h), 16, d1, true, false)][d1 := Desc(DataOf(b), BSIZE, d2, true,
           !write)][d2 := Desc(StatusOf(h), 1, 0, false, true)],
       info := q.info[h := Info(Some(b), 0xff)], ops := q.ops[h := Op(write, Sector(blockno))],
       aring := q.aring[q.availIdx % NUM := h], availIdx := (q.availIdx + 1) % WRAP, busy := q.busy + {b},
       reqs := q.reqs[h := Req(b, blockno, write, d1, d2, Offered)], offered := q.offered + [h])
  }

  lemma NotInChain(q: Queue, i: nat)
    requires Chains(q.free, q.desc, q.reqs) && i < NUM && q.free[i]
    ensures i !in q.reqs && forall h :: h in q.reqs ==> !InChain(h, q.reqs[h], i)
  {
    forall h | h in q.reqs ensures !InChain(h, q.reqs[h], i) {}
    if i in q.reqs { assert InChain(i, q.reqs[i], i); }
  }

  lemma OneMore(reqs: map<nat, Req>, h: nat, r: Req)
    ensures |reqs[h := r]| == |reqs| + (if h in reqs then 0 else 1)
  {
    assert |reqs| == |reqs.Keys| && |reqs[h := r]| == |reqs[h := r].Keys|;
    assert reqs[h := r].Keys == reqs.Keys + {h};
  }

  lemma SubmittedFree(q: Queue, h: nat, d1: nat, d2: nat)
    requires ThreeFree(q, h, d1, d2)
    ensures NumFree(q.free[h := false][d1 := false][d2 := false]) == NumFree(q.free) - 3
  {
    NumFreeSet(q.free, h, false);
    NumFreeSet(q.free[h := false], d1, false);
    NumFreeSet(q.free[h := false][d1 := false], d2, false);
  }

  lemma SubmittedChains(q: Queue, h: nat, d1: nat, d2: nat, b: nat, blockno: nat, write: bool)
    requires Chains(q.free, q.desc, q.reqs) && ThreeFree(q, h, d1, d2)
    ensures var q' := Submitted(q, h, d1, d2, b, blockno, write); Chains(q'.free, q'.desc, q'.reqs)
  {
    hide NumFree;
    NotInChain(q, h);
    NotInChain(q, d1);
    NotInChain(q, d2);
    SubmittedFree(q, h, d1, d2);
    OneMore(q.reqs, h, Req(b, blockno, write, d1, d2, Offered));
    var q' := Submitted(q, h, d1, d2, b, blockno, write);
    forall g, k, i: nat | g in q'.reqs && k in q'.reqs && InChain(g, q'.reqs[g], i) && InChain(k, q'.reqs[k], i)
      ensures g == k {}
    forall g, i: nat | g in q'.reqs && InChain(g, q'.reqs[g], i) && i < NUM ensures !q'.free[i] {}
  }

  lemma SubmittedRequests(q: Queue, h: nat, d1: nat, d2: nat, b: nat, blockno: nat, write: bool)
    requires Requests(q.desc, q.info, q.ops, q.reqs, q.busy) && ThreeFree(q, h, d1, d2) && Idle(q, b) && h !in q.reqs
    requires forall g, i :: g in q.reqs && (i == h || i == d1 || i == d2) ==> !InChain(g, q.reqs[g], i)
    ensures var q' := Submitted(q, h, d1, d2, b, blockno, write); Requests(q'.desc, q'.info, q'.ops, q'.reqs, q'.busy)
  {
    hide Formatted, Submitted, InChain;
    SubmittedParts(q, h, d1, d2, b, blockno, write);
    var q' := Submitted(q, h, d1, d2, b, blockno, write);
    forall g | g in q'.reqs ensures Formatted(q'.desc, q'.info, q'.ops, g, q'.reqs[g]) {
      if g != h { SubmittedKept(q, h, d1, d2, b, blockno, write, g); } else {
        NewFormatted(q, h, d1, d2, b, blockno, write);
      }
    }
  }

  lemma SubmittedKept(q: Queue, h: nat, d1: nat, d2: nat, b: nat, blockno: nat, write: bool, g: nat)
    requires ThreeFree(q, h, d1, d2) && g in q.reqs && g != h && g < NUM
    requires Formatted(q.desc, q.info, q.ops, g, q.reqs[g])
    requires !InChain(g, q.reqs[g], h) && !InChain(g, q.reqs[g], d1) && !InChain(g, q.reqs[g], d2)
    ensures var q' := Submitted(q, h, d1, d2, b, blockno, write); Formatted(q'.desc, q'.info, q'.ops, g, q'.reqs[g])
  {
    hide Formatted;
    FormattedKept(q, Submitted(q, h, d1, d2, b, blockno, write), g);
  }

  lemma SubmittedParts(q: Queue, h: nat, d1: nat, d2: nat, b: nat, blockno: nat, write: bool)
    requires ThreeFree(q, h, d1, d2)
    ensures var q' := Submitted(q, h, d1, d2, b, blockno, write);
            && |q'.desc| == |q'.info| == |q'.ops| == NUM && q'.busy == q.busy + {b}
            && q'.reqs == q.reqs[h := Req(b, blockno, write, d1, d2, Offered)]
            && forall i :: 0 <= i < NUM && i != h ==> q'.info[i] == q.info[i]
  {}

  lemma NewFormatted(q: Queue, h: nat, d1: nat, d2: nat, b: nat, blockno: nat, write: bool)
    requires ThreeFree(q, h, d1, d2)
    ensures var q' := Submitted(q, h, d1, d2, b, blockno, write); Formatted(q'.desc, q'.info, q'.ops, h, q'.reqs[h])
  {}

  /** A chain none of whose descriptors changed. */
  lemma FormattedKept(q: Queue, q': Queue, g: nat)
    requires g in q.reqs && g in q'.reqs && q'.reqs[g] == q.reqs[g] && Formatted(q.desc, q.info, q.ops, g, q.reqs[g])
    requires |q'.desc| == |q'.info| == |q'.ops| == |q.desc| == |q.info| == |q.ops|
    requires forall i :: 0 <= i < |q.desc| && InChain(g, q.reqs[g], i) ==> q'.desc[i] == q.desc[i]
    requires q'.info[g].b == q.info[g].b && q'.ops[g] == q.ops[g]
    ensures Formatted(q'.desc, q'.info, q'.ops, g, q'.reqs[g])
  {
    assert InChain(g, q.reqs[g], g) && InChain(g, q.reqs[g], q.reqs[g].d1) && InChain(g, q.reqs[g], q.reqs[g].d2);
  }

  lemma EntriesNew(reqs: map<nat, Req>, es: seq<nat>, ph: Phase, h: nat, r: Req)
    requires Entries(reqs, es, ph) && h !in reqs
    ensures Entries(reqs[h := r], if r.phase == ph then es + [h] else es, ph)
  {}

  lemma SubmittedInv(q: Queue, h: nat, d1: nat, d2: nat, b: nat, blockno: nat, write: bool)
    requires QueueInv(q) && ThreeFree(q, h, d1, d2) && Idle(q, b)
    ensures QueueInv(Submitted(q, h, d1, d2, b, blockno, write))
  {
    hide Chains, Requests, Entries, Ring;
    SubmittedChains(q, h, d1, d2, b, blockno, write);
    NotInChain(q, h);
    NotInChain(q, d1);
    NotInChain(q, d2);
    SubmittedRequests(q, h, d1, d2, b, blockno, write);
    FewUnread(q, q.offered, Offered);
    RingAdd(q.aring, q.devAvail, q.availIdx, q.offered, h);
    EntriesNew(q.reqs, q.offered, Offered, h, Req(b, blockno, write, d1, d2, Offered));
    EntriesNew(q.reqs, q.used, Used, h, Req(b, blockno, write, d1, d2, Offered));
  }

  ghost function SetPhase(reqs: map<nat, Req>, h: nat, ph: Phase): map<nat, Req>
    requires h in reqs
  { reqs[h := reqs[h].(phase := ph)] }

  lemma SetPhaseChains(q: Queue, h: nat, ph: Phase)
    requires Chains(q.free, q.desc, q.reqs) && h in q.reqs
    ensures Chains(q.free, q.desc, SetPhase(q.reqs, h, ph))
  {
    hide NumFree;
    OneMore(q.reqs, h, q.reqs[h].(phase := ph));
    var reqs' := SetPhase(q.reqs, h, ph);
    forall g, i: nat | g in q.reqs ensures InChain(g, reqs'[g], i) == InChain(g, q.reqs[g], i) {}
    hide InChain;
  }

  /** A phase change seen by a ring: the first entry leaves, a new one arrives, or neither. */
  lemma EntriesDrop(reqs: map<nat, Req>, es: seq<nat>, ph: Phase, ph2: Phase)
    requires Entries(reqs, es, ph) && es != [] && ph2 != ph
    ensures es[0] in reqs && Entries(SetPhase(reqs, es[0], ph2), es[1..], ph)
  {
    assert es == [es[0]] + es[1..];
  }

  lemma EntriesAdd(reqs: map<nat, Req>, es: seq<nat>, ph: Phase, h: nat)
    requires Entries(reqs, es, ph) && h in reqs && reqs[h].phase != ph
    ensures Entries(SetPhase(reqs, h, ph), es + [h], ph)
  {}

  lemma EntriesOther(reqs: map<nat, Req>, es: seq<nat>, ph: Phase, h: nat, ph2: Phase)
    requires Entries(reqs, es, ph) && h in reqs && reqs[h].phase != ph && ph2 != ph
    ensures Entries(SetPhase(reqs, h, ph2), es, ph)
  {}

  /** Changing a request's phase, and with it its status and whether its buffer is the device's. */
  lemma RequestsPhase(q: Queue, h: nat, ph: Phase, info: seq<Info>, busy: set<nat>)
    requires Requests(q.desc, q.info, q.ops, q.reqs, q.busy) && h in q.reqs && h < |q.info|
    requires info == q.info[h := q.info[h].(status := if ph.Used? then 0 else q.info[h].status)]
    requires busy == if ph.Seen? then q.busy - {q.reqs[h].b} else q.busy
    requires q.reqs[h].phase.Seen? ==> ph.Seen?
    ensures Requests(q.desc, info, q.ops, SetPhase(q.reqs, h, ph), busy)
  {
    hide Formatted;
    var reqs' := SetPhase(q.reqs, h, ph);
    forall g | g in q.reqs
      ensures Formatted(q.desc, info, q.ops, g, reqs'[g]) { PhaseFormatted(q, info, g, reqs'[g].phase); }
  }

  lemma PhaseFormatted(q: Queue, info: seq<Info>, g: nat, ph: Phase)
    requires g in q.reqs && g < |q.info| == |info| && Formatted(q.desc, q.info, q.ops, g, q.reqs[g])
    requires info[g].b == q.info[g].b
    ensures Formatted(q.desc, info, q.ops, g, q.reqs[g].(phase := ph))
  {}

  lemma RequestsLens(q: Queue)
    requires QueueInv(q)
    ensures |q.desc| == |q.info| == |q.ops| == |q.free| == |q.aring| == |q.uring| == NUM
    ensures forall h :: h in q.reqs ==> h < NUM && q.info[h].b == Some(q.reqs[h].b)
  {
    forall h | h in q.reqs
      ensures h < NUM && q.info[h].b == Some(q.reqs[h].b) { assert Formatted(q.desc, q.info, q.ops, h, q.reqs[h]); }
  }

  /** The device takes the next offered request. */
  ghost function TakenNext(q: Queue): Queue
    requires q.offered != [] && q.offered[0] in q.reqs
  { q.(devAvail := (q.devAvail + 1) % WRAP, reqs := SetPhase(q.reqs, q.offered[0], Taken), offered := q.offered[1..]) }

  lemma FirstEntry(reqs: map<nat, Req>, es: seq<nat>, ph: Phase)
    requires Entries(reqs, es, ph) && es != []
    ensures es[0] in reqs && reqs[es[0]].phase == ph
  {}

  lemma TakenInv(q: Queue)
    requires QueueInv(q) && q.offered != []
    ensures q.offered[0] in q.reqs && |q.aring| == NUM && q.aring[q.devAvail % NUM] == q.offered[0]
    ensures QueueInv(TakenNext(q))
  {
    hide Chains, Requests, Entries, Ring;
    RequestsLens(q);
    FirstEntry(q.reqs, q.offered, Offered);
    var h := q.offered[0];
    SetPhaseChains(q, h, Taken);
    RequestsPhase(q, h, Taken, q.info, q.busy);
    RingTake(q.aring, q.devAvail, q.availIdx, q.offered);
    EntriesDrop(q.reqs, q.offered, Offered, Taken);
    EntriesOther(q.reqs, q.used, Used, h, Taken);
  }

  /** The device reports a request done. */
  ghost function Completed(q: Queue, h: nat): Queue
    requires h in q.reqs && h < |q.info| && |q.uring| == NUM
  {
    q.(info := q.info[h := q.info[h].(status := 0)], uring := q.uring[q.devUsed % NUM := h],
       devUsed := (q.devUsed + 1) % WRAP,
       reqs := SetPhase(q.reqs, h, Used), used := q.used + [h])
  }

  lemma CompletedInv(q: Queue, h: nat)
    requires QueueInv(q) && h in q.reqs && q.reqs[h].phase.Taken?
    ensures h < |q.info| && |q.uring| == NUM && QueueInv(Completed(q, h))
  {
    hide Chains, Requests, Entries, Ring;
    RequestsLens(q);
    SetPhaseChains(q, h, Used);
    RequestsPhase(q, h, Used, q.info[h := q.info[h].(status := 0)], q.busy);
    FewUnread(q, q.used, Used);
    RingAdd(q.uring, q.usedIdx, q.devUsed, q.used, h);
    EntriesAdd(q.reqs, q.used, Used, h);
    EntriesOther(q.reqs, q.offered, Offered, h, Used);
  }

  /** The interrupt handler looks at one completion. */
  ghost function SeenNext(q: Queue): Queue
    requires q.used != [] && q.used[0] in q.reqs
  {
    var h := q.used[0];
    q.(usedIdx := (q.usedIdx + 1) % WRAP, busy := q.busy - {q.reqs[h].b}, reqs := SetPhase(q.reqs, h, Seen),
       used := q.used[1..])
  }

  lemma UsedStatus(q: Queue, h: nat)
    requires Requests(q.desc, q.info, q.ops, q.reqs, q.busy) && h in q.reqs && q.reqs[h].phase.Used? && h < |q.info|
    ensures q.info[h].status == 0
  {}

  lemma SeenInv(q: Queue)
    requires QueueInv(q) && q.used != []
    ensures |q.uring| == NUM && q.used[0] in q.reqs && q.uring[q.usedIdx % NUM] == q.used[0] && QueueInv(SeenNext(q))
    ensures var h := q.used[0]; h < |q.info| && q.info[h] == Info(Some(q.reqs[h].b), 0)
  {
    hide Chains, Requests, Entries, Ring;
    RequestsLens(q);
    FirstEntry(q.reqs, q.used, Used);
    var h := q.used[0];
    UsedStatus(q, h);
    SetPhaseChains(q, h, Seen);
    RequestsPhase(q, h, Seen, q.info, q.busy - {q.reqs[h].b});
    RingTake(q.uring, q.usedIdx, q.devUsed, q.used);
    EntriesDrop(q.reqs, q.used, Used, Seen);
    EntriesOther(q.reqs, q.offered, Offered, h, Seen);
  }

  /** virtio_disk_rw after its request is done: the chain goes back. */
  ghost function Finished(q: Queue, h: nat): Queue
    requires h in q.reqs && |q.free| == |q.desc| == |q.info| == NUM && h < NUM && q.reqs[h].d1 < NUM
    requires q.reqs[h].d2 < NUM
  {
    var r := q.reqs[h];
    q.(free := q.free[h := true][r.d1 := true][r.d2 := true],
       desc := q.desc[h := NODESC][r.d1 := NODESC][r.d2 := NODESC],
       info := q.info[h := q.info[h].(b := None)], reqs := q.reqs - {h})
  }

  lemma ChainIn(q: Queue, h: nat)
    requires Chains(q.free, q.desc, q.reqs) && h in q.reqs
    ensures var r := q.reqs[h];
            && h < NUM && r.d1 < NUM && r.d2 < NUM && h != r.d1 && h != r.d2 && r.d1 != r.d2 && !q.free[h]
            && !q.free[r.d1] && !q.free[r.d2]
    ensures forall g, i ::
              g in q.reqs && g != h && (i == h || i == q.reqs[h].d1 || i == q.reqs[h].d2) ==> !InChain(g, q.reqs[g], i)
  {
    var r := q.reqs[h];
    assert InChain(h, r, h) && InChain(h, r, r.d1) && InChain(h, r, r.d2);
  }

  lemma OneLess(reqs: map<nat, Req>, h: nat)
    requires h in reqs
    ensures |reqs - {h}| == |reqs| - 1
  {
    assert |reqs| == |reqs.Keys| && |reqs - {h}| == |(reqs - {h}).Keys|;
    assert (reqs - {h}).Keys == reqs.Keys - {h};
  }

  lemma FinishedChains(q: Queue, h: nat)
    requires Chains(q.free, q.desc, q.reqs) && h in q.reqs && |q.info| == NUM && h < NUM && q.reqs[h].d1 < NUM
    requires q.reqs[h].d2 < NUM
    ensures var q' := Finished(q, h); Chains(q'.free, q'.desc, q'.reqs)
  {
    hide NumFree;
    var r := q.reqs[h];
    ChainIn(q, h);
    NumFreeSet(q.free, h, true);
    NumFreeSet(q.free[h := true], r.d1, true);
    NumFreeSet(q.free[h := true][r.d1 := true], r.d2, true);
    OneLess(q.reqs, h);
    var q' := Finished(q, h);
    forall g, k, i: nat | g in q'.reqs && k in q'.reqs && InChain(g, q'.reqs[g], i) && InChain(k, q'.reqs[k], i)
      ensures g == k {}
    forall g, i: nat | g in q'.reqs && InChain(g, q'.reqs[g], i) && i < NUM
      ensures !q'.free[i] { assert i != h && i != r.d1 && i != r.d2; }
  }

  lemma FinishedRequests(q: Queue, h: nat)
    requires Requests(q.desc, q.info, q.ops, q.reqs, q.busy) && h in q.reqs && |q.free| == NUM && h < NUM
    requires q.reqs[h].d1 < NUM && q.reqs[h].d2 < NUM
    requires forall g, i ::
               g in q.reqs && g != h && (i == h || i == q.reqs[h].d1 || i == q.reqs[h].d2) ==> !InChain(g, q.reqs[g], i)
    ensures var q' := Finished(q, h); Requests(q'.desc, q'.info, q'.ops, q'.reqs, q'.busy)
  {
    hide Formatted, InChain, Finished;
    FinishedParts(q, h);
    var q' := Finished(q, h);
    forall g | g in q'.reqs ensures Formatted(q'.desc, q'.info, q'.ops, g, q'.reqs[g]) { FinishedKept(q, h, g); }
  }

  lemma FinishedParts(q: Queue, h: nat)
    requires h in q.reqs && |q.free| == |q.desc| == |q.info| == NUM && h < NUM && q.reqs[h].d1 < NUM
    requires q.reqs[h].d2 < NUM
    ensures var q' := Finished(q, h);
            && |q'.desc| == |q'.info| == NUM && q'.ops == q.ops && q'.busy == q.busy && q'.reqs == q.reqs - {h}
            && forall i :: 0 <= i < NUM && i != h ==> q'.info[i] == q.info[i]
  {}

  lemma FinishedKept(q: Queue, h: nat, g: nat)
    requires h in q.reqs && |q.free| == |q.desc| == |q.info| == |q.ops| == NUM && h < NUM && q.reqs[h].d1 < NUM
    requires q.reqs[h].d2 < NUM
    requires g in q.reqs && g != h && g < NUM && Formatted(q.desc, q.info, q.ops, g, q.reqs[g])
    requires !InChain(g, q.reqs[g], h) && !InChain(g, q.reqs[g], q.reqs[h].d1) && !InChain(g, q.reqs[g], q.reqs[h].d2)
    ensures var q' := Finished(q, h); Formatted(q'.desc, q'.info, q'.ops, g, q'.reqs[g])
  {
    hide Formatted;
    FormattedKept(q, Finished(q, h), g);
  }

  lemma EntriesGone(reqs: map<nat, Req>, es: seq<nat>, ph: Phase, h: nat)
    requires Entries(reqs, es, ph) && h in reqs && reqs[h].phase != ph
    ensures Entries(reqs - {h}, es, ph)
  {}

  lemma FinishedInv(q: Queue, h: nat)
    requires QueueInv(q) && h in q.reqs && q.reqs[h].phase.Seen?
    ensures |q.free| == |q.desc| == |q.info| == NUM && h < NUM && q.reqs[h].d1 < NUM && q.reqs[h].d2 < NUM
    ensures QueueInv(Finished(q, h))
  {
    hide Chains, Requests, Entries, Ring;
    RequestsLens(q);
    ChainIn(q, h);
    FinishedChains(q, h);
    FinishedRequests(q, h);
    EntriesGone(q.reqs, q.offered, Offered, h);
    EntriesGone(q.reqs, q.used, Used, h);
  }

  // ---------- whole runs ----------

  /** The requests in flight, the buffers and the disk. */
  datatype Snap = Snap(reqs: map<nat, Req>, data: map<nat, Block>, store: seq<byte>)

  datatype Act = AFill(b: nat) | ASubmit(h: nat) | ATake(h: nat) | AComplete(h: nat) | AIntr | AFinish(h: nat)

  /** The request's effect: its block goes to its buffer, or the other way. */
  ghost predicate Moved(r: Req, s: Snap, s': Snap) {
    && r.b in s.data && Room(s.store, Sector(r.blockno), BSIZE)
    && if r.write then s'.store == Put(s.store, Sector(r.blockno), s.data[r.b]) && s'.data == s.data
       else s'.data == s.data[r.b := Fetch(s.store, Sector(r.blockno), BSIZE)] && s'.store == s.store
  }

  ghost predicate Step(s: Snap, a: Act, s': Snap) {
    match a
    case AFill(b) =>
      (forall g :: g in s.reqs ==> s.reqs[g].b != b) && b in s'.data && s' == s.(data := s.data[b := s'.data[b]])
    case ASubmit(h) =>
      && h !in s.reqs && h in s'.reqs && s' == s.(reqs := s.reqs[h := s'.reqs[h]]) && s'.reqs[h].phase.Offered?
      && forall g :: g in s.reqs ==> s.reqs[g].b != s'.reqs[h].b
    case ATake(h) => h in s.reqs && s.reqs[h].phase.Offered? && s' == s.(reqs := SetPhase(s.reqs, h, Taken))
    case AComplete(h) =>
      && h in s.reqs && s.reqs[h].phase.Taken? && Moved(s.reqs[h], s, s') && s'.reqs == SetPhase(s.reqs, h, Used)
    case AIntr =>
      && s'.reqs.Keys == s.reqs.Keys && s' == s.(reqs := s'.reqs)
      && forall h ::
           h in s.reqs ==> s'.reqs[h] == if s.reqs[h].phase.Used? then s.reqs[h].(phase := Seen) else s.reqs[h]
    case AFinish(h) => h in s.reqs && s.reqs[h].phase.Seen? && s' == s.(reqs := s.reqs - {h})
  }

  ghost predicate Run(ss: seq<Snap>, acts: seq<Act>) {
    && |ss| == |acts| + 1 && ss[0].reqs == map[]
    && forall i :: 0 <= i < |acts| ==> Step(ss[i], acts[i], ss[i + 1])
  }

  lemma RunMore(ss: seq<Snap>, acts: seq<Act>, a: Act, s': Snap)
    requires Run(ss, acts) && Step(ss[|acts|], a, s')
    ensures Run(ss + [s'], acts + [a])
  {
    hide Step;
  }

  /** No two requests in flight use one buffer. */
  ghost predicate OwnBuffers(s: Snap) {
    forall g, h :: g in s.reqs && h in s.reqs && s.reqs[g].b == s.reqs[h].b ==> g == h
  }

  lemma {:induction false} RunOwnBuffers(ss: seq<Snap>, acts: seq<Act>, i: nat)
    requires Run(ss, acts) && i < |ss|
    ensures OwnBuffers(ss[i])
  {
    if i > 0 {
      RunOwnBuffers(ss, acts, i - 1);
      assert Step(ss[i - 1], acts[i - 1], ss[i]);
    }
  }

  /** A request in flight keeps its buffer, its block and its direction, and nothing but its own
      completion touches the buffer. */
  lemma InFlight(s: Snap, a: Act, s': Snap, h: nat)
    requires Step(s, a, s') && OwnBuffers(s) && h in s.reqs && a != AFinish(h)
    ensures h in s'.reqs && s'.reqs[h] == s.reqs[h].(phase := s'.reqs[h].phase)
    ensures s.reqs[h].phase.Used? || s.reqs[h].phase.Seen? ==> s'.reqs[h].phase.Used? || s'.reqs[h].phase.Seen?
    ensures a != AComplete(h) && s.reqs[h].b in s.data ==> s.reqs[h].b in s'.data
    ensures a != AComplete(h) && s.reqs[h].b in s.data ==> s'.data[s.reqs[h].b] == s.data[s.reqs[h].b]
  {}

  /** Every request names a block that a 32-bit sector number can reach. */
  ghost predicate Reachable(s: Snap) {
    forall h :: h in s.reqs ==> s.reqs[h].blockno < 0x8000_0000
  }

  /** a completes a write of block b. */
  ghost predicate Writes(s: Snap, a: Act, b: nat) {
    a.AComplete? && a.h in s.reqs && s.reqs[a.h].write && s.reqs[a.h].blockno == b
  }

  /** A block of the disk changes just when a write of that very block completes, and then it is what
      the request's buffer holds. */
  lemma BlockStep(s: Snap, a: Act, s': Snap, b: nat)
    requires Step(s, a, s') && Reachable(s) && HasBlock(s.store, b)
    ensures HasBlock(s'.store, b)
    ensures BlockAt(s'.store, b) == if Writes(s, a, b) && s.reqs[a.h].b in s.data then s.data[s.reqs[a.h].b]
                                    else BlockAt(s.store, b)
    ensures Writes(s, a, b) ==> s.reqs[a.h].b in s.data
  {
    hide Fetch, Put, BlockAt;
    if a.AComplete? && s.reqs[a.h].write {
      var r := s.reqs[a.h];
      ReachesBlock(s.store, r.blockno);
      PutBlock(s.store, r.blockno, b, s.data[r.b]);
    }
  }

  lemma ReachesBlock(store: seq<byte>, blockno: nat)
    requires blockno < 0x8000_0000 && Room(store, Sector(blockno), BSIZE)
    ensures HasBlock(store, blockno)
  {}

  lemma RunAt(ss: seq<Snap>, acts: seq<Act>, i: nat)
    requires Run(ss, acts) && i + 1 < |ss|
    ensures |ss| == |acts| + 1 && Step(ss[i], acts[i], ss[i + 1])
  {
    hide Step;
  }

  /** A block that no completed write names is as it was. */
  lemma {:induction false} BlockKept(ss: seq<Snap>, acts: seq<Act>, b: nat, i: nat, j: nat)
    requires Run(ss, acts) && i <= j < |ss| && HasBlock(ss[i].store, b)
    requires forall k :: i <= k < j ==> Reachable(ss[k]) && !Writes(ss[k], acts[k], b)
    ensures HasBlock(ss[j].store, b) && BlockAt(ss[j].store, b) == BlockAt(ss[i].store, b)
    decreases j
  {
    hide Step, BlockAt, Run, Reachable, Writes;
    if i < j {
      BlockKept(ss, acts, b, i, j - 1);
      RunAt(ss, acts, j - 1);
      BlockStep(ss[j - 1], acts[j - 1], ss[j], b);
    }
  }

  /** Completing a read moves the block to the request's buffer. */
  lemma ReadMoves(s: Snap, h: nat, s': Snap)
    requires Step(s, AComplete(h), s') && !s.reqs[h].write && s.reqs[h].blockno < 0x8000_0000
    ensures var r := s.reqs[h];
            && HasBlock(s.store, r.blockno) && r.b in s'.data && s'.data[r.b] == BlockAt(s.store, r.blockno)
            && h in s'.reqs && s'.reqs[h] == r.(phase := Used)
  {
    hide Fetch, BlockAt;
    ReachesBlock(s.store, s.reqs[h].blockno);
    PutBlock(s.store, s.reqs[h].blockno, s.reqs[h].blockno, BlockAt(s.store, s.reqs[h].blockno));
  }

  /** A finished read has in its buffer the block as it was when the device completed it. */
  lemma {:induction false} ReadGetsBlock(ss: seq<Snap>, acts: seq<Act>, i: nat, j: nat, h: nat)
    requires Run(ss, acts) && i < j < |ss| && acts[i] == AComplete(h) && h in ss[i].reqs && !ss[i].reqs[h].write
    requires ss[i].reqs[h].blockno < 0x8000_0000
    requires forall k :: i < k < j ==> acts[k] != AFinish(h)
    ensures var r := ss[i].reqs[h];
            && HasBlock(ss[i].store, r.blockno) && h in ss[j].reqs && ss[j].reqs[h].b == r.b && r.b in ss[j].data
            && (ss[j].reqs[h].phase.Used? || ss[j].reqs[h].phase.Seen?)
            && ss[j].data[r.b] == BlockAt(ss[i].store, r.blockno)
    decreases j
  {
    assert Step(ss[j - 1], acts[j - 1], ss[j]);
    hide BlockAt, Run;
    if j > i + 1 {
      ReadGetsBlock(ss, acts, i, j - 1, h);
      RunOwnBuffers(ss, acts, j - 1);
      InFlight(ss[j - 1], acts[j - 1], ss[j], h);
      assert acts[j - 1] != AComplete(h);
    } else {
      hide Step;
      ReadMoves(ss[i], h, ss[j]);
    }
  }

  /** A write in flight keeps in its buffer what it held when it was submitted. */
  lemma {:induction false} WriteKeepsBuffer(ss: seq<Snap>, acts: seq<Act>, i: nat, j: nat, h: nat)
    requires Run(ss, acts) && i < j < |ss| && acts[i] == ASubmit(h) && h in ss[i + 1].reqs
    requires ss[i + 1].reqs[h].b in ss[i].data
    requires forall k :: i < k < j ==> acts[k] != AFinish(h) && acts[k] != AComplete(h)
    ensures var r := ss[i + 1].reqs[h];
            && h in ss[j].reqs && ss[j].reqs[h] == r.(phase := ss[j].reqs[h].phase)
            && r.b in ss[j].data && ss[j].data[r.b] == ss[i].data[r.b]
    decreases j
  {
    assert Step(ss[j - 1], acts[j - 1], ss[j]);
    if j > i + 1 {
      hide Run;
      WriteKeepsBuffer(ss, acts, i, j - 1, h);
      RunOwnBuffers(ss, acts, j - 1);
      InFlight(ss[j - 1], acts[j - 1], ss[j], h);
    }
  }

  /** A write puts on the disk what its buffer held when it was submitted, there until a write of the
      same block completes, whatever happens to other blocks. */
  lemma WriteStoresBuffer(ss: seq<Snap>, acts: seq<Act>, i: nat, j: nat, k: nat, h: nat)
    requires Run(ss, acts) && i < j < k < |ss| && acts[i] == ASubmit(h) && acts[j] == AComplete(h)
    requires h in ss[i + 1].reqs && ss[i + 1].reqs[h].write && ss[i + 1].reqs[h].b in ss[i].data
    requires forall n :: i < n < j ==> acts[n] != AFinish(h) && acts[n] != AComplete(h)
    requires forall n :: j <= n < k ==> Reachable(ss[n])
    requires forall n :: j < n < k ==> !Writes(ss[n], acts[n], ss[i + 1].reqs[h].blockno)
    ensures var r := ss[i + 1].reqs[h];
            HasBlock(ss[k].store, r.blockno) && BlockAt(ss[k].store, r.blockno) == ss[i].data[r.b]
  {
    assert Step(ss[j], acts[j], ss[j + 1]);
    var b := ss[i + 1].reqs[h].blockno;
    WriteKeepsBuffer(ss, acts, i, j, h);
    ReachesBlock(ss[j].store, b);
    hide Run, Step, BlockAt;
    BlockStep(ss[j], acts[j], ss[j + 1], b);
    BlockKept(ss, acts, b, j + 1, k);
  }

  /** A read of block b gets what the last completed write of b had in its buffer when it was
      submitted, whatever other blocks were written in between. */
  lemma ReadGetsLastWrite(ss: seq<Snap>, acts: seq<Act>, i: nat, j: nat, g: nat, k: nat, n: nat, h: nat)
    requires Run(ss, acts) && i < j < k < n < |ss|
    requires acts[i] == ASubmit(g) && acts[j] == AComplete(g) && g in ss[i + 1].reqs && ss[i + 1].reqs[g].write
    requires ss[i + 1].reqs[g].b in ss[i].data
    requires acts[k] == AComplete(h) && h in ss[k].reqs && !ss[k].reqs[h].write
    requires ss[k].reqs[h].blockno == ss[i + 1].reqs[g].blockno
    requires forall m :: i < m < j ==> acts[m] != AFinish(g) && acts[m] != AComplete(g)
    requires forall m :: j <= m <= k ==> Reachable(ss[m])
    requires forall m :: j < m < k ==> !Writes(ss[m], acts[m], ss[i + 1].reqs[g].blockno)
    requires forall m :: k < m < n ==> acts[m] != AFinish(h)
    ensures h in ss[n].reqs && ss[n].reqs[h].b == ss[k].reqs[h].b && ss[k].reqs[h].b in ss[n].data
    ensures ss[n].data[ss[k].reqs[h].b] == ss[i].data[ss[i + 1].reqs[g].b]
  {
    hide Run, BlockAt, Writes;
    WriteStoresBuffer(ss, acts, i, j, k, g);
    ReadGetsBlock(ss, acts, k, n, h);
  }

  /** A read of a block that nothing has written gets what the disk held at the start. */
  lemma ReadGetsInitial(ss: seq<Snap>, acts: seq<Act>, k: nat, n: nat, h: nat)
    requires Run(ss, acts) && k < n < |ss| && acts[k] == AComplete(h) && h in ss[k].reqs && !ss[k].reqs[h].write
    requires HasBlock(ss[0].store, ss[k].reqs[h].blockno)
    requires forall m :: 0 <= m <= k ==> Reachable(ss[m])
    requires forall m :: 0 <= m < k ==> !Writes(ss[m], acts[m], ss[k].reqs[h].blockno)
    requires forall m :: k < m < n ==> acts[m] != AFinish(h)
    ensures h in ss[n].reqs && ss[k].reqs[h].b in ss[n].data
    ensures ss[n].data[ss[k].reqs[h].b] == BlockAt(ss[0].store, ss[k].reqs[h].blockno)
  {
    BlockKept(ss, acts, ss[k].reqs[h].blockno, 0, k);
    hide Run, BlockAt, Writes;
    ReadGetsBlock(ss, acts, k, n, h);
  }

  /** The request's effect, block by block. */
  ghost predicate ByBlock(r: Req, data: map<nat, Block>, data': map<nat, Block>, store: seq<byte>, store': seq<byte>) {
    && HasBlock(store, r.blockno) && r.b in data
    && if r.write then PutOne(store, store', r.blockno, data[r.b]) && data' == data
       else data' == data[r.b := BlockAt(store, r.blockno)] && store' == store
  }

  lemma MovedByBlock(r: Req, data: map<nat, Block>, data': map<nat, Block>, store: seq<byte>, store': seq<byte>)
    requires r.blockno < 0x8000_0000 && Moved(r, Snap(map[], data, store), Snap(map[], data', store'))
    ensures ByBlock(r, data, data', store, store')
  {
    hide BlockAt, Fetch, Put, PutOne;
    ReachesBlock(store, r.blockno);
    PutOneBlock(store, r.blockno, data[r.b]);
  }

  lemma CompleteStep(s: Snap, h: nat, s': Snap)
    requires h in s.reqs && s.reqs[h].phase.Taken? && Moved(s.reqs[h], s, s') && s'.reqs == SetPhase(s.reqs, h, Used)
    ensures Step(s, AComplete(h), s')
  {}

  // ---------- driver and device ----------

  class Disk {
    const desc: array<Desc>
    const availRing: array<nat>
    const usedRing: array<nat>
    const free: array<bool>
    const info: array<Info>
    const ops: array<Op>
    var availIdx: nat
    var devAvail: nat
    var devUsed: nat
    var usedIdx: nat
    /** Buffers with b->disk set. */
    var busy: set<nat>
    var data: map<nat, Block>
    var store: seq<byte>
    ghost var reqs: map<nat, Req>
    ghost var offered: seq<nat>
    ghost var used: seq<nat>
    /** All that has happened, state by state. */
    ghost var past: seq<Snap>
    ghost var acts: seq<Act>

    ghost function S(): Snap
      reads this
    { Snap(reqs, data, store) }

    ghost function Q(): Queue
      reads this, desc, availRing, usedRing, free, info, ops
    {
      Queue(free[..], desc[..], info[..], ops[..], availRing[..], usedRing[..], availIdx, devAvail, usedIdx, devUsed,
            busy, reqs, offered, used)
    }

    ghost predicate Shape()
      reads this
    {
      && availRing != usedRing
      && desc.Length == availRing.Length == usedRing.Length == free.Length == info.Length == ops.Length == NUM
    }

    /** Whenever the disk lock is free. */
    ghost predicate Valid()
      reads this, desc, availRing, usedRing, free, info, ops
    { Shape() && QueueInv(Q()) && History() }

    ghost predicate History()
      reads this
    { Run(past, acts) && past[|acts|] == S() }

    ghost method Record(a: Act)
      requires Run(past, acts) && Step(past[|acts|], a, S())
      modifies `past, `acts
      ensures History() && past == old(past) + [S()] && acts == old(acts) + [a]
    {
      hide Step;
      RunMore(past, acts, a, S());
      past, acts := past + [S()], acts + [a];
    }

    constructor (buffers: map<nat, Block>, contents: seq<byte>)
      ensures data == buffers && store == contents
      ensures Valid() && reqs == map[] && busy == {}
      ensures fresh(desc) && fresh(free) && fresh(info) && fresh(ops) && fresh(availRing) && fresh(usedRing)
    {
      desc := new Desc[NUM](_ => NODESC);
      availRing := new nat[NUM](_ => 0);
      usedRing := new nat[NUM](_ => 0);
      free := new bool[NUM](_ => false);
      info := new Info[NUM](_ => Info(None, 0));
      ops := new Op[NUM](_ => Op(false, 0));
      availIdx, devAvail, devUsed, usedIdx, busy, data, store := 0, 0, 0, 0, {}, buffers, contents;
      reqs, offered, used := map[], [], [];
      past, acts := [Snap(map[], buffers, contents)], [];
      new;
      var i := 0;
      while i < NUM
        invariant 0 <= i <= NUM && forall j :: 0 <= j < i ==> free[j]
        invariant forall j :: 0 <= j < NUM ==> desc[j] == NODESC
        invariant data == buffers && store == contents && past == [S()] && acts == []
        invariant reqs == map[] && offered == [] && used == [] && busy == {}
        invariant availIdx == devAvail == devUsed == usedIdx == 0
      {
        free[i] := true;
        i := i + 1;
      }
      NumFreeAll(free[..]);
    }

    method AllocDesc() returns (i: int)
      requires Shape()
      modifies free
      ensures -1 <= i < NUM
      ensures i == -1 ==> free[..] == old(free[..]) && forall j :: 0 <= j < NUM ==> !free[j]
      ensures i != -1 ==> old(free[i]) && (forall j :: 0 <= j < i ==> !old(free[j]))
      ensures i != -1 ==> free[..] == old(free[..])[i := false]
    {
      i := 0;
      while i < NUM
        invariant 0 <= i <= NUM && free[..] == old(free[..]) && forall j :: 0 <= j < i ==> !free[j]
      {
        if free[i] {
          free[i] := false;
          return;
        }
        i := i + 1;
      }
      i := -1;
    }

    /** false is one of free_desc's panics. */
    method FreeDesc(i: nat) returns (ok: bool)
      requires Shape()
      modifies free, desc
      ensures ok == (i < NUM && !old(free[i]))
      ensures ok ==> free[..] == old(free[..])[i := true] && desc[..] == old(desc[..])[i := NODESC]
      ensures !ok ==> free[..] == old(free[..]) && desc[..] == old(desc[..])
    {
      if i >= NUM { return false; }
      if free[i] { return false; }
      desc[i] := NODESC;
      free[i] := true;
      return true;
    }

    /** Three descriptors, or none and nothing changed. */
    method Alloc3() returns (ok: bool, idx: seq<nat>)
      requires Shape() && forall i :: 0 <= i < NUM && free[i] ==> desc[i] == NODESC
      modifies free, desc
      ensures ok ==> |idx| == 3 && idx[0] < NUM && idx[1] < NUM && idx[2] < NUM && idx[0] != idx[1] && idx[0] != idx[2]
      ensures ok ==> idx[1] != idx[2]
      ensures ok ==> old(free[idx[0]] && free[idx[1]] && free[idx[2]])
      ensures ok ==> free[..] == old(free[..])[idx[0] := false][idx[1] := false][idx[2] := false]
      ensures ok ==> desc[..] == old(desc[..])
      ensures !ok ==> free[..] == old(free[..]) && desc[..] == old(desc[..]) && NumFree(free[..]) < 3
    {
      ghost var f0 := free[..];
      idx := [];
      var i0 := AllocDesc();
      if i0 < 0 { NumFreeNone(free[..]); return false, []; }
      NumFreeSet(f0, i0, false);
      var i1 := AllocDesc();
      if i1 < 0 {
        NumFreeNone(free[..]);
        var r := FreeDesc(i0);
        assert free[..] == f0;
        assert desc[..] == old(desc[..]);
        return false, [];
      }
      NumFreeSet(f0[i0 := false], i1, false);
      var i2 := AllocDesc();
      if i2 < 0 {
        NumFreeNone(free[..]);
        var r0 := FreeDesc(i0);
        var r1 := FreeDesc(i1);
        assert free[..] == f0;
        assert desc[..] == old(desc[..]);
        return false, [];
      }
      return true, [i0, i1, i2];
    }

    /** The three descriptors of a request. */
    method Format(h: nat, d1: nat, d2: nat, b: nat, blockno: nat, write: bool)
      requires Shape() && h < NUM && d1 < NUM && d2 < NUM && h != d1 && h != d2 && d1 != d2
      modifies desc, info, ops
      ensures desc[..] ==
                old(desc[..])[h := Desc(OpOf(h), 16, d1, true, false)][d1 := Desc(DataOf(b), BSIZE, d2, true,
                    !write)][d2 := Desc(StatusOf(h), 1, 0, false, true)]
      ensures info[..] == old(info[..])[h := Info(Some(b), 0xff)]
      ensures ops[..] == old(ops[..])[h := Op(write, Sector(blockno))]
    {
      ops[h] := Op(write, Sector(blockno));
      desc[h] := Desc(OpOf(h), 16, d1, true, false);
      desc[d1] := Desc(DataOf(b), BSIZE, d2, true, !write);
      info[h] := info[h].(status := 0xff);
      desc[d2] := Desc(StatusOf(h), 1, 0, false, true);
      info[h] := info[h].(b := Some(b));
    }

    /** The kernel writes in a buffer that no request uses. */
    method Fill(b: nat, block: Block)
      requires Valid() && Idle(Q(), b)
      modifies `data, `past, `acts
      ensures Valid() && data == old(data)[b := block] && past == old(past) + [S()] && acts == old(acts) + [AFill(b)]
    {
      hide QueueInv, Run;
      data := data[b := block];
      Record(AFill(b));
    }

    /** virtio_disk_rw up to its first sleep: None when descriptors have run out. */
    method Submit(b: nat, blockno: nat, write: bool) returns (r: Option<nat>)
      requires Valid() && Idle(Q(), b)
      modifies this, desc, availRing, free, info, ops
      ensures Valid() && data == old(data) && store == old(store)
      ensures past == (if r.Some? then old(past) + [S()] else old(past))
      ensures acts == old(acts) + if r.Some? then [ASubmit(r.value)] else []
      ensures r.None? ==> Q() == old(Q()) && |reqs| == 2
      ensures r.Some? ==>
        && r.value !in old(reqs) && r.value in reqs && reqs[r.value].b == b && reqs[r.value].blockno == blockno
        && reqs[r.value].write == write
        && reqs[r.value].phase.Offered? && reqs == old(reqs)[r.value := reqs[r.value]] && busy == old(busy) + {b}
        && used == old(used) && offered == old(offered) + [r.value]
        && r.value < ops.Length && ops[r.value].write == write
        && (ops[r.value].sector == 2 * blockno <==> blockno < 0x8000_0000)
    {
      hide QueueInv, NumFree, Idle, Run;
      ghost var q := Q();
      QueueFacts(q);
      var ok, idx := Alloc3();
      if !ok {
        assert Q() == q;
        return None;
      }
      SectorsApart(blockno, blockno);
      var h, d1, d2 := idx[0], idx[1], idx[2];
      SubmittedInv(q, h, d1, d2, b, blockno, write);
      QueueNotIn(q, h);
      NobodyHas(q, b);
      Enqueue(h, d1, d2, b, blockno, write, q);
      Record(ASubmit(h));
      return Some(h);
    }

    /** With three descriptors allocated, format the request and offer it to the device. */
    method Enqueue(h: nat, d1: nat, d2: nat, b: nat, blockno: nat, write: bool, ghost q: Queue)
      requires Shape() && ThreeFree(q, h, d1, d2) && Q() == q.(free := q.free[h := false][d1 := false][d2 := false])
      modifies this, desc, availRing, info, ops
      ensures Q() == Submitted(q, h, d1, d2, b, blockno, write) && data == old(data) && store == old(store)
      ensures past == old(past) && acts == old(acts)
    {
      Format(h, d1, d2, b, blockno, write);
      busy := busy + {b};
      availRing[availIdx % NUM] := h;
      availIdx := (availIdx + 1) % WRAP;
      reqs, offered := reqs[h := Req(b, blockno, write, d1, d2, Offered)], offered + [h];
    }

    /** The device takes a request from the avail ring. */
    method DeviceTake() returns (h: nat)
      requires Valid() && devAvail != availIdx
      modifies `devAvail, `reqs, `offered, `past, `acts
      ensures past == old(past) + [S()] && acts == old(acts) + [ATake(h)]
      ensures Valid() && h in old(reqs) && old(reqs)[h].phase.Offered? && reqs == SetPhase(old(reqs), h, Taken)
      ensures |old(offered)| > 0 && h == old(offered)[0]
    {
      hide QueueInv, Run;
      ghost var q := Q();
      OfferedSome(q);
      TakenInv(q);
      FirstOffered(q);
      h := availRing[devAvail % NUM];
      devAvail := (devAvail + 1) % WRAP;
      reqs, offered := SetPhase(reqs, h, Taken), offered[1..];
      assert Q() == TakenNext(q);
      Record(ATake(h));
    }

    /** The device's walk of a chain: the operation, the data, the status. */
    method Transfer(h: nat)
      requires Shape() && h in reqs && Formatted(desc[..], info[..], ops[..], h, reqs[h]) && reqs[h].b in data
      requires Room(store, Sector(reqs[h].blockno), BSIZE)
      modifies `data, `store, info
      ensures info[..] == old(info[..])[h := old(info[h]).(status := 0)]
      ensures var r := reqs[h];
              if r.write then store == Put(old(store), Sector(r.blockno), old(data)[r.b]) && data == old(data)
              else data == old(data)[r.b := Fetch(old(store), Sector(r.blockno), BSIZE)] && store == old(store)
    {
      var op := ops[desc[h].addr.i];
      var d1 := desc[h].next;
      var b := desc[d1].addr.b;
      var n := desc[d1].len;
      if op.write {
        store := Put(store, op.sector, data[b][..n]);
      } else if desc[d1].deviceWrites {
        data := data[b := Fetch(store, op.sector, n)];
      }
      var d2 := desc[d1].next;
      var s := desc[d2].addr.i;
      info[s] := info[s].(status := 0);
    }

    /** The device carries out a request it has taken, following the chain, and reports it. The
        transfer is between the request's own buffer and block. */
    method DeviceComplete(h: nat)
      requires Valid() && h in reqs && reqs[h].phase.Taken? && reqs[h].b in data
      requires Room(store, Sector(reqs[h].blockno), BSIZE)
      modifies this, info, usedRing
      ensures past == old(past) + [S()] && acts == old(acts) + [AComplete(h)]
      ensures Valid() && reqs == SetPhase(old(reqs), h, Used) && used == old(used) + [h] && busy == old(busy)
      ensures offered == old(offered)
      ensures var r := old(reqs)[h];
              if r.write then store == Put(old(store), Sector(r.blockno), old(data)[r.b]) && data == old(data)
              else data == old(data)[r.b := Fetch(old(store), Sector(r.blockno), BSIZE)] && store == old(store)
      ensures old(reqs)[h].blockno < 0x8000_0000 ==> ByBlock(old(reqs)[h], old(data), data, old(store), store)
    {
      hide QueueInv, Run, ByBlock, BlockAt, Fetch, Put, Step, Formatted;
      ghost var q, s := Q(), S();
      RequestsLens(q);
      ChainOf(q, h);
      CompletedInv(q, h);
      Transfer(h);
      if q.reqs[h].blockno < 0x8000_0000 { MovedByBlock(q.reqs[h], old(data), data, old(store), store); }
      Report(h, q);
      assert Step(s, AComplete(h), S()) by { CompleteStep(s, h, S()); }
      Record(AComplete(h));
    }

    /** The device puts a request it has carried out in the used ring. */
    method Report(h: nat, ghost q: Queue)
      requires Shape() && h in reqs && |q.info| == |q.uring| == NUM && h < NUM && reqs == q.reqs
      requires Q() == q.(info := q.info[h := q.info[h].(status := 0)])
      modifies usedRing, `devUsed, `reqs, `used
      ensures Q() == Completed(q, h) && reqs == SetPhase(old(reqs), h, Used)
    {
      usedRing[devUsed % NUM] := h;
      devUsed := (devUsed + 1) % WRAP;
      reqs, used := SetPhase(reqs, h, Used), used + [h];
    }

    /** The interrupt handler: each completion clears the buffer of its own request, and the status
        panic does not happen. */
    method Intr() returns (ok: bool)
      requires Valid()
      modifies `usedIdx, `busy, `reqs, `used, `past, `acts
      ensures past == old(past) + [S()] && acts == old(acts) + [AIntr]
      ensures ok && Valid() && used == [] && usedIdx == devUsed
      ensures reqs.Keys == old(reqs).Keys
      ensures forall h ::
                h in reqs ==> reqs[h] == if old(reqs)[h].phase.Used? then old(reqs)[h].(phase := Seen) else old(reqs)[h]
      ensures busy == old(busy) - set h | h in old(reqs) && old(reqs)[h].phase.Used? :: old(reqs)[h].b
    {
      hide QueueInv, Run, Seeing, SeenNext, Step;
      ok := true;
      ghost var q0 := Q();
      UsedSome(q0);
      SeeingStart(reqs, busy);
      while usedIdx != devUsed
        invariant Shape() && QueueInv(Q()) && past == old(past) && acts == old(acts) && ok
        invariant usedIdx == devUsed <==> used == []
        invariant Seeing(old(reqs), old(busy), reqs, busy)
        decreases |used|
      {
        ghost var q := Q();
        ok := SeeOne();
        SeeingNext(old(reqs), old(busy), q);
        UsedSome(Q());
        if !ok { return; }
      }
      SeeingEnd(q0, Q());
      IntrStep(old(reqs), reqs, data, store);
      Record(AIntr);
    }

    /** One turn of the handler's loop. */
    method SeeOne() returns (ok: bool)
      requires Shape() && QueueInv(Q()) && used != []
      modifies `usedIdx, `busy, `reqs, `used
      ensures ok && QueueInv(Q()) && Q() == SeenNext(old(Q())) && |used| == |old(used)| - 1
    {
      hide QueueInv;
      ghost var q := Q();
      SeenInv(q);
      FirstUsed(q);
      var id := usedRing[usedIdx % NUM];
      if info[id].status != 0 { return false; }
      var b := info[id].b.value;
      busy := busy - {b};
      usedIdx := (usedIdx + 1) % WRAP;
      reqs, used := SetPhase(reqs, id, Seen), used[1..];
      assert Q() == SeenNext(q);
      return true;
    }

    /** virtio_disk_rw once b->disk is clear: free the chain. */
    method Finish(h: nat)
      requires Valid() && h in reqs && reqs[h].b !in busy
      modifies this, desc, free, info
      ensures Valid() && reqs == old(reqs) - {h} && busy == old(busy) && data == old(data) && store == old(store)
      ensures offered == old(offered) && used == old(used)
      ensures NumFree(free[..]) == old(NumFree(free[..])) + 3
      ensures past == old(past) + [S()] && acts == old(acts) + [AFinish(h)]
    {
      hide QueueInv, NumFree, Run;
      ghost var q := Q();
      RequestsLens(q);
      ChainOf(q, h);
      FinishedInv(q, h);
      AtMostTwo(q);
      AtMostTwo(Finished(q, h));
      OneLess(q.reqs, h);
      info[h] := info[h].(b := None);
      FreeChain(h);
      reqs := reqs - {h};
      assert Q() == Finished(q, h);
      Record(AFinish(h));
    }

    /** free_chain, on a chain of three. */
    method FreeChain(h: nat)
      requires Shape() && h in reqs && Linked3(free[..], desc[..], h, reqs[h])
      modifies desc, free
      ensures free[..] == old(free[..])[h := true][reqs[h].d1 := true][reqs[h].d2 := true]
      ensures desc[..] == old(desc[..])[h := NODESC][reqs[h].d1 := NODESC][reqs[h].d2 := NODESC]
    {
      ghost var r := reqs[h];
      ghost var f0, e0 := free[..], desc[..];
      var i := h;
      ghost var n := 0;
      while true
        invariant n < 3 && i == (if n == 0 then h else if n == 1 then r.d1 else r.d2)
        invariant free[..] == (if n == 0 then f0 else if n == 1 then f0[h := true] else f0[h := true][r.d1 := true])
        invariant desc[..] ==
                    (if n == 0 then e0 else if n == 1 then e0[h := NODESC] else e0[h := NODESC][r.d1 := NODESC])
        decreases 3 - n
      {
        assert free[i] == free[..][i] && desc[i] == desc[..][i];
        var flag := desc[i].hasNext;
        var nxt := desc[i].next;
        var ok := FreeDesc(i);
        if flag { i := nxt; } else { break; }
        n := n + 1;
      }
    }
  }

  ghost predicate Linked3(free: seq<bool>, desc: seq<Desc>, h: nat, r: Req) {
    && |free| == |desc| == NUM && h < NUM && r.d1 < NUM && r.d2 < NUM && h != r.d1 && h != r.d2 && r.d1 != r.d2
    && !free[h] && !free[r.d1] && !free[r.d2]
    && desc[h].hasNext && desc[h].next == r.d1 && desc[r.d1].hasNext && desc[r.d1].next == r.d2 && !desc[r.d2].hasNext
  }

  /** The handler at work: some completed requests seen, and exactly their buffers released. */
  ghost predicate Seeing(reqs0: map<nat, Req>, busy0: set<nat>, reqs: map<nat, Req>, busy: set<nat>) {
    && reqs.Keys == reqs0.Keys
    && (forall h :: h in reqs ==> reqs[h] == reqs0[h] || (reqs0[h].phase.Used? && reqs[h] == reqs0[h].(phase := Seen)))
    && busy == busy0 - set h | h in reqs && reqs0[h].phase.Used? && reqs[h].phase.Seen? :: reqs0[h].b
  }

  lemma SeeingStart(reqs: map<nat, Req>, busy: set<nat>)
    ensures Seeing(reqs, busy, reqs, busy)
  {}

  lemma SeeingNext(reqs0: map<nat, Req>, busy0: set<nat>, q: Queue)
    requires Seeing(reqs0, busy0, q.reqs, q.busy) && QueueInv(q) && q.used != []
    ensures q.used[0] in q.reqs
    ensures Seeing(reqs0, busy0, SeenNext(q).reqs, SeenNext(q).busy)
  {
    hide QueueInv;
    SeenInv(q);
    FirstUsed(q);
  }

  lemma SeeingEnd(q0: Queue, q: Queue)
    requires Seeing(q0.reqs, q0.busy, q.reqs, q.busy) && QueueInv(q) && q.used == []
    ensures q.reqs.Keys == q0.reqs.Keys
    ensures forall h ::
              h in q.reqs ==> q.reqs[h] == if q0.reqs[h].phase.Used? then q0.reqs[h].(phase := Seen) else q0.reqs[h]
    ensures q.busy == q0.busy - set h | h in q0.reqs && q0.reqs[h].phase.Used? :: q0.reqs[h].b
  {
    hide QueueInv;
    NoneUsed(q);
  }

  lemma IntrStep(reqs: map<nat, Req>, reqs': map<nat, Req>, data: map<nat, Block>, store: seq<byte>)
    requires reqs'.Keys == reqs.Keys
    requires forall h :: h in reqs ==> reqs'[h] == if reqs[h].phase.Used? then reqs[h].(phase := Seen) else reqs[h]
    ensures Step(Snap(reqs, data, store), AIntr, Snap(reqs', data, store))
  {}

  lemma NobodyHas(q: Queue, b: nat)
    requires Idle(q, b)
    ensures forall h :: h in q.reqs ==> q.reqs[h].b != b
  {}

  lemma ChainOf(q: Queue, h: nat)
    requires QueueInv(q) && h in q.reqs
    ensures Formatted(q.desc, q.info, q.ops, h, q.reqs[h]) && Linked3(q.free, q.desc, h, q.reqs[h])
    ensures q.reqs[h].b !in q.busy ==> q.reqs[h].phase.Seen?
  {
    ChainIn(q, h);
  }

  lemma FirstOffered(q: Queue)
    requires QueueInv(q) && q.offered != []
    ensures q.offered[0] in q.reqs && q.reqs[q.offered[0]].phase.Offered?
  {
    FirstEntry(q.reqs, q.offered, Offered);
  }

  lemma FirstUsed(q: Queue)
    requires QueueInv(q) && q.used != []
    ensures q.used[0] in q.reqs && q.reqs[q.used[0]].phase.Used?
  {
    FirstEntry(q.reqs, q.used, Used);
  }

  lemma UsedSome(q: Queue)
    requires QueueInv(q)
    ensures q.usedIdx == q.devUsed <==> q.used == []
  {
    RingEmpty(q.uring, q.usedIdx, q.devUsed, q.used);
  }

  lemma NoneUsed(q: Queue)
    requires QueueInv(q) && q.used == []
    ensures forall h :: h in q.reqs ==> !q.reqs[h].phase.Used?
  {}

  lemma QueueFacts(q: Queue)
    requires QueueInv(q)
    ensures |q.desc| == |q.info| == |q.ops| == |q.free| == |q.aring| == |q.uring| == NUM
    ensures forall i :: 0 <= i < NUM && q.free[i] ==> q.desc[i] == NODESC
    ensures NumFree(q.free) < 3 ==> |q.reqs| == 2
  {
    AtMostTwo(q);
  }

  lemma QueueNotIn(q: Queue, i: nat)
    requires QueueInv(q) && i < NUM && |q.free| == NUM && q.free[i]
    ensures i !in q.reqs
  {
    NotInChain(q, i);
  }

  lemma OfferedSome(q: Queue)
    requires QueueInv(q) && q.devAvail != q.availIdx
    ensures q.offered != []
  {
    RingEmpty(q.aring, q.devAvail, q.availIdx, q.offered);
  }
}
