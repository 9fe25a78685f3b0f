/** The logging layer's code over the block cache. Every method leaves behind a run of the log
    machine, one step per block write, so what is proved of the machine holds of the code. */
module Logging {
  import opened Sv39
  import Common
  import opened LogMachine
  import opened BufferCache

  // ---------- what the buffers hold ----------

  /** Block b as a reader should see it: its pinned copy, else the disk's. */
  function Latest(disk: seq<BufferCache.Block>, pinned: map<nat, BufferCache.Block>, b: nat): BufferCache.Block
    requires b < |disk|
  { if b in pinned then pinned[b] else disk[b] }

  ghost predicate BufOk(x: Buf, disk: seq<BufferCache.Block>, dev: nat, pinned: map<nat, BufferCache.Block>,
                        held: nat) {
    if x.valid then
      && x.dev == dev && x.blockno < |disk| && x.data == Latest(disk, pinned, x.blockno)
      && x.refcnt == held + (if x.blockno in pinned then 1 else 0)
    else x.dev == 0 && x.refcnt == 0 && held == 0
  }

  /** Every buffer in use holds the latest contents of its block, referred to once by each holder
      and once by the log if it is pinned; and every pinned block is cached. */
  ghost predicate Agree(bufs: seq<Buf>, disk: seq<BufferCache.Block>, dev: nat, pinned: map<nat, BufferCache.Block>,
                        held: seq<nat>) {
    && |bufs| == |held| == NBUF && dev != 0 && Unique(bufs)
    && (forall i :: 0 <= i < NBUF ==> BufOk(bufs[i], disk, dev, pinned, held[i]))
    && (forall b :: b in pinned ==> Cached(bufs, dev, b))
  }

  lemma AgreeParts(bufs: seq<Buf>, disk: seq<BufferCache.Block>, dev: nat, pinned: map<nat, BufferCache.Block>,
                   held: seq<nat>)
    requires Agree(bufs, disk, dev, pinned, held)
    ensures |bufs| == |held| == NBUF && forall b :: b in pinned ==> Cached(bufs, dev, b)
  {}

  ghost predicate HasFree(bufs: seq<Buf>) { exists i :: 0 <= i < |bufs| && bufs[i].refcnt == 0 }

  /** Reading a block returns its latest contents and loses nothing: what is recycled was clean. */
  lemma ReadAgrees(bufs: seq<Buf>, disk: seq<BufferCache.Block>, dev: nat, pinned: map<nat, BufferCache.Block>,
                   held: seq<nat>,
                   b: nat, i: nat, bufs': seq<Buf>)
    requires Agree(bufs, disk, dev, pinned, held) && b < |disk| && i < NBUF && BreadSpec(bufs, disk, dev, b, i, bufs')
    requires Unique(bufs')
    ensures Agree(bufs', disk, dev, pinned, held[i := held[i] + 1])
    ensures bufs'[i].valid && Holds(bufs'[i], dev, b) && bufs'[i].data == Latest(disk, pinned, b) && bufs'[i].refcnt > 0
  {
    hide Unique;
    forall c | c in pinned ensures Cached(bufs', dev, c) {
      var j :| 0 <= j < |bufs| && Holds(bufs[j], dev, c);
      assert BufOk(bufs[j], disk, dev, pinned, held[j]);
      assert BufOk(bufs[i], disk, dev, pinned, held[i]);
      assert Holds(bufs'[j], dev, c);
    }
    assert BufOk(bufs[i], disk, dev, pinned, held[i]);
    if !Cached(bufs, dev, b) { assert b !in pinned; }
  }

  lemma ReleaseAgrees(bufs: seq<Buf>, disk: seq<BufferCache.Block>, dev: nat, pinned: map<nat, BufferCache.Block>,
                      held: seq<nat>, i: nat)
    requires Agree(bufs, disk, dev, pinned, held) && i < NBUF && held[i] > 0
    ensures bufs[i].refcnt > 0
    ensures var bufs' := bufs[i := bufs[i].(refcnt := bufs[i].refcnt - 1)];
            Unique(bufs') ==> Agree(bufs', disk, dev, pinned, held[i := held[i] - 1])
  {
    hide Unique;
    assert BufOk(bufs[i], disk, dev, pinned, held[i]);
    var bufs' := bufs[i := bufs[i].(refcnt := bufs[i].refcnt - 1)];
    forall c | c in pinned ensures Cached(bufs', dev, c) {
      var j :| 0 <= j < |bufs| && Holds(bufs[j], dev, c);
      assert Holds(bufs'[j], dev, c);
    }
  }

  /** Changing a held buffer and writing it out at once, for a block that is not pinned. */
  lemma WriteAgrees(bufs: seq<Buf>, disk: seq<BufferCache.Block>, dev: nat, pinned: map<nat, BufferCache.Block>,
                    held: seq<nat>,
                    i: nat, data: BufferCache.Block)
    requires Agree(bufs, disk, dev, pinned, held) && i < NBUF && bufs[i].valid && bufs[i].blockno !in pinned
    requires bufs[i].blockno < |disk|
    ensures var bufs' := bufs[i := bufs[i].(data := data)];
            Unique(bufs') ==> Agree(bufs', disk[bufs[i].blockno := data], dev, pinned, held)
  {
    var b := bufs[i].blockno;
    var bufs', disk' := bufs[i := bufs[i].(data := data)], disk[b := data];
    assert BufOk(bufs[i], disk, dev, pinned, held[i]);
    forall j | 0 <= j < NBUF ensures BufOk(bufs'[j], disk', dev, pinned, held[j]) {
      assert BufOk(bufs[j], disk, dev, pinned, held[j]);
      if j < i { assert !Holds(bufs[i], bufs[j].dev, bufs[j].blockno) || bufs[j].dev == 0; }
      if i < j { assert !Holds(bufs[j], bufs[i].dev, bufs[i].blockno); }
    }
    forall c | c in pinned ensures Cached(bufs', dev, c) {
      var j :| 0 <= j < |bufs| && Holds(bufs[j], dev, c);
      assert Holds(bufs'[j], dev, c);
    }
  }

  /** Writing a pinned block home and unpinning it. */
  lemma UnpinAgrees(bufs: seq<Buf>, disk: seq<BufferCache.Block>, dev: nat, pinned: map<nat, BufferCache.Block>,
                    held: seq<nat>, i: nat)
    requires Agree(bufs, disk, dev, pinned, held) && i < NBUF && bufs[i].valid && bufs[i].blockno in pinned
    requires bufs[i].blockno < |disk|
    ensures bufs[i].refcnt > 0
    ensures var b := bufs[i].blockno;
            var bufs' := bufs[i := bufs[i].(refcnt := bufs[i].refcnt - 1)];
            Unique(bufs') ==> Agree(bufs', disk[b := pinned[b]], dev, pinned - {b}, held)
  {
    var b := bufs[i].blockno;
    var bufs', disk' := bufs[i := bufs[i].(refcnt := bufs[i].refcnt - 1)], disk[b := pinned[b]];
    assert BufOk(bufs[i], disk, dev, pinned, held[i]);
    forall j | 0 <= j < NBUF ensures BufOk(bufs'[j], disk', dev, pinned - {b}, held[j]) {
      assert BufOk(bufs[j], disk, dev, pinned, held[j]);
      if j < i { assert !Holds(bufs[i], bufs[j].dev, bufs[j].blockno) || bufs[j].dev == 0; }
      if i < j { assert !Holds(bufs[j], bufs[i].dev, bufs[i].blockno); }
    }
    forall c | c in pinned - {b} ensures Cached(bufs', dev, c) {
      var j :| 0 <= j < |bufs| && Holds(bufs[j], dev, c);
      assert Holds(bufs'[j], dev, c);
    }
  }

  /** Changing a held buffer and handing it to the log, which pins it unless it already has. */
  lemma LogAgrees(bufs: seq<Buf>, disk: seq<BufferCache.Block>, dev: nat, pinned: map<nat, BufferCache.Block>,
                  held: seq<nat>,
                  i: nat, data: BufferCache.Block)
    requires Agree(bufs, disk, dev, pinned, held) && i < NBUF && bufs[i].valid
    ensures var b := bufs[i].blockno;
            var bufs' := bufs[i := bufs[i].(data := data,
                                            refcnt := if b in pinned then bufs[i].refcnt else bufs[i].refcnt + 1)];
            Unique(bufs') ==> Agree(bufs', disk, dev, pinned[b := data], held)
  {
    var b := bufs[i].blockno;
    var bufs' := bufs[i := bufs[i].(data := data,
                                    refcnt := if b in pinned then bufs[i].refcnt else bufs[i].refcnt + 1)];
    assert BufOk(bufs[i], disk, dev, pinned, held[i]);
    forall j | 0 <= j < NBUF ensures BufOk(bufs'[j], disk, dev, pinned[b := data], held[j]) {
      assert BufOk(bufs[j], disk, dev, pinned, held[j]);
      if j < i { assert !Holds(bufs[i], bufs[j].dev, bufs[j].blockno) || bufs[j].dev == 0; }
      if i < j { assert !Holds(bufs[j], bufs[i].dev, bufs[i].blockno); }
    }
    forall c | c in pinned[b := data] ensures Cached(bufs', dev, c) {
      if c == b { assert Holds(bufs'[i], dev, c); }
      else {
        var j :| 0 <= j < |bufs| && Holds(bufs[j], dev, c);
        assert Holds(bufs'[j], dev, c);
      }
    }
  }

  /** With nobody holding a buffer, a log that fits leaves one free: bread cannot fail. */
  lemma FreeWhenQuiet(bufs: seq<Buf>, disk: seq<BufferCache.Block>, dev: nat, pinned: map<nat, BufferCache.Block>,
                      held: seq<nat>, lh: seq<nat>)
    requires Agree(bufs, disk, dev, pinned, held) && (forall b :: b in pinned ==> b in lh) && |lh| < NBUF
    requires forall i :: 0 <= i < NBUF ==> held[i] == 0
    ensures HasFree(bufs)
  {
    if !HasFree(bufs) {
      var at := seq(NBUF, i requires 0 <= i < NBUF => IndexOf(lh, bufs[i].blockno));
      forall i | 0 <= i < NBUF ensures bufs[i].dev == dev && bufs[i].blockno in lh && at[i] < |lh| {
        assert bufs[i].refcnt != 0;
        assert BufOk(bufs[i], disk, dev, pinned, held[i]);
      }
      forall i, j | 0 <= i < j < NBUF ensures at[i] != at[j] {
        assert !Holds(bufs[j], bufs[i].dev, bufs[i].blockno);
      }
      Pigeonhole(at, |lh|);
    }
  }

  // ---------- the runs the code leaves behind ----------

  ghost predicate History(l: Layout, ss: seq<State>, labels: seq<Label>) {
    Run(l, ss, labels) && Init(l, ss[0].disk, ss[0]) && DiskOk(l, ss[0].disk)
  }

  lemma HistoryInv(l: Layout, ss: seq<State>, labels: seq<Label>) returns (d0: seq<BufferCache.Block>)
    requires History(l, ss, labels)
    ensures |ss| > 0 && Inv(l, d0, ss[|ss| - 1])
  {
    d0 := RecoveredStart(l, ss[0].disk);
    RunInv(l, d0, ss, labels, |ss| - 1);
  }

  lemma HistoryMore(l: Layout, ss: seq<State>, labels: seq<Label>, a: Label, s': State)
    requires History(l, ss, labels) && Step(l, ss[|ss| - 1], a, s')
    ensures History(l, ss + [s'], labels + [a])
  {
    hide Step, DiskOk;
    var ss', labels' := ss + [s'], labels + [a];
    forall i | 0 <= i < |labels'| ensures Step(l, ss'[i], labels'[i], ss'[i + 1]) {
      if i < |labels| { assert ss'[i] == ss[i] && ss'[i + 1] == ss[i + 1] && labels'[i] == labels[i]; }
    }
  }

  ghost predicate DiskSeen(ss: seq<State>, disk: seq<BufferCache.Block>) {
    exists i :: 0 <= i < |ss| && ss[i].disk == disk
  }

  /** Every disk there has been since boot is the disk of some state of the run. */
  ghost predicate Recorded(past: seq<seq<BufferCache.Block>>, ss: seq<State>) {
    forall j :: 0 <= j < |past| ==> DiskSeen(ss, past[j])
  }

  lemma RecordedMore(past: seq<seq<BufferCache.Block>>, ss: seq<State>, s': State)
    requires Recorded(past, ss)
    ensures Recorded(past, ss + [s']) && Recorded(past + [s'.disk], ss + [s'])
  {
    var ss' := ss + [s'];
    assert ss'[|ss|].disk == s'.disk;
    forall j | 0 <= j < |past| ensures DiskSeen(ss', past[j]) {
      var i :| 0 <= i < |ss| && ss[i].disk == past[j];
      assert ss'[i].disk == past[j];
    }
  }

  /** What the machine invariant says of a state with a transaction to write out. */
  lemma LoggedBlocks(l: Layout, ss: seq<State>, labels: seq<Label>)
    requires History(l, ss, labels)
    ensures |ss| > 0
    ensures var s := ss[|ss| - 1];
            && LayoutOk(l) && |s.disk| == l.nblocks && |s.disk[l.start]| == 256
            && (Recovering(s.phase) ==>
                  s.disk[l.start][0] < LOGSIZE && LoggedOk(l, Header(l, s.disk)) && s.cache == map[])
            && (s.phase.RInstall? || s.phase.RClear? ==> LoggedOk(l, s.lh))
            && (!Recovering(s.phase) && !s.phase.Panicked? ==>
                  LoggedOk(l, s.lh) && forall b :: b in s.cache <==> b in s.lh)
            && (s.phase.Install? ==>
                  forall k ::
                    0 <= k < |s.lh| && k < LOGSIZE - 1 ==>
                      s.lh[k] in s.cache && s.disk[l.start + 1 + k] == s.cache[s.lh[k]])
  {
    hide Durable, Current, OpsOk, Open, Apply, History;
    var d0 := HistoryInv(l, ss, labels);
    DiskParts(l, ss[|ss| - 1].disk);
  }

  /** The pinned blocks when the first i of the transaction have been installed. */
  ghost function Unsaved(cache: map<nat, BufferCache.Block>, lh: seq<nat>, i: nat): map<nat, BufferCache.Block>
    requires i <= |lh|
  { map b | b in cache && b in lh[i..] :: cache[b] }

  lemma UnsavedStart(cache: map<nat, BufferCache.Block>, lh: seq<nat>)
    requires forall b :: b in cache ==> b in lh
    ensures Unsaved(cache, lh, 0) == cache
  {
    assert lh[0..] == lh;
  }

  lemma UnsavedNext(cache: map<nat, BufferCache.Block>, lh: seq<nat>, i: nat)
    requires i < |lh| && Common.Distinct(lh) && lh[i] in cache
    ensures lh[i] in Unsaved(cache, lh, i) && Unsaved(cache, lh, i)[lh[i]] == cache[lh[i]]
    ensures Unsaved(cache, lh, i + 1) == Unsaved(cache, lh, i) - {lh[i]}
    ensures forall b :: b in Unsaved(cache, lh, i) ==> b in lh
  {
    assert lh[i..] == [lh[i]] + lh[i + 1..];
    assert lh[i] !in lh[i + 1..];
  }

  ghost predicate AllFree(bufs: seq<Buf>) { forall i :: 0 <= i < |bufs| ==> bufs[i].refcnt == 0 }

  /** The same references to the same buffers, whatever they hold. */
  ghost predicate SameRefs(bufs: seq<Buf>, bufs': seq<Buf>) {
    |bufs'| == |bufs| && forall i :: 0 <= i < |bufs| ==> bufs'[i].refcnt == bufs[i].refcnt
  }

  class Log {
    const bc: BCache
    const l: Layout
    const dev: nat
    const block: array<nat>
    var n: nat
    var outstanding: nat
    var committing: bool
    ghost var ss: seq<State>
    ghost var labels: seq<Label>
    /** References per buffer by callers of bread, as against the log's own pins. */
    ghost var held: seq<nat>

    /** initlog after a boot: the run so far (of earlier kernels on this disk) ends in a crash, and
        recovery follows. */
    constructor (cache: BCache, layout: Layout, device: nat, ghost ss0: seq<State>, ghost labels0: seq<Label>)
      requires cache.Valid() && device != 0 && History(layout, ss0, labels0) && ss0[|ss0| - 1].disk == cache.disk
      requires |cache.past| == 1
      requires forall i :: 0 <= i < NBUF ==> cache.buf[i] == Buf(false, 0, 0, 0, [])
      modifies cache, cache.buf, cache.next, cache.prev
      ensures Valid() && bc == cache && l == layout && dev == device && fresh(block)
      ensures outstanding == 0 && ss0[|ss0| - 1].d <= |ss0[|ss0| - 1].t|
      ensures Now().t == ss0[|ss0| - 1].t[..ss0[|ss0| - 1].d]
      ensures ss0 < ss && labels0 < labels && labels[|labels0|] == Crash
      ensures forall j :: |labels0| < j < |labels| ==> labels[j] == Recover
    {
      bc, l, dev := cache, layout, device;
      block := new nat[LOGSIZE];
      n, outstanding, committing := 0, 0, false;
      ss, labels, held := ss0, labels0, seq(NBUF, _ => 0);
      new;
      ghost var s := Now();
      CrashCan(l, ss, labels);
      ghost var s' := State(s.disk, map[], [], 0, [], RHead, s.t[..s.d], s.d);
      Advance(Crash, s');
      assert block[..n] == [];
      assert Recorded(bc.past, ss) by { assert ss[|ss| - 1].disk == bc.disk; assert DiskSeen(ss, bc.disk); }
      RecoverFromLog();
    }

    ghost predicate Shape()
      reads this, block, bc, bc.buf, bc.next, bc.prev
    {
      && bc.Valid() && block.Length == LOGSIZE && n <= LOGSIZE && block != bc.next && block != bc.prev
      && History(l, ss, labels)
    }

    ghost function Now(): State
      reads this
    { if |ss| > 0 then ss[|ss| - 1] else State([], map[], [], 0, [], Idle, [], 0) }

    /** The run ends in the state this object is in, with the given blocks pinned. */
    ghost predicate Linked(pinned: map<nat, BufferCache.Block>)
      reads this, block, bc, bc.buf, bc.next, bc.prev
    {
      && Shape()
      && Now().disk == bc.disk && Now().lh == block[..n] && Now().outstanding == outstanding
      && Recorded(bc.past, ss)
      && Agree(bc.buf[..], bc.disk, dev, pinned, held)
    }

    /** Between operations. */
    ghost predicate Valid()
      reads this, block, bc, bc.buf, bc.next, bc.prev
    {
      Linked(Now().cache) && Now().phase.Idle? && !committing
    }

    ghost method Advance(a: Label, s': State)
      requires History(l, ss, labels) && Step(l, Now(), a, s')
      modifies `ss, `labels
      ensures History(l, ss, labels) && ss == old(ss) + [s'] && labels == old(labels) + [a] && Now() == s'
    {
      HistoryMore(l, ss, labels, a, s');
      ss, labels := ss + [s'], labels + [a];
    }

    /** bread on behalf of a holder. */
    method Acquire(b: nat, ghost pinned: map<nat, BufferCache.Block>) returns (r: Option<nat>)
      requires bc.Valid() && Agree(bc.buf[..], bc.disk, dev, pinned, held) && b < |bc.disk|
      modifies bc.buf, `held
      ensures bc.Valid() && Agree(bc.buf[..], bc.disk, dev, pinned, held)
      ensures r.None? <==> !old(Cached(bc.buf[..], dev, b)) && !old(HasFree(bc.buf[..]))
      ensures r.None? ==> bc.buf[..] == old(bc.buf[..]) && held == old(held)
      ensures r.Some? ==>
        && r.value < NBUF && (old(Holds(bc.buf[r.value], dev, b)) || old(bc.buf[r.value].refcnt) == 0)
        && held == old(held)[r.value := old(held)[r.value] + 1]
        && bc.buf[..] ==
             old(bc.buf[..])[r.value := Buf(true, dev, b, old(bc.buf[r.value].refcnt) + 1, Latest(bc.disk, pinned, b))]
    {
      hide Unique, ListOk, BufOk;
      r := bc.Bread(dev, b);
      if r.Some? {
        ReadAgrees(old(bc.buf[..]), bc.disk, dev, pinned, held, b, r.value, bc.buf[..]);
        held := held[r.value := held[r.value] + 1];
      }
    }

    /** brelse by a holder. */
    method Release(i: nat, ghost pinned: map<nat, BufferCache.Block>)
      requires bc.Valid() && Agree(bc.buf[..], bc.disk, dev, pinned, held) && i < NBUF && held[i] > 0
      modifies bc.buf, bc.next, bc.prev, bc`order, `held
      ensures bc.Valid() && Agree(bc.buf[..], bc.disk, dev, pinned, held)
      ensures held == old(held)[i := old(held)[i] - 1]
      ensures old(bc.buf[i].refcnt) > 0
      ensures bc.buf[..] == old(bc.buf[..])[i := old(bc.buf[i]).(refcnt := old(bc.buf[i]).refcnt - 1)]
    {
      hide Unique, ListOk, BufOk;
      ReleaseAgrees(bc.buf[..], bc.disk, dev, pinned, held, i);
      bc.Brelse(i);
      held := held[i := held[i] - 1];
    }

    /** Change a held block that is not pinned and write it out. */
    method Store(i: nat, data: BufferCache.Block, ghost pinned: map<nat, BufferCache.Block>)
      requires bc.Valid() && Agree(bc.buf[..], bc.disk, dev, pinned, held) && i < NBUF
      requires bc.buf[i].valid && bc.buf[i].blockno < |bc.disk| && bc.buf[i].blockno !in pinned
      modifies bc.buf, bc`disk, bc`past
      ensures bc.Valid() && Agree(bc.buf[..], bc.disk, dev, pinned, held)
      ensures bc.disk == old(bc.disk)[old(bc.buf[i].blockno) := data] && bc.past == old(bc.past) + [bc.disk]
      ensures bc.buf[..] == old(bc.buf[..])[i := old(bc.buf[i]).(data := data)]
    {
      hide Unique, ListOk, BufOk;
      WriteAgrees(bc.buf[..], bc.disk, dev, pinned, held, i, data);
      bc.Fill(i, data);
      bc.Bwrite(i);
    }

    method LogOne(tail: nat)
      requires Linked(Now().cache) && Now().phase == LogBlock(tail) && tail < n && HasFree(bc.buf[..])
      modifies bc, bc.buf, bc.next, bc.prev, `held, `ss, `labels
      ensures Linked(Now().cache) && HasFree(bc.buf[..]) && held == old(held)
      ensures Now() == old(Now()).(disk := bc.disk, phase := if tail + 1 == n then LogHead else LogBlock(tail + 1))
      ensures ss == old(ss) + [Now()] && labels == old(labels) + [LogMachine.Commit]
    {
      hide Unique, ListOk, BufOk, History, Recorded, Cached;
      ghost var s := Now();
      LoggedBlocks(l, ss, labels);
      assert Cached(bc.buf[..], dev, s.lh[tail]);
      CopyOut(block[tail], l.start + tail + 1, s.cache);
      ghost var s' := s.(disk := bc.disk, phase := if tail + 1 == n then LogHead else LogBlock(tail + 1));
      assert Step(l, s, LogMachine.Commit, s');
      RecordedMore(old(bc.past), ss, s');
      Advance(LogMachine.Commit, s');
      assert HasFree(bc.buf[..]) by { FreeSame(old(bc.buf[..]), bc.buf[..]); }
    }

    /** One iteration of write_log: copy a cached block to a block of the log. */
    method CopyOut(src: nat, dst: nat, ghost pinned: map<nat, BufferCache.Block>)
      requires bc.Valid() && Agree(bc.buf[..], bc.disk, dev, pinned, held) && src < |bc.disk| && dst < |bc.disk|
      requires src in pinned && dst !in pinned && HasFree(bc.buf[..]) && src != dst
      modifies bc, bc.buf, bc.next, bc.prev, `held
      ensures bc.Valid() && Agree(bc.buf[..], bc.disk, dev, pinned, held) && held == old(held)
      ensures bc.disk == old(bc.disk)[dst := pinned[src]] && bc.past == old(bc.past) + [bc.disk]
      ensures SameRefs(old(bc.buf[..]), bc.buf[..])
    {
      hide Agree, HasFree, Cached, ListOk, Unique;
      AgreeParts(bc.buf[..], bc.disk, dev, pinned, held);
      ghost var bufs := bc.buf[..];
      var to := Acquire(dst, pinned);
      AgreeParts(bc.buf[..], bc.disk, dev, pinned, held);
      var from := Acquire(src, pinned);
      assert to.value != from.value;
      Store(to.value, bc.buf[from.value].data, pinned);
      Release(from.value, pinned);
      Release(to.value, pinned);
    }

    /** write_log. */
    method WriteLog()
      requires Linked(Now().cache) && Now().phase == LogBlock(0) && n > 0 && HasFree(bc.buf[..])
      modifies bc, bc.buf, bc.next, bc.prev, `held, `ss, `labels
      ensures Linked(Now().cache) && HasFree(bc.buf[..]) && held == old(held)
      ensures Now() == old(Now()).(disk := bc.disk, phase := LogHead)
      ensures old(ss) <= ss && OnlyCommits(old(labels), labels)
    {
      hide Linked, HasFree, Step;
      var tail := 0;
      while tail < n
        invariant 0 <= tail <= n && n == old(n) > 0 && Linked(Now().cache) && HasFree(bc.buf[..]) && held == old(held)
        invariant Now() == old(Now()).(disk := Now().disk, phase := if tail == n then LogHead else LogBlock(tail))
        invariant old(ss) <= ss && OnlyCommits(old(labels), labels)
      {
        LogOne(tail);
        tail := tail + 1;
      }
      LinkedDisk(Now().cache);
    }

    lemma LinkedDisk(pinned: map<nat, BufferCache.Block>)
      requires Linked(pinned)
      ensures Now().disk == bc.disk
    {}

    /** write_head, down to the disk. */
    method WriteHead(ghost pinned: map<nat, BufferCache.Block>)
      requires bc.Valid() && Agree(bc.buf[..], bc.disk, dev, pinned, held) && l.start < |bc.disk|
      requires |bc.disk[l.start]| == 256
      requires l.start !in pinned && HasFree(bc.buf[..]) && block.Length == LOGSIZE && n < LOGSIZE
      requires block != bc.next && block != bc.prev
      modifies bc, bc.buf, bc.next, bc.prev, `held
      ensures bc.Valid() && Agree(bc.buf[..], bc.disk, dev, pinned, held) && held == old(held)
      ensures bc.disk == old(bc.disk)[l.start := HeadBlock(old(bc.disk[l.start]), block[..n])]
      ensures bc.past == old(bc.past) + [bc.disk]
      ensures SameRefs(old(bc.buf[..]), bc.buf[..])
    {
      hide Agree, HasFree, Cached, ListOk, Unique;
      AgreeParts(bc.buf[..], bc.disk, dev, pinned, held);
      var r := Acquire(l.start, pinned);
      ghost var old_ := bc.disk[l.start];
      var hb := bc.buf[r.value].data;
      assert hb == old_;
      hb := hb[0 := n];
      var i := 0;
      while i < n
        invariant 0 <= i <= n && |hb| == 256 && hb[0] == n
        invariant forall j :: 0 <= j < i ==> hb[1 + j] == block[j]
        invariant forall j :: 1 + i <= j < 256 ==> hb[j] == old_[j]
      {
        hb := hb[1 + i := block[i]];
        i := i + 1;
      }
      assert hb == HeadBlock(old_, block[..n]);
      Store(r.value, hb, pinned);
      Release(r.value, pinned);
    }

    /** One iteration of install_trans. */
    method CopyHome(src: nat, dst: nat, recovering: bool, ghost pinned: map<nat, BufferCache.Block>)
      requires bc.Valid() && Agree(bc.buf[..], bc.disk, dev, pinned, held) && src < |bc.disk| && dst < |bc.disk|
      requires src !in pinned && src != dst
      requires if recovering then pinned == map[] && AllFree(bc.buf[..])
               else dst in pinned && pinned[dst] == bc.disk[src] && HasFree(bc.buf[..])
      modifies bc, bc.buf, bc.next, bc.prev, `held
      ensures bc.Valid() && Agree(bc.buf[..], bc.disk, dev, pinned - {dst}, held) && held == old(held)
      ensures bc.disk == old(bc.disk)[dst := old(bc.disk[src])] && bc.past == old(bc.past) + [bc.disk]
      ensures if recovering then AllFree(bc.buf[..]) else HasFree(bc.buf[..])
    {
      hide Agree, HasFree, Cached, ListOk, Unique;
      AgreeParts(bc.buf[..], bc.disk, dev, pinned, held);
      ghost var bufs := bc.buf[..];
      if recovering { assert HasFree(bufs) by { SomeFree(bufs, NBUF); } }
      var lbuf := Acquire(src, pinned);
      AgreeParts(bc.buf[..], bc.disk, dev, pinned, held);
      if recovering { assert HasFree(bc.buf[..]) by { SomeFree(bc.buf[..], lbuf.value); } }
      var dbuf := Acquire(dst, pinned);
      assert lbuf.value != dbuf.value;
      if recovering {
        Store(dbuf.value, bc.buf[lbuf.value].data, pinned);
        assert pinned == pinned - {dst};
      } else {
        Unpin(dbuf.value, bc.buf[lbuf.value].data, pinned);
      }
      Release(lbuf.value, pinned - {dst});
      Release(dbuf.value, pinned - {dst});
      if !recovering { FreeStays(bufs, bc.buf[..], dbuf.value); }
    }

    /** Write a pinned block home and let it go. */
    method Unpin(i: nat, data: BufferCache.Block, ghost pinned: map<nat, BufferCache.Block>)
      requires bc.Valid() && Agree(bc.buf[..], bc.disk, dev, pinned, held) && i < NBUF
      requires bc.buf[i].valid && bc.buf[i].blockno < |bc.disk| && bc.buf[i].blockno in pinned
      requires pinned[bc.buf[i].blockno] == data
      modifies bc.buf, bc`disk, bc`past
      ensures bc.Valid() && Agree(bc.buf[..], bc.disk, dev, pinned - {old(bc.buf[i].blockno)}, held)
      ensures bc.disk == old(bc.disk)[old(bc.buf[i].blockno) := data] && bc.past == old(bc.past) + [bc.disk]
      ensures old(bc.buf[i].refcnt) > 0
      ensures bc.buf[..] == old(bc.buf[..])[i := old(bc.buf[i]).(refcnt := old(bc.buf[i].refcnt) - 1)]
    {
      hide Unique, ListOk;
      UnpinAgrees(bc.buf[..], bc.disk, dev, pinned, held, i);
      assert bc.buf[i].data == data by { assert BufOk(bc.buf[..][i], bc.disk, dev, pinned, held[i]); }
      bc.Fill(i, data);
      bc.Bwrite(i);
      bc.Bunpin(i);
      assert bc.buf[..] == old(bc.buf[..])[i := old(bc.buf[i]).(refcnt := old(bc.buf[i].refcnt) - 1)];
    }

    ghost function ToInstall(recovering: bool, tail: nat): map<nat, BufferCache.Block>
      requires tail <= |Now().lh|
      reads this
    { if recovering then map[] else Unsaved(Now().cache, Now().lh, tail) }

    ghost function InstallPhase(recovering: bool, tail: nat): Phase
      reads this
    {
      if tail < n then (if recovering then RInstall(tail) else Install(tail))
      else if recovering then RClear else Clear
    }

    ghost predicate Installing(recovering: bool, tail: nat)
      reads this, block, bc, bc.buf, bc.next, bc.prev
    {
      && tail <= n && n == |Now().lh| && Linked(ToInstall(recovering, tail))
      && Now().phase == InstallPhase(recovering, tail)
      && if recovering then AllFree(bc.buf[..]) && Now().cache == map[] else HasFree(bc.buf[..])
    }

    method InstallOne(tail: nat, recovering: bool)
      requires Installing(recovering, tail) && tail < n
      modifies bc, bc.buf, bc.next, bc.prev, `held, `ss, `labels
      ensures Installing(recovering, tail + 1) && held == old(held)
      ensures Now() == old(Now()).(disk := bc.disk, phase := InstallPhase(recovering, tail + 1))
      ensures ss == old(ss) + [Now()] && labels == old(labels) + [if recovering then Recover else LogMachine.Commit]
    {
      hide History, Recorded, Agree, HasFree, AllFree, Step, Unsaved, ListOk, Unique, LoggedOk;
      ghost var s := Now();
      ghost var pinned := ToInstall(recovering, tail);
      InstallReady(recovering, tail);
      CopyHome(l.start + tail + 1, block[tail], recovering, pinned);
      ghost var s' := s.(disk := bc.disk, phase := InstallPhase(recovering, tail + 1));
      ghost var a := if recovering then Recover else LogMachine.Commit;
      InstallStep(l, s, s', tail, recovering);
      RecordedMore(old(bc.past), ss, s');
      Advance(a, s');
    }

    lemma InstallReady(recovering: bool, tail: nat)
      requires Installing(recovering, tail) && tail < n
      ensures var s := Now(); var pinned := ToInstall(recovering, tail);
              && LayoutOk(l) && |s.disk| == l.nblocks && |s.disk[l.start]| == 256 && LoggedOk(l, s.lh)
              && s.lh[tail] == block[tail] < |s.disk| && |s.lh| < LOGSIZE
              && l.start + tail + 1 !in pinned && l.start + tail + 1 != block[tail]
              && (!recovering ==> block[tail] in pinned && pinned[block[tail]] == bc.disk[l.start + tail + 1])
              && ToInstall(recovering, tail + 1) == pinned - {block[tail]}
    {
      hide History, Recorded, Agree, HasFree, AllFree, Step, Unsaved, ListOk, Unique;
      LoggedBlocks(l, ss, labels);
      var s := Now();
      assert s.lh[tail] == block[tail];
      if !recovering { UnsavedNext(s.cache, s.lh, tail); }
    }

    /** install_trans. */
    method InstallTrans(recovering: bool)
      requires Installing(recovering, 0)
      modifies bc, bc.buf, bc.next, bc.prev, `held, `ss, `labels
      ensures Installing(recovering, n) && held == old(held)
      ensures Now() == old(Now()).(disk := bc.disk, phase := InstallPhase(recovering, n))
      ensures old(ss) <= ss
      ensures (if recovering then OnlyRecovery(old(labels), labels) else OnlyCommits(old(labels), labels))
    {
      hide Installing, Step;
      InstallingDisk(recovering, 0);
      var tail := 0;
      while tail < n
        invariant 0 <= tail <= n == old(n) && Installing(recovering, tail) && held == old(held)
        invariant Now() == old(Now()).(disk := bc.disk, phase := InstallPhase(recovering, tail))
        invariant old(ss) <= ss
        invariant (if recovering then OnlyRecovery(old(labels), labels) else OnlyCommits(old(labels), labels))
      {
        InstallOne(tail, recovering);
        tail := tail + 1;
      }
    }

    lemma InstallingDisk(recovering: bool, tail: nat)
      requires Installing(recovering, tail)
      ensures Now().disk == bc.disk && tail <= n && Now().phase == InstallPhase(recovering, tail)
    {}

    /** read_head. */
    method ReadHead()
      requires Linked(map[]) && Now().phase.RHead? && AllFree(bc.buf[..]) && Now().cache == map[]
      modifies this, block, bc, bc.buf, bc.next, bc.prev
      ensures Installing(true, 0) && held == old(held) && committing == old(committing)
      ensures outstanding == old(outstanding)
      ensures ss == old(ss) + [Now()] && labels == old(labels) + [Recover]
      ensures Now() == old(Now()).(lh := Now().lh, phase := InstallPhase(true, 0))
    {
      hide History, Recorded, Agree, Cached, ListOk, Unique;
      ghost var s := Now();
      LoggedBlocks(l, ss, labels);
      AgreeParts(bc.buf[..], bc.disk, dev, map[], held);
      ghost var bufs := bc.buf[..];
      assert HasFree(bufs) by { SomeFree(bufs, NBUF); }
      hide HasFree;
      var r := Acquire(l.start, map[]);
      var h := bc.buf[r.value].data;
      assert h == bc.disk[l.start];
      CopyHeader(h);
      Release(r.value, map[]);
      assert block[..n] == Header(l, s.disk);
      ghost var s' := s.(lh := Header(l, s.disk), phase := InstallPhase(true, 0));
      assert Step(l, s, Recover, s');
      RecordedMore(bc.past, ss, s');
      Advance(Recover, s');
    }

    method CopyHeader(h: BufferCache.Block)
      requires |h| == 256 && h[0] < LOGSIZE && block.Length == LOGSIZE
      modifies `n, block
      ensures n == h[0] && block[..n] == h[1..1 + h[0]]
    {
      n := h[0];
      var i := 0;
      while i < n
        invariant 0 <= i <= n == h[0]
        invariant forall j :: 0 <= j < i ==> block[j] == h[1 + j]
      {
        block[i] := h[1 + i];
        i := i + 1;
      }
    }

    /** recover_from_log. */
    method RecoverFromLog()
      requires Linked(map[]) && Now().phase.RHead? && AllFree(bc.buf[..]) && Now().cache == map[] && !committing
      modifies this, block, bc, bc.buf, bc.next, bc.prev
      ensures Valid() && outstanding == old(outstanding) && Now().t == old(Now()).t
      ensures old(ss) <= ss && OnlyRecovery(old(labels), labels)
    {
      ReadHead();
      InstallTrans(true);
      EraseHead(true);
    }

    /** The last header write, of recovery and of commit alike. */
    method EraseHead(recovering: bool)
      requires Installing(recovering, n)
      modifies this, bc, bc.buf, bc.next, bc.prev
      ensures Linked(map[]) && HasFree(bc.buf[..]) && held == old(held) && committing == old(committing)
      ensures outstanding == old(outstanding) && n == 0
      ensures Now() ==
                old(Now()).(disk := bc.disk, lh := [], cache := map[], phase := if recovering then Idle else Finish)
      ensures ss == old(ss) + [Now()] && labels == old(labels) + [if recovering then Recover else LogMachine.Commit]
    {
      hide History, Recorded, Agree, HasFree;
      ghost var s := Now();
      LoggedBlocks(l, ss, labels);
      AgreeParts(bc.buf[..], bc.disk, dev, ToInstall(recovering, n), held);
      assert ToInstall(recovering, n) == map[];
      assert HasFree(bc.buf[..]) by { if recovering { SomeFree(bc.buf[..], NBUF); } }
      n := 0;
      WriteHead(map[]);
      assert block[..n] == [];
      ghost var s' := s.(disk := bc.disk, lh := [], cache := map[], phase := if recovering then Idle else Finish);
      ghost var a := if recovering then Recover else LogMachine.Commit;
      assert Step(l, s, a, s');
      RecordedMore(old(bc.past), ss, s');
      Advance(a, s');
      assert HasFree(bc.buf[..]) by { FreeSame(old(bc.buf[..]), bc.buf[..]); }
    }

    /** commit: the real commit is the write of the header. */
    method Commit()
      requires Linked(Now().cache) && HasFree(bc.buf[..]) && Now().phase == (if n > 0 then LogBlock(0) else Finish)
      modifies this, bc, bc.buf, bc.next, bc.prev
      ensures Linked(Now().cache) && Now().phase.Finish? && held == old(held) && committing == old(committing)
      ensures outstanding == old(outstanding)
      ensures Now().t == old(Now()).t && Now().active == old(Now()).active
      ensures old(ss) <= ss && OnlyCommits(old(labels), labels)
    {
      hide Linked, Installing, HasFree;
      if n > 0 {
        WriteLog();
        CommitHead();
        InstallTrans(false);
        EraseHead(false);
      }
    }

    /** The header write that commits. */
    method CommitHead()
      requires Linked(Now().cache) && HasFree(bc.buf[..]) && Now().phase.LogHead? && n > 0
      modifies bc, bc.buf, bc.next, bc.prev, `held, `ss, `labels
      ensures Installing(false, 0) && held == old(held)
      ensures Now() == old(Now()).(disk := bc.disk, phase := Install(0), d := |Now().t|)
      ensures ss == old(ss) + [Now()] && labels == old(labels) + [LogMachine.Commit]
    {
      hide History, Recorded, Agree, HasFree;
      ghost var s := Now();
      LoggedBlocks(l, ss, labels);
      WriteHead(s.cache);
      ghost var s' := s.(disk := bc.disk, phase := Install(0), d := |s.t|);
      assert Step(l, s, LogMachine.Commit, s');
      RecordedMore(old(bc.past), ss, s');
      Advance(LogMachine.Commit, s');
      UnsavedStart(s.cache, s.lh);
      assert HasFree(bc.buf[..]) by { FreeSame(old(bc.buf[..]), bc.buf[..]); }
    }

    lemma IdleFacts()
      requires Valid()
      ensures LayoutOk(l) && |bc.disk| == l.nblocks && |bc.disk[l.start]| == 256 && outstanding == |Now().active|
      ensures n < LOGSIZE
      ensures forall b :: b in Now().cache <==> b in block[..n]
    {
      hide Recorded, Agree, History, Inv, Step;
      LoggedBlocks(l, ss, labels);
      var d0 := HistoryInv(l, ss, labels);
      IdleOps(l, d0, Now());
    }

    /** begin_op, one turn of its loop: false is going to sleep. */
    method BeginOp(ghost id: nat) returns (admitted: bool)
      requires Valid() && id !in Open(Now().t)
      modifies this
      ensures Valid() && admitted == old(Admits(Now())) && held == old(held)
      ensures if admitted then labels == old(labels) + [Begin(id)] && ss == old(ss) + [Now()]
              else ss == old(ss) && labels == old(labels)
    {
      hide History, Recorded, Agree, Open;
      admitted := false;
      if committing {
      } else if n + (outstanding + 1) * MAXOPBLOCKS > LOGSIZE {
      } else {
        ghost var s := Now();
        LoggedBlocks(l, ss, labels);
        outstanding := outstanding + 1;
        admitted := true;
        ghost var s' := s.(outstanding := s.outstanding + 1, active := s.active + [Active(id, 0)],
                           t := s.t + [EvBegin(id)]);
        assert Step(l, s, Begin(id), s');
        RecordedMore(bc.past, ss, s');
        Advance(Begin(id), s');
      }
    }

    /** Change a held block and log_write it: false is a panic. */
    method LogWrite(i: nat, data: BufferCache.Block, ghost k: nat) returns (ok: bool)
      requires Valid() && i < NBUF && held[i] > 0 && Home(l, bc.buf[i].blockno) && k < |Now().active|
      modifies this, block, bc.buf
      ensures ok == !old(TooBig(l, Now()))
      ensures ok ==> Valid() && held == old(held)
      ensures ok && old(bc.buf[i].blockno in block[..n]) ==> n == old(n)
      ensures ok && !old(bc.buf[i].blockno in block[..n]) ==> n == old(n) + 1
      ensures !ok ==> History(l, ss, labels) && Now().phase.Panicked? && Now().disk == bc.disk
      ensures ss == old(ss) + [Now()] && labels == old(labels) + [LogMachine.Write(k, old(bc.buf[i].blockno), data)]
    {
      hide History, Recorded, Agree, Cached, Inv, Step, ListOk, Unique, LoggedOk, HasFree;
      ghost var s := Now();
      ghost var bufs := bc.buf[..];
      IdleFacts();
      HeldValid(bufs, bc.disk, dev, s.cache, held, i);
      var b := bc.buf[i].blockno;
      bc.Fill(i, data);
      ghost var a := LogMachine.Write(k, b, data);
      ghost var e := EvWrite(s.active[k].id, b, data);
      if n >= LOGSIZE || n >= l.size - 1 {
        WriteCan(l, s, k, b, data, s.(phase := Panicked));
        Advance(a, s.(phase := Panicked));
        return false;
      }
      Absorb(i);
      ghost var s' := s.(cache := s.cache[b := data], t := s.t + [e]);
      if b !in s.lh {
        s' := s'.(lh := s.lh + [b], active := s.active[k := s.active[k].(spent := s.active[k].spent + 1)]);
      }
      WriteCan(l, s, k, b, data, s');
      RecordedMore(bc.past, ss, s');
      Advance(a, s');
      LogAgrees(bufs, bc.disk, dev, s.cache, held, i, data);
      assert bc.buf[..] ==
               bufs[i := bufs[i].(data := data, refcnt := if b in s.cache then bufs[i].refcnt else bufs[i].refcnt + 1)];
      return true;
    }

    /** log_write once it has room: list the block, and pin it if it is new to the transaction. */
    method Absorb(i: nat)
      requires bc.Valid() && block.Length == LOGSIZE && n < LOGSIZE && i < NBUF && block != bc.next && block != bc.prev
      modifies `n, block, bc.buf
      ensures bc.Valid() && n <= LOGSIZE
      ensures var b := old(bc.buf[i].blockno); var lh := old(block[..n]);
              && block[..n] == (if b in lh then lh else lh + [b])
              && bc.buf[..] ==
                   old(bc.buf[..])[i := old(bc.buf[i]).(refcnt := if b in
                                                        lh then old(bc.buf[i].refcnt) else old(bc.buf[i].refcnt) + 1)]
    {
      hide ListOk, Unique;
      var b := bc.buf[i].blockno;
      ghost var lh := block[..n];
      var j := FindLogged(b);
      assert j < n <==> b in lh;
      block[j] := b;
      if j == n {
        bc.Bpin(i);
        n := n + 1;
      }
      assert block[..n] == if b in lh then lh else lh + [b];
    }

    method FindLogged(b: nat) returns (j: nat)
      requires block.Length == LOGSIZE && n <= LOGSIZE
      ensures j <= n && (j < n ==> block[j] == b) && (j == n ==> b !in block[..n])
    {
      j := 0;
      while j < n
        invariant 0 <= j <= n && b !in block[..j]
      {
        if block[j] == b { return; }
        j := j + 1;
      }
    }

    /** end_op by the k-th operation in progress: the last one out commits. */
    method EndOp(ghost k: nat)
      requires Valid() && k < |Now().active| && HasFree(bc.buf[..])
      modifies this, block, bc, bc.buf, bc.next, bc.prev
      ensures Valid() && held == old(held) && outstanding == old(outstanding) - 1
      ensures old(ss) <= ss && |labels| > |old(labels)| && old(labels) + [End(k)] <= labels
      ensures OnlyCommits(old(labels) + [End(k)], labels)
      ensures Now().t == old(Now()).t + [EvEnd(old(Now()).active[k].id)]
      ensures outstanding == 0 ==> n == 0 && Now().d == |Now().t|
    {
      hide Recorded, Agree, HasFree, History, Inv, Step;
      ghost var s := Now();
      IdleFacts();
      outstanding := outstanding - 1;
      ghost var s1 := s.(outstanding := outstanding, active := s.active[..k] + s.active[k + 1..],
                         t := s.t + [EvEnd(s.active[k].id)]);
      ghost var s' := if outstanding == 0 then s1.(phase := if s.lh == [] then Finish else LogBlock(0)) else s1;
      EndCan(l, s, k, s');
      RecordedMore(bc.past, ss, s');
      Advance(End(k), s');
      if outstanding == 0 {
        committing := true;
        CommitAndFinish();
      }
    }

    method CommitAndFinish()
      requires Linked(Now().cache) && HasFree(bc.buf[..]) && Now().phase == (if n > 0 then LogBlock(0) else Finish)
      requires committing
      modifies this, bc, bc.buf, bc.next, bc.prev
      ensures Valid() && held == old(held) && outstanding == old(outstanding) && n == 0
      ensures Now().t == old(Now()).t && Now().d == |Now().t|
      ensures old(ss) <= ss && OnlyCommits(old(labels), labels)
    {
      hide Linked, HasFree;
      Commit();
      FinishCommit();
    }

    /** end_op after commit. */
    method FinishCommit()
      requires Linked(Now().cache) && Now().phase.Finish? && committing
      modifies `committing, `ss, `labels
      ensures Valid() && Now() == old(Now()).(phase := Idle, d := |Now().t|) && n == 0
      ensures ss == old(ss) + [Now()] && labels == old(labels) + [LogMachine.Commit]
    {
      hide Recorded, Agree;
      ghost var s := Now();
      LoggedBlocks(l, ss, labels);
      ghost var d0 := HistoryInv(l, ss, labels);
      assert s.lh == [];
      committing := false;
      ghost var s' := s.(phase := Idle, d := |s.t|);
      assert Step(l, s, LogMachine.Commit, s');
      RecordedMore(bc.past, ss, s');
      Advance(LogMachine.Commit, s');
    }
  }

  /** Only commit steps were added. */
  ghost predicate OnlyCommits(before: seq<Label>, after: seq<Label>) {
    before <= after && forall j :: |before| <= j < |after| ==> after[j] == LogMachine.Commit
  }

  /** Only recovery steps were added. */
  ghost predicate OnlyRecovery(before: seq<Label>, after: seq<Label>) {
    before <= after && forall j :: |before| <= j < |after| ==> after[j] == Recover
  }

  /** What bread returns is the block after every write of the history, committed or not. */
  lemma ReadsLatest(l: Layout, ss: seq<State>, labels: seq<Label>, b: nat) returns (d0: seq<BufferCache.Block>)
    requires History(l, ss, labels) && ss[|ss| - 1].phase.Idle? && Home(l, b)
    ensures StartsFrom(l, ss[0].disk, d0) && b < |d0| && b < |ss[|ss| - 1].disk|
    ensures Latest(ss[|ss| - 1].disk, ss[|ss| - 1].cache, b) == Apply(d0, ss[|ss| - 1].t, b)
  {
    hide Apply, Step, Recovered, PhaseOk, OpsOk;
    d0 := RecoveredStart(l, ss[0].disk);
    RunInv(l, d0, ss, labels, |ss| - 1);
    var s := ss[|ss| - 1];
    assert Contents(s, b) == Apply(d0, s.t, b);
  }

  /** The code survives a power failure at any block write: whatever disk there was at any moment
      since boot, recovery from it yields the effect of whole operations only, the committed ones. */
  lemma CrashAnywhere(l: Layout, past: seq<seq<BufferCache.Block>>, ss: seq<State>, labels: seq<Label>, j: nat)
    returns (i: nat, d0: seq<BufferCache.Block>)
    requires History(l, ss, labels) && Recorded(past, ss) && j < |past|
    ensures StartsFrom(l, ss[0].disk, d0) && i < |ss| && ss[i].disk == past[j] && DiskOk(l, past[j])
    ensures ss[i].d <= |ss[i].t| && Open(ss[i].t[..ss[i].d]) == {}
    ensures forall b: nat :: Home(l, b) ==> Recovered(l, past[j], b) == Apply(d0, ss[i].t[..ss[i].d], b)
  {
    hide Apply, Step, Recovered, PhaseOk, OpsOk, Open, Header;
    assert DiskSeen(ss, past[j]);
    i :| 0 <= i < |ss| && ss[i].disk == past[j];
    d0 := RecoveredStart(l, ss[0].disk);
    RunInv(l, d0, ss, labels, i);
  }

  lemma IdleOps(l: Layout, d0: seq<BufferCache.Block>, s: State)
    requires Inv(l, d0, s) && s.phase.Idle?
    ensures s.outstanding == |s.active|
  {
    OpsCount(s);
  }

  lemma EndCan(l: Layout, s: State, k: nat, s': State)
    requires LayoutOk(l) && |s.disk| == l.nblocks && |s.disk[l.start]| == 256 && s.phase.Idle?
    requires k < |s.active| == s.outstanding
    requires var s1 := s.(outstanding := s.outstanding - 1, active := s.active[..k] + s.active[k + 1..],
                          t := s.t + [EvEnd(s.active[k].id)]);
             s' == if s1.outstanding == 0 then s1.(phase := if s.lh == [] then Finish else LogBlock(0)) else s1
    ensures Step(l, s, End(k), s')
  {}

  lemma WriteCan(l: Layout, s: State, k: nat, b: nat, data: BufferCache.Block, s': State)
    requires LayoutOk(l) && |s.disk| == l.nblocks && |s.disk[l.start]| == 256 && s.phase.Idle?
    requires k < |s.active| && s.outstanding > 0 && Home(l, b)
    requires s' ==
             if TooBig(l, s) then s.(phase := Panicked)
             else if b in s.lh then s.(cache := s.cache[b := data], t := s.t + [EvWrite(s.active[k].id, b, data)])
             else s.(cache := s.cache[b := data], lh := s.lh + [b],
                     active := s.active[k := s.active[k].(spent := s.active[k].spent + 1)],
                     t := s.t + [EvWrite(s.active[k].id, b, data)])
    ensures Step(l, s, LogMachine.Write(k, b, data), s')
  {}

  lemma InstallStep(l: Layout, s: State, s': State, tail: nat, recovering: bool)
    requires LayoutOk(l) && |s.disk| == l.nblocks && |s.disk[l.start]| == 256 && LoggedOk(l, s.lh) && tail < |s.lh|
    requires s.phase == if recovering then RInstall(tail) else Install(tail)
    requires s' == s.(disk := s.disk[s.lh[tail] := s.disk[l.start + tail + 1]],
                      phase := if tail + 1 < |s.lh| then (if recovering then RInstall(tail + 1) else Install(tail + 1))
                               else if recovering then RClear else Clear)
    ensures Step(l, s, if recovering then Recover else LogMachine.Commit, s')
  {}

  lemma CrashCan(l: Layout, ss: seq<State>, labels: seq<Label>)
    requires History(l, ss, labels)
    ensures |ss| > 0
    ensures var s := ss[|ss| - 1];
            s.d <= |s.t| && Step(l, s, Crash, State(s.disk, map[], [], 0, [], RHead, s.t[..s.d], s.d))
  {
    LoggedBlocks(l, ss, labels);
    var d0 := HistoryInv(l, ss, labels);
    InvParts(l, d0, ss[|ss| - 1]);
  }

  lemma HeldValid(bufs: seq<Buf>, disk: seq<BufferCache.Block>, dev: nat, pinned: map<nat, BufferCache.Block>,
                  held: seq<nat>, i: nat)
    requires Agree(bufs, disk, dev, pinned, held) && i < NBUF && held[i] > 0
    ensures bufs[i].valid
  {
    assert BufOk(bufs[i], disk, dev, pinned, held[i]);
  }

  /** With at most one buffer referred to, another is free. */
  lemma SomeFree(bufs: seq<Buf>, busy: nat)
    requires |bufs| == NBUF && forall i :: 0 <= i < NBUF && i != busy ==> bufs[i].refcnt == 0
    ensures HasFree(bufs)
  {
    assert bufs[if busy == 0 then 1 else 0].refcnt == 0;
  }

  lemma FreeStays(bufs: seq<Buf>, bufs': seq<Buf>, x: nat)
    requires HasFree(bufs) && |bufs'| == |bufs|
    requires forall i :: 0 <= i < |bufs| && i != x ==> bufs'[i].refcnt == bufs[i].refcnt
    requires x < |bufs| && bufs'[x].refcnt < bufs[x].refcnt
    ensures HasFree(bufs')
  {
    var i :| 0 <= i < |bufs| && bufs[i].refcnt == 0;
    assert bufs'[i].refcnt == 0;
  }

  lemma FreeSame(bufs: seq<Buf>, bufs': seq<Buf>)
    requires HasFree(bufs) && SameRefs(bufs, bufs')
    ensures HasFree(bufs')
  {
    var i :| 0 <= i < |bufs| && bufs[i].refcnt == 0;
    assert bufs'[i].refcnt == 0;
  }
}