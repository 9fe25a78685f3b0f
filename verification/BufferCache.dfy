/** The block cache: a fixed set of buffers on a doubly linked list ordered by last release,
    most recent first. The disk behind it reads and writes whole blocks atomically and, as the
    driver does, ignores the device number. */
module BufferCache {
  import Common
  import opened Sv39
  import LogMachine

  const NBUF: nat := 30
  const HEAD: nat := NBUF

  type Block = LogMachine.Block

  datatype Buf = Buf(valid: bool, dev: nat, blockno: nat, refcnt: nat, data: Block)

  // ---------- the list ----------

  /** The k-th node after the head; the head itself before the first and after the last. */
  function At(order: seq<nat>, k: int): nat { if 0 <= k < |order| then order[k] else HEAD }

  ghost predicate Nodes(order: seq<nat>) {
    && (forall k :: 0 <= k < |order| ==> order[k] < NBUF)
    && (forall j, k :: 0 <= j < k < |order| ==> order[j] != order[k])
  }

  /** next and prev are the circular list head, order[0], order[1], ..., head. */
  ghost predicate ListOk(next: seq<nat>, prev: seq<nat>, order: seq<nat>) {
    && |next| == |prev| == NBUF + 1 && Nodes(order)
    && forall k ::
         -1 <= k < |order| ==> next[At(order, k)] == At(order, k + 1) && prev[At(order, k + 1)] == At(order, k)
  }

  function Without(order: seq<nat>, p: nat): seq<nat>
    requires p < |order|
  { order[..p] + order[p + 1..] }

  lemma ListAt(next: seq<nat>, prev: seq<nat>, order: seq<nat>, k: int)
    requires ListOk(next, prev, order) && -1 <= k <= |order|
    ensures At(order, k) <= HEAD && (At(order, k) == HEAD <==> k == -1 || k == |order|)
    ensures k < |order| ==> next[At(order, k)] == At(order, k + 1)
    ensures k >= 0 ==> prev[At(order, k)] == At(order, k - 1)
  {
    if k >= 0 { assert At(order, (k - 1) + 1) == At(order, k); }
  }

  lemma WithoutAt(order: seq<nat>, p: nat, k: int)
    requires p < |order| && -1 <= k <= |order| - 1
    ensures At(Without(order, p), k) == At(order, if k < p then k else k + 1)
  {}

  lemma WithoutNodes(order: seq<nat>, p: nat)
    requires Nodes(order) && p < |order|
    ensures Nodes(Without(order, p)) && |Without(order, p)| == |order| - 1 && order[p] !in Without(order, p)
  {}

  lemma DistinctAt(order: seq<nat>, j: int, k: int)
    requires Nodes(order) && -1 <= j < |order| && -1 <= k < |order| && j != k
    ensures At(order, j) != At(order, k)
  {}

  lemma Unlink(next: seq<nat>, prev: seq<nat>, order: seq<nat>, p: nat)
    requires ListOk(next, prev, order) && p < |order|
    ensures next[order[p]] <= HEAD && prev[order[p]] <= HEAD
    ensures ListOk(next[prev[order[p]] := next[order[p]]], prev[next[order[p]] := prev[order[p]]], Without(order, p))
  {
    var o := Without(order, p);
    ListAt(next, prev, order, p);
    ListAt(next, prev, order, p - 1);
    ListAt(next, prev, order, p + 1);
    var next', prev' := next[At(order, p - 1) := At(order, p + 1)], prev[At(order, p + 1) := At(order, p - 1)];
    WithoutNodes(order, p);
    assert At(order, p) == order[p];
    hide Nodes, At, Without;
    forall k | -1 <= k < |o| ensures next'[At(o, k)] == At(o, k + 1) && prev'[At(o, k + 1)] == At(o, k) {
      UnlinkAt(next, prev, order, p, k);
    }
  }

  lemma UnlinkAt(next: seq<nat>, prev: seq<nat>, order: seq<nat>, p: nat, k: int)
    requires ListOk(next, prev, order) && p < |order| && -1 <= k < |order| - 1
    ensures At(order, p - 1) <= HEAD && At(order, p + 1) <= HEAD
    ensures var o := Without(order, p);
            && At(o, k) <= HEAD && At(o, k + 1) <= HEAD
            && next[At(order, p - 1) := At(order, p + 1)][At(o, k)] == At(o, k + 1)
            && prev[At(order, p + 1) := At(order, p - 1)][At(o, k + 1)] == At(o, k)
  {
    var j := if k < p then k else k + 1;
    var j' := if k + 1 < p then k + 1 else k + 2;
    WithoutAt(order, p, k);
    WithoutAt(order, p, k + 1);
    ListAt(next, prev, order, j);
    ListAt(next, prev, order, j');
    ListAt(next, prev, order, p - 1);
    ListAt(next, prev, order, p + 1);
    ListNodes(next, prev, order);
    hide Without, Nodes;
    if k != p - 1 { DistinctAt(order, j, p - 1); }
    if j' < |order| && p + 1 < |order| && j' != p + 1 { DistinctAt(order, j', p + 1); }
  }

  lemma PushFront(next: seq<nat>, prev: seq<nat>, order: seq<nat>, b: nat)
    requires ListOk(next, prev, order) && b < NBUF && b !in order
    ensures next[HEAD] <= HEAD && next[HEAD] != b
    ensures ListOk(next[b := next[HEAD]][HEAD := b], prev[b := HEAD][next[HEAD] := b], [b] + order)
  {
    var o := [b] + order;
    ListAt(next, prev, order, -1);
    ListAt(next, prev, order, 0);
    var next', prev' := next[b := next[HEAD]][HEAD := b], prev[b := HEAD][next[HEAD] := b];
    forall k | -1 <= k < |o| ensures next'[At(o, k)] == At(o, k + 1) && prev'[At(o, k + 1)] == At(o, k) {
      if k >= 1 {
        assert At(o, k) == At(order, k - 1) && At(o, k + 1) == At(order, k);
        ListAt(next, prev, order, k - 1);
        ListAt(next, prev, order, k);
      } else if k == 0 {
        assert At(o, 1) == At(order, 0);
      }
    }
  }

  // ---------- which buffer holds which block ----------

  predicate Holds(b: Buf, dev: nat, blockno: nat) { b.dev == dev && b.blockno == blockno }

  /** At most one buffer per block of a nonzero device. */
  ghost predicate Unique(bufs: seq<Buf>) {
    forall i, j :: 0 <= i < j < |bufs| && bufs[i].dev != 0 ==> !Holds(bufs[j], bufs[i].dev, bufs[i].blockno)
  }

  ghost predicate Cached(bufs: seq<Buf>, dev: nat, blockno: nat) {
    exists i :: 0 <= i < |bufs| && Holds(bufs[i], dev, blockno)
  }

  /** bget's result: the most recently released buffer holding the block, else the least recently
      released one that nobody refers to. */
  ghost predicate Got(bufs: seq<Buf>, order: seq<nat>, dev: nat, blockno: nat, i: nat, bufs': seq<Buf>)
    requires |bufs| == NBUF && Nodes(order)
  {
    && i < NBUF
    && exists k :: 0 <= k < |order| && order[k] == i &&
         if Cached(bufs, dev, blockno) then
           && Holds(bufs[i], dev, blockno) && (forall j :: 0 <= j < k ==> !Holds(bufs[order[j]], dev, blockno))
           && bufs' == bufs[i := bufs[i].(refcnt := bufs[i].refcnt + 1)]
         else
           && bufs[i].refcnt == 0 && (forall j :: k < j < |order| ==> bufs[order[j]].refcnt > 0)
           && bufs' == bufs[i := Buf(false, dev, blockno, 1, bufs[i].data)]
  }

  /** Every buffer is on the list. */
  lemma {:induction false} AllListed(order: seq<nat>, i: nat)
    requires Nodes(order) && |order| == NBUF && i < NBUF
    ensures i in order
  {
    if i !in order {
      Pigeonhole(order + [i], NBUF);
    }
  }

  /** No n + 1 distinct numbers below n. */
  lemma {:induction false} Pigeonhole(s: seq<nat>, n: nat)
    requires forall k :: 0 <= k < |s| ==> s[k] < n
    requires Common.Distinct(s)
    ensures |s| <= n
  {
    if s != [] {
      assert s[0] < n;
      if n - 1 in s {
        var p :| 0 <= p < |s| && s[p] == n - 1;
        Pigeonhole(s[..p] + s[p + 1..], n - 1);
      } else {
        Pigeonhole(s, n - 1);
      }
    }
  }

  class BCache {
    const buf: array<Buf>
    const next: array<nat>
    const prev: array<nat>
    var disk: seq<Block>
    ghost var order: seq<nat>
    /** Every disk there has ever been. */
    ghost var past: seq<seq<Block>>

    ghost predicate Valid()
      reads this, buf, next, prev
    {
      && buf.Length == NBUF && next.Length == prev.Length == NBUF + 1 && next != prev
      && ListOk(next[..], prev[..], order) && |order| == NBUF
      && Unique(buf[..])
      && |past| > 0 && past[|past| - 1] == disk
    }

    /** binit, on buffers the loader has zeroed. */
    constructor (contents: seq<Block>)
      ensures Valid() && fresh(buf) && fresh(next) && fresh(prev) && buf.Length == 30
      ensures disk == contents && past == [contents]
      ensures forall i :: 0 <= i < NBUF ==> buf[i] == Buf(false, 0, 0, 0, [])
      ensures forall k :: 0 <= k < NBUF ==> order[k] == NBUF - 1 - k
    {
      buf := new Buf[NBUF](_ => Buf(false, 0, 0, 0, []));
      next := new nat[NBUF + 1](_ => HEAD);
      prev := new nat[NBUF + 1](_ => HEAD);
      disk, order, past := contents, [], [contents];
      new;
      var b := 0;
      while b < NBUF
        invariant 0 <= b <= NBUF && |order| == b && ListOk(next[..], prev[..], order)
        invariant forall k :: 0 <= k < b ==> order[k] == b - 1 - k
        invariant forall i :: 0 <= i < NBUF ==> buf[i] == Buf(false, 0, 0, 0, [])
        invariant disk == contents && past == [contents]
      {
        PushFront(next[..], prev[..], order, b);
        InsertFront(b);
        b := b + 1;
      }
    }

    /** Link b in right after the head. */
    method InsertFront(b: nat)
      requires next.Length == prev.Length == NBUF + 1 && next != prev && b < NBUF
      requires ListOk(next[..], prev[..], order) && b !in order
      modifies next, prev, `order
      ensures ListOk(next[..], prev[..], order) && order == [b] + old(order)
    {
      PushFront(next[..], prev[..], order, b);
      ghost var n: seq<nat>, p: seq<nat> := next[..], prev[..];
      next[b] := next[HEAD];
      prev[b] := HEAD;
      prev[next[HEAD]] := b;
      next[HEAD] := b;
      order := [b] + order;
      assert next[..] == n[b := n[HEAD]][HEAD := b];
      assert prev[..] == p[b := HEAD][n[HEAD] := b];
    }

    /** Is the block cached? Walks forward from the most recently released. */
    method Lookup(dev: nat, blockno: nat) returns (b: nat)
      requires Valid()
      ensures b == HEAD <==> !Cached(buf[..], dev, blockno)
      ensures b != HEAD ==>
                exists k ::
                  && 0 <= k < |order| && order[k] == b && Holds(buf[b], dev, blockno)
                  && forall j :: 0 <= j < k ==> !Holds(buf[order[j]], dev, blockno)
    {
      hide Unique;
      ListAt(next[..], prev[..], order, -1);
      b := next[HEAD];
      ghost var k := 0;
      while b != HEAD
        invariant 0 <= k <= |order| && b == At(order, k)
        invariant forall j :: 0 <= j < k ==> !Holds(buf[order[j]], dev, blockno)
        decreases |order| - k
      {
        ListAt(next[..], prev[..], order, k);
        if buf[b].dev == dev && buf[b].blockno == blockno {
          assert Holds(buf[..][b], dev, blockno);
          return;
        }
        b := next[b];
        k := k + 1;
      }
      ListAt(next[..], prev[..], order, k);
      NotListed(order, buf[..], dev, blockno);
    }

    /** The least recently released buffer without references. Walks backward. */
    method LeastRecent() returns (b: nat)
      requires Valid()
      ensures b == HEAD <==> forall i :: 0 <= i < NBUF ==> buf[i].refcnt > 0
      ensures b != HEAD ==>
                exists k ::
                  && 0 <= k < |order| && order[k] == b && buf[b].refcnt == 0
                  && forall j :: k < j < |order| ==> buf[order[j]].refcnt > 0
    {
      hide Unique;
      ListAt(next[..], prev[..], order, |order|);
      b := prev[HEAD];
      ghost var k := |order| - 1;
      while b != HEAD
        invariant -1 <= k < |order| && b == At(order, k)
        invariant forall j :: k < j < |order| ==> buf[order[j]].refcnt > 0
        decreases k
      {
        ListAt(next[..], prev[..], order, k);
        if buf[b].refcnt == 0 { return; }
        b := prev[b];
        k := k - 1;
      }
      ListAt(next[..], prev[..], order, k);
      forall i | 0 <= i < NBUF ensures buf[i].refcnt > 0 { AllListed(order, i); }
    }

    method Bget(dev: nat, blockno: nat) returns (r: Option<nat>)
      requires Valid()
      modifies buf
      ensures Valid()
      ensures r.Some? ==> Got(old(buf[..]), order, dev, blockno, r.value, buf[..])
      ensures r.None? ==> buf[..] == old(buf[..]) && !Cached(buf[..], dev, blockno)
      ensures r.None? ==> forall i :: 0 <= i < NBUF ==> buf[i].refcnt > 0
    {
      hide ListOk;
      ghost var bufs := buf[..];
      assert Nodes(order) by { ListNodes(next[..], prev[..], order); }
      var b := Lookup(dev, blockno);
      if b != HEAD {
        buf[b] := buf[b].(refcnt := buf[b].refcnt + 1);
        assert buf[..] == bufs[b := bufs[b].(refcnt := bufs[b].refcnt + 1)];
        return Some(b);
      }
      b := LeastRecent();
      if b != HEAD {
        buf[b] := Buf(false, dev, blockno, 1, buf[b].data);
        assert buf[..] == bufs[b := Buf(false, dev, blockno, 1, bufs[b].data)];
        return Some(b);
      }
      return None;
    }

    /** Read a block: None is the "no buffers" panic. */
    method Bread(dev: nat, blockno: nat) returns (r: Option<nat>)
      requires Valid() && blockno < |disk|
      modifies buf
      ensures Valid()
      ensures r.None? <==> !old(Cached(buf[..], dev, blockno)) && forall i :: 0 <= i < NBUF ==> old(buf[i].refcnt) > 0
      ensures r.None? ==> buf[..] == old(buf[..])
      ensures r.Some? ==> r.value < NBUF && BreadSpec(old(buf[..]), disk, dev, blockno, r.value, buf[..])
    {
      ghost var bufs := buf[..];
      r := Bget(dev, blockno);
      if r.Some? {
        var b := r.value;
        if !buf[b].valid {
          ghost var mid := buf[..];
          buf[b] := buf[b].(data := disk[blockno], valid := true);
          assert buf[..] == mid[b := mid[b].(data := disk[blockno], valid := true)];
        }
      }
    }

    method Bwrite(b: nat)
      requires Valid() && b < NBUF && buf[b].blockno < |disk|
      modifies `disk, `past
      ensures Valid() && disk == old(disk)[buf[b].blockno := buf[b].data] && past == old(past) + [disk]
    {
      disk := disk[buf[b].blockno := buf[b].data];
      past := past + [disk];
    }

    /** Release a reference; the last one moves the buffer to the front. */
    method Brelse(b: nat)
      requires Valid() && b < NBUF && buf[b].refcnt > 0
      modifies buf, next, prev, `order
      ensures Valid()
      ensures buf[..] == old(buf[..])[b := old(buf[b]).(refcnt := old(buf[b]).refcnt - 1)]
      ensures if buf[b].refcnt > 0 then order == old(order)
              else exists p :: 0 <= p < NBUF && old(order)[p] == b && order == [b] + Without(old(order), p)
    {
      ghost var bufs := buf[..];
      buf[b] := buf[b].(refcnt := buf[b].refcnt - 1);
      assert buf[..] == bufs[b := bufs[b].(refcnt := bufs[b].refcnt - 1)];
      if buf[b].refcnt == 0 {
        AllListed(order, b);
        ghost var p :| 0 <= p < |order| && order[p] == b;
        Unlink(next[..], prev[..], order, p);
        ghost var n: seq<nat>, pr: seq<nat> := next[..], prev[..];
        prev[next[b]] := prev[b];
        next[prev[b]] := next[b];
        assert next[..] == n[pr[b] := n[b]] && prev[..] == pr[n[b] := pr[b]];
        order := Without(order, p);
        InsertFront(b);
      }
    }

    method Bpin(b: nat)
      requires Valid() && b < NBUF
      modifies buf
      ensures Valid() && buf[..] == old(buf[..])[b := old(buf[b]).(refcnt := old(buf[b]).refcnt + 1)]
    {
      ghost var bufs := buf[..];
      buf[b] := buf[b].(refcnt := buf[b].refcnt + 1);
      assert buf[..] == bufs[b := bufs[b].(refcnt := bufs[b].refcnt + 1)];
    }

    method Bunpin(b: nat)
      requires Valid() && b < NBUF && buf[b].refcnt > 0
      modifies buf
      ensures Valid() && buf[..] == old(buf[..])[b := old(buf[b]).(refcnt := old(buf[b]).refcnt - 1)]
    {
      ghost var bufs := buf[..];
      buf[b] := buf[b].(refcnt := buf[b].refcnt - 1);
      assert buf[..] == bufs[b := bufs[b].(refcnt := bufs[b].refcnt - 1)];
    }

    /** memmove into a held buffer. */
    method Fill(b: nat, data: Block)
      requires Valid() && b < NBUF
      modifies buf
      ensures Valid() && buf[..] == old(buf[..])[b := old(buf[b]).(data := data)]
    {
      ghost var bufs := buf[..];
      buf[b] := buf[b].(data := data);
      assert buf[..] == bufs[b := bufs[b].(data := data)];
    }
  }

  lemma ListNodes(next: seq<nat>, prev: seq<nat>, order: seq<nat>)
    requires ListOk(next, prev, order)
    ensures Nodes(order)
  {}

  lemma NotListed(order: seq<nat>, bufs: seq<Buf>, dev: nat, blockno: nat)
    requires Nodes(order) && |order| == NBUF == |bufs|
    requires forall j :: 0 <= j < |order| ==> !Holds(bufs[order[j]], dev, blockno)
    ensures !Cached(bufs, dev, blockno)
  {
    forall i: nat | i < NBUF ensures !Holds(bufs[i], dev, blockno) { AllListed(order, i); }
  }

  /** A read gives the cached copy if there is a valid one and the disk's otherwise, and touches
      no buffer but the one returned, which was either this block's or nobody's. */
  ghost predicate BreadSpec(bufs: seq<Buf>, disk: seq<Block>, dev: nat, blockno: nat, i: nat, bufs': seq<Buf>)
    requires |bufs| == NBUF && i < NBUF && blockno < |disk|
  {
    if Cached(bufs, dev, blockno) then
      && Holds(bufs[i], dev, blockno)
      && bufs' ==
           bufs[i := Buf(true, dev, blockno, bufs[i].refcnt + 1, if bufs[i].valid then bufs[i].data else disk[blockno])]
    else
      && bufs[i].refcnt == 0
      && bufs' == bufs[i := Buf(true, dev, blockno, 1, disk[blockno])]
  }
}
