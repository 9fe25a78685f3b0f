/** The write-ahead log as a state machine: file-system operations, group commit block write
    by block write, crashes anywhere, and recovery block write by block write.
    A block write to the disk is atomic. */
module LogMachine {
  import opened Common

  const MAXOPBLOCKS: nat := 10
  const LOGSIZE: nat := 30

  /** A 1024-byte block as 256 words. */
  type Block = seq<nat>

  /** Where the log lies: header at `start`, log blocks after it. mkfs makes size LOGSIZE. */
  datatype Layout = Layout(start: nat, size: nat, nblocks: nat)

  ghost predicate LayoutOk(l: Layout) {
    l.start + l.size <= l.nblocks && l.size == LOGSIZE
  }

  predicate Home(l: Layout, b: nat) {
    b < l.nblocks && !(l.start <= b < l.start + l.size)
  }

  // ---------- the disk and what recovery makes of it ----------

  ghost predicate DiskOk(l: Layout, disk: seq<Block>) {
    && LayoutOk(l) && |disk| == l.nblocks && |disk[l.start]| == 256
    && disk[l.start][0] < LOGSIZE
    && LoggedOk(l, Header(l, disk))
  }

  ghost predicate LoggedOk(l: Layout, lh: seq<nat>) {
    Distinct(lh) && |lh| < LOGSIZE && forall i :: 0 <= i < |lh| ==> Home(l, lh[i])
  }

  /** The block numbers in the on-disk header. */
  function Header(l: Layout, disk: seq<Block>): seq<nat>
    requires l.start < |disk| && |disk[l.start]| == 256 && disk[l.start][0] < LOGSIZE
  { disk[l.start][1..1 + disk[l.start][0]] }

  /** write_head: the count and that many block numbers; the rest of the block stays. */
  function HeadBlock(old_: Block, lh: seq<nat>): Block
    requires |old_| == 256 && |lh| < LOGSIZE
  { [|lh|] + lh + old_[1 + |lh|..] }

  function IndexOf(s: seq<nat>, b: nat): (i: nat)
    ensures i <= |s| && (i < |s| ==> s[i] == b) && (i == |s| ==> b !in s)
  {
    if s == [] then 0 else if s[0] == b then 0 else 1 + IndexOf(s[1..], b)
  }

  lemma {:induction false} IndexOfAt(s: seq<nat>, k: nat)
    requires Distinct(s) && k < |s|
    ensures IndexOf(s, s[k]) == k
  {
    if k > 0 { IndexOfAt(s[1..], k - 1); }
  }

  /** Block b as recovery will leave it. */
  function Recovered(l: Layout, disk: seq<Block>, b: nat): Block
    requires l.start + LOGSIZE <= |disk| && |disk[l.start]| == 256 && disk[l.start][0] < LOGSIZE && b < |disk|
  {
    var i := IndexOf(Header(l, disk), b);
    if i < |Header(l, disk)| then disk[l.start + 1 + i] else disk[b]
  }

  // ---------- operations and their effect ----------

  datatype Event = EvBegin(id: nat) | EvWrite(id: nat, b: nat, data: Block) | EvEnd(id: nat)

  /** Block b after the writes of t, starting from disk d0. */
  function Apply(d0: seq<Block>, t: seq<Event>, b: nat): Block
    requires b < |d0|
  {
    if t == [] then d0[b]
    else
      var e := t[|t| - 1];
      if e.EvWrite? && e.b == b then e.data else Apply(d0, t[..|t| - 1], b)
  }

  /** The operations begun and not yet ended. */
  function Open(t: seq<Event>): set<nat> {
    if t == [] then {}
    else
      var s := Open(t[..|t| - 1]);
      match t[|t| - 1]
      case EvBegin(id) => s + {id}
      case EvEnd(id) => s - {id}
      case EvWrite(_, _, _) => s
  }

  // ---------- the machine ----------

  datatype Phase =
    | Idle                      // log.committing == 0
    | LogBlock(i: nat)          // commit: copying block i of the transaction to the log
    | LogHead                 // commit: about to write the header, the real commit
    | Install(i: nat)           // commit: copying block i home
    | Clear                     // commit: about to erase the transaction
    | Finish                    // end_op: about to reset log.committing
    | RHead | RInstall(i: nat) | RClear   // recovery
    | Panicked

  /** An operation in progress and how many blocks it has added to the log. */
  datatype Active = Active(id: nat, spent: nat)

  /** cache holds the pinned blocks of the current transaction; t is the history that counts and
      d the length of its committed part. */
  datatype State = State(disk: seq<Block>, cache: map<nat, Block>, lh: seq<nat>, outstanding: nat,
                         active: seq<Active>, phase: Phase, t: seq<Event>, d: nat)

  datatype Label = Begin(id: nat) | Write(k: nat, b: nat, data: Block) | End(k: nat) | Commit | Crash | Recover

  predicate Committing(p: Phase) { p.LogBlock? || p.LogHead? || p.Install? || p.Clear? || p.Finish? }
  predicate Recovering(p: Phase) { p.RHead? || p.RInstall? || p.RClear? }

  /** What bread returns. */
  function Contents(s: State, b: nat): Block
    requires b < |s.disk|
  { if b in s.cache then s.cache[b] else s.disk[b] }

  predicate TooBig(l: Layout, s: State) { |s.lh| >= LOGSIZE || |s.lh| >= l.size - 1 }

  /** begin_op's test for room. */
  predicate Admits(s: State) { s.phase.Idle? && |s.lh| + (s.outstanding + 1) * MAXOPBLOCKS <= LOGSIZE }

  ghost predicate BeginStep(s: State, id: nat, s': State) {
    && Admits(s) && id !in Open(s.t)
    && s' == s.(outstanding := s.outstanding + 1, active := s.active + [Active(id, 0)], t := s.t + [EvBegin(id)])
  }

  /** An operation changes block b and calls log_write, which absorbs repeated writes. */
  ghost predicate WriteStep(l: Layout, s: State, k: nat, b: nat, data: Block, s': State) {
    && k < |s.active| && Home(l, b) && !Recovering(s.phase) && !s.phase.Panicked?
    && s' ==
       if TooBig(l, s) || s.outstanding < 1 then s.(phase := Panicked)
       else if b in s.lh then s.(cache := s.cache[b := data], t := s.t + [EvWrite(s.active[k].id, b, data)])
       else s.(cache := s.cache[b := data], lh := s.lh + [b],
               active := s.active[k := s.active[k].(spent := s.active[k].spent + 1)],
               t := s.t + [EvWrite(s.active[k].id, b, data)])
  }

  ghost predicate EndStep(s: State, k: nat, s': State) {
    && k < |s.active| && s.outstanding > 0 && !Recovering(s.phase) && !s.phase.Panicked?
    && var s1 := s.(outstanding := s.outstanding - 1, active := s.active[..k] + s.active[k + 1..],
                    t := s.t + [EvEnd(s.active[k].id)]);
       s' ==
         if Committing(s.phase) then s1.(phase := Panicked)
         else if s1.outstanding == 0 then s1.(phase := if s.lh == [] then Finish else LogBlock(0))
         else s1
  }

  /** One block write of commit(), or its last bookkeeping. */
  ghost predicate CommitStep(l: Layout, s: State, s': State)
    requires l.start + LOGSIZE <= |s.disk| && |s.disk[l.start]| == 256
  {
    match s.phase
    case LogBlock(i) =>
      i < |s.lh| < LOGSIZE && s.lh[i] in s.cache &&
      s' == s.(disk := s.disk[l.start + 1 + i := s.cache[s.lh[i]]],
               phase := if i + 1 == |s.lh| then LogHead else LogBlock(i + 1))
    case LogHead =>
      |s.lh| < LOGSIZE &&
      s' == s.(disk := s.disk[l.start := HeadBlock(s.disk[l.start], s.lh)], phase := Install(0), d := |s.t|)
    case Install(i) =>
      i < |s.lh| < LOGSIZE && s.lh[i] < |s.disk| &&
      s' == s.(disk := s.disk[s.lh[i] := s.disk[l.start + 1 + i]],
               phase := if i + 1 == |s.lh| then Clear else Install(i + 1))
    case Clear =>
      s' == s.(disk := s.disk[l.start := HeadBlock(s.disk[l.start], [])], lh := [], cache := map[], phase := Finish)
    case Finish => s' == s.(phase := Idle, d := |s.t|)
    case _ => false
  }

  /** Power fails: memory is lost, and with it the operations that were not committed. */
  ghost predicate CrashStep(s: State, s': State) {
    s.d <= |s.t| && s' == State(s.disk, map[], [], 0, [], RHead, s.t[..s.d], s.d)
  }

  /** One block access of recover_from_log(). */
  ghost predicate RecoverStep(l: Layout, s: State, s': State)
    requires l.start + LOGSIZE <= |s.disk| && |s.disk[l.start]| == 256
  {
    match s.phase
    case RHead =>
      s.disk[l.start][0] < LOGSIZE &&
      s' == s.(lh := Header(l, s.disk), phase := if s.disk[l.start][0] == 0 then RClear else RInstall(0))
    case RInstall(i) =>
      i < |s.lh| < LOGSIZE && s.lh[i] < |s.disk| &&
      s' == s.(disk := s.disk[s.lh[i] := s.disk[l.start + 1 + i]],
               phase := if i + 1 == |s.lh| then RClear else RInstall(i + 1))
    case RClear =>
      s' == s.(disk := s.disk[l.start := HeadBlock(s.disk[l.start], [])], lh := [], phase := Idle)
    case _ => false
  }

  ghost predicate Step(l: Layout, s: State, a: Label, s': State) {
    && l.start + LOGSIZE <= |s.disk| && |s.disk[l.start]| == 256
    && match a
       case Begin(id) => BeginStep(s, id, s')
       case Write(k, b, data) => WriteStep(l, s, k, b, data, s')
       case End(k) => EndStep(s, k, s')
       case Commit => CommitStep(l, s, s')
       case Crash => CrashStep(s, s')
       case Recover => RecoverStep(l, s, s')
  }

  // ---------- the invariant ----------

  /** Recovery from this disk would leave exactly the committed history. */
  ghost predicate Durable(l: Layout, d0: seq<Block>, s: State)
    requires DiskOk(l, s.disk) && |d0| == l.nblocks && s.d <= |s.t|
  {
    forall b :: Home(l, b) ==> Recovered(l, s.disk, b) == Apply(d0, s.t[..s.d], b)
  }

  /** Every read sees the whole history, committed or not. */
  ghost predicate Current(l: Layout, d0: seq<Block>, s: State)
    requires |s.disk| == l.nblocks == |d0|
  {
    forall b :: Home(l, b) ==> Contents(s, b) == Apply(d0, s.t, b)
  }

  /** The operations in progress are the open ones, each once. */
  ghost predicate OpsOk(s: State) {
    && |s.active| == s.outstanding
    && (forall j, k :: 0 <= j < k < |s.active| ==> s.active[j].id != s.active[k].id)
    && (forall k :: 0 <= k < |s.active| ==> s.active[k].id in Open(s.t))
    && (forall id :: id in Open(s.t) ==> exists k :: 0 <= k < |s.active| && s.active[k].id == id)
  }

  /** Log block k holds the transaction's k-th block. */
  ghost predicate Saved(l: Layout, s: State, n: nat)
    requires DiskOk(l, s.disk)
  {
    forall k ::
      0 <= k < n && k < |s.lh| && k < LOGSIZE - 1 ==> s.lh[k] in s.cache && s.disk[l.start + 1 + k] == s.cache[s.lh[k]]
  }

  /** The transaction's first n blocks are in place at home. */
  ghost predicate Installed(l: Layout, s: State, n: nat)
    requires DiskOk(l, s.disk)
  {
    forall k ::
      0 <= k < n && k < |s.lh| && k < LOGSIZE - 1 ==> s.lh[k] < |s.disk| && s.disk[s.lh[k]] == s.disk[l.start + 1 + k]
  }

  ghost predicate PhaseOk(l: Layout, s: State)
    requires DiskOk(l, s.disk)
  {
    match s.phase
    case Idle => Header(l, s.disk) == [] && (s.outstanding == 0 ==> s.lh == [] && s.d == |s.t|)
    case Finish => Header(l, s.disk) == [] && s.outstanding == 0 && s.lh == []
    case LogBlock(i) => Header(l, s.disk) == [] && s.outstanding == 0 && i < |s.lh| && Saved(l, s, i)
    case LogHead => Header(l, s.disk) == [] && s.outstanding == 0 && s.lh != [] && Saved(l, s, |s.lh|)
    case Install(i) =>
      && Header(l, s.disk) == s.lh && s.outstanding == 0 && i < |s.lh| && s.d == |s.t| && Saved(l, s, |s.lh|)
      && Installed(l, s, i)
    case Clear =>
      Header(l, s.disk) == s.lh && s.outstanding == 0 && s.d == |s.t| && Saved(l, s, |s.lh|) && Installed(l, s, |s.lh|)
    case RHead => true
    case RInstall(i) => s.lh == Header(l, s.disk) && i < |s.lh| && Installed(l, s, i)
    case RClear => s.lh == Header(l, s.disk) && Installed(l, s, |s.lh|)
    case Panicked => true
  }

  ghost predicate Inv(l: Layout, d0: seq<Block>, s: State) {
    && DiskOk(l, s.disk) && |d0| == l.nblocks && s.d <= |s.t| && Open(s.t[..s.d]) == {}
    && Durable(l, d0, s) && PhaseOk(l, s)
    && (Recovering(s.phase) ==> s.d == |s.t| && s.active == [] && s.outstanding == 0 && s.cache == map[])
    && (!Recovering(s.phase) && !s.phase.Panicked? ==>
          Current(l, d0, s) && OpsOk(s) && LoggedOk(l, s.lh) && (forall b :: b in s.cache <==> b in s.lh))
  }

  // ---------- each step keeps it ----------

  lemma HeadBlockHeader(l: Layout, disk: seq<Block>, lh: seq<nat>)
    requires DiskOk(l, disk) && LoggedOk(l, lh)
    ensures var disk' := disk[l.start := HeadBlock(disk[l.start], lh)];
            DiskOk(l, disk') && Header(l, disk') == lh
  {
    var h := HeadBlock(disk[l.start], lh);
    assert h[0] == |lh| && h[1..1 + |lh|] == lh;
  }

  /** A write outside the header block leaves the header alone. */
  lemma HeaderKept(l: Layout, disk: seq<Block>, b: nat, data: Block)
    requires DiskOk(l, disk) && b < |disk| && b != l.start
    ensures DiskOk(l, disk[b := data]) && Header(l, disk[b := data]) == Header(l, disk)
  {}

  lemma PrefixKept(s: State, e: Event)
    requires s.d <= |s.t|
    ensures (s.t + [e])[..s.d] == s.t[..s.d] && (s.t + [e])[..|s.t|] == s.t
  {}

  lemma BeginInv(l: Layout, d0: seq<Block>, s: State, id: nat, s': State)
    requires Inv(l, d0, s) && BeginStep(s, id, s')
    ensures Inv(l, d0, s')
  {
    PrefixKept(s, EvBegin(id));
    assert Open(s'.t) == Open(s.t) + {id};
    assert s'.active[|s.active|].id == id;
    forall k | k in Open(s'.t) ensures exists j :: 0 <= j < |s'.active| && s'.active[j].id == k {
      if k != id {
        var j :| 0 <= j < |s.active| && s.active[j].id == k;
        assert s'.active[j].id == k;
      }
    }
    assert Current(l, d0, s');
  }

  lemma ApplyMore(d0: seq<Block>, t: seq<Event>, e: Event, b: nat)
    requires b < |d0|
    ensures Apply(d0, t + [e], b) == if e.EvWrite? && e.b == b then e.data else Apply(d0, t, b)
  {
    assert (t + [e])[..|t|] == t;
  }

  lemma OpenMore(t: seq<Event>, e: Event)
    ensures Open(t + [e]) ==
            if e.EvBegin? then Open(t) + {e.id} else if e.EvEnd? then Open(t) - {e.id} else Open(t)
  {
    assert (t + [e])[..|t|] == t;
  }

  lemma WriteInv(l: Layout, d0: seq<Block>, s: State, k: nat, b: nat, data: Block, s': State)
    requires Inv(l, d0, s) && WriteStep(l, s, k, b, data, s')
    ensures Inv(l, d0, s')
  {
    hide Apply, Open, Recovered, Header;
    if !s'.phase.Panicked? {
      var e := EvWrite(s.active[k].id, b, data);
      PrefixKept(s, e);
      OpenMore(s.t, e);
      WriteOps(s, k, s');
      assert s.outstanding > 0 && s.phase.Idle?;
      forall c: nat | Home(l, c) ensures Contents(s', c) == Apply(d0, s'.t, c) {
        ApplyMore(d0, s.t, e, c);
      }
    }
  }

  lemma WriteOps(s: State, k: nat, s': State)
    requires OpsOk(s) && k < |s.active| && Open(s'.t) == Open(s.t) && s'.outstanding == s.outstanding
    requires |s'.active| == |s.active|
    requires forall j :: 0 <= j < |s.active| ==> s'.active[j].id == s.active[j].id
    ensures OpsOk(s')
  {
    hide Open;
    forall id | id in Open(s'.t) ensures exists j :: 0 <= j < |s'.active| && s'.active[j].id == id {
      var j :| 0 <= j < |s.active| && s.active[j].id == id;
      assert s'.active[j].id == id;
    }
  }

  lemma EndInv(l: Layout, d0: seq<Block>, s: State, k: nat, s': State)
    requires Inv(l, d0, s) && EndStep(s, k, s')
    ensures Inv(l, d0, s') && !s'.phase.Panicked?
  {
    hide Apply, Open, Recovered, Header, OpsOk;
    var e := EvEnd(s.active[k].id);
    PrefixKept(s, e);
    OpenMore(s.t, e);
    assert |s.active| == s.outstanding by { OpsCount(s); }
    EndOps(s, k, s');
    forall c: nat | Home(l, c) ensures Contents(s', c) == Apply(d0, s'.t, c) { ApplyMore(d0, s.t, e, c); }
  }

  lemma OpsCount(s: State)
    requires OpsOk(s)
    ensures |s.active| == s.outstanding
  {}

  lemma EndOps(s: State, k: nat, s': State)
    requires OpsOk(s) && k < |s.active| && Open(s'.t) == Open(s.t) - {s.active[k].id}
    requires s'.active == s.active[..k] + s.active[k + 1..] && s'.outstanding == s.outstanding - 1
    ensures OpsOk(s')
  {
    hide Open;
    forall j | 0 <= j < |s'.active| ensures s'.active[j] == s.active[if j < k then j else j + 1] {}
    forall x | x in Open(s'.t) ensures exists j :: 0 <= j < |s'.active| && s'.active[j].id == x {
      var j :| 0 <= j < |s.active| && s.active[j].id == x;
      assert s'.active[if j < k then j else j - 1].id == x;
    }
  }

  /** Recovered, case by case. */
  lemma RecoveredAt(l: Layout, disk: seq<Block>, b: nat)
    requires DiskOk(l, disk) && Home(l, b)
    ensures b !in Header(l, disk) ==> Recovered(l, disk, b) == disk[b]
    ensures forall k ::
              0 <= k < |Header(l, disk)| && Header(l, disk)[k] == b ==> Recovered(l, disk, b) == disk[l.start + 1 + k]
  {
    forall k | 0 <= k < |Header(l, disk)| && Header(l, disk)[k] == b
      ensures Recovered(l, disk, b) == disk[l.start + 1 + k] {
      IndexOfAt(Header(l, disk), k);
    }
  }

  /** Installing one block of the header's transaction changes nothing recovery would. */
  lemma InstallOne(l: Layout, disk: seq<Block>, i: nat)
    requires DiskOk(l, disk) && i < |Header(l, disk)|
    ensures var h := Header(l, disk)[i];
            var disk' := disk[h := disk[l.start + 1 + i]];
            && DiskOk(l, disk') && Header(l, disk') == Header(l, disk) && Home(l, h)
            && (forall j :: l.start <= j < l.start + LOGSIZE ==> disk'[j] == disk[j])
            && (forall b: nat :: Home(l, b) ==> Recovered(l, disk', b) == Recovered(l, disk, b))
  {
    var h := Header(l, disk)[i];
    var disk' := disk[h := disk[l.start + 1 + i]];
    HeaderKept(l, disk, h, disk[l.start + 1 + i]);
    hide Recovered, Header;
    forall b: nat | Home(l, b) ensures Recovered(l, disk', b) == Recovered(l, disk, b) {
      RecoveredAt(l, disk, b);
      RecoveredAt(l, disk', b);
      if b in Header(l, disk) { var k :| 0 <= k < |Header(l, disk)| && Header(l, disk)[k] == b; }
    }
  }

  /** Erasing the header once everything is installed changes nothing recovery would. */
  lemma EraseHead(l: Layout, disk: seq<Block>)
    requires DiskOk(l, disk)
    requires forall k :: 0 <= k < |Header(l, disk)| ==> disk[Header(l, disk)[k]] == disk[l.start + 1 + k]
    ensures var disk' := disk[l.start := HeadBlock(disk[l.start], [])];
            && DiskOk(l, disk') && Header(l, disk') == []
            && (forall b: nat :: Home(l, b) ==> disk'[b] == disk[b] && Recovered(l, disk', b) == Recovered(l, disk, b))
  {
    var disk' := disk[l.start := HeadBlock(disk[l.start], [])];
    HeadBlockHeader(l, disk, []);
    hide Recovered, Header, HeadBlock;
    forall b: nat | Home(l, b) ensures disk'[b] == disk[b] && Recovered(l, disk', b) == Recovered(l, disk, b) {
      RecoveredAt(l, disk, b);
      RecoveredAt(l, disk', b);
      if b in Header(l, disk) { var k :| 0 <= k < |Header(l, disk)| && Header(l, disk)[k] == b; }
    }
  }

  /** A step of commit that keeps what recovery and readers would see keeps the invariant. */
  lemma QuietStep(l: Layout, d0: seq<Block>, s: State, s': State)
    requires Inv(l, d0, s) && !Recovering(s.phase) && !s.phase.Panicked? && DiskOk(l, s'.disk) && PhaseOk(l, s')
    requires !Recovering(s'.phase) && s'.t == s.t && s'.d == s.d && s'.active == s.active
    requires s'.outstanding == s.outstanding
    requires forall b: nat ::
               Home(l, b) ==> Recovered(l, s'.disk, b) == Recovered(l, s.disk, b) && Contents(s', b) == Contents(s, b)
    requires LoggedOk(l, s'.lh) && forall b :: b in s'.cache <==> b in s'.lh
    ensures Inv(l, d0, s')
  {
    hide Apply, Open, Recovered, Header, Contents, PhaseOk;
  }

  lemma WriteLogInv(l: Layout, d0: seq<Block>, s: State, s': State)
    requires Inv(l, d0, s) && s.phase.LogBlock? && CommitStep(l, s, s')
    ensures Inv(l, d0, s')
  {
    hide Apply, Open, Recovered, Header, Durable, Current, OpsOk, DiskOk;
    assert |s.disk| == l.nblocks && LayoutOk(l) by { DiskParts(l, s.disk); }
    HeaderKept(l, s.disk, l.start + 1 + s.phase.i, s.cache[s.lh[s.phase.i]]);
    forall b: nat | Home(l, b)
      ensures Recovered(l, s'.disk, b) == Recovered(l, s.disk, b) && Contents(s', b) == Contents(s, b) {
      RecoveredAt(l, s.disk, b);
      RecoveredAt(l, s'.disk, b);
    }
    QuietStep(l, d0, s, s');
  }

  lemma DiskParts(l: Layout, disk: seq<Block>)
    requires DiskOk(l, disk)
    ensures |disk| == l.nblocks && LayoutOk(l) && LoggedOk(l, Header(l, disk)) && |Header(l, disk)| == disk[l.start][0]
  {}

  lemma NoneOpen(s: State)
    requires OpsOk(s) && s.outstanding == 0
    ensures Open(s.t) == {}
  {}

  /** Writing the header makes the whole history durable in one step. */
  lemma WriteHeadInv(l: Layout, d0: seq<Block>, s: State, s': State)
    requires Inv(l, d0, s) && s.phase.LogHead? && CommitStep(l, s, s')
    ensures Inv(l, d0, s')
  {
    hide Apply, Open, Recovered, Header, HeadBlock, OpsOk, DiskOk;
    assert |s.disk| == l.nblocks && LayoutOk(l) by { DiskParts(l, s.disk); }
    HeadBlockHeader(l, s.disk, s.lh);
    NoneOpen(s);
    assert s.t[..|s.t|] == s.t;
    forall b: nat | Home(l, b)
      ensures Recovered(l, s'.disk, b) == Apply(d0, s.t, b) && Contents(s', b) == Contents(s, b) {
      RecoveredAt(l, s'.disk, b);
      if b in s.lh { var k :| 0 <= k < |s.lh| && s.lh[k] == b; }
    }
    assert OpsOk(s') by { OpsSame(s, s'); }
  }

  lemma OpsSame(s: State, s': State)
    requires OpsOk(s) && s'.t == s.t && s'.active == s.active && s'.outstanding == s.outstanding
    ensures OpsOk(s')
  {}

  lemma InstallInv(l: Layout, d0: seq<Block>, s: State, s': State)
    requires Inv(l, d0, s) && s.phase.Install? && CommitStep(l, s, s')
    ensures Inv(l, d0, s')
  {
    hide Apply, Open, Recovered, Header, Durable, Current, OpsOk, DiskOk;
    assert |s.disk| == l.nblocks && LayoutOk(l) by { DiskParts(l, s.disk); }
    InstallOne(l, s.disk, s.phase.i);
    forall b: nat | Home(l, b) ensures Contents(s', b) == Contents(s, b) {}
    InstallPhase(l, s, s');
    QuietStep(l, d0, s, s');
  }

  lemma InstallPhase(l: Layout, s: State, s': State)
    requires DiskOk(l, s.disk) && DiskOk(l, s'.disk) && PhaseOk(l, s) && LoggedOk(l, s.lh) && s.phase.Install?
    requires CommitStep(l, s, s')
    requires Header(l, s'.disk) == Header(l, s.disk) && Home(l, s.lh[s.phase.i])
    ensures PhaseOk(l, s')
  {
    hide Header;
    assert forall j :: l.start <= j < l.start + LOGSIZE ==> s'.disk[j] == s.disk[j];
    forall k | 0 <= k < s.phase.i + 1 && k < |s.lh| && k < LOGSIZE - 1
      ensures s.lh[k] < |s'.disk| && s'.disk[s.lh[k]] == s'.disk[l.start + 1 + k] {}
  }

  lemma ClearInv(l: Layout, d0: seq<Block>, s: State, s': State)
    requires Inv(l, d0, s) && s.phase.Clear? && CommitStep(l, s, s')
    ensures Inv(l, d0, s')
  {
    hide Apply, Open, Recovered, Header, HeadBlock, Durable, Current, OpsOk, DiskOk;
    assert |s.disk| == l.nblocks && LayoutOk(l) by { DiskParts(l, s.disk); }
    EraseHead(l, s.disk);
    forall b: nat | Home(l, b) ensures Contents(s', b) == Contents(s, b) {
      if b in s.lh { var k :| 0 <= k < |s.lh| && s.lh[k] == b; }
    }
    QuietStep(l, d0, s, s');
  }

  lemma FinishInv(l: Layout, d0: seq<Block>, s: State, s': State)
    requires Inv(l, d0, s) && s.phase.Finish? && CommitStep(l, s, s')
    ensures Inv(l, d0, s')
  {
    NoneOpen(s);
    assert s.t[..|s.t|] == s.t;
    hide Apply, Open, Recovered, Header;
    forall b: nat | Home(l, b) ensures Recovered(l, s'.disk, b) == Apply(d0, s.t, b) {
      RecoveredAt(l, s.disk, b);
      assert Contents(s, b) == s.disk[b];
    }
  }

  lemma CrashInv(l: Layout, d0: seq<Block>, s: State, s': State)
    requires Inv(l, d0, s) && CrashStep(s, s')
    ensures Inv(l, d0, s')
  {
    assert s'.t[..s'.d] == s.t[..s.d];
  }

  lemma RecoverInv(l: Layout, d0: seq<Block>, s: State, s': State)
    requires Inv(l, d0, s) && RecoverStep(l, s, s')
    ensures Inv(l, d0, s')
  {
    hide Apply, Recovered, Header, HeadBlock, DiskOk, OpsOk;
    DiskParts(l, s.disk);
    assert s.t[..s.d] == s.t;
    match s.phase
    case RInstall(i) => InstallOne(l, s.disk, i);
    case RClear =>
      EraseHead(l, s.disk);
      forall b: nat | Home(l, b) ensures Contents(s', b) == Apply(d0, s.t, b) { RecoveredAt(l, s'.disk, b); }
      NoOps(s');
    case RHead =>
  }

  lemma NoOps(s: State)
    requires Open(s.t) == {} && s.active == [] && s.outstanding == 0
    ensures OpsOk(s)
  {}

  lemma StepInv(l: Layout, d0: seq<Block>, s: State, a: Label, s': State)
    requires Inv(l, d0, s) && Step(l, s, a, s')
    ensures Inv(l, d0, s')
  {
    hide Inv, BeginStep, WriteStep, EndStep, CrashStep, RecoverStep;
    match a
    case Begin(id) => BeginInv(l, d0, s, id, s');
    case Write(k, b, data) => WriteInv(l, d0, s, k, b, data, s');
    case End(k) => EndInv(l, d0, s, k, s');
    case Crash => CrashInv(l, d0, s, s');
    case Recover => RecoverInv(l, d0, s, s');
    case Commit =>
      if s.phase.LogBlock? { WriteLogInv(l, d0, s, s'); }
      else if s.phase.LogHead? { WriteHeadInv(l, d0, s, s'); }
      else if s.phase.Install? { InstallInv(l, d0, s, s'); }
      else if s.phase.Clear? { ClearInv(l, d0, s, s'); }
      else { FinishInv(l, d0, s, s'); }
  }

  // ---------- whole runs ----------

  /** A machine just booted from disk d0: nothing has happened yet. */
  predicate Init(l: Layout, d0: seq<Block>, s: State) {
    s == State(d0, map[], [], 0, [], RHead, [], 0)
  }

  ghost predicate Run(l: Layout, ss: seq<State>, labels: seq<Label>) {
    |ss| == |labels| + 1 && forall i :: 0 <= i < |labels| ==> Step(l, ss[i], labels[i], ss[i + 1])
  }

  /** The block contents recovery would give at the very start. */
  ghost predicate StartsFrom(l: Layout, disk: seq<Block>, d0: seq<Block>) {
    && DiskOk(l, disk) && |d0| == l.nblocks
    && forall b: nat :: Home(l, b) ==> d0[b] == Recovered(l, disk, b)
  }

  lemma {:induction false} RunInv(l: Layout, d0: seq<Block>, ss: seq<State>, labels: seq<Label>, i: nat)
    requires Run(l, ss, labels) && i < |ss| && Init(l, ss[0].disk, ss[0]) && StartsFrom(l, ss[0].disk, d0)
    ensures Inv(l, d0, ss[i])
  {
    hide Step;
    if i == 0 {
      hide Recovered, Header;
      assert Open([]) == {};
      assert ss[0].t[..0] == [];
      forall b: nat | Home(l, b) ensures Recovered(l, ss[0].disk, b) == Apply(d0, [], b) {}
    } else {
      hide Inv;
      RunInv(l, d0, ss, labels, i - 1);
      StepInv(l, d0, ss[i - 1], labels[i - 1], ss[i]);
    }
  }

  /** Crash atomicity. From any point of any run, whatever crashes and partial recoveries follow,
      once the machine is idle again the disk holds the effect of a prefix of the history in which
      every operation that began also ended: all of a transaction or none of it. */
  lemma CrashAtomicity(l: Layout, d0: seq<Block>, ss: seq<State>, labels: seq<Label>, i: nat, j: nat)
    requires Run(l, ss, labels) && Init(l, ss[0].disk, ss[0]) && StartsFrom(l, ss[0].disk, d0)
    requires i < j < |ss| && labels[i].Crash? && ss[j].phase.Idle?
    requires forall k :: i <= k < j ==> labels[k].Crash? || labels[k].Recover?
    ensures ss[i].d <= |ss[i].t| && Open(ss[i].t[..ss[i].d]) == {}
    ensures |ss[j].disk| == |d0| == l.nblocks
    ensures forall b: nat :: Home(l, b) ==> ss[j].disk[b] == Apply(d0, ss[i].t[..ss[i].d], b)
    ensures ss[j].t == ss[i].t[..ss[i].d]
  {
    hide Inv, Apply, Open, Step, Run, StartsFrom;
    RunInv(l, d0, ss, labels, i);
    RunInv(l, d0, ss, labels, j);
    RecoveryKeeps(l, d0, ss, labels, i, j);
    InvParts(l, d0, ss[i]);
    InvParts(l, d0, ss[j]);
    IdleDisk(l, d0, ss[j]);
  }

  lemma InvParts(l: Layout, d0: seq<Block>, s: State)
    requires Inv(l, d0, s)
    ensures |s.disk| == |d0| == l.nblocks && s.d <= |s.t| && Open(s.t[..s.d]) == {}
  {}

  /** With nothing pinned, what readers see is what the disk holds. */
  lemma IdleDisk(l: Layout, d0: seq<Block>, s: State)
    requires Inv(l, d0, s) && s.phase.Idle? && s.cache == map[]
    ensures |s.disk| == |d0| == l.nblocks && forall b: nat :: Home(l, b) ==> s.disk[b] == Apply(d0, s.t, b)
  {
    hide Apply, Open, Recovered, Header, OpsOk;
    forall b: nat | Home(l, b) ensures s.disk[b] == Apply(d0, s.t, b) {
      assert Contents(s, b) == s.disk[b];
    }
  }

  lemma {:induction false} RecoveryKeeps(l: Layout, d0: seq<Block>, ss: seq<State>, labels: seq<Label>, i: nat, j: nat)
    requires Run(l, ss, labels) && i < j < |ss| && labels[i].Crash?
    requires forall k :: i <= k < j ==> labels[k].Crash? || labels[k].Recover?
    ensures ss[i].d <= |ss[i].t| && ss[j].t == ss[i].t[..ss[i].d] && ss[j].d == |ss[j].t|
    ensures ss[j].cache == map[] && ss[j].active == [] && ss[j].outstanding == 0
  {
    assert Step(l, ss[j - 1], labels[j - 1], ss[j]);
    if i + 1 < j {
      RecoveryKeeps(l, d0, ss, labels, i, j - 1);
      assert labels[j - 1].Crash? || labels[j - 1].Recover?;
      if labels[j - 1].Crash? { assert ss[j - 1].t[..ss[j - 1].d] == ss[j - 1].t; }
    }
  }

  /** Recovery needs at most one step per logged block and two more, if nothing fails meanwhile. */
  function StepsLeft(s: State): nat {
    match s.phase
    case RHead => LOGSIZE + 1
    case RInstall(i) => if i < |s.lh| then |s.lh| - i + 1 else 1
    case RClear => 1
    case _ => 0
  }

  lemma RecoveryProgress(l: Layout, d0: seq<Block>, s: State) returns (s': State)
    requires Inv(l, d0, s) && Recovering(s.phase)
    ensures Step(l, s, Recover, s') && StepsLeft(s') < StepsLeft(s)
    ensures StepsLeft(s') == 0 <==> s'.phase.Idle?
  {
    DiskParts(l, s.disk);
    hide Header, HeadBlock, Recovered, Apply;
    match s.phase
    case RHead =>
      s' := s.(lh := Header(l, s.disk), phase := if s.disk[l.start][0] == 0 then RClear else RInstall(0));
    case RInstall(i) =>
      s' := s.(disk := s.disk[s.lh[i] := s.disk[l.start + 1 + i]],
               phase := if i + 1 == |s.lh| then RClear else RInstall(i + 1));
    case RClear =>
      s' := s.(disk := s.disk[l.start := HeadBlock(s.disk[l.start], [])], lh := [], phase := Idle);
  }

  lemma StepDurable(l: Layout, d0: seq<Block>, s: State, a: Label, s': State)
    requires Inv(l, d0, s) && Step(l, s, a, s')
    ensures s.d <= |s.t| && s.d <= s'.d <= |s'.t| && s'.t[..s.d] == s.t[..s.d]
  {
    hide Durable, Current, PhaseOk, OpsOk, Open, Apply, Header, HeadBlock;
  }

  /** What is committed stays committed: the durable history only ever grows. */
  lemma {:induction false} Durability(l: Layout, d0: seq<Block>, ss: seq<State>, labels: seq<Label>, i: nat, j: nat)
    requires Run(l, ss, labels) && Init(l, ss[0].disk, ss[0]) && StartsFrom(l, ss[0].disk, d0) && i <= j < |ss|
    ensures ss[i].d <= ss[j].d <= |ss[j].t| && ss[i].d <= |ss[i].t|
    ensures ss[j].t[..ss[i].d] == ss[i].t[..ss[i].d]
  {
    hide Inv, Step, StartsFrom;
    RunInv(l, d0, ss, labels, i);
    InvParts(l, d0, ss[i]);
    if i < j {
      Durability(l, d0, ss, labels, i, j - 1);
      RunInv(l, d0, ss, labels, j - 1);
      StepDurable(l, d0, ss[j - 1], labels[j - 1], ss[j]);
      var n := ss[i].d;
      assert ss[j].t[..n] == ss[j].t[..ss[j - 1].d][..n];
      assert ss[j - 1].t[..n] == ss[j - 1].t[..ss[j - 1].d][..n];
    }
  }

  /** When the end_op that commits has returned, everything up to it is durable, and nothing that
      began is missing its end. */
  lemma CommittedOps(l: Layout, d0: seq<Block>, ss: seq<State>, labels: seq<Label>, i: nat)
    requires Run(l, ss, labels) && Init(l, ss[0].disk, ss[0]) && StartsFrom(l, ss[0].disk, d0) && i + 1 < |ss|
    requires labels[i].Commit? && ss[i].phase.Finish?
    ensures ss[i + 1].d == |ss[i + 1].t| && Open(ss[i + 1].t) == {} && ss[i + 1].outstanding == 0
  {
    RunInv(l, d0, ss, labels, i + 1);
    assert Step(l, ss[i], labels[i], ss[i + 1]);
    assert ss[i + 1].t[..ss[i + 1].d] == ss[i + 1].t;
    RunInv(l, d0, ss, labels, i);
  }

  /** While a commit runs no operation is in progress, so end_op's panic cannot happen. */
  lemma CommitAlone(l: Layout, d0: seq<Block>, ss: seq<State>, labels: seq<Label>, i: nat)
    requires Run(l, ss, labels) && Init(l, ss[0].disk, ss[0]) && StartsFrom(l, ss[0].disk, d0) && i < |ss|
    ensures Committing(ss[i].phase) ==> ss[i].outstanding == 0 && ss[i].active == [] && Open(ss[i].t) == {}
    ensures i + 1 < |ss| && labels[i].End? ==> !ss[i + 1].phase.Panicked?
  {
    RunInv(l, d0, ss, labels, i);
    if Committing(ss[i].phase) { NoneOpen(ss[i]); }
    if i + 1 < |ss| && labels[i].End? {
      assert Step(l, ss[i], labels[i], ss[i + 1]);
      EndInv(l, d0, ss[i], labels[i].k, ss[i + 1]);
    }
  }

  /** The committed history grows at exactly one kind of step: the header write, which takes in
      everything so far. (A transaction that logged nothing has nothing to make durable.) */
  lemma CommitPoint(l: Layout, d0: seq<Block>, s: State, a: Label, s': State)
    requires Inv(l, d0, s) && Step(l, s, a, s') && s'.d != s.d
    ensures a.Commit? && s'.d == |s'.t| && Open(s'.t) == {} && |d0| == l.nblocks && s.d <= |s.t|
    ensures s.phase.LogHead? ||
            (&& s.phase.Finish? && s.lh == []
             && forall b: nat :: Home(l, b) ==> Apply(d0, s.t, b) == Apply(d0, s.t[..s.d], b))
  {
    hide Apply, Recovered, Header, HeadBlock, Open;
    assert s.phase.LogHead? || s.phase.Finish?;
    NoneOpen(s);
    if s.phase.Finish? {
      forall b: nat | Home(l, b) ensures Apply(d0, s.t, b) == Apply(d0, s.t[..s.d], b) {
        RecoveredAt(l, s.disk, b);
        assert Contents(s, b) == s.disk[b];
      }
    }
  }

  // ---------- the reservation ----------

  /** Every operation adds at most q blocks to the log. */
  ghost predicate Within(ss: seq<State>, labels: seq<Label>, q: nat)
    requires |ss| == |labels| + 1
  {
    forall i :: 0 <= i < |labels| && labels[i].Write? && labels[i].k < |ss[i].active| ==>
      labels[i].b in ss[i].lh || ss[i].active[labels[i].k].spent < q
  }

  /** A run from boot in which every operation keeps to q blocks. */
  ghost predicate Bounded(l: Layout, ss: seq<State>, labels: seq<Label>, q: nat) {
    Run(l, ss, labels) && Init(l, ss[0].disk, ss[0]) && DiskOk(l, ss[0].disk) && Within(ss, labels, q)
  }

  /** Operations of at most q blocks never make log_write panic. */
  ghost predicate Fits(q: nat) {
    forall l: Layout, ss: seq<State>, labels: seq<Label> :: Bounded(l, ss, labels, q) ==>
      forall i :: 0 <= i < |ss| ==> !ss[i].phase.Panicked?
  }

  const QUOTA: nat := MAXOPBLOCKS - 1

  /** Blocks that operations in progress may still add if each may add q. */
  function Room(a: seq<Active>, q: nat): int {
    if a == [] then 0 else Room(a[..|a| - 1], q) + q - a[|a| - 1].spent
  }

  lemma {:induction false} RoomBound(a: seq<Active>, q: nat)
    ensures Room(a, q) <= q * |a|
  {
    if a != [] { RoomBound(a[..|a| - 1], q); }
  }

  lemma RoomMore(a: seq<Active>, x: Active, q: nat)
    ensures Room(a + [x], q) == Room(a, q) + q - x.spent
  {
    assert (a + [x])[..|a|] == a;
  }

  lemma {:induction false} RoomSpend(a: seq<Active>, k: nat, q: nat)
    requires k < |a|
    ensures Room(a[k := a[k].(spent := a[k].spent + 1)], q) == Room(a, q) - 1
  {
    var a' := a[k := a[k].(spent := a[k].spent + 1)];
    var n := |a| - 1;
    if k < n {
      RoomSpend(a[..n], k, q);
      assert a'[..n] == a[..n][k := a[k].(spent := a[k].spent + 1)];
    } else {
      assert a'[..n] == a[..n];
    }
  }

  lemma {:induction false} RoomEnd(a: seq<Active>, k: nat, q: nat)
    requires k < |a|
    ensures Room(a[..k] + a[k + 1..], q) == Room(a, q) - q + a[k].spent
  {
    var n := |a| - 1;
    if k < n {
      RoomEnd(a[..n], k, q);
      assert a[..k] + a[k + 1..] == (a[..n][..k] + a[..n][k + 1..]) + [a[n]];
      RoomMore(a[..n][..k] + a[..n][k + 1..], a[n], q);
    } else {
      assert a[..k] + a[k + 1..] == a[..n];
    }
  }

  lemma {:induction false} RoomNonNeg(a: seq<Active>, q: nat)
    requires forall k :: 0 <= k < |a| ==> a[k].spent <= q
    ensures 0 <= Room(a, q) && forall k :: 0 <= k < |a| ==> q - a[k].spent <= Room(a, q)
  {
    if a != [] { RoomNonNeg(a[..|a| - 1], q); }
  }

  /** What begin_op's test buys. With shares of MAXOPBLOCKS the log and the unspent shares fit
      LOGSIZE blocks; with shares of one block less they fit two blocks less. */
  function Capacity(q: nat): nat { if q < MAXOPBLOCKS then LOGSIZE - 2 else LOGSIZE }

  ghost predicate Reserved(s: State, q: nat) {
    !Recovering(s.phase) && !s.phase.Panicked? ==>
      && |s.lh| + Room(s.active, q) <= Capacity(q)
      && forall k :: 0 <= k < |s.active| ==> s.active[k].spent <= q
  }

  lemma ReservedBegin(s: State, id: nat, s': State, q: nat)
    requires Reserved(s, q) && BeginStep(s, id, s') && |s.active| == s.outstanding
    requires (s.outstanding == 0 ==> s.lh == [])
    requires QUOTA <= q <= MAXOPBLOCKS
    ensures Reserved(s', q)
  {
    hide Open, Room;
    RoomBound(s.active, q);
    RoomMore(s.active, Active(id, 0), q);
  }

  lemma ReservedWrite(l: Layout, s: State, k: nat, b: nat, data: Block, s': State, q: nat)
    requires Reserved(s, q) && WriteStep(l, s, k, b, data, s') && l.size == LOGSIZE && s.outstanding > 0
    requires b in s.lh || s.active[k].spent < q
    ensures Reserved(s', q) && (q < MAXOPBLOCKS ==> !s'.phase.Panicked?)
  {
    hide Room;
    RoomNonNeg(s.active, q);
    RoomSpend(s.active, k, q);
  }

  lemma ReservedEnd(s: State, k: nat, s': State, q: nat)
    requires Reserved(s, q) && EndStep(s, k, s')
    ensures Reserved(s', q)
  {
    hide Room;
    RoomEnd(s.active, k, q);
    assert forall j :: 0 <= j < |s'.active| ==> s'.active[j] == s.active[if j < k then j else j + 1];
  }

  lemma ReservedStep(l: Layout, d0: seq<Block>, s: State, a: Label, s': State, q: nat)
    requires Inv(l, d0, s) && Step(l, s, a, s') && Reserved(s, q) && QUOTA <= q <= MAXOPBLOCKS
    requires a.Write? && a.k < |s.active| ==> a.b in s.lh || s.active[a.k].spent < q
    ensures Reserved(s', q) && (q < MAXOPBLOCKS && !s.phase.Panicked? ==> !s'.phase.Panicked?)
  {
    match a
    case Begin(id) => ReservedBegin(s, id, s', q);
    case Write(k, b, data) => ReservedWrite(l, s, k, b, data, s', q);
    case End(k) =>
      EndInv(l, d0, s, k, s');
      ReservedEnd(s, k, s', q);
    case Commit => ReservedQuiet(l, d0, s, a, s', q);
    case Crash => ReservedQuiet(l, d0, s, a, s', q);
    case Recover => ReservedQuiet(l, d0, s, a, s', q);
  }

  lemma ReservedQuiet(l: Layout, d0: seq<Block>, s: State, a: Label, s': State, q: nat)
    requires Inv(l, d0, s) && Step(l, s, a, s') && Reserved(s, q) && (a.Commit? || a.Crash? || a.Recover?)
    ensures Reserved(s', q) && (!s.phase.Panicked? ==> !s'.phase.Panicked?)
  {
    hide Durable, Current, OpsOk, Open, Apply, Header, HeadBlock;
  }

  lemma {:induction false} ReservedRun(l: Layout, d0: seq<Block>, ss: seq<State>, labels: seq<Label>, q: nat, i: nat)
    requires Run(l, ss, labels) && Init(l, ss[0].disk, ss[0]) && StartsFrom(l, ss[0].disk, d0) && i < |ss|
    requires Within(ss, labels, q) && QUOTA <= q <= MAXOPBLOCKS
    ensures Reserved(ss[i], q) && (q < MAXOPBLOCKS ==> !ss[i].phase.Panicked?)
  {
    hide Step, StartsFrom, Inv;
    if i > 0 {
      ReservedRun(l, d0, ss, labels, q, i - 1);
      RunInv(l, d0, ss, labels, i - 1);
      ReservedStep(l, d0, ss[i - 1], labels[i - 1], ss[i], q);
    }
  }

  lemma RecoveredStart(l: Layout, disk: seq<Block>) returns (d0: seq<Block>)
    requires DiskOk(l, disk)
    ensures StartsFrom(l, disk, d0)
  {
    d0 := seq(l.nblocks, b requires 0 <= b < l.nblocks => Recovered(l, disk, b));
  }

  /** The log plus the unspent shares always fit; with shares of one block less nothing panics. */
  lemma ReservationHolds(l: Layout, ss: seq<State>, labels: seq<Label>, q: nat, i: nat)
    requires Bounded(l, ss, labels, q) && QUOTA <= q <= MAXOPBLOCKS && i < |ss|
    ensures Reserved(ss[i], q) && (q < MAXOPBLOCKS ==> !ss[i].phase.Panicked?)
  {
    var d0 := RecoveredStart(l, ss[0].disk);
    ReservedRun(l, d0, ss, labels, q, i);
  }

  // The other half: three operations of MAXOPBLOCKS blocks each are admitted, and the last of
  // their writes finds the log full.

  const SMALL := Layout(100, LOGSIZE, 200)

  function Spent(n: nat, k: nat): nat {
    if n < 10 * k then 0 else if n > 10 * k + 10 then 10 else n - 10 * k
  }

  /** A run that reaches three operations in progress and n blocks logged. */
  ghost predicate Filled(ss: seq<State>, labels: seq<Label>, n: nat) {
    && Bounded(SMALL, ss, labels, MAXOPBLOCKS)
    && var s := ss[|ss| - 1];
       && s.phase.Idle? && s.outstanding == 3 && |s.lh| == n
       && (forall i :: 0 <= i < n ==> s.lh[i] == i)
       && |s.active| == 3 && s.active[0].spent == Spent(n, 0) && s.active[1].spent == Spent(n, 1)
       && s.active[2].spent == Spent(n, 2)
       && |s.disk| == 200 && |s.disk[100]| == 256
  }

  lemma Extend(l: Layout, ss: seq<State>, labels: seq<Label>, q: nat, a: Label, s': State)
    requires Bounded(l, ss, labels, q) && Step(l, ss[|ss| - 1], a, s')
    requires a.Write? && a.k < |ss[|ss| - 1].active| ==> a.b in ss[|ss| - 1].lh || ss[|ss| - 1].active[a.k].spent < q
    ensures Bounded(l, ss + [s'], labels + [a], q)
  {
    hide Step, DiskOk;
    var ss', labels' := ss + [s'], labels + [a];
    forall i | 0 <= i < |labels'| ensures Step(l, ss'[i], labels'[i], ss'[i + 1]) {
      if i < |labels| { assert ss'[i] == ss[i] && ss'[i + 1] == ss[i + 1] && labels'[i] == labels[i]; }
    }
  }

  lemma BootRun() returns (ss: seq<State>, labels: seq<Label>)
    ensures Bounded(SMALL, ss, labels, MAXOPBLOCKS)
    ensures var s := ss[|ss| - 1];
            && s.phase.Idle? && s.outstanding == 0 && s.lh == [] && s.active == [] && s.t == [] && |s.disk| == 200
            && |s.disk[100]| == 256
  {
    var zeros := seq(256, _ => 0);
    var disk := seq(200, _ => zeros);
    assert Header(SMALL, disk) == [];
    var s0 := State(disk, map[], [], 0, [], RHead, [], 0);
    ss, labels := [s0], [];
    var s1 := s0.(lh := Header(SMALL, disk), phase := RClear);
    Extend(SMALL, ss, labels, MAXOPBLOCKS, Recover, s1);
    ss, labels := ss + [s1], labels + [Recover];
    var s2 := s1.(disk := disk[100 := HeadBlock(disk[100], [])], lh := [], phase := Idle);
    Extend(SMALL, ss, labels, MAXOPBLOCKS, Recover, s2);
    ss, labels := ss + [s2], labels + [Recover];
  }

  lemma BeginRun(ss: seq<State>, labels: seq<Label>) returns (ss': seq<State>, labels': seq<Label>)
    requires Bounded(SMALL, ss, labels, MAXOPBLOCKS)
    requires var s := ss[|ss| - 1];
             && s.phase.Idle? && s.lh == [] && |s.active| == s.outstanding < 3 && |s.disk| == 200
             && |s.disk[100]| == 256
             && (forall k :: 0 <= k < |s.active| ==> s.active[k].spent == 0)
             && forall id :: id in Open(s.t) ==> id < s.outstanding
    ensures Bounded(SMALL, ss', labels', MAXOPBLOCKS)
    ensures var s := ss[|ss| - 1]; var s' := ss'[|ss'| - 1];
            && s'.phase.Idle? && s'.lh == [] && |s'.active| == s'.outstanding == s.outstanding + 1 && s'.disk == s.disk
            && (forall k :: 0 <= k < |s'.active| ==> s'.active[k].spent == 0)
            && forall id :: id in Open(s'.t) ==> id < s'.outstanding
  {
    hide DiskOk;
    var s := ss[|ss| - 1];
    var id := s.outstanding;
    var s' := s.(outstanding := id + 1, active := s.active + [Active(id, 0)], t := s.t + [EvBegin(id)]);
    OpenMore(s.t, EvBegin(id));
    Extend(SMALL, ss, labels, MAXOPBLOCKS, Begin(id), s');
    ss', labels' := ss + [s'], labels + [Begin(id)];
  }

  lemma {:induction false} FillRun(n: nat) returns (ss: seq<State>, labels: seq<Label>)
    requires n < LOGSIZE
    ensures Filled(ss, labels, n)
  {
    hide DiskOk, Open;
    if n == 0 {
      ss, labels := BootRun();
      OpenNone();
      ss, labels := BeginRun(ss, labels);
      ss, labels := BeginRun(ss, labels);
      ss, labels := BeginRun(ss, labels);
    } else {
      ss, labels := FillRun(n - 1);
      var s := ss[|ss| - 1];
      var k := (n - 1) / 10;
      var s' := s.(cache := s.cache[n - 1 := []], lh := s.lh + [n - 1],
                   active := s.active[k := s.active[k].(spent := s.active[k].spent + 1)],
                   t := s.t + [EvWrite(s.active[k].id, n - 1, [])]);
      Extend(SMALL, ss, labels, MAXOPBLOCKS, Write(k, n - 1, []), s');
      ss, labels := ss + [s'], labels + [Write(k, n - 1, [])];
    }
  }

  lemma OpenNone() ensures Open([]) == {} {}

  /** Three operations of MAXOPBLOCKS blocks panic: a run that begin_op admits. */
  lemma FullQuotaPanics() returns (ss: seq<State>, labels: seq<Label>)
    ensures Bounded(SMALL, ss, labels, MAXOPBLOCKS) && ss[|ss| - 1].phase.Panicked?
  {
    ss, labels := FillRun(LOGSIZE - 1);
    hide DiskOk, Run, Open;
    var s := ss[|ss| - 1];
    var a := Write(2, LOGSIZE - 1, []);
    Extend(SMALL, ss, labels, MAXOPBLOCKS, a, s.(phase := Panicked));
    ss, labels := ss + [s.(phase := Panicked)], labels + [a];
  }

  /** The log has room for every admitted operation exactly when operations keep to one block less
      than MAXOPBLOCKS, which is ten: mkfs gives the log LOGSIZE blocks and the header takes one. */
  lemma ReservationExact(q: nat)
    ensures Fits(q) <==> q < 10
  {
    if q < MAXOPBLOCKS {
      forall l: Layout, ss: seq<State>, labels: seq<Label>, i | Bounded(l, ss, labels, q) && 0 <= i < |ss|
        ensures !ss[i].phase.Panicked? {
        assert Within(ss, labels, QUOTA);
        ReservationHolds(l, ss, labels, QUOTA, i);
      }
    } else {
      var ss, labels := FullQuotaPanics();
      assert Bounded(SMALL, ss, labels, q);
    }
  }

  // ---------- operations that say beforehand which blocks they may write ----------

  /** Every operation writes only blocks of its plan. */
  ghost predicate KeepsTo(ss: seq<State>, labels: seq<Label>, plan: map<nat, set<nat>>)
    requires |ss| == |labels| + 1
  {
    forall i :: 0 <= i < |labels| && labels[i].Write? && labels[i].k < |ss[i].active| ==>
      Planned(plan, ss[i].active[labels[i].k].id, labels[i].b)
  }

  predicate Planned(plan: map<nat, set<nat>>, id: nat, b: nat) { id in plan && b in plan[id] }

  /** The blocks of an operation's plan that are in the log. */
  function Logged(plan: map<nat, set<nat>>, id: nat, lh: seq<nat>): set<nat> {
    if id in plan then set b | b in plan[id] && b in lh else {}
  }

  /** What an operation has added to the log are blocks of its plan, each added once. */
  ghost predicate WithinPlan(s: State, plan: map<nat, set<nat>>) {
    forall k :: 0 <= k < |s.active| ==> s.active[k].spent <= |Logged(plan, s.active[k].id, s.lh)|
  }

  lemma LoggedMore(plan: map<nat, set<nat>>, id: nat, lh: seq<nat>, b: nat)
    ensures |Logged(plan, id, lh)| <= |Logged(plan, id, lh + [b])|
    ensures b !in lh && Planned(plan, id, b) ==>
              |Logged(plan, id, lh)| + 1 <= |Logged(plan, id, lh + [b])| && |Logged(plan, id, lh)| < |plan[id]|
  {
    SubsetSize(Logged(plan, id, lh), Logged(plan, id, lh + [b]));
    if b !in lh && Planned(plan, id, b) {
      SubsetSize(Logged(plan, id, lh) + {b}, Logged(plan, id, lh + [b]));
      SubsetSize(Logged(plan, id, lh) + {b}, plan[id]);
    }
  }

  lemma SpentWrite(l: Layout, s: State, k: nat, b: nat, data: Block, s': State, plan: map<nat, set<nat>>)
    requires WithinPlan(s, plan) && WriteStep(l, s, k, b, data, s') && Planned(plan, s.active[k].id, b)
    ensures WithinPlan(s', plan)
  {
    hide Logged;
    forall j | 0 <= j < |s'.active| ensures s'.active[j].spent <= |Logged(plan, s'.active[j].id, s'.lh)| {
      LoggedMore(plan, s.active[j].id, s.lh, b);
    }
  }

  lemma SpentStep(l: Layout, d0: seq<Block>, s: State, a: Label, s': State, plan: map<nat, set<nat>>)
    requires Inv(l, d0, s) && Step(l, s, a, s') && WithinPlan(s, plan)
    requires a.Write? && a.k < |s.active| ==> Planned(plan, s.active[a.k].id, a.b)
    ensures WithinPlan(s', plan)
  {
    hide Durable, Current, Open, Apply, Header, HeadBlock, Logged;
    match a
    case Write(k, b, data) => SpentWrite(l, s, k, b, data, s', plan);
    case End(k) => assert forall j :: 0 <= j < |s'.active| ==> s'.active[j] == s.active[if j < k then j else j + 1];
    case _ =>
  }

  lemma {:induction false} SpentRun(l: Layout, d0: seq<Block>, ss: seq<State>, labels: seq<Label>, plan: map<nat,
                                    set<nat>>, i: nat)
    requires Run(l, ss, labels) && Init(l, ss[0].disk, ss[0]) && StartsFrom(l, ss[0].disk, d0) && i < |ss|
    requires KeepsTo(ss, labels, plan)
    ensures WithinPlan(ss[i], plan)
  {
    hide Step, StartsFrom, Inv;
    if i > 0 {
      SpentRun(l, d0, ss, labels, plan, i - 1);
      RunInv(l, d0, ss, labels, i - 1);
      SpentStep(l, d0, ss[i - 1], labels[i - 1], ss[i], plan);
    }
  }

  /** Operations that each write fewer than MAXOPBLOCKS different blocks, in any interleaving, never
      meet the "too big a transaction" panic. */
  lemma PlannedFits(l: Layout, ss: seq<State>, labels: seq<Label>, plan: map<nat, set<nat>>, i: nat)
    requires Run(l, ss, labels) && Init(l, ss[0].disk, ss[0]) && DiskOk(l, ss[0].disk) && i < |ss|
    requires KeepsTo(ss, labels, plan) && forall id :: id in plan ==> |plan[id]| < MAXOPBLOCKS
    ensures !ss[i].phase.Panicked?
  {
    var d0 := RecoveredStart(l, ss[0].disk);
    hide Run, Init, DiskOk, StartsFrom, Logged;
    forall j | 0 <= j < |labels| && labels[j].Write? && labels[j].k < |ss[j].active|
      ensures labels[j].b in ss[j].lh || ss[j].active[labels[j].k].spent < QUOTA
    {
      SpentRun(l, d0, ss, labels, plan, j);
      LoggedMore(plan, ss[j].active[labels[j].k].id, ss[j].lh, labels[j].b);
    }
    ReservationHolds(l, ss, labels, QUOTA, i);
  }
}
