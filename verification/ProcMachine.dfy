/** Processes, CPUs and locks as an interleaving state machine: sleep and wakeup, the scheduler's
    hand-over of a process lock across the switch, fork, exit, wait, kill, and sleep locks. A step
    is one lock acquisition or release, or what a thread does between two of them. A critical
    section under a single lock that does nothing else is one step. */
module ProcMachine {
  import opened Sv39
  import LogMachine

  datatype PState = UNUSED | USED | SLEEPING | RUNNABLE | RUNNING | ZOMBIE

  /** What a process can sleep on: its own slot, in wait(), or data under a spin lock. */
  datatype Chan = NoChan | Kid(p: nat) | Lk(k: nat)

  /** Data under a spin lock that processes sleep on: a sleep lock, or anything at all, with the
      values that let a sleeper go on. */
  datatype Cell = SleepLock(holder: Option<nat>) | Data(value: seq<int>, good: iset<seq<int>>)

  /** A sleeper's condition holds. */
  ghost predicate Ready(g: Cell) { if g.SleepLock? then g.holder.None? else g.value in g.good }

  /** What a process that need not wait makes of the data. */
  ghost predicate Taken(g: Cell, p: nat, g': Cell) {
    if g.SleepLock? then g' == SleepLock(Some(p)) else g'.Data? && g' == g.(value := g'.value)
  }

  /** What a process may otherwise make of the data: of a sleep lock only its holder, and only free. */
  ghost predicate Changed(g: Cell, p: nat, g': Cell) {
    if g.SleepLock? then g == SleepLock(Some(p)) && g' == SleepLock(None) else g'.Data? && g' == g.(value := g'.value)
  }

  /** The lock that protects a channel's condition: wait_lock, or the data's spin lock. */
  datatype Lock = WaitLock | SLock(k: nat)

  /** Where a process's kernel thread is, and so which locks it holds. */
  datatype Pc =
    | Fresh                                // not yet run: will start in forkret
    | Idle                                 // in user space or in code that holds no lock
    | Parked(next: Pc)                     // switched out
    | Resume(next: Pc)                     // just switched in, holding its own lock
    | Yield1(next: Pc)                     // yield: holding its own lock, about to switch
    | Relock(ch: Chan)                     // sleep: woken, about to reacquire the condition lock
    | Check(ch: Chan)                      // holding the condition lock, about to test
    | Scan(i: nat, kids: bool)             // wait: looking at slot i
    | Look(i: nat, kids: bool)             // wait: holding the lock of child i too
    | Sleep1(ch: Chan)                     // sleep: holding its own lock and the condition lock
    | Sleep2(ch: Chan)                     // sleep: condition lock released
    | Wake(ch: Chan, i: nat, next: Pc)     // wakeup: about to look at slot i
    | Unlock(l: Lock)                      // about to release l and be done
    | Reparent(i: nat)                     // exit: looking at slot i
    | Exit1                                // exit: parent woken, about to take its own lock
    | Exit2                                // exit: zombie, about to release wait_lock
    | Exit3                                // exit: about to switch, never to return
    | Dead
    | Fork1(np: nat)                       // fork: filling slot np, holding its lock
    | Fork2(np: nat)                       // fork: about to set np's parent
    | Fork3(np: nat)                       // fork: about to make np runnable

  datatype Owner = NoOne | Thread(x: nat) | Cpu(c: nat)

  datatype Mode = Sched | Running(p: nat) | After(p: nat)

  datatype Proc = Proc(state: PState, chan: Chan, parent: Option<nat>, pc: Pc, exits: nat, reaps: nat)

  /** plock: the lock of each slot. wait, slk: holders of wait_lock and of the other spin locks. cell:
      what those protect. Slot 0 is init. */
  datatype State = State(proc: seq<Proc>, plock: seq<Owner>, wait: Option<nat>, slk: seq<Option<nat>>,
                         cell: seq<Cell>, cpu: seq<Mode>)

  function LockOf(ch: Chan): Lock { if ch.Lk? then SLock(ch.k) else WaitLock }

  ghost predicate Shape(s: State) {
    |s.plock| == |s.proc| > 0 && |s.slk| == |s.cell|
  }

  predicate LockIn(s: State, l: Lock) { l.SLock? ==> l.k < |s.slk| }

  function Holder(s: State, l: Lock): Option<nat>
    requires LockIn(s, l)
  { if l.WaitLock? then s.wait else s.slk[l.k] }

  function SetHolder(s: State, l: Lock, o: Option<nat>): State
    requires LockIn(s, l)
  { if l.WaitLock? then s.(wait := o) else s.(slk := s.slk[l.k := o]) }

  /** The slot locks a thread at pc holds. */
  predicate HoldsSlot(pc: Pc, x: nat, q: nat) {
    match pc
    case Resume(_) => q == x
    case Yield1(_) => q == x
    case Sleep1(_) => q == x
    case Sleep2(_) => q == x
    case Exit2 => q == x
    case Exit3 => q == x
    case Look(i, _) => q == i
    case Fork1(np) => q == np
    case _ => false
  }

  /** The condition locks a thread at pc holds. */
  predicate HoldsLock(pc: Pc, l: Lock) {
    match pc
    case Check(ch) => l == LockOf(ch)
    case Scan(_, _) => l == WaitLock
    case Look(_, _) => l == WaitLock
    case Sleep1(ch) => l == LockOf(ch)
    case Wake(ch, _, _) => l == LockOf(ch)
    case Unlock(l1) => l == l1
    case Reparent(_) => l == WaitLock
    case Exit1 => l == WaitLock
    case Exit2 => l == WaitLock
    case _ => false
  }

  /** Positions of a thread that is on a CPU. */
  predicate Active(pc: Pc) { !pc.Fresh? && !pc.Parked? && !pc.Dead? }

  /** Positions where a clock interrupt may make the thread yield. */
  predicate Preemptible(pc: Pc) { pc.Idle? || pc.Relock? || pc.Fork2? || pc.Fork3? }

  // ---------- steps ----------

  /** Thread p goes on to pc. */
  function Goto(s: State, p: nat, pc: Pc): State
    requires p < |s.proc|
  { s.(proc := s.proc[p := s.proc[p].(pc := pc)]) }

  function SetLock(s: State, q: nat, o: Owner): State
    requires q < |s.plock|
  { s.(plock := s.plock[q := o]) }

  function SetState(s: State, q: nat, st: PState): State
    requires q < |s.proc|
  { s.(proc := s.proc[q := s.proc[q].(state := st)]) }

  /** scheduler() finds slot p runnable and switches to it. */
  ghost predicate Pick(s: State, c: nat, p: nat, s': State) {
    && c < |s.cpu| && p < |s.proc| && p < |s.plock| && s.cpu[c].Sched? && s.plock[p].NoOne? && s.proc[p].state.RUNNABLE?
    && (s.proc[p].pc.Fresh? || s.proc[p].pc.Parked?)
    && var pc := if s.proc[p].pc.Fresh? then Resume(Idle) else Resume(s.proc[p].pc.next);
       s' ==
         s.(proc := s.proc[p := s.proc[p].(state := RUNNING, pc := pc)], plock := s.plock[p := Thread(p)],
            cpu := s.cpu[c := Running(p)])
  }

  /** scheduler() after the switch back: no current process, lock released. */
  ghost predicate Put(s: State, c: nat, s': State) {
    && c < |s.cpu| && s.cpu[c].After? && s.cpu[c].p < |s.plock|
    && s' == s.(plock := s.plock[s.cpu[c].p := NoOne], cpu := s.cpu[c := Sched])
  }

  ghost predicate BeginWait(s: State, p: nat, s': State)
    requires Shape(s) && p < |s.proc|
  { s.wait.None? && s' == Goto(s.(wait := Some(p)), p, Check(Kid(p))) }

  ghost predicate BeginExit(s: State, p: nat, s': State)
    requires Shape(s) && p < |s.proc|
  { p != 0 && s.wait.None? && s' == Goto(s.(wait := Some(p)), p, Reparent(0)) }

  /** allocproc takes an unused slot. */
  ghost predicate BeginFork(s: State, p: nat, np: nat, s': State)
    requires Shape(s) && p < |s.proc| && np < |s.proc|
  {
    && s.plock[np].NoOne? && s.proc[np].state.UNUSED?
    && s' ==
         Goto(SetLock(s.(proc := s.proc[np := s.proc[np].(state := USED, pc := Fresh)]), np, Thread(p)), p, Fork1(np))
  }

  /** The start of acquiresleep, begin_op and the like: take the spin lock and look. */
  ghost predicate BeginLook(s: State, p: nat, k: nat, s': State)
    requires Shape(s) && p < |s.proc| && k < |s.slk|
  { s.slk[k].None? && s' == Goto(s.(slk := s.slk[k := Some(p)]), p, Check(Lk(k))) }

  /** The start of releasesleep, end_op and the like: take the spin lock and change the data. Whoever
      makes the condition true goes on to wake the sleepers before it lets go of the lock. */
  ghost predicate BeginChange(s: State, p: nat, k: nat, s': State)
    requires Shape(s) && p < |s.proc| && k < |s.slk|
  {
    && s.slk[k].None?
    && exists g :: Changed(s.cell[k], p, g)
         && (ChangeTo(s, p, k, g, Wake(Lk(k), 0, Unlock(SLock(k))), s')
             || ((Ready(g) ==> Ready(s.cell[k])) && ChangeTo(s, p, k, g, Unlock(SLock(k)), s')))
  }

  ghost predicate ChangeTo(s: State, p: nat, k: nat, g: Cell, pc: Pc, s': State)
    requires Shape(s) && p < |s.proc| && k < |s.slk|
  { s' == Goto(s.(slk := s.slk[k := Some(p)], cell := s.cell[k := g]), p, pc) }

  ghost predicate Kill(s: State, p: nat, q: nat, s': State)
    requires Shape(s) && p < |s.proc| && q < |s.proc|
  { q != p && s.plock[q].NoOne? && s' == if s.proc[q].state.SLEEPING? then SetState(s, q, RUNNABLE) else s }

  /** What a thread with nothing to finish may start. */
  ghost predicate Begin(s: State, p: nat, s': State)
    requires Shape(s) && p < |s.proc|
  {
    || BeginWait(s, p, s') || BeginExit(s, p, s')
    || (exists np: nat :: np < |s.proc| && BeginFork(s, p, np, s'))
    || (exists k: nat :: k < |s.slk| && BeginLook(s, p, k, s'))
    || (exists k: nat :: k < |s.slk| && BeginChange(s, p, k, s'))
    || (exists q: nat :: q < |s.proc| && Kill(s, p, q, s'))
  }

  /** The clock makes the thread yield: take its own lock, runnable. */
  ghost predicate Preempt(s: State, p: nat, s': State)
    requires Shape(s) && p < |s.proc|
  {
    && Preemptible(s.proc[p].pc) && s.plock[p].NoOne?
    && s' == Goto(SetLock(SetState(s, p, RUNNABLE), p, Thread(p)), p, Yield1(s.proc[p].pc))
  }

  /** Switching in and out. */
  ghost predicate GoSwitch(s: State, c: nat, p: nat, s': State)
    requires Shape(s) && c < |s.cpu| && p < |s.proc|
  {
    match s.proc[p].pc
    case Resume(next) => s' == Goto(SetLock(s.(proc := s.proc[p := s.proc[p].(chan := NoChan)]), p, NoOne), p, next)
    case Yield1(next) => s' == Goto(s.(plock := s.plock[p := Cpu(c)], cpu := s.cpu[c := After(p)]), p, Parked(next))
    case Sleep2(ch) =>
      s' == s.(proc := s.proc[p := s.proc[p].(chan := ch, state := SLEEPING, pc := Parked(Relock(ch)))],
               plock := s.plock[p := Cpu(c)], cpu := s.cpu[c := After(p)])
    case Exit3 => s' == Goto(s.(plock := s.plock[p := Cpu(c)], cpu := s.cpu[c := After(p)]), p, Dead)
    case _ => false
  }

  /** Taking and releasing a condition lock. */
  ghost predicate GoCond(s: State, p: nat, s': State)
    requires Shape(s) && p < |s.proc|
  {
    match s.proc[p].pc
    case Relock(ch) =>
      && LockIn(s, LockOf(ch)) && Holder(s, LockOf(ch)).None?
      && s' == Goto(SetHolder(s, LockOf(ch), Some(p)), p, Check(ch))
    case Sleep1(ch) => LockIn(s, LockOf(ch)) && s' == Goto(SetHolder(s, LockOf(ch), None), p, Sleep2(ch))
    case Unlock(l) => LockIn(s, l) && s' == Goto(SetHolder(s, l, None), p, Idle)
    case Exit2 => s' == Goto(s.(wait := None), p, Exit3)
    case _ => false
  }

  /** The loops of acquiresleep and wait. */
  ghost predicate GoCheck(s: State, p: nat, s': State)
    requires Shape(s) && p < |s.proc|
  {
    match s.proc[p].pc
    case Check(ch) =>
      if ch.Lk? then
        ch.k < |s.cell| &&
        if Ready(s.cell[ch.k]) then
          exists g :: Taken(s.cell[ch.k], p, g) && s' == Goto(s.(cell := s.cell[ch.k := g]), p, Unlock(SLock(ch.k)))
        else s.plock[p].NoOne? && s' == Goto(SetLock(s, p, Thread(p)), p, Sleep1(ch))
      else s' == Goto(s, p, Scan(0, false))
    case Scan(i, kids) =>
      if i < |s.proc| then
        if s.proc[i].parent == Some(p) then s.plock[i].NoOne? && s' == Goto(SetLock(s, i, Thread(p)), p, Look(i, kids))
        else s' == Goto(s, p, Scan(i + 1, kids))
      else
        || s' == Goto(s, p, Unlock(WaitLock))                                   // no children, or killed
        || (kids && s.plock[p].NoOne? && s' == Goto(SetLock(s, p, Thread(p)), p, Sleep1(Kid(p))))
    case Look(i, kids) =>
      i < |s.proc| &&
      if s.proc[i].state.ZOMBIE? then
        || s' == Goto(SetLock(s, i, NoOne), p, Unlock(WaitLock))                // the status could not be copied out
        || s' == Goto(SetLock(Freeproc(s, i, 1), i, NoOne), p, Unlock(WaitLock))
      else s' == Goto(SetLock(s, i, NoOne), p, Scan(i + 1, true))
    case _ => false
  }

  /** wakeup's loop. */
  ghost predicate GoWake(s: State, p: nat, s': State)
    requires Shape(s) && p < |s.proc| && s.proc[p].pc.Wake?
  {
    var Wake(ch, i, next) := s.proc[p].pc;
    if i >= |s.proc| then s' == Goto(s, p, next)
    else if i == p then s' == Goto(s, p, Wake(ch, i + 1, next))
    else
      && s.plock[i].NoOne?
      && s' ==
           Goto(if s.proc[i].state.SLEEPING? && s.proc[i].chan == ch then SetState(s, i, RUNNABLE) else s, p,
                Wake(ch, i + 1, next))
  }

  /** exit. */
  ghost predicate GoExit(s: State, p: nat, s': State)
    requires Shape(s) && p < |s.proc|
  {
    match s.proc[p].pc
    case Reparent(i) =>
      if i < |s.proc| then
        if s.proc[i].parent == Some(p) then
          s' == Goto(s.(proc := s.proc[i := s.proc[i].(parent := Some(0))]), p, Wake(Kid(0), 0, Reparent(i + 1)))
        else s' == Goto(s, p, Reparent(i + 1))
      else
        s' == Goto(s, p, if s.proc[p].parent.Some? then Wake(Kid(s.proc[p].parent.value), 0, Exit1) else Exit1)
    case Exit1 =>
      s.plock[p].NoOne? &&
      s' ==
        SetLock(s.(proc := s.proc[p := s.proc[p].(state := ZOMBIE, pc := Exit2, exits := s.proc[p].exits + 1)]), p,
                Thread(p))
    case _ => false
  }

  /** fork. */
  ghost predicate GoFork(s: State, p: nat, s': State)
    requires Shape(s) && p < |s.proc|
  {
    match s.proc[p].pc
    case Fork1(np) =>
      np < |s.proc| && np < |s.plock| &&
      (|| s' == Goto(SetLock(Freeproc(s, np, 0), np, NoOne), p, Idle)           // out of memory
       || s' == Goto(SetLock(s, np, NoOne), p, Fork2(np)))
    case Fork2(np) =>
      && np < |s.proc| && s.wait.None?
      && s' == Goto(s.(proc := s.proc[np := s.proc[np].(parent := Some(p))]), p, Fork3(np))
    case Fork3(np) => np < |s.proc| && s.plock[np].NoOne? && s' == Goto(SetState(s, np, RUNNABLE), p, Idle)
    case _ => false
  }

  /** Thread p on CPU c does the next thing its position calls for. */
  ghost predicate Go(s: State, c: nat, p: nat, s': State)
    requires Shape(s) && c < |s.cpu| && p < |s.proc|
  {
    var pc := s.proc[p].pc;
    if pc.Resume? || pc.Yield1? || pc.Sleep2? || pc.Exit3? then GoSwitch(s, c, p, s')
    else if pc.Relock? || pc.Sleep1? || pc.Unlock? || pc.Exit2? then GoCond(s, p, s')
    else if pc.Check? || pc.Scan? || pc.Look? then GoCheck(s, p, s')
    else if pc.Wake? then GoWake(s, p, s')
    else if pc.Reparent? || pc.Exit1? then GoExit(s, p, s')
    else (pc.Fork1? || pc.Fork2? || pc.Fork3?) && GoFork(s, p, s')
  }

  function Freeproc(s: State, q: nat, reaped: nat): State
    requires q < |s.proc|
  {
    s.(proc := s.proc[q := s.proc[q].(state := UNUSED, chan := NoChan, parent := None, pc := Fresh,
                                      reaps := s.proc[q].reaps + reaped)])
  }

  datatype Label = LPick(c: nat, p: nat) | LPut(c: nat) | LRun(c: nat)

  ghost predicate Step(s: State, a: Label, s': State) {
    Shape(s) &&
    match a
    case LPick(c, p) => Pick(s, c, p, s')
    case LPut(c) => Put(s, c, s')
    case LRun(c) =>
      && c < |s.cpu| && s.cpu[c].Running? && s.cpu[c].p < |s.proc|
      && var p := s.cpu[c].p;
         ((s.proc[p].pc.Idle? && Begin(s, p, s')) || Preempt(s, p, s') || Go(s, c, p, s'))
  }

  // ---------- the invariant ----------

  /** Locks are held by exactly the threads whose positions say so. */
  ghost predicate SlotLocks(s: State)
    requires Shape(s)
  {
    && (forall q, x ::
          0 <= q < |s.proc| && 0 <= x < |s.proc| ==> (s.plock[q] == Thread(x) <==> HoldsSlot(s.proc[x].pc, x, q)))
    && (forall q :: 0 <= q < |s.proc| && s.plock[q].Thread? ==> s.plock[q].x < |s.proc|)
    && (forall q :: 0 <= q < |s.proc| && s.plock[q].Cpu? ==> s.plock[q].c < |s.cpu| && s.cpu[s.plock[q].c] == After(q))
  }

  ghost predicate CondLocks(s: State)
    requires Shape(s)
  {
    && (forall l, x :: LockIn(s, l) && 0 <= x < |s.proc| ==> (Holder(s, l) == Some(x) <==> HoldsLock(s.proc[x].pc, l)))
    && (forall l :: LockIn(s, l) && Holder(s, l).Some? ==> Holder(s, l).value < |s.proc|)
  }

  predicate ChanOk(s: State, x: nat, ch: Chan) { ch == Kid(x) || (ch.Lk? && ch.k < |s.slk|) }

  /** Slot np as fork leaves it before and after it has a parent. */
  predicate Embryo(s: State, np: nat, x: nat, parent: Option<nat>) {
    np < |s.proc| && np != x && s.proc[np].state.USED? && s.proc[np].parent == parent
  }

  predicate RestOk(s: State, x: nat, pc: Pc) {
    match pc
    case Idle => true
    case Relock(ch) => ChanOk(s, x, ch)
    case Fork2(np) => Embryo(s, np, x, None)
    case Fork3(np) => Embryo(s, np, x, Some(x))
    case _ => false
  }

  /** Positions make sense. */
  ghost predicate PcOk(s: State, x: nat)
    requires Shape(s) && x < |s.proc|
  {
    match s.proc[x].pc
    case Parked(next) => RestOk(s, x, next)
    case Resume(next) => RestOk(s, x, next)
    case Yield1(next) => RestOk(s, x, next)
    case Relock(ch) => ChanOk(s, x, ch)
    case Check(ch) => ChanOk(s, x, ch)
    case Sleep1(ch) => ChanOk(s, x, ch)
    case Sleep2(ch) => ChanOk(s, x, ch)
    case Look(i, _) => i < |s.proc| && i != x && s.proc[i].parent == Some(x)
    case Wake(ch, i, next) =>
      if ch.Lk? then ch.k < |s.slk| && next == Unlock(SLock(ch.k))
      else ch.Kid? && x != 0 && ((next.Reparent? && ch == Kid(0)) || (next.Exit1? && s.proc[x].parent == Some(ch.p)))
    case Unlock(l) => LockIn(s, l)
    case Reparent(_) => x != 0
    case Exit1 => x != 0
    case Exit2 => x != 0
    case Fork1(np) => Embryo(s, np, x, None)
    case Fork2(np) => Embryo(s, np, x, None)
    case Fork3(np) => Embryo(s, np, x, Some(x))
    case _ => true
  }

  /** The slot a fork is filling. */
  function ForkOf(pc: Pc): Option<nat> {
    match pc
    case Fork1(np) => Some(np)
    case Parked(next) => RestFork(next)
    case Resume(next) => RestFork(next)
    case Yield1(next) => RestFork(next)
    case _ => RestFork(pc)
  }

  function RestFork(pc: Pc): Option<nat> { if pc.Fork2? || pc.Fork3? then Some(pc.np) else None }

  /** No slot is filled by two forks. */
  ghost predicate Forks(s: State) {
    forall x, y :: 0 <= x < y < |s.proc| && ForkOf(s.proc[x].pc).Some? ==> ForkOf(s.proc[x].pc) != ForkOf(s.proc[y].pc)
  }

  /** State and position agree. */
  ghost predicate StateOk(x: Proc) {
    && (match x.pc
        case Fresh => x.state.UNUSED? || x.state.USED? || x.state.RUNNABLE?
        case Parked(next) => x.state.RUNNABLE? || (x.state.SLEEPING? && next == Relock(x.chan))
        case Yield1(_) => x.state.RUNNABLE?
        case Exit2 => x.state.ZOMBIE?
        case Exit3 => x.state.ZOMBIE?
        case Dead => x.state.ZOMBIE?
        case _ => x.state.RUNNING?)
    && (x.state.UNUSED? ==> x.parent.None?)
    && x.exits == x.reaps + (if x.state.ZOMBIE? then 1 else 0)
  }

  /** A CPU's current process: while it runs, and until the scheduler has let go of its lock. */
  function Cur(s: State, c: nat): Option<nat>
    requires c < |s.cpu|
  { if s.cpu[c].Sched? then None else Some(s.cpu[c].p) }

  ghost predicate CpuOk(s: State)
    requires Shape(s)
  {
    && (forall c :: 0 <= c < |s.cpu| && s.cpu[c].Running? ==> s.cpu[c].p < |s.proc| && Active(s.proc[s.cpu[c].p].pc))
    && (forall c :: 0 <= c < |s.cpu| && s.cpu[c].After? ==>
          s.cpu[c].p < |s.proc| && s.plock[s.cpu[c].p] == Cpu(c) && !Active(s.proc[s.cpu[c].p].pc))
    && (forall x ::
          0 <= x < |s.proc| && Active(s.proc[x].pc) ==> exists c :: 0 <= c < |s.cpu| && s.cpu[c] == Running(x))
  }

  /** No two CPUs have the same current process. */
  ghost predicate OneCpu(s: State) {
    forall c: nat, d: nat :: c < |s.cpu| && d < |s.cpu| && c != d && Cur(s, c).Some? ==> Cur(s, c) != Cur(s, d)
  }

  ghost predicate Threads(s: State)
    requires Shape(s)
  { forall x :: 0 <= x < |s.proc| ==> PcOk(s, x) && StateOk(s.proc[x]) }

  ghost predicate Inv1(s: State) {
    Shape(s) && SlotLocks(s) && CondLocks(s) && Threads(s) && Forks(s) && CpuOk(s) && OneCpu(s)
  }

  predicate Alive(st: PState) { st.SLEEPING? || st.RUNNABLE? || st.RUNNING? }

  /** How many slots an exiting thread has gone through, giving its children to init. */
  function Adopted(pc: Pc, n: nat): nat {
    match pc
    case Reparent(i) => i
    case Wake(_, _, Reparent(i)) => i
    case Wake(_, _, Exit1) => n
    case Exit1 => n
    case _ => 0
  }

  /** Init lives for ever and has no parent, parents are alive, and an exiting process is leaving no
      child behind. */
  ghost predicate Family(s: State)
    requires Shape(s)
  {
    && Alive(s.proc[0].state) && s.proc[0].parent.None?
    && (forall q :: 0 <= q < |s.proc| && s.proc[q].parent.Some? ==>
          && s.proc[q].parent.value < |s.proc| && s.proc[q].parent.value != q
          && Alive(s.proc[s.proc[q].parent.value].state))
    && (forall x, j ::
          0 <= x < |s.proc| && 0 <= j < |s.proc| && j < Adopted(s.proc[x].pc, |s.proc|) ==> s.proc[j].parent != Some(x))
  }

  ghost predicate Inv2(s: State) { Inv1(s) && Family(s) }

  // ---------- moving one thread ----------

  /** Thread p moves; only slot lock q changes, between nobody, p and a CPU. */
  ghost predicate SlotMove(s: State, s': State, p: nat, q: nat)
    requires Shape(s) && Shape(s')
  {
    && |s'.proc| == |s.proc| && |s'.cpu| == |s.cpu| && p < |s.proc| && q < |s.proc|
    && (forall x ::
          0 <= x < |s.proc| && x != p ==> forall r :: HoldsSlot(s'.proc[x].pc, x, r) <==> HoldsSlot(s.proc[x].pc, x, r))
    && (forall r ::
          0 <= r < |s.proc| && r != q ==>
            s'.plock[r] == s.plock[r] && (HoldsSlot(s'.proc[p].pc, p, r) <==> HoldsSlot(s.proc[p].pc, p, r)))
    && (s.plock[q].Thread? ==> s.plock[q].x == p) && (s'.plock[q].Thread? ==> s'.plock[q].x == p)
    && (s'.plock[q] == Thread(p) <==> HoldsSlot(s'.proc[p].pc, p, q))
    && (forall r ::
          0 <= r < |s.proc| && s'.plock[r].Cpu? ==> s'.plock[r].c < |s'.cpu| && s'.cpu[s'.plock[r].c] == After(r))
  }

  lemma SlotMoved(s: State, s': State, p: nat, q: nat)
    requires Shape(s) && Shape(s') && SlotLocks(s) && SlotMove(s, s', p, q)
    ensures SlotLocks(s')
  {
    hide HoldsSlot;
    forall r, x | 0 <= r < |s.proc| && 0 <= x < |s.proc|
      ensures s'.plock[r] == Thread(x) <==> HoldsSlot(s'.proc[x].pc, x, r) {
      assert s.plock[r] == Thread(x) <==> HoldsSlot(s.proc[x].pc, x, r);
    }
  }

  ghost predicate CondMove(s: State, s': State, p: nat, l: Lock)
    requires Shape(s) && Shape(s')
  {
    && |s'.proc| == |s.proc| && |s'.slk| == |s.slk| && p < |s.proc| && LockIn(s, l)
    && (forall x ::
          0 <= x < |s.proc| && x != p ==> forall m :: HoldsLock(s'.proc[x].pc, m) <==> HoldsLock(s.proc[x].pc, m))
    && (forall m ::
          LockIn(s, m) && m != l ==>
            Holder(s', m) == Holder(s, m) && (HoldsLock(s'.proc[p].pc, m) <==> HoldsLock(s.proc[p].pc, m)))
    && (Holder(s, l).Some? ==> Holder(s, l).value == p) && (Holder(s', l).Some? ==> Holder(s', l).value == p)
    && (Holder(s', l) == Some(p) <==> HoldsLock(s'.proc[p].pc, l))
  }

  lemma CondMoved(s: State, s': State, p: nat, l: Lock)
    requires Shape(s) && Shape(s') && CondLocks(s) && CondMove(s, s', p, l)
    ensures CondLocks(s')
  {
    hide HoldsLock;
    forall m, x | LockIn(s', m) && 0 <= x < |s.proc| ensures Holder(s', m) == Some(x) <==> HoldsLock(s'.proc[x].pc, m) {
      assert LockIn(s, m);
      assert Holder(s, m) == Some(x) <==> HoldsLock(s.proc[x].pc, m);
    }
    forall m | LockIn(s', m) && Holder(s', m).Some? ensures Holder(s', m).value < |s.proc| { assert LockIn(s, m); }
  }

  /** No lock held by threads changes. */
  lemma SlotKept(s: State, s': State)
    requires Shape(s) && Shape(s') && SlotLocks(s) && |s'.proc| == |s.proc| && s'.plock == s.plock && s'.cpu == s.cpu
    requires forall x, r :: 0 <= x < |s.proc| ==> (HoldsSlot(s'.proc[x].pc, x, r) <==> HoldsSlot(s.proc[x].pc, x, r))
    ensures SlotLocks(s')
  {
    hide HoldsSlot;
    forall r, x | 0 <= r < |s.proc| && 0 <= x < |s.proc|
      ensures s'.plock[r] == Thread(x) <==> HoldsSlot(s'.proc[x].pc, x, r) {
      assert s.plock[r] == Thread(x) <==> HoldsSlot(s.proc[x].pc, x, r);
    }
  }

  lemma CondKept(s: State, s': State)
    requires Shape(s) && Shape(s') && CondLocks(s) && |s'.proc| == |s.proc| && s'.wait == s.wait && s'.slk == s.slk
    requires forall x, m :: 0 <= x < |s.proc| ==> (HoldsLock(s'.proc[x].pc, m) <==> HoldsLock(s.proc[x].pc, m))
    ensures CondLocks(s')
  {
    hide HoldsLock;
    forall m, x | LockIn(s', m) && 0 <= x < |s.proc| ensures Holder(s', m) == Some(x) <==> HoldsLock(s'.proc[x].pc, m) {
      assert LockIn(s, m);
      assert Holder(s, m) == Some(x) <==> HoldsLock(s.proc[x].pc, m);
    }
    forall m | LockIn(s', m) && Holder(s', m).Some? ensures Holder(s', m).value < |s.proc| { assert LockIn(s, m); }
  }

  /** The same threads stay on the same CPUs. */
  lemma CpuKept(s: State, s': State)
    requires Shape(s) && Shape(s') && CpuOk(s) && OneCpu(s) && |s'.proc| == |s.proc| && s'.cpu == s.cpu
    requires forall x :: 0 <= x < |s.proc| ==> Active(s'.proc[x].pc) == Active(s.proc[x].pc)
    requires forall x :: 0 <= x < |s.proc| && s.plock[x].Cpu? ==> s'.plock[x] == s.plock[x]
    ensures CpuOk(s') && OneCpu(s')
  {
    forall x | 0 <= x < |s.proc| && Active(s'.proc[x].pc)
      ensures exists c :: 0 <= c < |s'.cpu| && s'.cpu[c] == Running(x) {
      var c :| 0 <= c < |s.cpu| && s.cpu[c] == Running(x);
    }
    forall c: nat, d: nat | c < |s'.cpu| && d < |s'.cpu| && c != d && Cur(s', c).Some?
      ensures Cur(s', c) != Cur(s', d) {
      assert Cur(s, c) != Cur(s, d);
    }
  }

  /** A thread's position still makes sense if what it refers to is as before. */
  lemma PcFrame(s: State, s': State, x: nat)
    requires Shape(s) && Shape(s') && |s'.proc| == |s.proc| && |s'.slk| == |s.slk| && x < |s.proc| && PcOk(s, x)
    requires s'.proc[x].pc == s.proc[x].pc
    requires (s.proc[x].pc.Wake? && s.proc[x].pc.next.Exit1? ==> s'.proc[x].parent == s.proc[x].parent)
    requires var f := ForkOf(s.proc[x].pc);
             f.Some? && f.value < |s.proc| ==>
               s'.proc[f.value].state == s.proc[f.value].state && s'.proc[f.value].parent == s.proc[f.value].parent
    requires s.proc[x].pc.Look? && s.proc[x].pc.i < |s.proc| ==>
               s'.proc[s.proc[x].pc.i].parent == s.proc[s.proc[x].pc.i].parent
    ensures PcOk(s', x)
  {}

  /** The forks in progress are the same, or p's has ended. */
  lemma ForksKept(s: State, s': State, p: nat)
    requires Forks(s) && |s'.proc| == |s.proc|
    requires forall x ::
               0 <= x < |s.proc| && x != p ==>
                 ForkOf(s'.proc[x].pc) == ForkOf(s.proc[x].pc) || ForkOf(s'.proc[x].pc).None?
    requires p < |s.proc| ==> ForkOf(s'.proc[p].pc) == ForkOf(s.proc[p].pc) || ForkOf(s'.proc[p].pc).None?
    ensures Forks(s')
  {
    hide ForkOf;
  }

  lemma PickInv(s: State, c: nat, p: nat, s': State)
    requires Inv1(s) && Pick(s, c, p, s')
    ensures Inv1(s')
  {
    hide CpuOk, OneCpu;
    assert PcOk(s, p) && StateOk(s.proc[p]);
    assert !HoldsSlot(s.proc[p].pc, p, p);
    SlotMoved(s, s', p, p);
    CondKept(s, s');
    forall x | 0 <= x < |s.proc| ensures PcOk(s', x) && StateOk(s'.proc[x]) {
      assert PcOk(s, x) && StateOk(s.proc[x]);
      if x != p { ForkUsed(s, x); PcFrame(s, s', x); }
      else if s.proc[p].pc.Parked? { RestFrame(s, s', p, s.proc[p].pc.next); }
    }
    ForksKept(s, s', p);
    PickCpu(s, c, p, s');
  }

  lemma ForkUsed(s: State, x: nat)
    requires Shape(s) && x < |s.proc| && PcOk(s, x)
    ensures ForkOf(s.proc[x].pc).Some? ==>
              var np := ForkOf(s.proc[x].pc).value; np < |s.proc| && np != x && s.proc[np].state.USED?
  {}

  lemma RestFrame(s: State, s': State, x: nat, pc: Pc)
    requires Shape(s) && Shape(s') && |s'.proc| == |s.proc| && |s'.slk| == |s.slk| && x < |s.proc| && RestOk(s, x, pc)
    requires forall y :: 0 <= y < |s.proc| && y != x ==> s'.proc[y] == s.proc[y]
    ensures RestOk(s', x, pc)
  {}

  lemma PickCpu(s: State, c: nat, p: nat, s': State)
    requires Shape(s) && CpuOk(s) && OneCpu(s) && Pick(s, c, p, s')
    ensures CpuOk(s') && OneCpu(s')
  {
    assert forall d :: 0 <= d < |s.cpu| && d != c ==> s.cpu[d] != Running(p) && s.cpu[d] != After(p);
    assert s'.cpu[c] == Running(p);
    forall x | 0 <= x < |s.proc| && Active(s'.proc[x].pc)
      ensures exists d :: 0 <= d < |s'.cpu| && s'.cpu[d] == Running(x) {
      if x != p {
        var d :| 0 <= d < |s.cpu| && s.cpu[d] == Running(x);
        assert s'.cpu[d] == Running(x);
      }
    }
    forall d: nat, e: nat | d < |s'.cpu| && e < |s'.cpu| && d != e && Cur(s', d).Some?
      ensures Cur(s', d) != Cur(s', e) {
      assert Cur(s, d).Some? ==> Cur(s, d) != Cur(s, e);
    }
  }

  lemma PutInv(s: State, c: nat, s': State)
    requires Inv1(s) && Put(s, c, s')
    ensures Inv1(s')
  {
    var p := s.cpu[c].p;
    assert s.plock[p] == Cpu(c);
    forall x | 0 <= x < |s.proc| ensures PcOk(s', x) { assert PcOk(s, x); PcFrame(s, s', x); }
    hide PcOk, StateOk, HoldsLock;
    CondKept(s, s');
    hide CondLocks;
    forall d | 0 <= d < |s.cpu| && d != c ensures Cur(s, d) != Some(p) { assert Cur(s, c) != Cur(s, d); }
    assert SlotLocks(s') by { hide HoldsSlot; SlotPut(s, c, p, s'); }
    assert CpuOk(s') && OneCpu(s') by { PutCpu(s, c, p, s'); }
  }

  lemma SlotPut(s: State, c: nat, p: nat, s': State)
    requires Shape(s) && SlotLocks(s) && c < |s.cpu| && p < |s.proc| && s.plock[p] == Cpu(c) && s.cpu[c] == After(p)
    requires s' == s.(plock := s.plock[p := NoOne], cpu := s.cpu[c := Sched])
    ensures SlotLocks(s')
  {
    hide HoldsSlot;
    forall r, x | 0 <= r < |s.proc| && 0 <= x < |s.proc|
      ensures s'.plock[r] == Thread(x) <==> HoldsSlot(s'.proc[x].pc, x, r) {
      assert s.plock[r] == Thread(x) <==> HoldsSlot(s.proc[x].pc, x, r);
    }
  }

  lemma PutCpu(s: State, c: nat, p: nat, s': State)
    requires Shape(s) && CpuOk(s) && OneCpu(s) && c < |s.cpu| && p < |s.proc| && s.plock[p] == Cpu(c)
    requires s.cpu[c] == After(p)
    requires s' == s.(plock := s.plock[p := NoOne], cpu := s.cpu[c := Sched])
    requires forall d :: 0 <= d < |s.cpu| && d != c ==> Cur(s, d) != Some(p)
    ensures CpuOk(s') && OneCpu(s')
  {
    forall x | 0 <= x < |s.proc| && Active(s'.proc[x].pc)
      ensures exists d :: 0 <= d < |s'.cpu| && s'.cpu[d] == Running(x) {
      var d :| 0 <= d < |s.cpu| && s.cpu[d] == Running(x);
      assert s'.cpu[d] == Running(x);
    }
    forall d: nat | d < |s.cpu| && d != c && s.cpu[d].After? ensures s.cpu[d].p != p { assert Cur(s, d) != Some(p); }
    forall d: nat, e: nat | d < |s'.cpu| && e < |s'.cpu| && d != e && Cur(s', d).Some?
      ensures Cur(s', d) != Cur(s', e) {
      assert Cur(s, d) != Cur(s, e);
    }
  }

  /** Only thread p's own record, and locks, change. */
  ghost predicate OwnStep(s: State, s': State, p: nat)
    requires Shape(s)
  {
    && Shape(s') && p < |s.proc| && |s'.proc| == |s.proc| && |s'.slk| == |s.slk|
    && s'.proc == s.proc[p := s'.proc[p]] && s'.proc[p].parent == s.proc[p].parent && !s.proc[p].state.USED?
    && (ForkOf(s'.proc[p].pc) == ForkOf(s.proc[p].pc) || ForkOf(s'.proc[p].pc).None?)
  }

  lemma OwnThreads(s: State, s': State, p: nat)
    requires Shape(s) && Threads(s) && Forks(s) && OwnStep(s, s', p) && PcOk(s', p) && StateOk(s'.proc[p])
    ensures Threads(s') && Forks(s')
  {
    ForksKept(s, s', p);
    forall x | 0 <= x < |s.proc| && x != p ensures PcOk(s', x) && StateOk(s'.proc[x]) {
      assert PcOk(s, x) && StateOk(s.proc[x]);
      ForkUsed(s, x);
      PcFrame(s, s', x);
    }
  }

  /** Thread p stays on its CPU. */
  lemma OwnInv(s: State, s': State, p: nat)
    requires Inv1(s) && OwnStep(s, s', p) && PcOk(s', p) && StateOk(s'.proc[p]) && SlotLocks(s') && CondLocks(s')
    requires s'.cpu == s.cpu && Active(s.proc[p].pc) && Active(s'.proc[p].pc)
    requires forall x :: 0 <= x < |s.proc| && s.plock[x].Cpu? ==> s'.plock[x] == s.plock[x]
    ensures Inv1(s')
  {
    OwnThreads(s, s', p);
    hide Threads, Forks, SlotLocks, CondLocks, PcOk, StateOk;
    CpuKept(s, s');
  }

  /** No lock changes hands. */
  lemma StayInv(s: State, s': State, p: nat)
    requires Inv1(s) && OwnStep(s, s', p) && PcOk(s', p) && StateOk(s'.proc[p]) && s'.plock == s.plock
    requires s'.wait == s.wait && s'.slk == s.slk
    requires s'.cpu == s.cpu && Active(s.proc[p].pc) && Active(s'.proc[p].pc)
    requires forall q :: HoldsSlot(s'.proc[p].pc, p, q) <==> HoldsSlot(s.proc[p].pc, p, q)
    requires forall l :: HoldsLock(s'.proc[p].pc, l) <==> HoldsLock(s.proc[p].pc, l)
    ensures Inv1(s')
  {
    hide HoldsSlot, HoldsLock, PcOk, StateOk;
    SlotKept(s, s');
    CondKept(s, s');
    OwnInv(s, s', p);
  }

  /** Slot lock q changes hands. */
  lemma SlotInv(s: State, s': State, p: nat, q: nat)
    requires Inv1(s) && OwnStep(s, s', p) && PcOk(s', p) && StateOk(s'.proc[p]) && SlotMove(s, s', p, q)
    requires s'.wait == s.wait && s'.slk == s.slk
    requires s'.cpu == s.cpu && Active(s.proc[p].pc) && Active(s'.proc[p].pc) && !s.plock[q].Cpu?
    requires forall l :: HoldsLock(s'.proc[p].pc, l) <==> HoldsLock(s.proc[p].pc, l)
    ensures Inv1(s')
  {
    hide HoldsSlot, HoldsLock, PcOk, StateOk;
    SlotMoved(s, s', p, q);
    CondKept(s, s');
    OwnInv(s, s', p);
  }

  /** Condition lock l changes hands. */
  lemma CondInv(s: State, s': State, p: nat, l: Lock)
    requires Inv1(s) && OwnStep(s, s', p) && PcOk(s', p) && StateOk(s'.proc[p]) && CondMove(s, s', p, l)
    requires s'.plock == s.plock
    requires s'.cpu == s.cpu && Active(s.proc[p].pc) && Active(s'.proc[p].pc)
    requires forall q :: HoldsSlot(s'.proc[p].pc, p, q) <==> HoldsSlot(s.proc[p].pc, p, q)
    ensures Inv1(s')
  {
    hide HoldsSlot, HoldsLock, PcOk, StateOk;
    SlotKept(s, s');
    CondMoved(s, s', p, l);
    OwnInv(s, s', p);
  }

  /** Thread p leaves its CPU, its lock passing to the scheduler there. */
  lemma SwitchInv(s: State, s': State, c: nat, p: nat)
    requires Inv1(s) && c < |s.cpu| && s.cpu[c] == Running(p) && OwnStep(s, s', p) && PcOk(s', p) && StateOk(s'.proc[p])
    requires s'.wait == s.wait && s'.slk == s.slk
    requires s.plock[p] == Thread(p) && s'.plock == s.plock[p := Cpu(c)] && s'.cpu == s.cpu[c := After(p)]
    requires !Active(s'.proc[p].pc)
    requires forall q :: !HoldsSlot(s'.proc[p].pc, p, q)
    requires forall q :: 0 <= q < |s.proc| && q != p ==> !HoldsSlot(s.proc[p].pc, p, q)
    requires forall l :: !HoldsLock(s'.proc[p].pc, l) && !HoldsLock(s.proc[p].pc, l)
    ensures Inv1(s')
  {
    hide HoldsSlot, HoldsLock, PcOk, StateOk;
    OwnThreads(s, s', p);
    SlotMoved(s, s', p, p);
    CondKept(s, s');
    hide Threads, Forks, CondLocks, SlotLocks;
    SwitchCpu(s, s', c, p);
  }

  lemma SwitchCpu(s: State, s': State, c: nat, p: nat)
    requires Shape(s) && Shape(s') && CpuOk(s) && OneCpu(s) && c < |s.cpu| && p < |s.proc| && s.cpu[c] == Running(p)
    requires |s'.proc| == |s.proc|
    requires s'.proc == s.proc[p := s'.proc[p]] && s.plock[p] == Thread(p) && s'.plock == s.plock[p := Cpu(c)]
    requires s'.cpu == s.cpu[c := After(p)] && !Active(s'.proc[p].pc)
    ensures CpuOk(s') && OneCpu(s')
  {
    forall d: nat | d < |s.cpu| && d != c ensures Cur(s, d) != Some(p) { assert Cur(s, c) != Cur(s, d); }
    forall x | 0 <= x < |s.proc| && Active(s'.proc[x].pc)
      ensures exists d :: 0 <= d < |s'.cpu| && s'.cpu[d] == Running(x) {
      var d :| 0 <= d < |s.cpu| && s.cpu[d] == Running(x);
      assert s'.cpu[d] == Running(x);
    }
    forall d: nat, e: nat | d < |s'.cpu| && e < |s'.cpu| && d != e && Cur(s', d).Some?
      ensures Cur(s', d) != Cur(s', e) {
      assert Cur(s, d) != Cur(s, e);
    }
    forall d: nat | d < |s.cpu| && d != c && s.cpu[d].After? ensures s.cpu[d].p != p { assert Cur(s, d) != Some(p); }
    forall d: nat | d < |s.cpu| && d != c && s.cpu[d].Running? ensures s.cpu[d].p != p { assert Cur(s, d) != Some(p); }
  }

  // ---------- each step ----------

  /** A thread with a position is running, unless it is giving its CPU up. */
  lemma OnCpu(s: State, c: nat)
    requires Inv1(s) && c < |s.cpu| && s.cpu[c].Running?
    ensures var p := s.cpu[c].p;
            p < |s.proc| && Active(s.proc[p].pc) && PcOk(s, p) && StateOk(s.proc[p]) && !s.proc[p].state.USED?
    ensures var p := s.cpu[c].p; s.plock[p] == Thread(p) <==> HoldsSlot(s.proc[p].pc, p, p)
  {}

  lemma HeldBy(s: State, p: nat, l: Lock)
    requires Inv1(s) && p < |s.proc| && LockIn(s, l)
    ensures Holder(s, l) == Some(p) <==> HoldsLock(s.proc[p].pc, l)
  {}

  lemma SlotHeldBy(s: State, p: nat, q: nat)
    requires Inv1(s) && p < |s.proc| && q < |s.proc|
    ensures s.plock[q] == Thread(p) <==> HoldsSlot(s.proc[p].pc, p, q)
    ensures s.plock[q].Cpu? ==> s.plock[q].c < |s.cpu| && s.cpu[s.plock[q].c] == After(q)
  {}

  lemma PreemptInv(s: State, c: nat, s': State)
    requires Inv1(s) && c < |s.cpu| && s.cpu[c].Running? && s.cpu[c].p < |s.proc| && Preempt(s, s.cpu[c].p, s')
    ensures Inv1(s')
  {
    OnCpu(s, c);
    var p := s.cpu[c].p;
    assert forall r: nat ::
             r < |s.proc| ==> (s.plock[r].Cpu? ==> s.plock[r].c < |s.cpu| && s.cpu[s.plock[r].c] == After(r));
    hide SlotLocks, CondLocks, Threads, Forks, CpuOk, OneCpu;
    RestFrame(s, s', p, s.proc[p].pc);
    SlotInv(s, s', p, p);
  }

  lemma CpuLocks(s: State)
    requires Inv1(s)
    ensures forall r: nat ::
              r < |s.proc| && s.plock[r].Cpu? ==> s.plock[r].c < |s.cpu| && s.cpu[s.plock[r].c] == After(r)
  {}

  lemma ResumeInv(s: State, c: nat, s': State)
    requires Inv1(s) && c < |s.cpu| && s.cpu[c].Running? && s.cpu[c].p < |s.proc| && s.proc[s.cpu[c].p].pc.Resume?
    requires Go(s, c, s.cpu[c].p, s')
    ensures Inv1(s')
  {
    hide GoCond, GoCheck, GoWake, GoExit, GoFork;
    OnCpu(s, c);
    CpuLocks(s);
    var p := s.cpu[c].p;
    hide SlotLocks, CondLocks, Threads, Forks, CpuOk, OneCpu;
    RestFrame(s, s', p, s.proc[p].pc.next);
    SlotInv(s, s', p, p);
  }

  lemma LeaveInv(s: State, c: nat, s': State)
    requires Inv1(s) && c < |s.cpu| && s.cpu[c].Running? && s.cpu[c].p < |s.proc|
    requires var pc := s.proc[s.cpu[c].p].pc; pc.Yield1? || pc.Sleep2? || pc.Exit3?
    requires Go(s, c, s.cpu[c].p, s')
    ensures Inv1(s')
  {
    hide GoCond, GoCheck, GoWake, GoExit, GoFork;
    OnCpu(s, c);
    var p := s.cpu[c].p;
    hide SlotLocks, CondLocks, Threads, Forks, CpuOk, OneCpu;
    if s.proc[p].pc.Yield1? { RestFrame(s, s', p, s.proc[p].pc.next); }
    SwitchInv(s, s', c, p);
  }

  /** Thread p takes or releases condition lock l and goes on to pc. */
  lemma CondGoto(s: State, p: nat, l: Lock, o: Option<nat>, pc: Pc)
    requires Inv1(s) && p < |s.proc| && LockIn(s, l) && Active(s.proc[p].pc) && Active(pc) && !s.proc[p].state.USED?
    requires o == (if HoldsLock(pc, l) then Some(p) else None) && (Holder(s, l).None? || Holder(s, l) == Some(p))
    requires forall m :: m != l ==> (HoldsLock(pc, m) <==> HoldsLock(s.proc[p].pc, m))
    requires forall q :: HoldsSlot(pc, p, q) <==> HoldsSlot(s.proc[p].pc, p, q)
    requires ForkOf(pc) == ForkOf(s.proc[p].pc) || ForkOf(pc).None?
    requires PcOk(Goto(SetHolder(s, l, o), p, pc), p) && StateOk(s.proc[p].(pc := pc))
    ensures Inv1(Goto(SetHolder(s, l, o), p, pc))
  {
    hide SlotLocks, CondLocks, Threads, Forks, CpuOk, OneCpu, HoldsLock, HoldsSlot, PcOk, StateOk, ForkOf, Active;
    CondInv(s, Goto(SetHolder(s, l, o), p, pc), p, l);
  }

  lemma RelockInv(s: State, c: nat, s': State)
    requires Inv1(s) && c < |s.cpu| && s.cpu[c].Running? && s.cpu[c].p < |s.proc| && s.proc[s.cpu[c].p].pc.Relock?
    requires Go(s, c, s.cpu[c].p, s')
    ensures Inv1(s')
  {
    hide GoSwitch, GoCheck, GoWake, GoExit, GoFork;
    OnCpu(s, c);
    hide SlotLocks, CondLocks, Threads, Forks, CpuOk, OneCpu;
    var p := s.cpu[c].p;
    CondGoto(s, p, LockOf(s.proc[p].pc.ch), Some(p), Check(s.proc[p].pc.ch));
  }

  lemma UnlockInv(s: State, c: nat, s': State)
    requires Inv1(s) && c < |s.cpu| && s.cpu[c].Running? && s.cpu[c].p < |s.proc| && Go(s, c, s.cpu[c].p, s')
    requires s.proc[s.cpu[c].p].pc.Sleep1? || s.proc[s.cpu[c].p].pc.Unlock? || s.proc[s.cpu[c].p].pc.Exit2?
    ensures Inv1(s')
  {
    hide GoSwitch, GoCheck, GoWake, GoExit, GoFork;
    OnCpu(s, c);
    var p := s.cpu[c].p;
    var pc := s.proc[p].pc;
    var l := if pc.Unlock? then pc.l else if pc.Exit2? then WaitLock else LockOf(pc.ch);
    HeldBy(s, p, l);
    hide SlotLocks, CondLocks, Threads, Forks, CpuOk, OneCpu;
    CondGoto(s, p, l, None, if pc.Unlock? then Idle else if pc.Exit2? then Exit3 else Sleep2(pc.ch));
  }

  /** Thread p takes or releases slot lock q and goes on to pc. */
  lemma SlotGoto(s: State, p: nat, q: nat, o: Owner, pc: Pc, s': State)
    requires Inv1(s) && p < |s.proc| && q < |s.proc| && Active(s.proc[p].pc) && Active(pc) && !s.proc[p].state.USED?
    requires o == (if HoldsSlot(pc, p, q) then Thread(p) else NoOne) && (s.plock[q].NoOne? || s.plock[q] == Thread(p))
    requires forall r :: r != q ==> (HoldsSlot(pc, p, r) <==> HoldsSlot(s.proc[p].pc, p, r))
    requires forall l :: HoldsLock(pc, l) <==> HoldsLock(s.proc[p].pc, l)
    requires ForkOf(pc) == ForkOf(s.proc[p].pc) || ForkOf(pc).None?
    requires p < |s'.proc| && s'.proc == s.proc[p := s'.proc[p]] && s' == s.(proc := s'.proc, plock := s.plock[q := o])
    requires s'.proc[p].pc == pc && s'.proc[p].parent == s.proc[p].parent
    requires PcOk(s', p) && StateOk(s'.proc[p])
    ensures Inv1(s')
  {
    CpuLocks(s);
    hide SlotLocks, CondLocks, Threads, Forks, CpuOk, OneCpu, HoldsLock, HoldsSlot, PcOk, StateOk, ForkOf, Active;
    SlotInv(s, s', p, q);
  }

  lemma TakeOwnInv(s: State, c: nat, s': State)
    requires Inv1(s) && c < |s.cpu| && s.cpu[c].Running? && s.cpu[c].p < |s.proc| && Go(s, c, s.cpu[c].p, s')
    requires var pc := s.proc[s.cpu[c].p].pc;
             || (pc.Check? && pc.ch.Lk? && !Ready(s.cell[pc.ch.k]))
             || (pc.Scan? && pc.i >= |s.proc| && s' != Goto(s, s.cpu[c].p, Unlock(WaitLock))) || pc.Exit1?
    ensures Inv1(s')
  {
    hide GoSwitch, GoCond, GoWake, GoFork;
    OnCpu(s, c);
    hide SlotLocks, CondLocks, Threads, Forks, CpuOk, OneCpu;
    var p := s.cpu[c].p;
    var pc := s.proc[p].pc;
    SlotGoto(s, p, p, Thread(p), if pc.Check? then Sleep1(pc.ch) else if pc.Scan? then Sleep1(Kid(p)) else Exit2, s');
  }

  lemma LookInv(s: State, c: nat, s': State)
    requires Inv2(s) && c < |s.cpu| && s.cpu[c].Running? && s.cpu[c].p < |s.proc| && Go(s, c, s.cpu[c].p, s')
    requires var pc := s.proc[s.cpu[c].p].pc; pc.Scan? && pc.i < |s.proc| && s.proc[pc.i].parent == Some(s.cpu[c].p)
    ensures Inv1(s')
  {
    hide GoSwitch, GoCond, GoWake, GoExit, GoFork;
    hide SlotLocks, CondLocks, Threads, Forks, CpuOk, OneCpu, Family;
    OnCpu(s, c);
    var p := s.cpu[c].p;
    var i := s.proc[p].pc.i;
    NotOwnParent(s, i);
    SlotGoto(s, p, i, Thread(p), Look(i, s.proc[p].pc.kids), s');
  }

  lemma NotOwnParent(s: State, q: nat)
    requires Inv2(s) && q < |s.proc|
    ensures s.proc[q].parent != Some(q)
  {}

  lemma DropOtherInv(s: State, c: nat, s': State)
    requires Inv1(s) && c < |s.cpu| && s.cpu[c].Running? && s.cpu[c].p < |s.proc|
    requires var p := s.cpu[c].p; var pc := s.proc[p].pc;
             || (&& pc.Look? && pc.i < |s.proc|
                 && (|| s' == Goto(SetLock(s, pc.i, NoOne), p, Unlock(WaitLock))
                     || s' == Goto(SetLock(s, pc.i, NoOne), p, Scan(pc.i + 1, true))))
             || (pc.Fork1? && pc.np < |s.proc| && s' == Goto(SetLock(s, pc.np, NoOne), p, Fork2(pc.np)))
    ensures Inv1(s')
  {
    OnCpu(s, c);
    var p := s.cpu[c].p;
    var pc := s.proc[p].pc;
    SlotHeldBy(s, p, if pc.Look? then pc.i else pc.np);
    hide SlotLocks, CondLocks, Threads, Forks, CpuOk, OneCpu;
    SlotGoto(s, p, if pc.Look? then pc.i else pc.np, NoOne, s'.proc[p].pc, s');
  }

  /** Thread p goes on to pc, holding what it held. */
  lemma StayGoto(s: State, p: nat, pc: Pc, s': State)
    requires Inv1(s) && p < |s.proc| && Active(s.proc[p].pc) && Active(pc) && !s.proc[p].state.USED?
    requires forall r :: HoldsSlot(pc, p, r) <==> HoldsSlot(s.proc[p].pc, p, r)
    requires forall l :: HoldsLock(pc, l) <==> HoldsLock(s.proc[p].pc, l)
    requires ForkOf(pc) == ForkOf(s.proc[p].pc) || ForkOf(pc).None?
    requires |s'.cell| == |s.cell| && s' == Goto(s, p, pc).(cell := s'.cell) && PcOk(s', p) && StateOk(s'.proc[p])
    ensures Inv1(s')
  {
    hide SlotLocks, CondLocks, Threads, Forks, CpuOk, OneCpu, HoldsLock, HoldsSlot, PcOk, StateOk, ForkOf, Active;
    StayInv(s, s', p);
  }

  lemma StayStepInv(s: State, c: nat, s': State)
    requires Inv1(s) && c < |s.cpu| && s.cpu[c].Running? && s.cpu[c].p < |s.proc| && Go(s, c, s.cpu[c].p, s')
    requires var p := s.cpu[c].p; var pc := s.proc[p].pc;
             || (pc.Check? && (pc.ch.Lk? ==> Ready(s.cell[pc.ch.k])))
             || (pc.Scan? && pc.i < |s.proc| && s.proc[pc.i].parent != Some(p))
             || (pc.Scan? && pc.i >= |s.proc| && s' == Goto(s, p, Unlock(WaitLock)))
             || (&& pc.Wake?
                 && (pc.i >= |s.proc| || pc.i == p || !(s.proc[pc.i].state.SLEEPING? && s.proc[pc.i].chan == pc.ch)))
             || (pc.Reparent? && (pc.i >= |s.proc| || s.proc[pc.i].parent != Some(p)))
    ensures Inv1(s')
  {
    hide GoSwitch, GoCond, GoFork, SlotLocks, CondLocks, Threads, Forks, CpuOk, OneCpu;
    OnCpu(s, c);
    var p := s.cpu[c].p;
    StayGoto(s, p, s'.proc[p].pc, s');
  }

  /** Thread p moves and slot q, another one, changes too. */
  ghost predicate OtherStep(s: State, s': State, p: nat, q: nat)
    requires Shape(s)
  {
    && Shape(s') && p < |s.proc| && q < |s.proc| && q != p && |s'.proc| == |s.proc| && |s'.slk| == |s.slk|
    && s'.proc == s.proc[q := s'.proc[q]][p := s'.proc[p]] && s'.proc[p].parent == s.proc[p].parent
    && !s.proc[p].state.USED?
    && (ForkOf(s'.proc[q].pc) == ForkOf(s.proc[q].pc) || ForkOf(s'.proc[q].pc).None?)
    && (forall x ::
          0 <= x < |s.proc| && x != p && x != q && ForkOf(s.proc[x].pc) == Some(q) ==>
            s'.proc[q].state == s.proc[q].state && s'.proc[q].parent == s.proc[q].parent)
    && (forall x, k ::
          0 <= x < |s.proc| && x != p && x != q && s.proc[x].pc == Look(q, k) ==> s'.proc[q].parent == s.proc[q].parent)
  }

  lemma OtherThreads(s: State, s': State, p: nat, q: nat)
    requires Shape(s) && Threads(s) && OtherStep(s, s', p, q) && PcOk(s', p) && StateOk(s'.proc[p]) && PcOk(s', q)
    requires StateOk(s'.proc[q])
    ensures Threads(s')
  {
    forall x | 0 <= x < |s.proc| && x != p && x != q ensures PcOk(s', x) && StateOk(s'.proc[x]) {
      assert PcOk(s, x) && StateOk(s.proc[x]);
      ForkUsed(s, x);
      PcFrame(s, s', x);
    }
  }

  /** Nobody but its parent, under wait_lock, looks at a slot; nobody but its fork fills it. */
  lemma OnlyLooker(s: State, x: nat, q: nat)
    requires Inv1(s) && x < |s.proc| && q < |s.proc|
    ensures s.proc[x].pc.Look? && s.proc[x].pc.i == q ==> s.wait == Some(x) && s.plock[q] == Thread(x)
    ensures s.proc[x].pc.Look? && s.proc[x].pc.i == q ==> s.proc[q].parent == Some(x)
    ensures ForkOf(s.proc[x].pc) == Some(q) ==> s.proc[q].state.USED?
  {
    assert PcOk(s, x);
    ForkUsed(s, x);
    assert HoldsLock(s.proc[x].pc, WaitLock) <==> Holder(s, WaitLock) == Some(x);
    assert s.plock[q] == Thread(x) <==> HoldsSlot(s.proc[x].pc, x, q);
  }

  /** Waking a sleeper, from wakeup or kill. */
  lemma WakeOneInv(s: State, p: nat, q: nat, pc: Pc, s': State)
    requires Inv1(s) && p < |s.proc| && q < |s.proc| && q != p && s.proc[q].state.SLEEPING? && Active(s.proc[p].pc)
    requires Active(pc) && !s.proc[p].state.USED?
    requires forall r :: HoldsSlot(pc, p, r) <==> HoldsSlot(s.proc[p].pc, p, r)
    requires forall l :: HoldsLock(pc, l) <==> HoldsLock(s.proc[p].pc, l)
    requires ForkOf(pc) == ForkOf(s.proc[p].pc) || ForkOf(pc).None?
    requires s' == Goto(SetState(s, q, RUNNABLE), p, pc) && PcOk(s', p) && StateOk(s'.proc[p])
    ensures Inv1(s')
  {
    assert PcOk(s, q) && StateOk(s.proc[q]);
    forall x: nat | x < |s.proc| ensures ForkOf(s.proc[x].pc) != Some(q) { OnlyLooker(s, x, q); }
    assert PcOk(s', q) by { RestSame(s, s', q, s.proc[q].pc.next); }
    OtherThreads(s, s', p, q);
    ForksKept(s, s', p);
    hide Threads, Forks, PcOk, StateOk, HoldsSlot, HoldsLock;
    SlotKept(s, s');
    CondKept(s, s');
    CpuKept(s, s');
  }

  lemma RestSame(s: State, s': State, x: nat, pc: Pc)
    requires Shape(s) && Shape(s') && |s'.proc| == |s.proc| && |s'.slk| == |s.slk| && x < |s.proc| && RestOk(s, x, pc)
    requires forall y ::
               0 <= y < |s.proc| && y != x ==>
                 && (s.proc[y].state.USED? ==> s'.proc[y].state == s.proc[y].state)
                 && s'.proc[y].parent == s.proc[y].parent
    ensures RestOk(s', x, pc)
  {}

  lemma WakeInv(s: State, c: nat, s': State)
    requires Inv1(s) && c < |s.cpu| && s.cpu[c].Running? && s.cpu[c].p < |s.proc| && Go(s, c, s.cpu[c].p, s')
    requires var p := s.cpu[c].p;
             var pc := s.proc[p].pc;
             pc.Wake? && pc.i < |s.proc| && pc.i != p && s.proc[pc.i].state.SLEEPING? && s.proc[pc.i].chan == pc.ch
    ensures Inv1(s')
  {
    hide GoSwitch, GoCond, GoCheck, GoExit, GoFork;
    OnCpu(s, c);
    hide SlotLocks, CondLocks, Threads, Forks, CpuOk, OneCpu;
    var p := s.cpu[c].p;
    WakeOneInv(s, p, s.proc[p].pc.i, s'.proc[p].pc, s');
  }

  /** The rest of a step in which another slot changes. */
  lemma OtherInv(s: State, s': State, p: nat, q: nat)
    requires Inv1(s) && OtherStep(s, s', p, q) && PcOk(s', p) && StateOk(s'.proc[p]) && PcOk(s', q)
    requires StateOk(s'.proc[q])
    requires SlotLocks(s') && CondLocks(s') && Forks(s') && s'.cpu == s.cpu
    requires Active(s'.proc[p].pc) == Active(s.proc[p].pc) && Active(s'.proc[q].pc) == Active(s.proc[q].pc)
    requires forall x :: 0 <= x < |s.proc| && s.plock[x].Cpu? ==> s'.plock[x] == s.plock[x]
    ensures Inv1(s')
  {
    hide Forks, SlotLocks, CondLocks, PcOk, StateOk, CpuOk, OneCpu;
    OtherThreads(s, s', p, q);
    CpuKept(s, s');
  }

  /** Only the holder of wait_lock looks at slots or counts on its parent. */
  lemma WaitAlone(s: State, p: nat, i: nat)
    requires Inv1(s) && p < |s.proc| && i < |s.proc| && HoldsLock(s.proc[p].pc, WaitLock)
    ensures s.wait == Some(p)
    ensures forall x: nat ::
              x < |s.proc| && x != p ==>
                !(s.proc[x].pc.Look? && s.proc[x].pc.i == i) && !(s.proc[x].pc.Wake? && s.proc[x].pc.next.Exit1?)
  {
    HeldBy(s, p, WaitLock);
    forall x: nat | x < |s.proc| && x != p
      ensures !(s.proc[x].pc.Look? && s.proc[x].pc.i == i) && !(s.proc[x].pc.Wake? && s.proc[x].pc.next.Exit1?) {
      HeldBy(s, x, WaitLock);
      assert PcOk(s, x);
    }
  }

  lemma AdoptOther(s: State, p: nat, i: nat, s': State)
    requires Inv1(s) && p < |s.proc| && i < |s.proc| && i != p && s.proc[i].parent == Some(p) && s.proc[p].pc.Reparent?
    requires !s.proc[p].state.USED?
    requires s' ==
               Goto(s.(proc := s.proc[i := s.proc[i].(parent := Some(0))]), p,
                    Wake(Kid(0), 0, Reparent(s.proc[p].pc.i + 1)))
    ensures OtherStep(s, s', p, i) && PcOk(s', i) && StateOk(s'.proc[i])
  {
    WaitAlone(s, p, i);
    forall x: nat | x < |s.proc| && x != p
      ensures ForkOf(s.proc[x].pc) != Some(i) { assert PcOk(s, x); ForkParent(s, x); }
    assert PcOk(s, i) && StateOk(s.proc[i]);
    ForkUsed(s, i);
    hide SlotLocks, CondLocks, Threads, Forks, CpuOk, OneCpu;
    PcFrame(s, s', i);
  }

  lemma AdoptInv(s: State, c: nat, s': State)
    requires Inv2(s) && c < |s.cpu| && s.cpu[c].Running? && s.cpu[c].p < |s.proc| && Go(s, c, s.cpu[c].p, s')
    requires var p := s.cpu[c].p;
             var pc := s.proc[p].pc; pc.Reparent? && pc.i < |s.proc| && s.proc[pc.i].parent == Some(p)
    ensures Inv1(s')
  {
    hide GoSwitch, GoCond, GoCheck, GoWake, GoFork, SlotLocks, CondLocks, Threads, Forks, CpuOk, OneCpu, Family;
    OnCpu(s, c);
    var p := s.cpu[c].p;
    var i := s.proc[p].pc.i;
    NotOwnParent(s, i);
    AdoptMove(s, p, i, s');
  }

  lemma AdoptMove(s: State, p: nat, i: nat, s': State)
    requires Inv1(s) && p < |s.proc| && i < |s.proc| && i != p && s.proc[i].parent == Some(p) && s.proc[p].pc.Reparent?
    requires PcOk(s, p) && StateOk(s.proc[p])
    requires s' ==
               Goto(s.(proc := s.proc[i := s.proc[i].(parent := Some(0))]), p,
                    Wake(Kid(0), 0, Reparent(s.proc[p].pc.i + 1)))
    ensures Inv1(s')
  {
    hide SlotLocks, CondLocks, Threads, Forks, CpuOk, OneCpu;
    AdoptOther(s, p, i, s');
    ForksKept(s, s', p);
    SlotKept(s, s');
    CondKept(s, s');
    OtherInv(s, s', p, i);
  }

  lemma ForkParent(s: State, x: nat)
    requires Shape(s) && x < |s.proc| && PcOk(s, x)
    ensures ForkOf(s.proc[x].pc).Some? ==>
              var np := ForkOf(s.proc[x].pc).value;
              np < |s.proc| && np != x && (s.proc[np].parent.None? || s.proc[np].parent == Some(x))
  {}

  /** A slot with a thread nowhere is handed back: reaped by wait, or abandoned by fork. */
  lemma FreeInv(s: State, c: nat, q: nat, reaped: nat, pc: Pc, s': State)
    requires Inv1(s) && c < |s.cpu| && s.cpu[c].Running? && s.cpu[c].p < |s.proc| && q < |s.proc|
    requires var p := s.cpu[c].p;
             q != p && s.plock[q] == Thread(p) && s' == Goto(SetLock(Freeproc(s, q, reaped), q, NoOne), p, pc)
    requires var p := s.cpu[c].p;
             || (&& s.proc[p].pc.Look? && s.proc[p].pc.i == q && s.proc[q].state.ZOMBIE? && reaped == 1
                 && pc == Unlock(WaitLock))
             || (s.proc[p].pc == Fork1(q) && reaped == 0 && pc == Idle)
    ensures Inv1(s') && !Active(s.proc[q].pc)
  {
    hide SlotLocks, CondLocks, Threads, Forks, CpuOk, OneCpu;
    OnCpu(s, c);
    CpuLocks(s);
    var p := s.cpu[c].p;
    OffCpu(s, p, q);
    OnlyMe(s, p, q);
    ThreadFacts(s, q);
    ForksKept(s, s', p);
    FreeLocks(s, p, q, reaped, pc, s');
    OtherInv(s, s', p, q);
  }

  lemma FreeLocks(s: State, p: nat, q: nat, reaped: nat, pc: Pc, s': State)
    requires Inv1(s) && p < |s.proc| && q < |s.proc| && q != p && s.plock[q] == Thread(p) && !Active(s.proc[q].pc)
    requires s' == Goto(SetLock(Freeproc(s, q, reaped), q, NoOne), p, pc)
    requires || (s.proc[p].pc.Look? && s.proc[p].pc.i == q && pc == Unlock(WaitLock))
             || (s.proc[p].pc == Fork1(q) && pc == Idle)
    ensures Shape(s') && SlotLocks(s') && CondLocks(s')
  {
    hide SlotLocks, CondLocks, Threads, Forks, CpuOk, OneCpu;
    CpuLocks(s);
    SlotMoved(s, s', p, q);
    CondKept(s, s');
  }

  /** A slot that is a zombie or still an embryo, and whose lock another thread holds, is on no CPU. */
  lemma OffCpu(s: State, p: nat, q: nat)
    requires Inv1(s) && p < |s.proc| && q < |s.proc| && q != p && s.plock[q] == Thread(p)
    requires (s.proc[q].state.ZOMBIE? || s.proc[q].state.USED?)
    ensures !Active(s.proc[q].pc) && forall c: nat :: c < |s.cpu| ==> Cur(s, c) != Some(q)
  {
    assert StateOk(s.proc[q]);
    SlotHeldBy(s, q, q);
  }

  /** No third thread looks at slot q or fills it. */
  lemma OnlyMe(s: State, p: nat, q: nat)
    requires Inv1(s) && p < |s.proc| && q < |s.proc| && s.plock[q] == Thread(p)
    requires (ForkOf(s.proc[p].pc) == Some(q) || !s.proc[q].state.USED?)
    ensures forall x: nat ::
              x < |s.proc| && x != p ==> !(s.proc[x].pc.Look? && s.proc[x].pc.i == q) && ForkOf(s.proc[x].pc) != Some(q)
  {
    forall x: nat | x < |s.proc| && x != p
      ensures !(s.proc[x].pc.Look? && s.proc[x].pc.i == q) && ForkOf(s.proc[x].pc) != Some(q) {
      OnlyLooker(s, x, q);
      OneFork(s, p, x);
    }
  }

  lemma OneFork(s: State, x: nat, y: nat)
    requires Forks(s) && x < |s.proc| && y < |s.proc| && x != y
    ensures ForkOf(s.proc[x].pc).Some? ==> ForkOf(s.proc[y].pc) != ForkOf(s.proc[x].pc)
  {}

  lemma ForkStartInv(s: State, c: nat, np: nat, s': State)
    requires Inv1(s) && c < |s.cpu| && s.cpu[c].Running? && s.cpu[c].p < |s.proc| && np < |s.proc|
    requires s.proc[s.cpu[c].p].pc.Idle?
    requires BeginFork(s, s.cpu[c].p, np, s')
    ensures Inv1(s')
  {
    OnCpu(s, c);
    CpuLocks(s);
    var p := s.cpu[c].p;
    assert np != p && StateOk(s.proc[np]);
    forall x: nat | x < |s.proc|
      ensures !(s.proc[x].pc.Look? && s.proc[x].pc.i == np) && ForkOf(s.proc[x].pc) != Some(np)
      { OnlyLooker(s, x, np); }
    assert Forks(s');
    hide SlotLocks, CondLocks, Threads, Forks, CpuOk, OneCpu;
    SlotMoved(s, s', p, np);
    CondKept(s, s');
    OtherInv(s, s', p, np);
  }

  /** fork's last two steps: a parent, then runnable. */
  lemma ForkEndInv(s: State, c: nat, s': State)
    requires Inv1(s) && c < |s.cpu| && s.cpu[c].Running? && s.cpu[c].p < |s.proc| && Go(s, c, s.cpu[c].p, s')
    requires s.proc[s.cpu[c].p].pc.Fork2? || s.proc[s.cpu[c].p].pc.Fork3?
    ensures Inv1(s')
  {
    hide GoSwitch, GoCond, GoCheck, GoWake, GoExit;
    OnCpu(s, c);
    var p := s.cpu[c].p;
    var np := s.proc[p].pc.np;
    assert PcOk(s, np) && StateOk(s.proc[np]);
    forall x: nat | x < |s.proc| && x != p
      ensures ForkOf(s.proc[x].pc) != Some(np) && !(s.proc[x].pc.Look? && s.proc[x].pc.i == np) {
      OneFork(s, p, x);
      OnlyLooker(s, x, np);
    }
    hide SlotLocks, CondLocks, Threads, Forks, CpuOk, OneCpu;
    ForksKept(s, s', p);
    SlotKept(s, s');
    CondKept(s, s');
    OtherInv(s, s', p, np);
  }

  lemma CellFree(s: State, cell: seq<Cell>)
    requires Inv1(s) && |cell| == |s.cell|
    ensures Inv1(s.(cell := cell))
  {
    var s' := s.(cell := cell);
    forall x | 0 <= x < |s.proc| ensures PcOk(s', x) { assert PcOk(s, x); PcFrame(s, s', x); }
    hide PcOk, StateOk, HoldsSlot, HoldsLock;
    SlotKept(s, s');
    CondKept(s, s');
    CpuKept(s, s');
  }

  lemma BeginInv(s: State, c: nat, s': State)
    requires Inv1(s) && c < |s.cpu| && s.cpu[c].Running? && s.cpu[c].p < |s.proc| && s.proc[s.cpu[c].p].pc.Idle?
    requires Begin(s, s.cpu[c].p, s')
    ensures Inv1(s')
  {
    OnCpu(s, c);
    hide SlotLocks, CondLocks, Threads, Forks, CpuOk, OneCpu, BeginFork, BeginLook, BeginChange, Kill;
    var p := s.cpu[c].p;
    if BeginWait(s, p, s') {
      CondGoto(s, p, WaitLock, Some(p), Check(Kid(p)));
    } else if BeginExit(s, p, s') {
      CondGoto(s, p, WaitLock, Some(p), Reparent(0));
    } else if np: nat :| np < |s.proc| && BeginFork(s, p, np, s') {
      ForkStartInv(s, c, np, s');
    } else if k: nat :| k < |s.slk| && BeginLook(s, p, k, s') {
      BeginLookInv(s, p, k, s');
    } else if k: nat :| k < |s.slk| && BeginChange(s, p, k, s') {
      ChangeInv(s, p, k, s');
    } else {
      var q: nat :| q < |s.proc| && Kill(s, p, q, s');
      KillInv(s, p, q, s');
    }
  }

  lemma BeginLookInv(s: State, p: nat, k: nat, s': State)
    requires Inv1(s) && p < |s.proc| && s.proc[p].pc.Idle? && StateOk(s.proc[p]) && k < |s.slk|
    requires BeginLook(s, p, k, s')
    ensures Inv1(s')
  {
    hide SlotLocks, CondLocks, Threads, Forks, CpuOk, OneCpu;
    CondGoto(s, p, SLock(k), Some(p), Check(Lk(k)));
  }

  lemma ChangeInv(s: State, p: nat, k: nat, s': State)
    requires Inv1(s) && p < |s.proc| && s.proc[p].pc.Idle? && StateOk(s.proc[p]) && k < |s.slk|
    requires BeginChange(s, p, k, s')
    ensures Inv1(s')
  {
    hide SlotLocks, CondLocks, Threads, Forks, CpuOk, OneCpu, Ready, Changed;
    var s1 := s.(cell := s'.cell);
    CellFree(s, s'.cell);
    CondGoto(s1, p, SLock(k), Some(p), s'.proc[p].pc);
    assert s' == Goto(s1.(slk := s1.slk[k := Some(p)]), p, s'.proc[p].pc);
  }

  lemma KillInv(s: State, p: nat, q: nat, s': State)
    requires Inv1(s) && p < |s.proc| && s.proc[p].pc.Idle? && StateOk(s.proc[p]) && q < |s.proc| && Kill(s, p, q, s')
    ensures Inv1(s')
  {
    hide SlotLocks, CondLocks, Threads, Forks, CpuOk, OneCpu;
    if s.proc[q].state.SLEEPING? {
      assert s' == Goto(SetState(s, q, RUNNABLE), p, Idle);
      WakeOneInv(s, p, q, Idle, s');
    }
  }

  lemma GoInv(s: State, c: nat, s': State)
    requires Inv2(s) && c < |s.cpu| && s.cpu[c].Running? && s.cpu[c].p < |s.proc| && Go(s, c, s.cpu[c].p, s')
    ensures Inv1(s')
  {
    hide GoSwitch, GoCond, GoWake, SlotLocks, CondLocks, Threads, Forks, CpuOk, OneCpu, Family;
    OnCpu(s, c);
    var p := s.cpu[c].p;
    var pc := s.proc[p].pc;
    match pc
    case Resume(_) => ResumeInv(s, c, s');
    case Yield1(_) => LeaveInv(s, c, s');
    case Sleep2(_) => LeaveInv(s, c, s');
    case Exit3 => LeaveInv(s, c, s');
    case Relock(_) => RelockInv(s, c, s');
    case Sleep1(_) => UnlockInv(s, c, s');
    case Unlock(_) => UnlockInv(s, c, s');
    case Exit2 => UnlockInv(s, c, s');
    case Check(ch) => if ch.Lk? && !Ready(s.cell[ch.k]) { TakeOwnInv(s, c, s'); } else { StayStepInv(s, c, s'); }
    case Scan(i, _) =>
      if i < |s.proc| && s.proc[i].parent == Some(p) { LookInv(s, c, s'); }
      else if i < |s.proc| || s' == Goto(s, p, Unlock(WaitLock)) { StayStepInv(s, c, s'); }
      else { TakeOwnInv(s, c, s'); }
    case Look(i, _) =>
      SlotHeldBy(s, p, i);
      if s.proc[i].state.ZOMBIE? && s' != Goto(SetLock(s, i, NoOne), p, Unlock(WaitLock)) {
        FreeInv(s, c, i, 1, Unlock(WaitLock), s');
      }
      else { DropOtherInv(s, c, s'); }
    case Wake(ch, i, _) =>
      if i < |s.proc| && i != p && s.proc[i].state.SLEEPING? && s.proc[i].chan == ch { WakeInv(s, c, s'); } else {
        StayStepInv(s, c, s');
      }
    case Reparent(i) =>
      if i < |s.proc| && s.proc[i].parent == Some(p) { AdoptInv(s, c, s'); } else { StayStepInv(s, c, s'); }
    case Exit1 => TakeOwnInv(s, c, s');
    case Fork1(np) =>
      SlotHeldBy(s, p, np);
      if s' == Goto(SetLock(s, np, NoOne), p, Fork2(np)) { DropOtherInv(s, c, s'); } else {
        FreeInv(s, c, np, 0, Idle, s');
      }
    case Fork2(_) => ForkEndInv(s, c, s');
    case Fork3(_) => ForkEndInv(s, c, s');
  }

  lemma StepInv1(s: State, a: Label, s': State)
    requires Inv2(s) && Step(s, a, s')
    ensures Inv1(s')
  {
    hide Go, Begin, Preempt, Pick, Put;
    match a
    case LPick(c, p) => PickInv(s, c, p, s');
    case LPut(c) => PutInv(s, c, s');
    case LRun(c) =>
      var p := s.cpu[c].p;
      if s.proc[p].pc.Idle? && Begin(s, p, s') { BeginInv(s, c, s'); }
      else if Preempt(s, p, s') { PreemptInv(s, c, s'); }
      else { GoInv(s, c, s'); }
  }

  // ---------- families ----------

  /** No process dies and no parent changes. */
  lemma FamilyKept(s: State, s': State, p: nat)
    requires Shape(s) && Shape(s') && Family(s) && |s'.proc| == |s.proc| && p < |s.proc|
    requires forall x ::
               0 <= x < |s.proc| ==>
                 s'.proc[x].parent == s.proc[x].parent && (Alive(s.proc[x].state) ==> Alive(s'.proc[x].state))
    requires forall x ::
               0 <= x < |s.proc| && x != p ==> Adopted(s'.proc[x].pc, |s.proc|) <= Adopted(s.proc[x].pc, |s.proc|)
    requires forall j :: 0 <= j < |s.proc| && j < Adopted(s'.proc[p].pc, |s.proc|) ==> s.proc[j].parent != Some(p)
    ensures Family(s')
  {
    hide Adopted;
  }

  lemma ExitFamily(s: State, p: nat, s': State)
    requires Shape(s) && Family(s) && p < |s.proc| && p != 0 && s.proc[p].pc.Exit1? && |s'.proc| == |s.proc|
    requires |s'.plock| == |s.plock| && s'.slk == s.slk && s'.cell == s.cell
    requires s'.proc == s.proc[p := s.proc[p].(state := ZOMBIE, pc := Exit2, exits := s.proc[p].exits + 1)]
    ensures Family(s')
  {
    assert forall q :: 0 <= q < |s.proc| ==> s.proc[q].parent != Some(p);
  }

  lemma AdoptFamily(s: State, p: nat, i: nat, s': State)
    requires Shape(s) && Family(s) && p < |s.proc| && p != 0 && i < |s.proc| && i != p && s.proc[i].parent == Some(p)
    requires s.proc[p].pc == Reparent(i)
    requires s' == Goto(s.(proc := s.proc[i := s.proc[i].(parent := Some(0))]), p, Wake(Kid(0), 0, Reparent(i + 1)))
    requires forall x: nat :: x < |s.proc| && x != p ==> Adopted(s.proc[x].pc, |s.proc|) == 0
    ensures Family(s')
  {
    assert Adopted(s'.proc[p].pc, |s.proc|) == i + 1 && Adopted(s.proc[p].pc, |s.proc|) == i;
    hide Adopted;
    forall x, j | 0 <= x < |s.proc| && 0 <= j < |s.proc| && j < Adopted(s'.proc[x].pc, |s.proc|)
      ensures s'.proc[j].parent != Some(x) {
      assert x == p;
    }
  }

  /** A slot with no children goes back; it is nobody's parent. */
  lemma FreeFamily(s: State, p: nat, q: nat, s': State)
    requires Shape(s) && Shape(s') && Family(s) && p < |s.proc| && q < |s.proc| && p != q && !Alive(s.proc[q].state)
    requires |s'.proc| == |s.proc|
    requires s'.proc == s.proc[q := s'.proc[q]][p := s'.proc[p]] && s'.proc[q].parent.None? && s'.proc[q].pc.Fresh?
    requires s'.proc[p].parent == s.proc[p].parent && s'.proc[p].state == s.proc[p].state
    requires Adopted(s'.proc[p].pc, |s.proc|) == 0
    ensures Family(s')
  {
    assert Adopted(s'.proc[q].pc, |s.proc|) == 0;
    hide Adopted, Alive;
    forall x | 0 <= x < |s.proc| && s'.proc[x].parent.Some?
      ensures s'.proc[x].parent == s.proc[x].parent && s'.proc[x].parent.value != q {}
  }

  lemma Fork2Family(s: State, p: nat, np: nat, s': State)
    requires Shape(s) && Family(s) && p < |s.proc| && np < |s.proc| && np != p && np != 0 && Alive(s.proc[p].state)
    requires Adopted(s.proc[p].pc, |s.proc|) == 0
    requires s' == Goto(s.(proc := s.proc[np := s.proc[np].(parent := Some(p))]), p, Fork3(np))
    ensures Family(s')
  {
    assert Adopted(Fork3(np), |s.proc|) == 0;
    hide Adopted;
    forall x: nat, j: nat | x < |s.proc| && j < |s.proc| && j < Adopted(s'.proc[x].pc, |s.proc|)
      ensures s'.proc[j].parent != Some(x) {
      assert x != p;
      assert s'.proc[x].pc == s.proc[x].pc;
    }
  }

  lemma OtherAdopted(s: State, p: nat)
    requires Inv1(s) && p < |s.proc| && HoldsLock(s.proc[p].pc, WaitLock)
    ensures forall x: nat :: x < |s.proc| && x != p ==> Adopted(s.proc[x].pc, |s.proc|) == 0
  {
    HeldBy(s, p, WaitLock);
    forall x: nat | x < |s.proc| && x != p ensures Adopted(s.proc[x].pc, |s.proc|) == 0 {
      HeldBy(s, x, WaitLock);
      assert PcOk(s, x);
    }
  }

  lemma GoFamily(s: State, c: nat, s': State)
    requires Inv2(s) && c < |s.cpu| && s.cpu[c].Running? && s.cpu[c].p < |s.proc| && Go(s, c, s.cpu[c].p, s')
    requires Shape(s')
    ensures Family(s')
  {
    hide GoSwitch, GoCond, GoCheck, GoWake, GoFork, SlotLocks, CondLocks, Threads, Forks, CpuOk, OneCpu;
    OnCpu(s, c);
    var p := s.cpu[c].p;
    var pc := s.proc[p].pc;
    if pc.Exit1? { ExitFamily(s, p, s'); }
    else if pc.Reparent? {
      if pc.i < |s.proc| && s.proc[pc.i].parent == Some(p) {
        OtherAdopted(s, p);
        AdoptFamily(s, p, pc.i, s');
      } else { ReparentFamily(s, p, s'); }
    }
    else if pc.Look? { LookFamily(s, c, s'); }
    else if pc.Fork1? { ForkFamily(s, c, s'); }
    else if pc.Fork2? { Fork2Step(s, p, s'); }
    else if pc.Wake? { WakeFamily(s, p, s'); }
    else if pc.Fork3? { Fork3Family(s, p, s'); }
    else if pc.Check? || pc.Scan? { CheckFamily(s, p, s'); }
    else if pc.Relock? || pc.Sleep1? || pc.Unlock? || pc.Exit2? { CondFamily(s, p, s'); }
    else { SwitchFamily(s, c, p, s'); }
  }

  lemma Fork2Step(s: State, p: nat, s': State)
    requires Shape(s) && Family(s) && p < |s.proc| && s.proc[p].pc.Fork2? && PcOk(s, p) && StateOk(s.proc[p])
    requires GoFork(s, p, s')
    ensures Family(s')
  {
    Fork2Family(s, p, s.proc[p].pc.np, s');
  }

  lemma LookFamily(s: State, c: nat, s': State)
    requires Inv2(s) && c < |s.cpu| && s.cpu[c].Running? && s.cpu[c].p < |s.proc| && s.proc[s.cpu[c].p].pc.Look?
    requires Go(s, c, s.cpu[c].p, s')
    ensures Family(s')
  {
    hide GoSwitch, GoCond, GoWake, GoExit, GoFork;
    OnCpu(s, c);
    hide SlotLocks, CondLocks, Threads, Forks, CpuOk, OneCpu;
    var p := s.cpu[c].p;
    var i := s.proc[p].pc.i;
    if s'.proc[i].state == s.proc[i].state { OwnFamily(s, s', p); } else { FreeFamily(s, p, i, s'); }
  }

  lemma ForkFamily(s: State, c: nat, s': State)
    requires Inv2(s) && c < |s.cpu| && s.cpu[c].Running? && s.cpu[c].p < |s.proc| && s.proc[s.cpu[c].p].pc.Fork1?
    requires Go(s, c, s.cpu[c].p, s')
    ensures Family(s')
  {
    hide GoSwitch, GoCond, GoCheck, GoWake, GoExit, SlotLocks, CondLocks, Threads, Forks, CpuOk, OneCpu, Family;
    OnCpu(s, c);
    var p := s.cpu[c].p;
    var np := s.proc[p].pc.np;
    if s' == Goto(SetLock(s, np, NoOne), p, Fork2(np)) { OwnFamily(s, s', p); } else { FreeFamily(s, p, np, s'); }
  }

  /** Only thread p's record changes, and it stays alive. */
  lemma OwnFamily(s: State, s': State, p: nat)
    requires Shape(s) && Shape(s') && Family(s) && p < |s.proc| && |s'.proc| == |s.proc|
    requires s'.proc == s.proc[p := s'.proc[p]]
    requires s'.proc[p].parent == s.proc[p].parent && (Alive(s.proc[p].state) ==> Alive(s'.proc[p].state))
    requires Adopted(s'.proc[p].pc, |s.proc|) <= Adopted(s.proc[p].pc, |s.proc|)
    ensures Family(s')
  {
    hide Adopted;
    FamilyKept(s, s', p);
  }

  lemma SwitchFamily(s: State, c: nat, p: nat, s': State)
    requires Shape(s) && Family(s) && c < |s.cpu| && p < |s.proc| && Adopted(s.proc[p].pc, |s.proc|) == 0
    requires RestNext(s.proc[p].pc) && GoSwitch(s, c, p, s')
    ensures Family(s')
  {
    hide Family;
    OwnFamily(s, s', p);
  }

  predicate RestNext(pc: Pc) { pc.Resume? ==> Preemptible(pc.next) }

  lemma CondFamily(s: State, p: nat, s': State)
    requires Shape(s) && Family(s) && p < |s.proc| && GoCond(s, p, s')
    ensures Family(s')
  {
    hide Family;
    OwnFamily(s, s', p);
  }

  lemma CheckFamily(s: State, p: nat, s': State)
    requires Shape(s) && Family(s) && p < |s.proc| && !s.proc[p].pc.Look? && GoCheck(s, p, s')
    ensures Family(s')
  {
    hide Family;
    OwnFamily(s, s', p);
  }

  lemma WakeFamily(s: State, p: nat, s': State)
    requires Shape(s) && Family(s) && p < |s.proc| && s.proc[p].pc.Wake? && GoWake(s, p, s')
    requires s.proc[p].pc.next.Unlock? || s.proc[p].pc.next.Reparent? || s.proc[p].pc.next.Exit1?
    ensures Family(s')
  {
    var Wake(ch, i, next) := s.proc[p].pc;
    hide Family;
    NoChildBelow(s, p);
    if i < |s.proc| && i != p && s.proc[i].state.SLEEPING? && s.proc[i].chan == ch {
      assert Adopted(s'.proc[p].pc, |s.proc|) == Adopted(s.proc[p].pc, |s.proc|);
      hide Adopted;
      FamilyKept(s, s', p);
    } else {
      OwnFamily(s, s', p);
    }
  }

  lemma Fork3Family(s: State, p: nat, s': State)
    requires Shape(s) && Family(s) && p < |s.proc| && s.proc[p].pc.Fork3? && s.proc[p].pc.np != p && GoFork(s, p, s')
    ensures Family(s')
  {
    hide Family;
    FamilyKept(s, s', p);
  }

  lemma ReparentFamily(s: State, p: nat, s': State)
    requires Shape(s) && Family(s) && p < |s.proc| && s.proc[p].pc.Reparent?
    requires var i := s.proc[p].pc.i;
             if i < |s.proc| then s.proc[i].parent != Some(p) && s' == Goto(s, p, Reparent(i + 1))
             else
               s' == Goto(s, p, if s.proc[p].parent.Some? then Wake(Kid(s.proc[p].parent.value), 0, Exit1) else Exit1)
    ensures Family(s')
  {
    hide Family;
    NoChildBelow(s, p);
    FamilyKept(s, s', p);
  }

  lemma NoChildBelow(s: State, p: nat)
    requires Shape(s) && Family(s) && p < |s.proc|
    ensures forall j :: 0 <= j < |s.proc| && j < Adopted(s.proc[p].pc, |s.proc|) ==> s.proc[j].parent != Some(p)
  {
    hide Adopted;
  }

  lemma BeginFamily(s: State, c: nat, s': State)
    requires Inv2(s) && c < |s.cpu| && s.cpu[c].Running? && s.cpu[c].p < |s.proc| && s.proc[s.cpu[c].p].pc.Idle?
    requires Begin(s, s.cpu[c].p, s')
    ensures Family(s')
  {
    InvShape(s);
    hide Inv1, BeginFork, Kill, Family;
    var p := s.cpu[c].p;
    if np: nat :| np < |s.proc| && BeginFork(s, p, np, s') { BeginForkFamily(s, p, np, s'); }
    else if q: nat :| q < |s.proc| && Kill(s, p, q, s') { KillFamily(s, p, q, s'); }
    else { OwnFamily(s, s', p); }
  }

  lemma BeginForkFamily(s: State, p: nat, np: nat, s': State)
    requires Shape(s) && Family(s) && p < |s.proc| && np < |s.proc| && s.proc[p].pc.Idle? && BeginFork(s, p, np, s')
    ensures Family(s')
  {
    hide Family;
    FamilyKept(s, s', p);
  }

  lemma KillFamily(s: State, p: nat, q: nat, s': State)
    requires Shape(s) && Family(s) && p < |s.proc| && q < |s.proc| && s.proc[p].pc.Idle? && Kill(s, p, q, s')
    ensures Family(s')
  {
    hide Family;
    FamilyKept(s, s', p);
  }

  lemma StepInv2(s: State, a: Label, s': State)
    requires Inv2(s) && Step(s, a, s')
    ensures Inv2(s')
  {
    StepInv1(s, a, s');
    hide Go, Begin, Inv1;
    match a
    case LPick(c, p) => PickFamily(s, c, p, s');
    case LPut(c) =>
    case LRun(c) =>
      var p := s.cpu[c].p;
      if s.proc[p].pc.Idle? && Begin(s, p, s') { BeginFamily(s, c, s'); }
      else if Preempt(s, p, s') { PreemptFamily(s, p, s'); }
      else { GoFamily(s, c, s'); }
  }

  lemma PickFamily(s: State, c: nat, p: nat, s': State)
    requires Inv2(s) && Pick(s, c, p, s')
    ensures Family(s')
  {
    hide Inv1, Family;
    assert Shape(s) by { InvShape(s); }
    FamilyKept(s, s', p);
  }

  lemma InvShape(s: State)
    requires Inv1(s)
    ensures Shape(s)
  {}

  lemma PreemptFamily(s: State, p: nat, s': State)
    requires Inv2(s) && p < |s.proc| && Shape(s) && Preempt(s, p, s')
    ensures Family(s')
  {
    hide Inv1, Family;
    FamilyKept(s, s', p);
  }

  // ---------- no lost wakeup ----------

  /** Asleep on ch, or past the point of no return of going to sleep on it. */
  predicate Waits(s: State, q: nat, ch: Chan)
    requires q < |s.proc|
  { (s.proc[q].state.SLEEPING? && s.proc[q].chan == ch) || s.proc[q].pc == Sleep2(ch) }

  predicate ZombieChild(s: State, j: nat, p: nat)
    requires j < |s.proc|
  { s.proc[j].parent == Some(p) && s.proc[j].state.ZOMBIE? }

  /** What a sleeper on ch waits for has come true: a child has exited, or the lock is free. */
  ghost predicate Wanted(s: State, ch: Chan) {
    || (ch.Kid? && exists j: nat :: j < |s.proc| && ZombieChild(s, j, ch.p))
    || (ch.Lk? && ch.k < |s.cell| && Ready(s.cell[ch.k]))
  }

  /** A wakeup in progress has yet to come to slot q. */
  ghost predicate Owed(s: State, q: nat, ch: Chan) {
    exists x: nat :: x < |s.proc| && s.proc[x].pc.Wake? && s.proc[x].pc.ch == ch && s.proc[x].pc.i <= q
  }

  ghost predicate NoZombie(s: State, x: nat, n: nat) {
    forall j: nat :: j < n && j < |s.proc| ==> !ZombieChild(s, j, x)
  }

  ghost predicate NoneWaits(s: State, ch: Chan, n: nat) { forall q: nat :: q < n && q < |s.proc| ==> !Waits(s, q, ch) }

  /** What a thread has established so far in its critical section. */
  ghost predicate Duty(s: State, x: nat)
    requires x < |s.proc|
  {
    match s.proc[x].pc
    case Scan(i, _) => NoZombie(s, x, i)
    case Look(i, _) => NoZombie(s, x, i)
    case Sleep1(ch) => if ch.Lk? then ch.k < |s.cell| && !Ready(s.cell[ch.k]) else NoZombie(s, x, |s.proc|)
    case Wake(ch, i, _) => NoneWaits(s, ch, i)
    case Exit1 => s.proc[x].parent.Some? ==> NoneWaits(s, Kid(s.proc[x].parent.value), |s.proc|)
    case _ => true
  }

  ghost predicate Duties(s: State) { forall x: nat :: x < |s.proc| ==> Duty(s, x) }

  /** Nobody sleeps through what it waits for, unless a wakeup is on its way. */
  ghost predicate NoLost(s: State) {
    forall q: nat, ch: Chan :: q < |s.proc| && Waits(s, q, ch) && Wanted(s, ch) ==> Owed(s, q, ch)
  }

  ghost predicate Inv3(s: State) { Inv2(s) && Duties(s) && NoLost(s) }

  /** Steps that put nobody to sleep and make no condition true. */
  ghost predicate Quiet(s: State, s': State, p: nat)
  {
    && |s'.proc| == |s.proc| && p < |s.proc| && |s'.cell| == |s.cell|
    && (forall q: nat, ch: Chan :: q < |s.proc| && Waits(s', q, ch) ==> Waits(s, q, ch))
    && (forall j: nat, x: nat :: j < |s.proc| && ZombieChild(s', j, x) ==> ZombieChild(s, j, x))
    && (forall k :: 0 <= k < |s.cell| && !Ready(s.cell[k]) ==> !Ready(s'.cell[k]))
    && (forall x: nat :: x < |s.proc| && x != p ==>
          || (s'.proc[x].pc == s.proc[x].pc && (s.proc[x].pc.Exit1? ==> s'.proc[x].parent == s.proc[x].parent))
          || (!Active(s.proc[x].pc) && (s'.proc[x].pc.Fresh? || s'.proc[x].pc.Resume?)))
  }

  lemma QuietDuty(s: State, s': State, p: nat, x: nat)
    requires Quiet(s, s', p) && x < |s.proc| && x != p && Duty(s, x)
    ensures Duty(s', x)
  {
    if s'.proc[x].pc == s.proc[x].pc {
      match s.proc[x].pc
      case Scan(i, _) => NoZombieKept(s, s', p, x, i);
      case Look(i, _) => NoZombieKept(s, s', p, x, i);
      case Sleep1(ch) => if !ch.Lk? { NoZombieKept(s, s', p, x, |s.proc|); }
      case Wake(ch, i, _) => NoneKept(s, s', p, ch, i);
      case Exit1 => if s.proc[x].parent.Some? { NoneKept(s, s', p, Kid(s.proc[x].parent.value), |s.proc|); }
      case _ =>
    }
  }

  lemma NoZombieKept(s: State, s': State, p: nat, x: nat, n: nat)
    requires Quiet(s, s', p) && NoZombie(s, x, n)
    ensures NoZombie(s', x, n)
  {
    hide Waits;
  }

  lemma NoneKept(s: State, s': State, p: nat, ch: Chan, n: nat)
    requires Quiet(s, s', p) && NoneWaits(s, ch, n)
    ensures NoneWaits(s', ch, n)
  {
    hide ZombieChild;
  }

  /** A quiet step by a thread that is not waking others. */
  lemma QuietInv(s: State, s': State, p: nat)
    requires Duties(s) && NoLost(s) && Quiet(s, s', p) && Duty(s', p) && !s.proc[p].pc.Wake?
    ensures Duties(s') && NoLost(s')
  {
    forall x: nat | x < |s.proc| && x != p ensures Duty(s', x) { QuietDuty(s, s', p, x); }
    forall q: nat, ch: Chan | q < |s.proc| && Waits(s', q, ch) && Wanted(s', ch) ensures Owed(s', q, ch) {
      WantedKept(s, s', p, ch);
      OwedKept(s, s', p, q, ch);
    }
  }

  lemma WantedKept(s: State, s': State, p: nat, ch: Chan)
    requires Quiet(s, s', p) && Wanted(s', ch)
    ensures Wanted(s, ch)
  {
    if ch.Kid? {
      var j: nat :| j < |s'.proc| && ZombieChild(s', j, ch.p);
      assert ZombieChild(s, j, ch.p);
    }
  }

  lemma OwedKept(s: State, s': State, p: nat, q: nat, ch: Chan)
    requires Quiet(s, s', p) && Owed(s, q, ch) && !s.proc[p].pc.Wake?
    ensures Owed(s', q, ch)
  {
    var x: nat :| x < |s.proc| && s.proc[x].pc.Wake? && s.proc[x].pc.ch == ch && s.proc[x].pc.i <= q;
    assert s'.proc[x].pc == s.proc[x].pc;
  }

  // ---------- each step again ----------

  lemma OwnQuiet(s: State, s': State, p: nat)
    requires p < |s.proc| && |s'.proc| == |s.proc| && s'.proc == s.proc[p := s'.proc[p]] && s'.cell == s.cell
    requires s'.proc[p].parent == s.proc[p].parent
    requires s'.proc[p].state.ZOMBIE? ==> s.proc[p].state.ZOMBIE?
    requires forall ch: Chan :: Waits(s', p, ch) ==> Waits(s, p, ch)
    ensures Quiet(s, s', p)
  {}

  lemma PickLost(s: State, c: nat, p: nat, s': State)
    requires Duties(s) && NoLost(s) && Pick(s, c, p, s')
    ensures Duties(s') && NoLost(s')
  {
    hide Duties, NoLost;
    OwnQuiet(s, s', p);
    QuietInv(s, s', p);
  }

  lemma PutLost(s: State, c: nat, s': State)
    requires Inv3(s) && Put(s, c, s')
    ensures Duties(s') && NoLost(s')
  {
    var p := s.cpu[c].p;
    assert p < |s.proc| && !Active(s.proc[p].pc);
    hide Inv2, NoLost;
    OwnQuiet(s, s', p);
    assert Duty(s', p);
    QuietInv(s, s', p);
  }

  lemma PreemptLost(s: State, p: nat, s': State)
    requires Shape(s) && p < |s.proc| && Duties(s) && NoLost(s) && StateOk(s.proc[p]) && Preempt(s, p, s')
    ensures Duties(s') && NoLost(s')
  {
    hide Duties, NoLost;
    OwnQuiet(s, s', p);
    QuietInv(s, s', p);
  }

  lemma SwitchLost(s: State, c: nat, p: nat, s': State)
    requires Shape(s) && c < |s.cpu| && p < |s.proc| && Duties(s) && NoLost(s) && PcOk(s, p) && StateOk(s.proc[p])
    requires GoSwitch(s, c, p, s')
    ensures Duties(s') && NoLost(s')
  {
    hide Duties, NoLost;
    OwnQuiet(s, s', p);
    QuietInv(s, s', p);
  }

  lemma CondLost(s: State, p: nat, s': State)
    requires Shape(s) && p < |s.proc| && Duties(s) && NoLost(s) && StateOk(s.proc[p]) && !s.proc[p].pc.Sleep1?
    requires GoCond(s, p, s')
    ensures Duties(s') && NoLost(s')
  {
    hide Duties, NoLost;
    OwnQuiet(s, s', p);
    QuietInv(s, s', p);
  }

  lemma CheckLost(s: State, p: nat, s': State)
    requires Shape(s) && p < |s.proc| && Duties(s) && NoLost(s) && PcOk(s, p) && StateOk(s.proc[p])
    requires (s.proc[p].pc.Check? || s.proc[p].pc.Scan?) && GoCheck(s, p, s')
    ensures Duties(s') && NoLost(s')
  {
    assert Duty(s, p);
    hide Duties, NoLost;
    if s.proc[p].pc.Check? && s.proc[p].pc.ch.Lk? && Ready(s.cell[s.proc[p].pc.ch.k]) {
      assert Quiet(s, s', p);
    } else {
      OwnQuiet(s, s', p);
    }
    assert Duty(s', p) by { ScanDuty(s, p, s'); }
    QuietInv(s, s', p);
  }

  lemma ScanDuty(s: State, p: nat, s': State)
    requires Shape(s) && p < |s.proc| && PcOk(s, p) && StateOk(s.proc[p]) && (s.proc[p].pc.Check? || s.proc[p].pc.Scan?)
    requires GoCheck(s, p, s') && Duty(s, p)
    ensures Duty(s', p)
  {
    forall j: nat, x: nat | j < |s.proc| ensures ZombieChild(s', j, x) == ZombieChild(s, j, x) {}
  }

  lemma LookLost(s: State, p: nat, s': State)
    requires Shape(s) && p < |s.proc| && Duties(s) && NoLost(s) && s.proc[p].pc.Look? && PcOk(s, p)
    requires StateOk(s.proc[p]) && GoCheck(s, p, s')
    requires s.proc[s.proc[p].pc.i].state.ZOMBIE? ==> !Active(s.proc[s.proc[p].pc.i].pc)
    ensures Duties(s') && NoLost(s')
  {
    hide Duties, NoLost;
    var i := s.proc[p].pc.i;
    assert Duty(s, p) by { DutyOf(s, p); }
    if s' == Goto(SetLock(s, i, NoOne), p, Scan(i + 1, true)) {
      OwnQuiet(s, s', p);
      forall j: nat, x: nat | j < |s.proc| ensures ZombieChild(s', j, x) == ZombieChild(s, j, x) {}
      assert Duty(s', p);
    } else if s' == Goto(SetLock(s, i, NoOne), p, Unlock(WaitLock)) {
      OwnQuiet(s, s', p);
    } else {
      ReapQuiet(s, p, i, s');
    }
    QuietInv(s, s', p);
  }

  lemma DutyOf(s: State, x: nat)
    requires Duties(s) && x < |s.proc|
    ensures Duty(s, x)
  {}

  lemma ReapQuiet(s: State, p: nat, i: nat, s': State)
    requires Shape(s) && p < |s.proc| && i < |s.proc| && i != p && !Active(s.proc[i].pc) && StateOk(s.proc[p])
    requires Active(s.proc[p].pc) && !s.proc[p].pc.Sleep2?
    requires s' == Goto(SetLock(Freeproc(s, i, 1), i, NoOne), p, Unlock(WaitLock))
    ensures Quiet(s, s', p)
  {}

  lemma ReparentLost(s: State, p: nat, s': State)
    requires Shape(s) && p < |s.proc| && Duties(s) && NoLost(s) && StateOk(s.proc[p]) && s.proc[p].pc.Reparent?
    requires GoExit(s, p, s')
    requires s.proc[p].pc.i < |s.proc| ==> s.proc[s.proc[p].pc.i].parent != Some(p)
    ensures Duties(s') && NoLost(s')
  {
    hide Duties, NoLost;
    OwnQuiet(s, s', p);
    QuietInv(s, s', p);
  }

  lemma ForkLost(s: State, p: nat, s': State)
    requires Shape(s) && p < |s.proc| && Duties(s) && NoLost(s) && PcOk(s, p) && StateOk(s.proc[p]) && GoFork(s, p, s')
    requires s.proc[p].pc.np < |s.proc| ==> StateOk(s.proc[s.proc[p].pc.np])
    ensures Duties(s') && NoLost(s')
  {
    hide Duties, NoLost;
    assert Quiet(s, s', p);
    QuietInv(s, s', p);
  }

  /** A step by p after which every sleeper with something to wake up for is still owed a wakeup. */
  lemma LostFrame(s: State, s': State, p: nat)
    requires NoLost(s) && p < |s.proc| && |s'.proc| == |s.proc|
    requires forall q: nat, ch: Chan ::
               q < |s.proc| && Waits(s', q, ch) && Wanted(s', ch) ==>
                 (Waits(s, q, ch) && Wanted(s, ch)) || Owed(s', q, ch)
    requires forall x: nat :: x < |s.proc| && x != p && s.proc[x].pc.Wake? ==> s'.proc[x].pc == s.proc[x].pc
    requires s.proc[p].pc.Wake? ==>
               forall q: nat ::
                 q < |s.proc| && s.proc[p].pc.i <= q && Waits(s', q, s.proc[p].pc.ch) ==> Owed(s', q, s.proc[p].pc.ch)
    ensures NoLost(s')
  {
    hide Wanted, Waits;
    forall q: nat, ch: Chan | q < |s.proc| && Waits(s', q, ch) && Wanted(s', ch) ensures Owed(s', q, ch) {
      if Waits(s, q, ch) && Wanted(s, ch) {
        var x: nat :| x < |s.proc| && s.proc[x].pc.Wake? && s.proc[x].pc.ch == ch && s.proc[x].pc.i <= q;
        if x != p { assert s'.proc[x].pc == s.proc[x].pc; }
      }
    }
  }

  /** Thread x, alone in its critical section: no other thread holds lock l. */
  lemma Alone(s: State, p: nat, l: Lock, x: nat)
    requires Inv1(s) && p < |s.proc| && x < |s.proc| && x != p && LockIn(s, l) && HoldsLock(s.proc[p].pc, l)
    ensures !HoldsLock(s.proc[x].pc, l)
  {
    HeldBy(s, p, l);
    HeldBy(s, x, l);
  }

  /** Going to sleep: whoever could wake us needs the lock we hold, and what we wait for is not so. */
  lemma Sleep1Lost(s: State, p: nat, s': State)
    requires Inv3(s) && p < |s.proc| && s.proc[p].pc.Sleep1? && PcOk(s, p) && StateOk(s.proc[p]) && GoCond(s, p, s')
    ensures Duties(s') && NoLost(s')
  {
    hide SlotLocks, CondLocks, Threads, Forks, CpuOk, OneCpu, Family, PcOk;
    InvShape(s);
    var ch := s.proc[p].pc.ch;
    forall x: nat | x < |s.proc| && x != p ensures Duty(s', x) { Alone(s, p, LockOf(ch), x); Sleep1Duty(s, p, s', x); }
    forall c: Chan | Wanted(s', c) ensures Wanted(s, c) && c != ch { assert Duty(s, p); Sleep1Wanted(s, p, s', c); }
    forall q: nat, c: Chan | q < |s.proc| && Waits(s', q, c) && c != ch ensures Waits(s, q, c) {}
    hide Wanted, Waits;
    LostFrame(s, s', p);
  }

  lemma Sleep1Wanted(s: State, p: nat, s': State, c: Chan)
    requires Shape(s) && p < |s.proc| && s.proc[p].pc.Sleep1? && PcOk(s, p) && GoCond(s, p, s') && Duty(s, p)
    requires Wanted(s', c)
    ensures Wanted(s, c) && c != s.proc[p].pc.ch
  {
    forall j: nat, x: nat | j < |s.proc| ensures ZombieChild(s', j, x) == ZombieChild(s, j, x) {}
  }

  lemma Sleep1Duty(s: State, p: nat, s': State, x: nat)
    requires Shape(s) && p < |s.proc| && s.proc[p].pc.Sleep1? && GoCond(s, p, s') && x < |s.proc| && x != p
    requires Duty(s, x) && !HoldsLock(s.proc[x].pc, LockOf(s.proc[p].pc.ch))
    ensures Duty(s', x)
  {
    forall j: nat, y: nat | j < |s.proc| ensures ZombieChild(s', j, y) == ZombieChild(s, j, y) {}
    forall q: nat, c: Chan | q < |s.proc| && Waits(s', q, c) && c != s.proc[p].pc.ch ensures Waits(s, q, c) {}
  }

  /** exit makes its parent's condition true only after waking it, both under wait_lock. */
  lemma Exit1Lost(s: State, p: nat, s': State)
    requires Inv3(s) && p < |s.proc| && s.proc[p].pc.Exit1? && StateOk(s.proc[p]) && GoExit(s, p, s')
    ensures Duties(s') && NoLost(s')
  {
    hide SlotLocks, CondLocks, Threads, Forks, CpuOk, OneCpu, Family;
    InvShape(s);
    forall x: nat | x < |s.proc| && x != p ensures Duty(s', x) { Alone(s, p, WaitLock, x); Exit1Duty(s, p, s', x); }
    forall q: nat, c: Chan | q < |s.proc| && Waits(s', q, c) ensures Waits(s, q, c) {}
    forall q: nat, c: Chan | q < |s.proc| && Waits(s', q, c) && Wanted(s', c)
      ensures Wanted(s, c) { assert Duty(s, p); Exit1Wanted(s, p, s', q, c); }
    hide Wanted, Waits;
    LostFrame(s, s', p);
  }

  lemma Exit1Duty(s: State, p: nat, s': State, x: nat)
    requires Shape(s) && p < |s.proc| && s.proc[p].pc.Exit1? && StateOk(s.proc[p]) && GoExit(s, p, s') && x < |s.proc|
    requires x != p && Duty(s, x) && !HoldsLock(s.proc[x].pc, WaitLock)
    ensures Duty(s', x)
  {
    forall q: nat, c: Chan | q < |s.proc| && Waits(s', q, c) ensures Waits(s, q, c) {}
  }

  lemma Exit1Wanted(s: State, p: nat, s': State, q: nat, c: Chan)
    requires Shape(s) && p < |s.proc| && s.proc[p].pc.Exit1? && StateOk(s.proc[p]) && GoExit(s, p, s') && Duty(s, p)
    requires q < |s.proc| && Waits(s, q, c) && Wanted(s', c)
    ensures Wanted(s, c)
  {
    if c.Kid? {
      assert s.proc[p].parent != Some(c.p);
      var j: nat :| j < |s'.proc| && ZombieChild(s', j, c.p);
      assert ZombieChild(s, j, c.p);
    }
  }

  /** A zombie given to init: init is about to be woken. */
  lemma AdoptLost(s: State, p: nat, i: nat, s': State)
    requires Inv3(s) && p < |s.proc| && i < |s.proc| && i != p && s.proc[p].pc == Reparent(i) && StateOk(s.proc[p])
    requires s.proc[i].parent == Some(p)
    requires s' == Goto(s.(proc := s.proc[i := s.proc[i].(parent := Some(0))]), p, Wake(Kid(0), 0, Reparent(i + 1)))
    ensures Duties(s') && NoLost(s')
  {
    hide SlotLocks, CondLocks, Threads, Forks, CpuOk, OneCpu, Family;
    InvShape(s);
    forall x: nat | x < |s.proc| && x != p ensures Duty(s', x) { Alone(s, p, WaitLock, x); AdoptDuty(s, p, i, s', x); }
    forall q: nat, c: Chan | q < |s.proc| && Waits(s', q, c) ensures Waits(s, q, c) {}
    forall c: Chan | Wanted(s', c) && c != Kid(0) ensures Wanted(s, c) { AdoptWanted(s, p, i, s', c); }
    hide Wanted, Waits;
    forall q: nat | q < |s.proc| ensures Owed(s', q, Kid(0)) {
      assert s'.proc[p].pc.Wake? && s'.proc[p].pc.ch == Kid(0) && s'.proc[p].pc.i <= q;
    }
    LostFrame(s, s', p);
  }

  lemma AdoptWanted(s: State, p: nat, i: nat, s': State, c: Chan)
    requires p < |s.proc| && i < |s.proc| && i != p
    requires s' == Goto(s.(proc := s.proc[i := s.proc[i].(parent := Some(0))]), p, Wake(Kid(0), 0, Reparent(i + 1)))
    requires Wanted(s', c) && c != Kid(0)
    ensures Wanted(s, c)
  {
    if c.Kid? {
      var j: nat :| j < |s'.proc| && ZombieChild(s', j, c.p);
      assert ZombieChild(s, j, c.p);
    }
  }

  lemma AdoptDuty(s: State, p: nat, i: nat, s': State, x: nat)
    requires Shape(s) && p < |s.proc| && i < |s.proc| && i != p && s.proc[p].pc == Reparent(i) && x < |s.proc| && x != p
    requires Duty(s, x) && !HoldsLock(s.proc[x].pc, WaitLock)
    requires s' == Goto(s.(proc := s.proc[i := s.proc[i].(parent := Some(0))]), p, Wake(Kid(0), 0, Reparent(i + 1)))
    ensures Duty(s', x)
  {
    forall q: nat, c: Chan | q < |s.proc| && Waits(s', q, c) ensures Waits(s, q, c) {}
  }

  /** Whoever makes the condition true wakes the sleepers, both under the condition's lock. */
  lemma ChangeLost(s: State, p: nat, k: nat, s': State)
    requires Inv3(s) && p < |s.proc| && k < |s.slk| && s.proc[p].pc.Idle? && StateOk(s.proc[p])
    requires BeginChange(s, p, k, s')
    ensures Duties(s') && NoLost(s')
  {
    hide SlotLocks, CondLocks, Threads, Forks, CpuOk, OneCpu, Family, Ready, Changed;
    InvShape(s);
    forall x: nat | x < |s.proc| && x != p ensures Duty(s', x) { HeldBy(s, x, SLock(k)); ChangeDuty(s, p, k, s', x); }
    forall q: nat, c: Chan | q < |s.proc| && Waits(s', q, c) ensures Waits(s, q, c) {}
    if s'.proc[p].pc.Wake? {
      forall c: Chan | Wanted(s', c) && c != Lk(k) ensures Wanted(s, c) { ChangeWanted(s, p, k, s', c); }
      hide Wanted, Waits;
      forall q: nat | q < |s.proc| ensures Owed(s', q, Lk(k)) {
        assert s'.proc[p].pc.Wake? && s'.proc[p].pc.ch == Lk(k) && s'.proc[p].pc.i <= q;
      }
      LostFrame(s, s', p);
    } else {
      QuietChange(s, p, k, s');
      hide Quiet;
      assert Duty(s', p);
      QuietInv(s, s', p);
    }
  }

  lemma QuietChange(s: State, p: nat, k: nat, s': State)
    requires Shape(s) && p < |s.proc| && k < |s.slk| && s.proc[p].pc.Idle? && StateOk(s.proc[p])
    requires BeginChange(s, p, k, s') && !s'.proc[p].pc.Wake?
    ensures Quiet(s, s', p)
  {
    hide Ready, Changed;
  }

  lemma ChangeDuty(s: State, p: nat, k: nat, s': State, x: nat)
    requires Shape(s) && p < |s.proc| && k < |s.slk| && s.proc[p].pc.Idle? && BeginChange(s, p, k, s') && x < |s.proc|
    requires x != p && Duty(s, x) && !HoldsLock(s.proc[x].pc, SLock(k))
    ensures Duty(s', x)
  {
    hide Ready, Changed;
    forall q: nat, c: Chan | q < |s.proc| && Waits(s', q, c) ensures Waits(s, q, c) {}
    forall j: nat, y: nat | j < |s.proc| ensures ZombieChild(s', j, y) == ZombieChild(s, j, y) {}
  }

  lemma ChangeWanted(s: State, p: nat, k: nat, s': State, c: Chan)
    requires Shape(s) && p < |s.proc| && k < |s.slk| && BeginChange(s, p, k, s') && Wanted(s', c) && c != Lk(k)
    ensures Wanted(s, c)
  {
    hide Ready, Changed;
    if c.Kid? {
      var j: nat :| j < |s'.proc| && ZombieChild(s', j, c.p);
      assert ZombieChild(s, j, c.p);
    }
  }

  /** One slot of wakeup's loop: having its lock, we know it is not on its way to sleep. */
  lemma WakeLost(s: State, p: nat, s': State)
    requires Inv3(s) && p < |s.proc| && s.proc[p].pc.Wake? && PcOk(s, p) && StateOk(s.proc[p]) && GoWake(s, p, s')
    ensures Duties(s') && NoLost(s')
  {
    hide SlotLocks, CondLocks, Threads, Forks, CpuOk, OneCpu, Family;
    InvShape(s);
    var Wake(ch, i, next) := s.proc[p].pc;
    assert i < |s.proc| && s.plock[i].NoOne? ==>
      s.proc[i].pc != Sleep2(ch) by { if i < |s.proc| { SlotHeldBy(s, i, i); } }
    forall x: nat | x < |s.proc| && x != p ensures Duty(s', x) { assert Duty(s, x); WakeDuty(s, p, s', x); }
    WakeWaits(s, p, s');
    assert Duty(s', p) by { assert Duty(s, p); WakeSelf(s, p, s'); }
    forall c: Chan | Wanted(s', c) ensures Wanted(s, c) { WakeWanted(s, p, s', c); }
    hide Wanted, Waits;
    forall q: nat | q < |s.proc| && i <= q && Waits(s', q, ch) ensures Owed(s', q, ch) {
      assert s'.proc[p].pc.Wake? && s'.proc[p].pc.ch == ch && s'.proc[p].pc.i <= q;
    }
    LostFrame(s, s', p);
  }

  lemma WakeWaits(s: State, p: nat, s': State)
    requires Shape(s) && p < |s.proc| && s.proc[p].pc.Wake? && PcOk(s, p) && StateOk(s.proc[p]) && GoWake(s, p, s')
    requires var i := s.proc[p].pc.i; i < |s.proc| && s.plock[i].NoOne? ==> s.proc[i].pc != Sleep2(s.proc[p].pc.ch)
    ensures forall q: nat, c: Chan ::
              q < |s.proc| && Waits(s', q, c) ==> Waits(s, q, c) && !(q == s.proc[p].pc.i && c == s.proc[p].pc.ch)
  {}

  /** Having passed slot i, nobody up to it waits; having passed all, nobody does. */
  lemma WakeSelf(s: State, p: nat, s': State)
    requires Shape(s) && p < |s.proc| && s.proc[p].pc.Wake? && PcOk(s, p) && GoWake(s, p, s') && Duty(s, p)
    requires forall q: nat, c: Chan ::
               q < |s.proc| && Waits(s', q, c) ==> Waits(s, q, c) && !(q == s.proc[p].pc.i && c == s.proc[p].pc.ch)
    ensures Duty(s', p)
  {
    hide Waits;
  }

  lemma WakeWanted(s: State, p: nat, s': State, c: Chan)
    requires Shape(s) && p < |s.proc| && s.proc[p].pc.Wake? && GoWake(s, p, s') && Wanted(s', c)
    ensures Wanted(s, c)
  {
    if c.Kid? {
      var j: nat :| j < |s'.proc| && ZombieChild(s', j, c.p);
      assert ZombieChild(s, j, c.p);
    }
  }

  lemma WakeDuty(s: State, p: nat, s': State, x: nat)
    requires Shape(s) && p < |s.proc| && s.proc[p].pc.Wake? && PcOk(s, p) && StateOk(s.proc[p]) && GoWake(s, p, s')
    requires x < |s.proc| && x != p && Duty(s, x)
    ensures Duty(s', x)
  {
    forall q: nat, c: Chan | q < |s.proc| && Waits(s', q, c) ensures Waits(s, q, c) {}
    forall j: nat, y: nat | j < |s.proc| ensures ZombieChild(s', j, y) == ZombieChild(s, j, y) {}
  }

  lemma GoLost(s: State, c: nat, s': State)
    requires Inv3(s) && c < |s.cpu| && s.cpu[c].Running? && s.cpu[c].p < |s.proc| && Go(s, c, s.cpu[c].p, s')
    ensures Duties(s') && NoLost(s')
  {
    hide GoSwitch, GoCond, GoCheck, GoWake, GoFork, SlotLocks, CondLocks, Threads, Forks, CpuOk, OneCpu, Duties, NoLost;
    OnCpu(s, c);
    var p := s.cpu[c].p;
    var pc := s.proc[p].pc;
    if pc.Exit1? { Exit1Lost(s, p, s'); }
    else if pc.Reparent? {
      if pc.i < |s.proc| && s.proc[pc.i].parent == Some(p) { AdoptLost(s, p, pc.i, s'); } else {
        ReparentLost(s, p, s');
      }
    }
    else if pc.Look? {
      SlotHeldBy(s, p, pc.i);
      if s.proc[pc.i].state.ZOMBIE? { OffCpu(s, p, pc.i); }
      LookLost(s, p, s');
    }
    else if pc.Check? || pc.Scan? { CheckLost(s, p, s'); }
    else if pc.Wake? { WakeLost(s, p, s'); }
    else if pc.Sleep1? { Sleep1Lost(s, p, s'); }
    else if pc.Relock? || pc.Unlock? || pc.Exit2? { CondLost(s, p, s'); }
    else if pc.Fork1? || pc.Fork2? || pc.Fork3? { SlotState(s, pc.np); ForkLost(s, p, s'); }
    else { SwitchLost(s, c, p, s'); }
  }

  lemma SlotState(s: State, x: nat)
    requires Inv1(s)
    ensures x < |s.proc| ==> StateOk(s.proc[x])
  {}

  lemma BeginLost(s: State, c: nat, s': State)
    requires Inv3(s) && c < |s.cpu| && s.cpu[c].Running? && s.cpu[c].p < |s.proc| && s.proc[s.cpu[c].p].pc.Idle?
    requires Begin(s, s.cpu[c].p, s')
    ensures Duties(s') && NoLost(s')
  {
    hide BeginFork, Kill, BeginChange, SlotLocks, CondLocks, Threads, Forks, CpuOk, OneCpu, Family, Duties, NoLost;
    OnCpu(s, c);
    var p := s.cpu[c].p;
    if np: nat :| np < |s.proc| && BeginFork(s, p, np, s') { SlotState(s, np); BeginForkLost(s, p, np, s'); }
    else if q: nat :| q < |s.proc| && Kill(s, p, q, s') { KillLost(s, p, q, s'); }
    else if k: nat :| k < |s.slk| && BeginChange(s, p, k, s') { ChangeLost(s, p, k, s'); }
    else { OwnQuiet(s, s', p); QuietInv(s, s', p); }
  }

  lemma BeginForkLost(s: State, p: nat, np: nat, s': State)
    requires Shape(s) && p < |s.proc| && np < |s.proc| && Duties(s) && NoLost(s) && s.proc[p].pc.Idle?
    requires StateOk(s.proc[p]) && StateOk(s.proc[np]) && BeginFork(s, p, np, s')
    ensures Duties(s') && NoLost(s')
  {
    hide Duties, NoLost;
    assert Quiet(s, s', p);
    QuietInv(s, s', p);
  }

  lemma KillLost(s: State, p: nat, q: nat, s': State)
    requires Shape(s) && p < |s.proc| && q < |s.proc| && Duties(s) && NoLost(s) && s.proc[p].pc.Idle?
    requires StateOk(s.proc[p]) && Kill(s, p, q, s')
    ensures Duties(s') && NoLost(s')
  {
    hide Duties, NoLost;
    assert Quiet(s, s', p);
    QuietInv(s, s', p);
  }

  lemma StepInv3(s: State, a: Label, s': State)
    requires Inv3(s) && Step(s, a, s')
    ensures Inv3(s')
  {
    hide Go, Begin, Inv2, Duties, NoLost;
    StepInv2(s, a, s');
    match a
    case LPick(c, p) => PickLost(s, c, p, s');
    case LPut(c) => PutLost(s, c, s');
    case LRun(c) =>
      var p := s.cpu[c].p;
      if s.proc[p].pc.Idle? && Begin(s, p, s') { BeginLost(s, c, s'); }
      else if Preempt(s, p, s') { CurrentState(s, c); PreemptLost(s, p, s'); }
      else { GoLost(s, c, s'); }
  }

  lemma CurrentState(s: State, c: nat)
    requires Inv2(s) && c < |s.cpu| && s.cpu[c].Running?
    ensures s.cpu[c].p < |s.proc| && StateOk(s.proc[s.cpu[c].p]) && Shape(s)
  {
    OnCpu(s, c);
  }

  // ---------- whole runs ----------

  /** After userinit: init is runnable, all other slots are unused, no lock is held. */
  ghost predicate Init(s: State) {
    && Shape(s)
    && (forall x ::
          0 <= x < |s.proc| ==>
            s.proc[x] == Proc(if x == 0 then RUNNABLE else UNUSED, NoChan, None, Fresh, 0, 0) && s.plock[x].NoOne?)
    && s.wait.None?
    && (forall k :: 0 <= k < |s.slk| ==> s.slk[k].None? && (s.cell[k].SleepLock? ==> s.cell[k].holder.None?))
    && (forall c :: 0 <= c < |s.cpu| ==> s.cpu[c].Sched?)
  }

  ghost predicate Run(ss: seq<State>, labels: seq<Label>) {
    |ss| == |labels| + 1 && Init(ss[0]) && forall i :: 0 <= i < |labels| ==> Step(ss[i], labels[i], ss[i + 1])
  }

  lemma InitInv(s: State)
    requires Init(s)
    ensures Inv3(s)
  {
    forall x: nat | x < |s.proc| ensures PcOk(s, x) && StateOk(s.proc[x]) && Duty(s, x) {}
    forall l: Lock | LockIn(s, l) ensures Holder(s, l).None? {}
    forall q: nat, ch: Chan | q < |s.proc| ensures !Waits(s, q, ch) {}
  }

  lemma RunParts(ss: seq<State>, labels: seq<Label>, i: nat)
    requires Run(ss, labels) && i < |ss|
    ensures Init(ss[0]) && |ss| == |labels| + 1 && (i > 0 ==> Step(ss[i - 1], labels[i - 1], ss[i]))
  {
    hide Init, Step;
  }

  lemma {:induction false} RunInv(ss: seq<State>, labels: seq<Label>, i: nat)
    requires Run(ss, labels) && i < |ss|
    ensures Inv3(ss[i])
  {
    hide Run, Init, Step, Inv3;
    RunParts(ss, labels, i);
    if i == 0 {
      InitInv(ss[0]);
    } else {
      RunInv(ss, labels, i - 1);
      StepInv3(ss[i - 1], labels[i - 1], ss[i]);
    }
  }

  lemma ThreadFacts(s: State, x: nat)
    requires Inv1(s) && x < |s.proc|
    ensures PcOk(s, x) && StateOk(s.proc[x]) && Shape(s)
  {}

  lemma SleeperOwed(s: State, q: nat)
    requires Inv3(s) && q < |s.proc| && s.proc[q].state.SLEEPING?
    ensures ChanOk(s, q, s.proc[q].chan)
    ensures LockIn(s, LockOf(s.proc[q].chan))
    ensures (Holder(s, LockOf(s.proc[q].chan)).None? ==> !Wanted(s, s.proc[q].chan))
  {
    hide SlotLocks, CondLocks, Threads, Forks, CpuOk, OneCpu, Family, Duties, Wanted;
    ThreadFacts(s, q);
    var ch := s.proc[q].chan;
    assert Waits(s, q, ch);
    if Wanted(s, ch) {
      var x: nat :| x < |s.proc| && s.proc[x].pc.Wake? && s.proc[x].pc.ch == ch && s.proc[x].pc.i <= q;
      HeldBy(s, x, LockOf(ch));
    }
  }

  /** No lost wakeup. In every reachable state in which the condition lock is free, nobody sleeps on
      data whose condition holds, whatever the data and the condition, and nobody sleeps in wait
      with an exited child. */
  lemma NoLostWakeup(ss: seq<State>, labels: seq<Label>, i: nat, q: nat)
    requires Run(ss, labels) && i < |ss| && q < |ss[i].proc|
    ensures ss[i].proc[q].state.SLEEPING? && ss[i].proc[q].chan.Lk? ==>
            var k := ss[i].proc[q].chan.k;
            k < |ss[i].slk| == |ss[i].cell| && (ss[i].slk[k].None? ==> !Ready(ss[i].cell[k]))
    ensures ss[i].proc[q].state.SLEEPING? && ss[i].proc[q].chan.Kid? && ss[i].wait.None? ==>
            ss[i].proc[q].chan == Kid(q) && forall j: nat :: j < |ss[i].proc| ==> !ZombieChild(ss[i], j, q)
  {
    RunInv(ss, labels, i);
    hide Run, SlotLocks, CondLocks, Threads, Forks, CpuOk, OneCpu, Family, Duties, NoLost;
    if ss[i].proc[q].state.SLEEPING? { SleeperOwed(ss[i], q); }
  }

  /** Nobody sleeps on a free sleep lock. */
  lemma SleepLockWakes(ss: seq<State>, labels: seq<Label>, i: nat, q: nat, k: nat)
    requires Run(ss, labels) && i < |ss| && q < |ss[i].proc| && k < |ss[i].slk| == |ss[i].cell|
    requires ss[i].cell[k].SleepLock?
    requires ss[i].proc[q].state.SLEEPING? && ss[i].proc[q].chan == Lk(k) && ss[i].slk[k].None?
    ensures ss[i].cell[k].holder.Some?
  {
    hide Run;
    NoLostWakeup(ss, labels, i, q);
  }

  // The log as such data: committing, outstanding and lh.n, under log.lock.

  function LogValue(committing: bool, outstanding: nat, n: nat): seq<int> {
    [if committing then 1 else 0, outstanding, n]
  }

  /** begin_op goes on. */
  ghost function LogGood(): iset<seq<int>> {
    iset v: seq<int> | |v| == 3 && v[0] == 0 && v[2] + (v[1] + 1) * LogMachine.MAXOPBLOCKS <= LogMachine.LOGSIZE
  }

  ghost predicate IsLog(g: Cell, committing: bool, outstanding: nat, n: nat) {
    g == Data(LogValue(committing, outstanding, n), LogGood())
  }

  /** Nobody sleeps in begin_op that could go on. */
  lemma BeginOpWakes(ss: seq<State>, labels: seq<Label>, i: nat, q: nat, k: nat, committing: bool, outstanding: nat,
                     n: nat)
    requires Run(ss, labels) && i < |ss| && q < |ss[i].proc| && k < |ss[i].slk| == |ss[i].cell|
    requires IsLog(ss[i].cell[k], committing, outstanding, n)
    requires ss[i].proc[q].state.SLEEPING? && ss[i].proc[q].chan == Lk(k) && ss[i].slk[k].None?
    ensures committing || n + (outstanding + 1) * LogMachine.MAXOPBLOCKS > LogMachine.LOGSIZE
  {
    hide Run;
    NoLostWakeup(ss, labels, i, q);
    assert !Ready(ss[i].cell[k]);
  }

  /** The log's critical sections that do not wake anyone make begin_op's condition true for nobody:
      log_write, which only adds blocks, and the end_op that goes on to commit. The others, an end_op
      that leaves operations behind and the end of a commit, wake. */
  lemma LogSectionsQuiet(g: Cell, g': Cell, committing: bool, outstanding: nat, n: nat, more: nat)
    requires IsLog(g, committing, outstanding, n)
    requires || IsLog(g', committing, outstanding, n + more) || IsLog(g', true, outstanding, n)
             || (outstanding > 0 && IsLog(g', true, outstanding - 1, n))
    ensures forall p :: Changed(g, p, g')
    ensures Ready(g') ==> Ready(g)
  {}

  /** No two CPUs ever have the same current process. */
  lemma OneCpuEach(ss: seq<State>, labels: seq<Label>, i: nat, c: nat, d: nat)
    requires Run(ss, labels) && i < |ss| && c < |ss[i].cpu| && d < |ss[i].cpu| && c != d && Cur(ss[i], c).Some?
    ensures Cur(ss[i], c) != Cur(ss[i], d)
  {
    RunInv(ss, labels, i);
  }

  lemma BeginReaps(s: State, p: nat, s': State, q: nat)
    requires Shape(s) && p < |s.proc| && q < |s.proc| && Begin(s, p, s')
    ensures |s'.proc| == |s.proc| && s'.proc[q].reaps == s.proc[q].reaps
  {}

  lemma CheckReaps(s: State, p: nat, s': State, q: nat)
    requires Shape(s) && p < |s.proc| && q < |s.proc| && GoCheck(s, p, s')
    ensures |s'.proc| == |s.proc|
    ensures || s'.proc[q].reaps == s.proc[q].reaps
            || (&& s'.proc[q].reaps == s.proc[q].reaps + 1 && s.proc[p].pc.Look? && s.proc[p].pc.i == q
                && s.proc[q].state.ZOMBIE? && s'.proc[q].state.UNUSED? && s'.proc[q].parent.None?
                && q < |s'.plock| && s'.plock[q].NoOne?)
  {}

  lemma OtherReaps(s: State, c: nat, p: nat, s': State, q: nat)
    requires Shape(s) && c < |s.cpu| && p < |s.proc| && q < |s.proc|
    requires || GoSwitch(s, c, p, s') || GoCond(s, p, s') || GoExit(s, p, s') || GoFork(s, p, s')
             || (s.proc[p].pc.Wake? && GoWake(s, p, s'))
    ensures |s'.proc| == |s.proc| && s'.proc[q].reaps == s.proc[q].reaps
  {}

  lemma GoReaps(s: State, c: nat, p: nat, s': State, q: nat)
    requires Shape(s) && c < |s.cpu| && p < |s.proc| && q < |s.proc| && Go(s, c, p, s')
    ensures |s'.proc| == |s.proc|
    ensures || s'.proc[q].reaps == s.proc[q].reaps
            || (&& s'.proc[q].reaps == s.proc[q].reaps + 1 && s.proc[p].pc.Look? && s.proc[p].pc.i == q
                && s.proc[q].state.ZOMBIE? && s'.proc[q].state.UNUSED? && s'.proc[q].parent.None?
                && q < |s'.plock| && s'.plock[q].NoOne?)
  {
    hide GoCheck, GoSwitch, GoCond, GoWake, GoExit, GoFork;
    var pc := s.proc[p].pc;
    if pc.Check? || pc.Scan? || pc.Look? { CheckReaps(s, p, s', q); } else { OtherReaps(s, c, p, s', q); }
  }

  /** Only wait, looking at a zombie child, reaps. */
  lemma WhoReaps(s: State, a: Label, s': State, q: nat)
    requires Step(s, a, s') && q < |s.proc| && q < |s'.proc| && s'.proc[q].reaps > s.proc[q].reaps
    ensures a.LRun? && a.c < |s.cpu| && s.cpu[a.c].Running? && s.cpu[a.c].p < |s.proc|
    ensures s'.proc[q].reaps == s.proc[q].reaps + 1
    ensures var p := s.cpu[a.c].p; s.proc[p].pc.Look? && s.proc[p].pc.i == q && s.proc[q].state.ZOMBIE?
    ensures s'.proc[q].state.UNUSED? && s'.proc[q].parent.None? && q < |s'.plock| && s'.plock[q].NoOne?
  {
    hide Go, Begin;
    if a.LRun? {
      var p := s.cpu[a.c].p;
      if s.proc[p].pc.Idle? && Begin(s, p, s') { BeginReaps(s, p, s', q); }
      else if !Preempt(s, p, s') { GoReaps(s, a.c, p, s', q); }
    }
  }

  /** wait frees a child's slot only when the child has left its kernel stack: the slot was a zombie,
      it was no CPU's current process, and its thread had switched away for good. The slot is then
      free for a new process. */
  lemma ReapedOffStack(ss: seq<State>, labels: seq<Label>, i: nat, q: nat)
    requires Run(ss, labels) && i + 1 < |ss| && q < |ss[i].proc| && q < |ss[i + 1].proc|
    requires ss[i + 1].proc[q].reaps > ss[i].proc[q].reaps
    ensures ss[i].proc[q].state.ZOMBIE? && ss[i].proc[q].pc.Dead?
    ensures forall c: nat :: c < |ss[i].cpu| ==> Cur(ss[i], c) != Some(q)
    ensures ss[i + 1].proc[q].reaps == ss[i].proc[q].reaps + 1
    ensures ss[i + 1].proc[q].state.UNUSED? && ss[i + 1].proc[q].parent.None? && q < |ss[i + 1].plock|
    ensures ss[i + 1].plock[q].NoOne?
  {
    RunInv(ss, labels, i);
    assert Step(ss[i], labels[i], ss[i + 1]);
    hide Run, Step, SlotLocks, CondLocks, Threads, Forks, CpuOk, OneCpu, Family, Duties, NoLost;
    WhoReaps(ss[i], labels[i], ss[i + 1], q);
    OffStack(ss[i], ss[i].cpu[labels[i].c].p, q);
  }

  lemma OffStack(s: State, p: nat, q: nat)
    requires Inv1(s) && p < |s.proc| && q < |s.proc| && s.proc[p].pc.Look? && s.proc[p].pc.i == q
    requires s.proc[q].state.ZOMBIE?
    ensures s.proc[q].pc.Dead? && forall c: nat :: c < |s.cpu| ==> Cur(s, c) != Some(q)
  {
    hide SlotLocks, CondLocks, Threads, Forks, CpuOk, OneCpu;
    ThreadFacts(s, p);
    ThreadFacts(s, q);
    SlotHeldBy(s, p, q);
    OffCpu(s, p, q);
  }

  /** A process is reaped at most once for each time it exits. */
  lemma ReapedOnce(ss: seq<State>, labels: seq<Label>, i: nat, q: nat)
    requires Run(ss, labels) && i < |ss| && q < |ss[i].proc|
    ensures ss[i].proc[q].exits == ss[i].proc[q].reaps + (if ss[i].proc[q].state.ZOMBIE? then 1 else 0)
  {
    RunInv(ss, labels, i);
    assert StateOk(ss[i].proc[q]);
  }

  /** Nobody's parent is dead: the children of a process that has exited belong to init. */
  lemma NoOrphans(ss: seq<State>, labels: seq<Label>, i: nat, q: nat)
    requires Run(ss, labels) && i < |ss| && q < |ss[i].proc| && ss[i].proc[q].parent.Some?
    ensures var p := ss[i].proc[q].parent.value; p < |ss[i].proc| && p != q && Alive(ss[i].proc[p].state)
    ensures Alive(ss[i].proc[0].state)
  {
    RunInv(ss, labels, i);
  }

  /** How a step may change the record of slot q: while q is not reaped its parent stays, or
      becomes init; and a process whose exits are counted is a zombie. */
  ghost predicate Kept(x: Proc, x': Proc) {
    && (x'.reaps == x.reaps || x'.reaps == x.reaps + 1)
    && (x.parent.Some? && x'.reaps == x.reaps ==> x'.parent == x.parent || x'.parent == Some(0))
    && (x'.exits == x.exits || x'.state.ZOMBIE?)
  }

  lemma BeginKept(s: State, p: nat, s': State, q: nat)
    requires Inv1(s) && p < |s.proc| && q < |s.proc| && Begin(s, p, s')
    ensures |s'.proc| == |s.proc| && Kept(s.proc[q], s'.proc[q])
  {
    hide SlotLocks, CondLocks, Forks, CpuOk, OneCpu;
  }

  lemma ForkKept(s: State, p: nat, s': State, q: nat)
    requires Inv1(s) && p < |s.proc| && q < |s.proc| && GoFork(s, p, s')
    ensures |s'.proc| == |s.proc| && Kept(s.proc[q], s'.proc[q])
  {
    hide SlotLocks, CondLocks, Forks, CpuOk, OneCpu, Threads;
    ThreadFacts(s, p);
  }

  lemma CheckKept(s: State, p: nat, s': State, q: nat)
    requires Shape(s) && p < |s.proc| && q < |s.proc| && GoCheck(s, p, s')
    ensures |s'.proc| == |s.proc| && Kept(s.proc[q], s'.proc[q])
  {}

  lemma ExitKept(s: State, p: nat, s': State, q: nat)
    requires Shape(s) && p < |s.proc| && q < |s.proc| && GoExit(s, p, s')
    ensures |s'.proc| == |s.proc| && Kept(s.proc[q], s'.proc[q])
  {}

  lemma WakeKept(s: State, p: nat, s': State, q: nat)
    requires Shape(s) && p < |s.proc| && q < |s.proc| && s.proc[p].pc.Wake? && GoWake(s, p, s')
    ensures |s'.proc| == |s.proc| && Kept(s.proc[q], s'.proc[q])
  {}

  lemma SwitchKept(s: State, c: nat, p: nat, s': State, q: nat)
    requires Shape(s) && c < |s.cpu| && p < |s.proc| && q < |s.proc| && (GoSwitch(s, c, p, s') || GoCond(s, p, s'))
    ensures |s'.proc| == |s.proc| && Kept(s.proc[q], s'.proc[q])
  {}

  lemma GoKept(s: State, c: nat, p: nat, s': State, q: nat)
    requires Inv1(s) && c < |s.cpu| && p < |s.proc| && q < |s.proc| && Go(s, c, p, s')
    ensures |s'.proc| == |s.proc| && Kept(s.proc[q], s'.proc[q])
  {
    hide SlotLocks, CondLocks, Threads, Forks, CpuOk, OneCpu, GoFork, GoCheck, GoExit, GoWake, GoSwitch, GoCond, Kept;
    if GoSwitch(s, c, p, s') || GoCond(s, p, s') { SwitchKept(s, c, p, s', q); }
    else if GoCheck(s, p, s') { CheckKept(s, p, s', q); }
    else if GoExit(s, p, s') { ExitKept(s, p, s', q); }
    else if GoFork(s, p, s') { ForkKept(s, p, s', q); }
    else { WakeKept(s, p, s', q); }
  }

  lemma StepKept(s: State, a: Label, s': State, q: nat)
    requires Inv1(s) && Step(s, a, s') && q < |s.proc|
    ensures |s'.proc| == |s.proc| && Kept(s.proc[q], s'.proc[q])
  {
    hide Go, Begin, SlotLocks, CondLocks, Threads, Forks, CpuOk, OneCpu;
    if a.LRun? {
      var p := s.cpu[a.c].p;
      if s.proc[p].pc.Idle? && Begin(s, p, s') { BeginKept(s, p, s', q); }
      else if !Preempt(s, p, s') { GoKept(s, a.c, p, s', q); }
    }
  }

  lemma KeptParts(x: Proc, x': Proc)
    requires Kept(x, x')
    ensures x'.reaps >= x.reaps
    ensures (x.parent.Some? && x'.reaps == x.reaps ==> x'.parent == x.parent || x'.parent == Some(0))
    ensures x'.exits == x.exits || x'.state.ZOMBIE?
  {}

  lemma RunStep(ss: seq<State>, labels: seq<Label>, i: nat)
    requires Run(ss, labels) && i + 1 < |ss|
    ensures i < |labels| && Inv1(ss[i]) && Step(ss[i], labels[i], ss[i + 1])
  {
    hide Step, Inv1;
    RunInv(ss, labels, i);
  }

  lemma {:induction false} KeptSlots(ss: seq<State>, labels: seq<Label>, i: nat, j: nat, q: nat)
    requires Run(ss, labels) && i <= j < |ss| && q < |ss[i].proc|
    ensures |ss[j].proc| == |ss[i].proc| && ss[j].proc[q].reaps >= ss[i].proc[q].reaps
    decreases j
  {
    hide Run, Step, Inv1, Kept;
    if i < j {
      RunStep(ss, labels, j - 1);
      KeptSlots(ss, labels, i, j - 1, q);
      StepKept(ss[j - 1], labels[j - 1], ss[j], q);
      KeptParts(ss[j - 1].proc[q], ss[j].proc[q]);
    }
  }

  /** A child that outlives its parent is init's: from the parent's exit until the child is reaped. */
  lemma {:induction false} AdoptedByInit(ss: seq<State>, labels: seq<Label>, i: nat, j: nat, q: nat, p: nat)
    requires Run(ss, labels) && i <= j < |ss| && q < |ss[i].proc| == |ss[j].proc| && p < |ss[i].proc|
    requires ss[i].proc[q].parent == Some(p) && ss[j].proc[q].reaps == ss[i].proc[q].reaps
    ensures ss[j].proc[q].parent == Some(p) || ss[j].proc[q].parent == Some(0)
    ensures ss[j].proc[p].exits != ss[i].proc[p].exits ==> ss[j].proc[q].parent == Some(0)
    decreases j
  {
    hide Run, Step, Inv1, Kept;
    if i < j {
      RunStep(ss, labels, j - 1);
      KeptSlots(ss, labels, i, j - 1, q);
      StepKept(ss[j - 1], labels[j - 1], ss[j], q);
      StepKept(ss[j - 1], labels[j - 1], ss[j], p);
      KeptParts(ss[j - 1].proc[q], ss[j].proc[q]);
      KeptParts(ss[j - 1].proc[p], ss[j].proc[p]);
      AdoptedByInit(ss, labels, i, j - 1, q, p);
      if ss[j].proc[q].parent == Some(p) { NoOrphans(ss, labels, j, q); }
    }
  }

  /** A sleep lock that somebody holds stays theirs until they release it. */
  lemma SleepLockExclusive(s: State, a: Label, s': State, k: nat, p: nat)
    requires Step(s, a, s') && k < |s.cell| && k < |s'.cell| && s.cell[k] == SleepLock(Some(p))
    requires s'.cell[k] != s.cell[k]
    ensures s'.cell[k] == SleepLock(None) && a.LRun? && a.c < |s.cpu| && s.cpu[a.c] == Running(p)
  {
    hide Go, Begin;
    if a.LRun? {
      var x := s.cpu[a.c].p;
      if s.proc[x].pc.Idle? && Begin(s, x, s') { BeginCell(s, x, s', k); }
      else if !Preempt(s, x, s') { GoCell(s, a.c, x, s', k); }
    }
  }

  lemma BeginCell(s: State, p: nat, s': State, k: nat)
    requires Shape(s) && p < |s.proc| && k < |s.cell| && Begin(s, p, s')
    ensures |s'.cell| == |s.cell| && (s'.cell[k] == s.cell[k] || Changed(s.cell[k], p, s'.cell[k]))
  {}

  lemma GoCell(s: State, c: nat, p: nat, s': State, k: nat)
    requires Shape(s) && c < |s.cpu| && p < |s.proc| && k < |s.cell| && !Ready(s.cell[k]) && Go(s, c, p, s')
    ensures |s'.cell| == |s.cell| && s'.cell[k] == s.cell[k]
  {}

  /** A thread about to enter the scheduler holds its own lock and no other, and is not RUNNING when it
      switches, so the checks at the head of sched() cannot fail. (A thread going to sleep changes its
      state in the step that switches.) */
  lemma SchedHoldsOwnLock(ss: seq<State>, labels: seq<Label>, i: nat, p: nat)
    requires Run(ss, labels) && i < |ss| && p < |ss[i].proc|
    requires ss[i].proc[p].pc.Yield1? || ss[i].proc[p].pc.Sleep2? || ss[i].proc[p].pc.Exit3?
    ensures |ss[i].plock| == |ss[i].proc| && ss[i].plock[p] == Thread(p)
    ensures forall r: nat :: r < |ss[i].proc| && r != p ==> ss[i].plock[r] != Thread(p)
    ensures forall l :: LockIn(ss[i], l) ==> Holder(ss[i], l) != Some(p)
    ensures !ss[i].proc[p].pc.Sleep2? ==> !ss[i].proc[p].state.RUNNING?
    ensures i + 1 < |ss| ==> p < |ss[i + 1].proc|
    ensures i + 1 < |ss| && !Active(ss[i + 1].proc[p].pc) ==> !ss[i + 1].proc[p].state.RUNNING?
  {
    hide Run, Step, Inv1, PcOk, StateOk;
    RunInv1(ss, labels, i);
    OwnLockOnly(ss[i], p);
    if i + 1 < |ss| {
      RunInv1(ss, labels, i + 1);
      RunStep(ss, labels, i);
      StepKept(ss[i], labels[i], ss[i + 1], p);
      OffCpuState(ss[i + 1], p);
    }
  }

  lemma RunInv1(ss: seq<State>, labels: seq<Label>, i: nat)
    requires Run(ss, labels) && i < |ss|
    ensures Inv1(ss[i])
  {
    hide Run, Inv1;
    RunInv(ss, labels, i);
  }

  lemma OffCpuState(s: State, p: nat)
    requires Inv1(s) && p < |s.proc|
    ensures !Active(s.proc[p].pc) ==> !s.proc[p].state.RUNNING?
  {
    hide Inv1, PcOk;
    ThreadFacts(s, p);
  }

  lemma OwnLockOnly(s: State, p: nat)
    requires Inv1(s) && p < |s.proc| && (s.proc[p].pc.Yield1? || s.proc[p].pc.Sleep2? || s.proc[p].pc.Exit3?)
    ensures |s.plock| == |s.proc| && s.plock[p] == Thread(p)
    ensures forall r: nat :: r < |s.proc| && r != p ==> s.plock[r] != Thread(p)
    ensures forall l :: LockIn(s, l) ==> Holder(s, l) != Some(p)
    ensures !s.proc[p].pc.Sleep2? ==> !s.proc[p].state.RUNNING?
  {
    hide SlotLocks, CondLocks, Threads, Forks, CpuOk, OneCpu;
    ThreadFacts(s, p);
    forall r: nat | r < |s.proc|
      ensures s.plock[r] == Thread(p) <==> HoldsSlot(s.proc[p].pc, p, r) { SlotHeldBy(s, p, r); }
    forall l | LockIn(s, l) ensures Holder(s, l) != Some(p) { HeldBy(s, p, l); }
  }

  // ---------- the life of a slot ----------

  /** The one way thread p may change the state of slot q. */
  ghost predicate ChangedBy(s: State, p: nat, q: nat, s': State)
    requires Shape(s) && Shape(s') && p < |s.proc| && q < |s.proc| == |s'.proc|
  {
    var x, x', pc := s.proc[q], s'.proc[q], s.proc[p].pc;
    match (x.state, x'.state)
    case (UNUSED, USED) => pc.Idle? && s'.proc[p].pc == Fork1(q) && s'.plock[q] == Thread(p) && x'.parent.None?
    case (USED, UNUSED) => pc == Fork1(q) && s'.proc[p].pc.Idle? && s'.plock[q].NoOne? && x'.parent.None?
    case (USED, RUNNABLE) => pc == Fork3(q) && s'.proc[p].pc.Idle? && x'.parent == Some(p) && x'.pc.Fresh?
    case (RUNNING, RUNNABLE) => p == q && x'.pc == Yield1(pc) && s'.plock[q] == Thread(p)
    case (RUNNING, SLEEPING) => p == q && pc == Sleep2(x'.chan) && x'.pc == Parked(Relock(x'.chan))
    case (SLEEPING, RUNNABLE) => p != q && (pc.Idle? || (pc.Wake? && pc.ch == x.chan && pc.i == q))
    case (RUNNING, ZOMBIE) => p == q && pc.Exit1? && x'.exits == x.exits + 1
    case (ZOMBIE, UNUSED) => pc.Look? && pc.i == q && x.parent == Some(p) && x'.parent.None? && x'.reaps == x.reaps + 1
    case _ => false
  }

  /** The state of slot q stays, or the scheduler picks a runnable process for an idle CPU, or the
      thread running on the CPU that steps changes it in one of the ways above. */
  ghost predicate Life(s: State, a: Label, s': State, q: nat)
    requires Shape(s) && Shape(s') && q < |s.proc| == |s'.proc|
  {
    || s'.proc[q].state == s.proc[q].state
    || (&& a.LPick? && a.p == q && s.proc[q].state.RUNNABLE? && s'.proc[q].state.RUNNING?
        && a.c < |s.cpu| == |s'.cpu| && s.cpu[a.c].Sched? && s'.cpu[a.c] == Running(q))
    || (&& a.LRun? && a.c < |s.cpu| && s.cpu[a.c].Running? && s.cpu[a.c].p < |s.proc|
        && ChangedBy(s, s.cpu[a.c].p, q, s'))
  }

  /** What a step of thread p may do to the state of slot q. */
  ghost predicate LifeBy(s: State, p: nat, s': State, q: nat)
    requires Shape(s) && p < |s.proc| && q < |s.proc|
  { Shape(s') && |s'.proc| == |s.proc| && (s'.proc[q].state == s.proc[q].state || ChangedBy(s, p, q, s')) }

  lemma BeginLife(s: State, p: nat, s': State, q: nat)
    requires Inv1(s) && p < |s.proc| && q < |s.proc| && s.proc[p].pc.Idle? && Begin(s, p, s')
    ensures LifeBy(s, p, s', q)
  {
    hide SlotLocks, CondLocks, Forks, CpuOk, OneCpu, Threads;
    ThreadFacts(s, q);
    ThreadFacts(s, p);
  }

  lemma SwitchLife(s: State, c: nat, p: nat, s': State, q: nat)
    requires Inv1(s) && c < |s.cpu| && p < |s.proc| && q < |s.proc|
    requires GoSwitch(s, c, p, s') || GoCond(s, p, s') || (s.proc[p].pc.Wake? && GoWake(s, p, s'))
    ensures LifeBy(s, p, s', q)
  {
    hide SlotLocks, CondLocks, Forks, CpuOk, OneCpu, Threads;
    ThreadFacts(s, p);
  }

  lemma CheckLife(s: State, p: nat, s': State, q: nat)
    requires Inv1(s) && p < |s.proc| && q < |s.proc| && GoCheck(s, p, s')
    ensures LifeBy(s, p, s', q)
  {
    hide SlotLocks, CondLocks, Forks, CpuOk, OneCpu, Threads;
    ThreadFacts(s, p);
  }

  lemma ForkLife(s: State, p: nat, s': State, q: nat)
    requires Inv1(s) && p < |s.proc| && q < |s.proc| && (GoFork(s, p, s') || GoExit(s, p, s'))
    ensures LifeBy(s, p, s', q)
  {
    hide SlotLocks, CondLocks, Forks, CpuOk, OneCpu, Threads;
    ThreadFacts(s, q);
    ThreadFacts(s, p);
  }

  lemma GoLife(s: State, c: nat, p: nat, s': State, q: nat)
    requires Inv1(s) && c < |s.cpu| && p < |s.proc| && q < |s.proc| && Go(s, c, p, s')
    ensures LifeBy(s, p, s', q)
  {
    hide SlotLocks, CondLocks, Threads, Forks, CpuOk, OneCpu, GoFork, GoCheck, GoExit, GoWake, GoSwitch, GoCond, LifeBy;
    if GoFork(s, p, s') || GoExit(s, p, s') { ForkLife(s, p, s', q); }
    else if GoCheck(s, p, s') { CheckLife(s, p, s', q); }
    else { SwitchLife(s, c, p, s', q); }
  }

  lemma StepLife(s: State, a: Label, s': State, q: nat)
    requires Inv1(s) && Step(s, a, s') && q < |s.proc|
    ensures Shape(s') && |s'.proc| == |s.proc| && Life(s, a, s', q)
  {
    hide Go, Begin, SlotLocks, CondLocks, Threads, Forks, CpuOk, OneCpu;
    if a.LRun? {
      var p := s.cpu[a.c].p;
      ThreadFacts(s, p);
      if s.proc[p].pc.Idle? && Begin(s, p, s') { BeginLife(s, p, s', q); }
      else if !Preempt(s, p, s') { GoLife(s, a.c, p, s', q); }
    }
  }

  /** In every run each slot goes round the one cycle of states, each change made by the thread and at
      the place that may make it. */
  lemma LifeCycle(ss: seq<State>, labels: seq<Label>, i: nat, q: nat)
    requires Run(ss, labels) && i + 1 < |ss| && q < |ss[i].proc|
    ensures Shape(ss[i]) && Shape(ss[i + 1]) && |ss[i + 1].proc| == |ss[i].proc|
    ensures Life(ss[i], labels[i], ss[i + 1], q)
  {
    hide Run, Step, Life, SlotLocks, CondLocks, Threads, Forks, CpuOk, OneCpu;
    RunStep(ss, labels, i);
    StepLife(ss[i], labels[i], ss[i + 1], q);
  }

  /** A free slot whose lock is free can be forked into by any thread that has nothing to finish. */
  lemma SlotReused(ss: seq<State>, labels: seq<Label>, i: nat, c: nat, p: nat, np: nat)
    requires Run(ss, labels) && i < |ss| && c < |ss[i].cpu| && ss[i].cpu[c] == Running(p) && p < |ss[i].proc|
    requires ss[i].proc[p].pc.Idle? && np < |ss[i].proc| && ss[i].proc[np].state.UNUSED?
    requires np < |ss[i].plock| && ss[i].plock[np].NoOne?
    ensures exists s' ::
              && Step(ss[i], LRun(c), s') && |s'.proc| == |ss[i].proc| && s'.proc[p].pc == Fork1(np)
              && s'.proc[np].state.USED? && s'.proc[np].pc.Fresh?
  {
    RunInv1(ss, labels, i);
    hide Run, SlotLocks, CondLocks, Threads, Forks, CpuOk, OneCpu, Go;
    var s := ss[i];
    ThreadFacts(s, p);
    var s' := Goto(SetLock(s.(proc := s.proc[np := s.proc[np].(state := USED, pc := Fresh)]), np, Thread(p)), p,
                   Fork1(np));
    assert BeginFork(s, p, np, s');
    assert Step(s, LRun(c), s');
  }

  /** A runnable process whose lock is free can be picked by any CPU that has none. */
  lemma RunnablePicked(ss: seq<State>, labels: seq<Label>, i: nat, c: nat, q: nat)
    requires Run(ss, labels) && i < |ss| && c < |ss[i].cpu| && ss[i].cpu[c].Sched? && q < |ss[i].proc|
    requires ss[i].proc[q].state.RUNNABLE? && q < |ss[i].plock| && ss[i].plock[q].NoOne?
    ensures exists s' :: Step(ss[i], LPick(c, q), s')
  {
    RunInv1(ss, labels, i);
    hide Run, SlotLocks, CondLocks, Threads, Forks, CpuOk, OneCpu;
    var s := ss[i];
    ThreadFacts(s, q);
    SlotHeldBy(s, q, q);
    var pc := if s.proc[q].pc.Fresh? then Resume(Idle) else Resume(s.proc[q].pc.next);
    var s' := s.(proc := s.proc[q := s.proc[q].(state := RUNNING, pc := pc)], plock := s.plock[q := Thread(q)],
                 cpu := s.cpu[c := Running(q)]);
    assert Step(s, LPick(c, q), s');
  }

  /** The end of p's fork of np. */
  ghost predicate Ended(s: State, s': State, p: nat, np: nat)
    requires p < |s.proc|
  {
    && p < |s'.proc| && np < |s'.proc| == |s'.plock| && s'.proc[p].pc.Idle? && s'.plock[np].NoOne?
    && (s.proc[p].pc == Fork1(np) || s.proc[p].pc == Fork3(np)) && s'.proc[np].pc.Fresh?
    && if s.proc[p].pc.Fork1? then s'.proc[np].state.UNUSED? && s'.proc[np].parent.None?
       else s'.proc[np].state.RUNNABLE? && s'.proc[np].parent == Some(p)
  }

  ghost predicate ForkStays(s: State, s': State, p: nat)
    requires p < |s.proc|
  { p < |s'.proc| && ForkOf(s'.proc[p].pc) == ForkOf(s.proc[p].pc) }

  lemma ForkGoEnds(s: State, x: nat, s': State, p: nat, np: nat)
    requires Inv1(s) && x < |s.proc| && p < |s.proc| && ForkOf(s.proc[p].pc) == Some(np) && GoFork(s, x, s')
    ensures ForkStays(s, s', p) || Ended(s, s', p, np)
  {
    hide SlotLocks, CondLocks, Threads, Forks, CpuOk, OneCpu;
    ThreadFacts(s, p);
    ThreadFacts(s, np);
    ThreadFacts(s, x);
  }

  lemma OtherGoStays(s: State, c: nat, x: nat, s': State, p: nat)
    requires Inv1(s) && c < |s.cpu| && x < |s.proc| && p < |s.proc| && ForkOf(s.proc[p].pc).Some?
    requires GoCheck(s, x, s') || GoSwitch(s, c, x, s') || GoCond(s, x, s')
    ensures ForkStays(s, s', p)
  {
    hide SlotLocks, CondLocks, Threads, Forks, CpuOk, OneCpu;
    ThreadFacts(s, p);
    ThreadFacts(s, x);
  }

  lemma WakeGoStays(s: State, x: nat, s': State, p: nat)
    requires Shape(s) && x < |s.proc| && p < |s.proc| && ForkOf(s.proc[p].pc).Some?
    requires (s.proc[x].pc.Wake? && GoWake(s, x, s')) || GoExit(s, x, s')
    ensures ForkStays(s, s', p)
  {}

  lemma BeginStays(s: State, x: nat, s': State, p: nat)
    requires Inv1(s) && x < |s.proc| && p < |s.proc| && ForkOf(s.proc[p].pc).Some?
    requires s.proc[x].pc.Idle? && Begin(s, x, s')
    ensures ForkStays(s, s', p)
  {
    hide SlotLocks, CondLocks, Threads, Forks, CpuOk, OneCpu;
    ThreadFacts(s, p);
  }

  lemma StepForkEnds(s: State, a: Label, s': State, p: nat, np: nat)
    requires Inv1(s) && Step(s, a, s') && p < |s.proc| && ForkOf(s.proc[p].pc) == Some(np)
    ensures ForkStays(s, s', p) || Ended(s, s', p, np)
  {
    hide SlotLocks, CondLocks, Threads, Forks, CpuOk, OneCpu, GoFork, GoCheck, GoExit, GoWake, GoSwitch, GoCond, Begin,
        Ended;
    if a.LRun? {
      var c, x := a.c, s.cpu[a.c].p;
      if s.proc[x].pc.Idle? && Begin(s, x, s') { BeginStays(s, x, s', p); }
      else if !Preempt(s, x, s') {
        if GoFork(s, x, s') { ForkGoEnds(s, x, s', p, np); }
        else if GoCheck(s, x, s') || GoSwitch(s, c, x, s') || GoCond(s, x, s') { OtherGoStays(s, c, x, s', p); }
        else { WakeGoStays(s, x, s', p); }
      }
    }
  }

  /** A fork that gives up leaves the slot free, and a fork that returns leaves a runnable child. */
  lemma ForkEnds(ss: seq<State>, labels: seq<Label>, i: nat, p: nat, np: nat)
    requires Run(ss, labels) && i + 1 < |ss| && p < |ss[i].proc| && ForkOf(ss[i].proc[p].pc) == Some(np)
    requires p < |ss[i + 1].proc| && ForkOf(ss[i + 1].proc[p].pc).None?
    ensures Ended(ss[i], ss[i + 1], p, np)
  {
    hide Run, Step, SlotLocks, CondLocks, Threads, Forks, CpuOk, OneCpu;
    RunStep(ss, labels, i);
    StepForkEnds(ss[i], labels[i], ss[i + 1], p, np);
  }

  // ---------- what a sleeper waits for ----------

  /** A thread has a channel only from the switch that puts it to sleep until it runs again. */
  predicate ChanAt(x: Proc) { x.chan.NoChan? || x.pc == Parked(Relock(x.chan)) || x.pc == Resume(Relock(x.chan)) }

  /** A position, or a sleep, that takes for granted that the process has a child. */
  predicate ClaimsKid(x: Proc) {
    match x.pc
    case Scan(_, kids) => kids
    case Look(_, _) => true
    case Sleep1(ch) => ch.Kid?
    case Sleep2(ch) => ch.Kid?
    case Parked(next) => x.state.SLEEPING? && next.Relock? && next.ch.Kid?
    case _ => false
  }

  ghost predicate HasKid(s: State, p: nat) { exists q: nat :: q < |s.proc| && s.proc[q].parent == Some(p) }

  /** The step leaves the channel of q in order, lets q claim a child only where it could, and takes
      nobody's child away. */
  ghost predicate KeepsQ(s: State, x: nat, s': State, q: nat)
    requires q < |s.proc|
  {
    && |s'.proc| == |s.proc| && (ChanAt(s.proc[q]) ==> ChanAt(s'.proc[q]))
    && (s.proc[q].parent.Some? && s.proc[q].parent != Some(x) ==> s'.proc[q].parent == s.proc[q].parent)
    && (q != x && ClaimsKid(s'.proc[q]) ==> ClaimsKid(s.proc[q]))
  }

  /** What x's own step may do about claiming a child. */
  ghost predicate KeepsX(s: State, x: nat, s': State)
    requires x < |s.proc|
  {
    && |s'.proc| == |s.proc|
    && (ClaimsKid(s'.proc[x]) ==>
          && (forall q: nat :: q < |s.proc| && s.proc[q].parent == Some(x) ==> s'.proc[q].parent == Some(x))
          && (ClaimsKid(s.proc[x]) || (s'.proc[x].pc.Look? && HasKid(s, x))))
  }

  lemma BeginKeepsQ(s: State, x: nat, s': State, q: nat)
    requires Inv1(s) && x < |s.proc| && q < |s.proc| && s.proc[x].pc.Idle? && Begin(s, x, s')
    ensures KeepsQ(s, x, s', q) && KeepsX(s, x, s')
  {
    hide SlotLocks, CondLocks, Threads, Forks, CpuOk, OneCpu;
    ThreadFacts(s, q);
  }

  lemma SwitchKeepsQ(s: State, c: nat, x: nat, s': State, q: nat)
    requires Inv1(s) && c < |s.cpu| && x < |s.proc| && q < |s.proc| && (GoSwitch(s, c, x, s') || GoCond(s, x, s'))
    ensures KeepsQ(s, x, s', q) && KeepsX(s, x, s')
  {
    hide SlotLocks, CondLocks, Threads, Forks, CpuOk, OneCpu;
    ThreadFacts(s, x);
  }

  lemma CheckKeepsQ(s: State, x: nat, s': State, q: nat)
    requires Inv1(s) && x < |s.proc| && q < |s.proc| && GoCheck(s, x, s')
    ensures KeepsQ(s, x, s', q) && KeepsX(s, x, s')
  {
    hide SlotLocks, CondLocks, Threads, Forks, CpuOk, OneCpu;
    ThreadFacts(s, x);
  }

  lemma WakeKeepsQ(s: State, x: nat, s': State, q: nat)
    requires Inv1(s) && x < |s.proc| && q < |s.proc|
    requires GoExit(s, x, s') || (s.proc[x].pc.Wake? && GoWake(s, x, s'))
    ensures KeepsQ(s, x, s', q) && KeepsX(s, x, s')
  {
    hide SlotLocks, CondLocks, Threads, Forks, CpuOk, OneCpu;
    ThreadFacts(s, x);
    ThreadFacts(s, q);
  }

  lemma ForkKeepsQ(s: State, x: nat, s': State, q: nat)
    requires Inv1(s) && x < |s.proc| && q < |s.proc| && GoFork(s, x, s')
    ensures KeepsQ(s, x, s', q) && KeepsX(s, x, s')
  {
    hide SlotLocks, CondLocks, Threads, Forks, CpuOk, OneCpu;
    ThreadFacts(s, x);
    ThreadFacts(s, q);
  }

  /** The thread that a label moves; for the scheduler's own steps, nobody. */
  function Mover(s: State, a: Label): nat {
    if a.LRun? && a.c < |s.cpu| && s.cpu[a.c].Running? then s.cpu[a.c].p else |s.proc|
  }

  lemma StepKeepsQ(s: State, a: Label, s': State, q: nat)
    requires Inv1(s) && Step(s, a, s') && q < |s.proc|
    ensures KeepsQ(s, Mover(s, a), s', q) && (Mover(s, a) < |s.proc| ==> KeepsX(s, Mover(s, a), s'))
  {
    hide SlotLocks, CondLocks, Threads, Forks, CpuOk, OneCpu, GoFork, GoCheck, GoExit, GoWake, GoSwitch, GoCond, Begin;
    ThreadFacts(s, q);
    if a.LRun? {
      var c, x := a.c, s.cpu[a.c].p;
      ThreadFacts(s, x);
      if s.proc[x].pc.Idle? && Begin(s, x, s') { BeginKeepsQ(s, x, s', q); }
      else if !Preempt(s, x, s') {
        hide KeepsQ, KeepsX;
        if GoFork(s, x, s') { ForkKeepsQ(s, x, s', q); }
        else if GoCheck(s, x, s') { CheckKeepsQ(s, x, s', q); }
        else if GoSwitch(s, c, x, s') || GoCond(s, x, s') { SwitchKeepsQ(s, c, x, s', q); }
        else { WakeKeepsQ(s, x, s', q); }
      }
    }
  }

  lemma SlotCount(ss: seq<State>, labels: seq<Label>, i: nat)
    requires Run(ss, labels) && i + 1 < |ss|
    ensures |ss[i + 1].proc| == |ss[i].proc|
  {
    hide Run, Step, Kept, SlotLocks, CondLocks, Threads, Forks, CpuOk, OneCpu;
    RunStep(ss, labels, i);
    StepKept(ss[i], labels[i], ss[i + 1], 0);
  }

  lemma StartsQuiet(ss: seq<State>, labels: seq<Label>, q: nat)
    requires Run(ss, labels) && q < |ss[0].proc|
    ensures ChanAt(ss[0].proc[q]) && !ClaimsKid(ss[0].proc[q])
  {
    hide Step;
  }

  /** A process that is not asleep or on its way back from sleep has no channel, so that no wakeup is
      spent on it. */
  lemma {:induction false} SleepsOnOne(ss: seq<State>, labels: seq<Label>, i: nat, q: nat)
    requires Run(ss, labels) && i < |ss| && q < |ss[i].proc|
    ensures ChanAt(ss[i].proc[q])
  {
    hide Run, Step, Inv1, KeepsX, ChanAt, ClaimsKid, Kept;
    if i == 0 {
      StartsQuiet(ss, labels, q);
    } else {
      RunStep(ss, labels, i - 1);
      SlotCount(ss, labels, i - 1);
      SleepsOnOne(ss, labels, i - 1, q);
      StepKeepsQ(ss[i - 1], labels[i - 1], ss[i], q);
    }
  }

  lemma KidStep(s: State, a: Label, s': State, p: nat)
    requires Inv1(s) && Step(s, a, s') && p < |s.proc| && (ClaimsKid(s.proc[p]) ==> HasKid(s, p))
    ensures p < |s'.proc| && (ClaimsKid(s'.proc[p]) ==> HasKid(s', p))
  {
    hide Inv1, Step, ClaimsKid, ChanAt;
    StepKeepsQ(s, a, s', p);
    if ClaimsKid(s'.proc[p]) {
      var q: nat :| q < |s.proc| && s.proc[q].parent == Some(p);
      StepKeepsQ(s, a, s', q);
      assert s'.proc[q].parent == Some(p);
    }
  }

  /** wait sleeps only with a child to wait for: whoever is asleep on its own slot has one. */
  lemma {:induction false} WaiterHasChild(ss: seq<State>, labels: seq<Label>, i: nat, p: nat)
    requires Run(ss, labels) && i < |ss| && p < |ss[i].proc|
    ensures ClaimsKid(ss[i].proc[p]) ==> HasKid(ss[i], p)
    ensures ss[i].proc[p].state.SLEEPING? && ss[i].proc[p].chan.Kid? ==>
              exists q: nat :: q < |ss[i].proc| && ss[i].proc[q].parent == Some(p)
  {
    hide Run, Step, Inv1, ClaimsKid, Kept;
    SleeperClaims(ss, labels, i, p);
    if i == 0 {
      StartsQuiet(ss, labels, p);
    } else {
      RunStep(ss, labels, i - 1);
      SlotCount(ss, labels, i - 1);
      WaiterHasChild(ss, labels, i - 1, p);
      KidStep(ss[i - 1], labels[i - 1], ss[i], p);
    }
  }

  lemma SleeperClaims(ss: seq<State>, labels: seq<Label>, i: nat, p: nat)
    requires Run(ss, labels) && i < |ss| && p < |ss[i].proc|
    ensures ss[i].proc[p].state.SLEEPING? && ss[i].proc[p].chan.Kid? ==> ClaimsKid(ss[i].proc[p])
  {
    RunInv1(ss, labels, i);
    hide Run, SlotLocks, CondLocks, Threads, Forks, CpuOk, OneCpu;
    ThreadFacts(ss[i], p);
  }

  /** A sleeper that is killed can be picked by any CPU that has no process. */
  lemma KilledRuns(ss: seq<State>, labels: seq<Label>, i: nat, c: nat, d: nat, p: nat, q: nat, s': State)
    requires Run(ss, labels) && i < |ss| && c < |ss[i].cpu| && ss[i].cpu[c] == Running(p) && p < |ss[i].proc|
    requires ss[i].proc[p].pc.Idle? && q < |ss[i].proc| && Shape(ss[i]) && Kill(ss[i], p, q, s')
    requires ss[i].proc[q].state.SLEEPING? && d < |ss[i].cpu| && ss[i].cpu[d].Sched?
    ensures Step(ss[i], LRun(c), s') && exists s2 :: Step(s', LPick(d, q), s2)
  {
    assert Begin(ss[i], p, s') && Step(ss[i], LRun(c), s');
    assert s'.proc[q].state.RUNNABLE? && s'.plock == ss[i].plock && s'.cpu == ss[i].cpu;
    var rs, ls := ss[..i + 1] + [s'], labels[..i] + [LRun(c)];
    hide Step;
    assert Run(rs, ls);
    RunnablePicked(rs, ls, i + 1, d, q);
  }

  /** acquiresleep returns with the lock held by the thread that asked. */
  lemma AcquireHolds(s: State, c: nat, s': State, p: nat, k: nat)
    requires Step(s, LRun(c), s') && c < |s.cpu| && s.cpu[c] == Running(p) && p < |s.proc|
    requires s.proc[p].pc == Check(Lk(k)) && k < |s.cell| && s.cell[k].SleepLock?
    ensures p < |s'.proc| && |s'.cell| == |s.cell|
    ensures s'.proc[p].pc == Unlock(SLock(k)) <==> s.cell[k].holder.None?
    ensures s.cell[k].holder.None? ==> s'.cell[k] == SleepLock(Some(p))
    ensures s.cell[k].holder.Some? ==> s'.cell == s.cell && s'.proc[p].pc == Sleep1(Lk(k))
  {}

  // ---------- no deadlock ----------

  /** The slot lock a thread must find free before it can go on. */
  ghost predicate WantsSlot(s: State, p: nat, q: nat)
    requires p < |s.proc|
  {
    match s.proc[p].pc
    case Check(ch) => q == p && ch.Lk? && ch.k < |s.cell| && !Ready(s.cell[ch.k])
    case Scan(i, _) => q == i < |s.proc| && s.proc[i].parent == Some(p)
    case Wake(_, i, _) => q == i < |s.proc| && i != p
    case Exit1 => q == p
    case Fork3(np) => q == np
    case _ => false
  }

  /** The condition lock it must find free. */
  predicate WantsLock(pc: Pc, l: Lock) { (pc.Relock? && l == LockOf(pc.ch)) || (pc.Fork2? && l.WaitLock?) }

  /** CPU c can go on with what its thread has begun, or the scheduler can let go of the last one. */
  ghost predicate CanGo(s: State, c: nat, s': State) {
    && Shape(s) && c < |s.cpu|
    && if s.cpu[c].After? then Put(s, c, s') else s.cpu[c].Running? && s.cpu[c].p < |s.proc| && Go(s, c, s.cpu[c].p, s')
  }

  ghost predicate SomeGoes(s: State) { exists c: nat, s' :: CanGo(s, c, s') }

  /** The step itself, where there is a choice one of them. */
  ghost function NextSwitch(s: State, c: nat, p: nat): State
    requires Shape(s) && c < |s.cpu| && p < |s.proc|
  {
    match s.proc[p].pc
    case Resume(next) => Goto(SetLock(s.(proc := s.proc[p := s.proc[p].(chan := NoChan)]), p, NoOne), p, next)
    case Yield1(next) => Goto(s.(plock := s.plock[p := Cpu(c)], cpu := s.cpu[c := After(p)]), p, Parked(next))
    case Sleep2(ch) =>
      s.(proc := s.proc[p := s.proc[p].(chan := ch, state := SLEEPING, pc := Parked(Relock(ch)))],
         plock := s.plock[p := Cpu(c)], cpu := s.cpu[c := After(p)])
    case _ => Goto(s.(plock := s.plock[p := Cpu(c)], cpu := s.cpu[c := After(p)]), p, Dead)
  }

  lemma SwitchGoes(s: State, c: nat, p: nat)
    requires Inv1(s) && c < |s.cpu| && p < |s.proc| && s.cpu[c] == Running(p)
    requires s.proc[p].pc.Resume? || s.proc[p].pc.Yield1? || s.proc[p].pc.Sleep2? || s.proc[p].pc.Exit3?
    ensures SomeGoes(s)
  {
    hide SlotLocks, CondLocks, Threads, Forks, CpuOk, OneCpu;
    assert CanGo(s, c, NextSwitch(s, c, p));
  }

  lemma CondGoes(s: State, c: nat, p: nat)
    requires Inv1(s) && c < |s.cpu| && p < |s.proc| && s.cpu[c] == Running(p)
    requires s.proc[p].pc.Relock? || s.proc[p].pc.Sleep1? || s.proc[p].pc.Unlock? || s.proc[p].pc.Exit2?
    requires forall l :: WantsLock(s.proc[p].pc, l) && LockIn(s, l) ==> Holder(s, l).None?
    ensures SomeGoes(s)
  {
    hide SlotLocks, CondLocks, Threads, Forks, CpuOk, OneCpu;
    ThreadFacts(s, p);
    match s.proc[p].pc
    case Relock(ch) =>
      assert WantsLock(s.proc[p].pc, LockOf(ch));
      assert CanGo(s, c, Goto(SetHolder(s, LockOf(ch), Some(p)), p, Check(ch)));
    case Sleep1(ch) => assert CanGo(s, c, Goto(SetHolder(s, LockOf(ch), None), p, Sleep2(ch)));
    case Unlock(l) => assert CanGo(s, c, Goto(SetHolder(s, l, None), p, Idle));
    case Exit2 => assert CanGo(s, c, Goto(s.(wait := None), p, Exit3));
  }

  lemma CheckGoes(s: State, c: nat, p: nat)
    requires Inv1(s) && c < |s.cpu| && p < |s.proc| && s.cpu[c] == Running(p)
    requires s.proc[p].pc.Check? || s.proc[p].pc.Scan? || s.proc[p].pc.Look?
    requires forall q: nat :: q < |s.proc| && WantsSlot(s, p, q) ==> s.plock[q].NoOne?
    ensures SomeGoes(s)
  {
    hide SlotLocks, CondLocks, Threads, Forks, CpuOk, OneCpu;
    ThreadFacts(s, p);
    match s.proc[p].pc
    case Check(ch) =>
      if ch.Lk? && Ready(s.cell[ch.k]) {
        var g := if s.cell[ch.k].SleepLock? then SleepLock(Some(p)) else s.cell[ch.k];
        assert Taken(s.cell[ch.k], p, g);
        assert CanGo(s, c, Goto(s.(cell := s.cell[ch.k := g]), p, Unlock(SLock(ch.k))));
      } else if ch.Lk? {
        assert WantsSlot(s, p, p);
        assert CanGo(s, c, Goto(SetLock(s, p, Thread(p)), p, Sleep1(ch)));
      } else {
        assert CanGo(s, c, Goto(s, p, Scan(0, false)));
      }
    case Scan(i, kids) =>
      if i >= |s.proc| {
        assert CanGo(s, c, Goto(s, p, Unlock(WaitLock)));
      } else if s.proc[i].parent == Some(p) {
        assert WantsSlot(s, p, i);
        assert CanGo(s, c, Goto(SetLock(s, i, Thread(p)), p, Look(i, kids)));
      } else {
        assert CanGo(s, c, Goto(s, p, Scan(i + 1, kids)));
      }
    case Look(i, kids) =>
      assert CanGo(s, c, Goto(SetLock(s, i, NoOne), p,
                              if s.proc[i].state.ZOMBIE? then Unlock(WaitLock) else Scan(i + 1, true)));
  }

  lemma WakeGoes(s: State, c: nat, p: nat)
    requires Inv1(s) && c < |s.cpu| && p < |s.proc| && s.cpu[c] == Running(p)
    requires s.proc[p].pc.Wake? || s.proc[p].pc.Reparent? || s.proc[p].pc.Exit1?
    requires forall q: nat :: q < |s.proc| && WantsSlot(s, p, q) ==> s.plock[q].NoOne?
    ensures SomeGoes(s)
  {
    hide SlotLocks, CondLocks, Threads, Forks, CpuOk, OneCpu;
    ThreadFacts(s, p);
    match s.proc[p].pc
    case Wake(ch, i, next) =>
      if i >= |s.proc| { assert CanGo(s, c, Goto(s, p, next)); }
      else if i == p { assert CanGo(s, c, Goto(s, p, Wake(ch, i + 1, next))); }
      else {
        assert WantsSlot(s, p, i);
        var s1 := if s.proc[i].state.SLEEPING? && s.proc[i].chan == ch then SetState(s, i, RUNNABLE) else s;
        assert CanGo(s, c, Goto(s1, p, Wake(ch, i + 1, next)));
      }
    case Reparent(i) =>
      if i >= |s.proc| {
        var pc := if s.proc[p].parent.Some? then Wake(Kid(s.proc[p].parent.value), 0, Exit1) else Exit1;
        assert CanGo(s, c, Goto(s, p, pc));
      } else if s.proc[i].parent == Some(p) {
        assert CanGo(s, c, Goto(s.(proc := s.proc[i := s.proc[i].(parent := Some(0))]), p,
                                Wake(Kid(0), 0, Reparent(i + 1))));
      } else {
        assert CanGo(s, c, Goto(s, p, Reparent(i + 1)));
      }
    case Exit1 =>
      assert WantsSlot(s, p, p);
      assert CanGo(s, c, SetLock(s.(proc := s.proc[p := s.proc[p].(state := ZOMBIE, pc := Exit2,
                                                                  exits := s.proc[p].exits + 1)]), p, Thread(p)));
  }

  lemma ForkGoes(s: State, c: nat, p: nat)
    requires Inv1(s) && c < |s.cpu| && p < |s.proc| && s.cpu[c] == Running(p)
    requires s.proc[p].pc.Fork1? || s.proc[p].pc.Fork2? || s.proc[p].pc.Fork3?
    requires forall q: nat :: q < |s.proc| && WantsSlot(s, p, q) ==> s.plock[q].NoOne?
    requires forall l :: WantsLock(s.proc[p].pc, l) && LockIn(s, l) ==> Holder(s, l).None?
    ensures SomeGoes(s)
  {
    hide SlotLocks, CondLocks, Threads, Forks, CpuOk, OneCpu;
    ThreadFacts(s, p);
    match s.proc[p].pc
    case Fork1(np) => assert CanGo(s, c, Goto(SetLock(s, np, NoOne), p, Fork2(np)));
    case Fork2(np) =>
      assert WantsLock(s.proc[p].pc, WaitLock);
      assert CanGo(s, c, Goto(s.(proc := s.proc[np := s.proc[np].(parent := Some(p))]), p, Fork3(np)));
    case Fork3(np) =>
      assert WantsSlot(s, p, np);
      assert CanGo(s, c, Goto(SetState(s, np, RUNNABLE), p, Idle));
  }

  /** A thread on a CPU that has begun something goes on, unless a lock it wants is held. */
  lemma RunnerGoes(s: State, c: nat, p: nat)
    requires Inv1(s) && c < |s.cpu| && p < |s.proc| && s.cpu[c] == Running(p) && !s.proc[p].pc.Idle?
    requires forall q: nat :: q < |s.proc| && WantsSlot(s, p, q) ==> s.plock[q].NoOne?
    requires forall l :: WantsLock(s.proc[p].pc, l) && LockIn(s, l) ==> Holder(s, l).None?
    ensures SomeGoes(s)
  {
    hide SomeGoes, SlotLocks, CondLocks, Threads, Forks, OneCpu, WantsSlot, WantsLock;
    assert Active(s.proc[p].pc);
    hide CpuOk;
    var pc := s.proc[p].pc;
    if pc.Resume? || pc.Yield1? || pc.Sleep2? || pc.Exit3? { SwitchGoes(s, c, p); }
    else if pc.Relock? || pc.Sleep1? || pc.Unlock? || pc.Exit2? { CondGoes(s, c, p); }
    else if pc.Check? || pc.Scan? || pc.Look? { CheckGoes(s, c, p); }
    else if pc.Fork1? || pc.Fork2? || pc.Fork3? { ForkGoes(s, c, p); }
    else { WakeGoes(s, c, p); }
  }

  lemma ActiveOnCpu(s: State, x: nat) returns (c: nat)
    requires Inv1(s) && x < |s.proc| && Active(s.proc[x].pc)
    ensures c < |s.cpu| && s.cpu[c] == Running(x)
  {
    hide SlotLocks, CondLocks, Threads, Forks, OneCpu;
    c :| 0 <= c < |s.cpu| && s.cpu[c] == Running(x);
  }

  /** Whoever holds a slot lock can go on: it wants no other lock. */
  lemma SlotHolderGoes(s: State, q: nat)
    requires Inv1(s) && q < |s.proc| && !s.plock[q].NoOne?
    ensures SomeGoes(s)
  {
    if s.plock[q].Cpu? {
      var c := s.plock[q].c;
      assert s.cpu[c] == After(q);
      assert CanGo(s, c, s.(plock := s.plock[q := NoOne], cpu := s.cpu[c := Sched]));
    } else {
      var x := s.plock[q].x;
      assert HoldsSlot(s.proc[x].pc, x, q);
      hide SlotLocks, CondLocks, Threads, Forks, CpuOk, OneCpu, SomeGoes, CanGo;
      var c := ActiveOnCpu(s, x);
      RunnerGoes(s, c, x);
    }
  }

  /** Whoever holds a condition lock wants at most slot locks, whose holders can go on. */
  lemma LockHolderGoes(s: State, l: Lock)
    requires Inv1(s) && LockIn(s, l) && Holder(s, l).Some?
    ensures SomeGoes(s)
  {
    var x := Holder(s, l).value;
    assert HoldsLock(s.proc[x].pc, l);
    hide SlotLocks, CondLocks, Threads, Forks, CpuOk, OneCpu, SomeGoes, CanGo;
    var c := ActiveOnCpu(s, x);
    if q: nat :| q < |s.proc| && WantsSlot(s, x, q) && !s.plock[q].NoOne? {
      SlotHolderGoes(s, q);
    } else {
      RunnerGoes(s, c, x);
    }
  }

  /** In every run, as long as some CPU has a process in the kernel, or has just switched one out, some
      CPU can go on with what it has begun: the locks cannot deadlock. */
  lemma NoDeadlock(ss: seq<State>, labels: seq<Label>, i: nat, c: nat)
    requires Run(ss, labels) && i < |ss| && c < |ss[i].cpu| && !ss[i].cpu[c].Sched?
    requires ss[i].cpu[c].Running? ==> ss[i].cpu[c].p < |ss[i].proc| && !ss[i].proc[ss[i].cpu[c].p].pc.Idle?
    ensures exists d: nat, s' :: CanGo(ss[i], d, s')
  {
    RunInv1(ss, labels, i);
    hide Run, SlotLocks, CondLocks, Threads, Forks, OneCpu, WantsSlot, WantsLock;
    var s, p := ss[i], ss[i].cpu[c].p;
    if s.cpu[c].After? {
      SlotHolderGoes(s, p);
    } else {
      hide CpuOk, CanGo;
      if q: nat :| q < |s.proc| && WantsSlot(s, p, q) && !s.plock[q].NoOne? {
        SlotHolderGoes(s, q);
      } else if l :| WantsLock(s.proc[p].pc, l) && LockIn(s, l) && Holder(s, l).Some? {
        LockHolderGoes(s, l);
      } else {
        RunnerGoes(s, c, p);
      }
    }
  }

  /** Such a step is a step of the machine. */
  lemma GoIsStep(s: State, c: nat, s': State)
    requires CanGo(s, c, s')
    ensures Step(s, if s.cpu[c].After? then LPut(c) else LRun(c), s')
  {
    hide Go, Put, Begin, Preempt;
  }
}
