/**
 proc.c and sleeplock.c as a transition system: any number of process slots, CPUs and
 sleep-locks. ptable.lock is held by a CPU and travels with it across swtch, from the
 scheduler to the process it starts and back. A critical section under ptable.lock is one
 step unless it spans a swtch or gives up another lock halfway, as sleep does.
 */
module Processes {
  import opened Params

  datatype PState = UNUSED | EMBRYO | SLEEPING | RUNNABLE | RUNNING | ZOMBIE

  /** What a sleeping process waits for: wait() its own proc, acquiresleep the lock. */
  datatype Chan = NoChan | OnProc(p: nat) | OnLock(l: nat) | OnOther(n: nat)

  /** Where the saved context of a process that called sched() continues. */
  datatype Resume =
    | RForkret
    | RYield(back: Pc)
    | RWait
    | RLock(l: nat)
    | ROther
    | RDead

  /** Program points of a process's kernel thread. */
  datatype Pc =
    | New                     // no thread: UNUSED or EMBRYO
    | User                    // anywhere outside the code below
    | Leaving(r: Resume)      // in sched(), state already changed, ptable.lock held
    | Saved(r: Resume)        // switched out
    | Entered(r: Resume)      // just switched in, ptable.lock held
    | Forking(np: nat)        // after allocproc's critical section
    | ForkReady(np: nat)      // child complete but still EMBRYO
    | WaitScan                // in wait(), ptable.lock held
    | AcqSpin(l: nat)         // acquiresleep, about to acquire lk->lk
    | Testing(l: nat)         // lk->lk held, at the while test
    | SleepWantP(l: nat)      // in sleep(), lk->lk held, about to acquire ptable.lock
    | SleepRel(l: nat)        // both held, about to release lk->lk
    | SleepSet(l: nat)        // ptable.lock held, about to set chan and SLEEPING
    | RelSpin(l: nat)         // releasesleep, about to acquire lk->lk
    | RelHold(l: nat)         // lk->lk held, about to clear locked
    | RelWantP(l: nat)        // locked is clear, in wakeup(), about to acquire ptable.lock
    | RelWake(l: nat)         // about to run wakeup1
    | RelDone(l: nat)         // wakeup1 has run, ptable.lock still held
    | RelUnlock(l: nat)       // about to release lk->lk

  datatype Proc = Proc(
    state: PState,
    pid: nat,
    parent: Option<nat>,
    chan: Chan,
    killed: bool,
    stack: bool,              // has a kernel stack and a page table
    cpu: Option<nat>,         // the CPU whose c->proc this is
    forker: Option<nat>,      // for an EMBRYO, who is creating it
    holds: set<nat>,          // sleep-locks acquired and not yet given up
    pc: Pc)

  /** Free and Hold run the scheduler with c->proc == 0; Enter and Back with c->proc == p. */
  datatype Cpu =
    | Free
    | Hold
    | Enter(p: nat)
    | Runs(p: nat)
    | Back(p: nat)

  datatype SLock = SLock(spin: Option<nat>, locked: bool, pid: nat, owner: Option<nat>)

  datatype State = State(
    procs: seq<Proc>,
    cpus: seq<Cpu>,
    locks: seq<SLock>,
    plock: Option<nat>,
    nextpid: nat,
    reaped: seq<nat>)

  const INIT: nat := 0

  /** scheduler, sched, yield, and sleep/wakeup on channels of other subsystems. */
  datatype SchedStep =
    | SchedAcquire(c: nat)
    | SchedPick(c: nat, p: nat)
    | SchedSwtch(c: nat, p: nat)
    | SchedReturn(c: nat, p: nat)
    | SchedRelease(c: nat)
    | Swtch(p: nat)
    | Resumed(p: nat)
    | Yield(p: nat)
    | SleepOther(p: nat, n: nat)
    | WakeOther(n: nat)

  /** kill, fork, exit, wait. */
  datatype LifeStep =
    | Kill(q: nat)
    | ForkAlloc(p: nat, np: nat)
    | ForkFail(p: nat, np: nat)
    | ForkFill(p: nat, np: nat)
    | ForkPublish(p: nat, np: nat)
    | Exit(p: nat)
    | WaitAcquire(p: nat)
    | WaitReap(p: nat, z: nat)
    | WaitGiveUp(p: nat)
    | WaitSleep(p: nat)

  /** acquiresleep with its call of sleep, releasesleep with its call of wakeup. */
  datatype LockStep =
    | AcqStart(p: nat, l: nat)
    | AcqLock(p: nat, l: nat)
    | AcqTake(p: nat, l: nat)
    | AcqMustSleep(p: nat, l: nat)
    | SleepLockP(p: nat, l: nat)
    | SleepDropSpin(p: nat, l: nat)
    | SleepMark(p: nat, l: nat)
    | RelStart(p: nat, l: nat)
    | RelLock(p: nat, l: nat)
    | RelClear(p: nat, l: nat)
    | RelLockP(p: nat, l: nat)
    | RelWakeup(p: nat, l: nat)
    | RelDropP(p: nat, l: nat)
    | RelDropSpin(p: nat, l: nat)

  /** The steps of acquiresleep; the others are those of releasesleep. */
  predicate Acquiring(step: LockStep) {
    || step.AcqStart? || step.AcqLock? || step.AcqTake? || step.AcqMustSleep?
    || step.SleepLockP? || step.SleepDropSpin? || step.SleepMark?
  }

  datatype Step =
    | Scheduling(sched: SchedStep)
    | Lifecycle(life: LifeStep)
    | Locking(lock: LockStep)

  // ---------------------------------------------------------------- table scans

  /** wakeup1. */
  function Wakeup1(procs: seq<Proc>, chan: Chan): (r: seq<Proc>)
    ensures |r| == |procs|
  {
    seq(|procs|, i requires 0 <= i < |procs| =>
      if procs[i].state == SLEEPING && procs[i].chan == chan then procs[i].(state := RUNNABLE) else procs[i])
  }

  /** The loop of exit() that passes abandoned children to init. */
  function Adopt(procs: seq<Proc>, p: nat): (r: seq<Proc>)
    ensures |r| == |procs|
  {
    seq(|procs|, i requires 0 <= i < |procs| =>
      if procs[i].parent == Some(p) then procs[i].(parent := Some(INIT)) else procs[i])
  }

  predicate HasZombie(procs: seq<Proc>, p: nat) {
    exists z :: 0 <= z < |procs| && procs[z].parent == Some(p) && procs[z].state == ZOMBIE
  }

  predicate HasKids(procs: seq<Proc>, p: nat) {
    exists z :: 0 <= z < |procs| && procs[z].parent == Some(p)
  }

  // ---------------------------------------------------------------- program points

  predicate HoldsP(pc: Pc) {
    || pc.Leaving? || pc.Entered? || pc.WaitScan?
    || pc.SleepRel? || pc.SleepSet? || pc.RelWake? || pc.RelDone?
  }

  /** The sleep-lock whose lk->lk the program point holds. */
  function SpinOf(pc: Pc): Option<nat> {
    if || pc.Testing? || pc.SleepWantP? || pc.SleepRel?
       || pc.RelHold? || pc.RelWantP? || pc.RelWake? || pc.RelDone? || pc.RelUnlock?
    then Some(pc.l) else None
  }

  /** Points at which a timer interrupt may yield: no spin-lock is held. */
  predicate Preemptible(pc: Pc) {
    pc.User? || pc.Forking? || pc.ForkReady? || pc.AcqSpin? || pc.RelSpin?
  }

  /** The point a process is at, looking through a yield. */
  function Base(pc: Pc): Pc {
    if (pc.Leaving? || pc.Saved? || pc.Entered?) && pc.r.RYield? then pc.r.back else pc
  }

  /** What sched() is called with: the state a process has when it leaves. */
  function LeavesAs(r: Resume): PState {
    if r.RForkret? || r.RYield? then RUNNABLE else if r.RDead? then ZOMBIE else SLEEPING
  }

  predicate Live(pr: Proc) {
    pr.state == SLEEPING || pr.state == RUNNABLE || pr.state == RUNNING
  }

  // ---------------------------------------------------------------- steps

  /** Process p executes at a point satisfying its own condition. */
  predicate OnCpu(s: State, p: nat) {
    && p < |s.procs| && s.procs[p].cpu.Some? && s.procs[p].cpu.value < |s.cpus|
    && s.cpus[s.procs[p].cpu.value] == Runs(p)
  }

  predicate At(s: State, p: nat, pc: Pc) {
    OnCpu(s, p) && s.procs[p].pc == pc
  }

  ghost predicate CanSched(s: State, step: SchedStep) {
    match step
    case SchedAcquire(c) => c < |s.cpus| && s.cpus[c] == Free && s.plock.None?
    case SchedPick(c, p) => c < |s.cpus| && s.cpus[c] == Hold && p < |s.procs| && s.procs[p].state == RUNNABLE
    case SchedSwtch(c, p) => c < |s.cpus| && s.cpus[c] == Enter(p) && p < |s.procs| && s.procs[p].pc.Saved?
    case SchedReturn(c, p) => c < |s.cpus| && s.cpus[c] == Back(p) && p < |s.procs|
    case SchedRelease(c) => c < |s.cpus| && s.cpus[c] == Hold
    case Swtch(p) => OnCpu(s, p) && s.procs[p].pc.Leaving?
    case Resumed(p) => OnCpu(s, p) && s.procs[p].pc.Entered?
    case Yield(p) => OnCpu(s, p) && Preemptible(s.procs[p].pc) && s.plock.None?
    case SleepOther(p, n) => At(s, p, User) && s.plock.None?
    case WakeOther(n) => s.plock.None?
  }

  ghost predicate CanLife(s: State, step: LifeStep) {
    match step
    case Kill(q) => q < |s.procs| && s.plock.None?
    case ForkAlloc(p, np) => At(s, p, User) && s.plock.None? && np < |s.procs| && s.procs[np].state == UNUSED
    case ForkFail(p, np) => At(s, p, Forking(np)) && np < |s.procs|
    case ForkFill(p, np) => At(s, p, Forking(np)) && np < |s.procs|
    case ForkPublish(p, np) => At(s, p, ForkReady(np)) && np < |s.procs| && s.plock.None?
    case Exit(p) => At(s, p, User) && s.procs[p].holds == {} && p != INIT && s.plock.None?
    case WaitAcquire(p) => At(s, p, User) && s.plock.None?
    case WaitReap(p, z) =>
      At(s, p, WaitScan) && z < |s.procs| && s.procs[z].parent == Some(p) && s.procs[z].state == ZOMBIE
    case WaitGiveUp(p) =>
      At(s, p, WaitScan) && !HasZombie(s.procs, p) && (!HasKids(s.procs, p) || s.procs[p].killed)
    case WaitSleep(p) =>
      At(s, p, WaitScan) && !HasZombie(s.procs, p) && HasKids(s.procs, p) && !s.procs[p].killed
  }

  ghost predicate CanLock(s: State, step: LockStep) {
    step.l < |s.locks| &&
    match step
    case AcqStart(p, l) => At(s, p, User)
    case AcqLock(p, l) => At(s, p, AcqSpin(l)) && s.locks[l].spin.None?
    case AcqTake(p, l) => At(s, p, Testing(l)) && !s.locks[l].locked
    case AcqMustSleep(p, l) => At(s, p, Testing(l)) && s.locks[l].locked
    case SleepLockP(p, l) => At(s, p, SleepWantP(l)) && s.plock.None?
    case SleepDropSpin(p, l) => At(s, p, SleepRel(l))
    case SleepMark(p, l) => At(s, p, SleepSet(l))
    case RelStart(p, l) => At(s, p, User) && l in s.procs[p].holds
    case RelLock(p, l) => At(s, p, RelSpin(l)) && s.locks[l].spin.None?
    case RelClear(p, l) => At(s, p, RelHold(l))
    case RelLockP(p, l) => At(s, p, RelWantP(l)) && s.plock.None?
    case RelWakeup(p, l) => At(s, p, RelWake(l))
    case RelDropP(p, l) => At(s, p, RelDone(l))
    case RelDropSpin(p, l) => At(s, p, RelUnlock(l))
  }

  ghost predicate Enabled(s: State, step: Step) {
    match step
    case Scheduling(x) => CanSched(s, x)
    case Lifecycle(x) => CanLife(s, x)
    case Locking(x) => CanLock(s, x)
  }

  function Goto(s: State, p: nat, pc: Pc): State
    requires p < |s.procs|
  {
    s.(procs := s.procs[p := s.procs[p].(pc := pc)])
  }

  function Leave(s: State, p: nat, r: Resume, chan: Chan): State
    requires p < |s.procs|
  {
    s.(procs := s.procs[p := s.procs[p].(state := LeavesAs(r), chan := chan, pc := Leaving(r))])
  }

  function SetCpu(s: State, c: nat, cpu: Cpu): State
    requires c < |s.cpus|
  {
    s.(cpus := s.cpus[c := cpu])
  }

  function SetSpin(s: State, l: nat, spin: Option<nat>): State
    requires l < |s.locks|
  {
    s.(locks := s.locks[l := s.locks[l].(spin := spin)])
  }

  /** The rest of the code after sched() returned: tidy up, release ptable.lock where due. */
  function DoResumed(s: State, p: nat): State
    requires OnCpu(s, p) && s.procs[p].pc.Entered?
  {
    match s.procs[p].pc.r
    case RYield(b) => Goto(s, p, b).(plock := None)
    case RWait => s.(procs := s.procs[p := s.procs[p].(chan := NoChan, pc := WaitScan)])
    case RLock(l) => s.(procs := s.procs[p := s.procs[p].(chan := NoChan, pc := AcqSpin(l))], plock := None)
    case ROther => s.(procs := s.procs[p := s.procs[p].(chan := NoChan, pc := User)], plock := None)
    case _ => Goto(s, p, User).(plock := None)
  }

  /** exit up to its own change of state: wakeup1(parent), adoption, wakeup1(init) for zombies. */
  function Orphaned(procs: seq<Proc>, p: nat): (r: seq<Proc>)
    requires p < |procs|
    ensures |r| == |procs|
  {
    var woken := if procs[p].parent.Some? then Wakeup1(procs, OnProc(procs[p].parent.value)) else procs;
    Adopt(if HasZombie(woken, p) then Wakeup1(woken, OnProc(INIT)) else woken, p)
  }

  function DoExit(s: State, p: nat): State
    requires OnCpu(s, p)
  {
    var procs := Orphaned(s.procs, p);
    s.(procs := procs[p := procs[p].(state := ZOMBIE, pc := Leaving(RDead))], plock := s.procs[p].cpu)
  }

  function DoReap(s: State, p: nat, z: nat): State
    requires OnCpu(s, p) && z < |s.procs|
  {
    var was := s.procs[z];
    var freed := was.(stack := false, pid := 0, parent := None, killed := false, state := UNUSED, pc := New);
    Goto(s.(procs := s.procs[z := freed], plock := None, reaped := s.reaped + [was.pid]), p, User)
  }

  ghost function DoSched(s: State, step: SchedStep): State
    requires CanSched(s, step)
  {
    match step
    case SchedAcquire(c) => SetCpu(s, c, Hold).(plock := Some(c))
    case SchedPick(c, p) =>
      SetCpu(s, c, Enter(p)).(procs := s.procs[p := s.procs[p].(state := RUNNING, cpu := Some(c))])
    case SchedSwtch(c, p) => Goto(SetCpu(s, c, Runs(p)), p, Entered(s.procs[p].pc.r))
    case SchedReturn(c, p) => SetCpu(s, c, Hold).(procs := s.procs[p := s.procs[p].(cpu := None)])
    case SchedRelease(c) => SetCpu(s, c, Free).(plock := None)
    case Swtch(p) => Goto(SetCpu(s, s.procs[p].cpu.value, Back(p)), p, Saved(s.procs[p].pc.r))
    case Resumed(p) => DoResumed(s, p)
    case Yield(p) => Leave(s, p, RYield(s.procs[p].pc), s.procs[p].chan).(plock := s.procs[p].cpu)
    case SleepOther(p, n) => Leave(s, p, ROther, OnOther(n)).(plock := s.procs[p].cpu)
    case WakeOther(n) => s.(procs := Wakeup1(s.procs, OnOther(n)))
  }

  function Edit(s: State, q: nat, pr: Proc): State
    requires q < |s.procs|
  {
    s.(procs := s.procs[q := pr])
  }

  /** What kill does to the slot it finds: a mark, and a sleeper wakes. */
  function Killed(pr: Proc): Proc {
    pr.(killed := true, state := if pr.state == SLEEPING then RUNNABLE else pr.state)
  }

  ghost function DoLife(s: State, step: LifeStep): State
    requires CanLife(s, step)
  {
    match step
    case Kill(q) => Edit(s, q, Killed(s.procs[q]))
    case ForkAlloc(p, np) =>
      Goto(Edit(s, np, s.procs[np].(state := EMBRYO, pid := s.nextpid, forker := Some(p))), p, Forking(np))
      .(nextpid := s.nextpid + 1)
    case ForkFail(p, np) =>
      Goto(Edit(s, np, s.procs[np].(state := UNUSED, forker := None)), p, User)
    case ForkFill(p, np) =>
      Goto(Edit(s, np, s.procs[np].(stack := true, parent := Some(p))), p, ForkReady(np))
    case ForkPublish(p, np) =>
      Goto(Edit(s, np, s.procs[np].(state := RUNNABLE, forker := None, pc := Saved(RForkret))), p, User)
    case Exit(p) => DoExit(s, p)
    case WaitAcquire(p) => Goto(s, p, WaitScan).(plock := s.procs[p].cpu)
    case WaitReap(p, z) => DoReap(s, p, z)
    case WaitGiveUp(p) => Goto(s, p, User).(plock := None)
    case WaitSleep(p) => Leave(s, p, RWait, OnProc(p))
  }

  ghost function DoLock(s: State, step: LockStep): State
    requires CanLock(s, step)
  {
    match step
    case AcqStart(p, l) => Goto(s, p, AcqSpin(l))
    case AcqLock(p, l) => Goto(SetSpin(s, l, Some(p)), p, Testing(l))
    case AcqTake(p, l) =>
      Edit(s, p, s.procs[p].(pc := User, holds := s.procs[p].holds + {l}))
      .(locks := s.locks[l := SLock(None, true, s.procs[p].pid, Some(p))])
    case AcqMustSleep(p, l) => Goto(s, p, SleepWantP(l))
    case SleepLockP(p, l) => Goto(s, p, SleepRel(l)).(plock := s.procs[p].cpu)
    case SleepDropSpin(p, l) => Goto(SetSpin(s, l, None), p, SleepSet(l))
    case SleepMark(p, l) => Leave(s, p, RLock(l), OnLock(l))
    case RelStart(p, l) => Goto(s, p, RelSpin(l))
    case RelLock(p, l) => Goto(SetSpin(s, l, Some(p)), p, RelHold(l))
    case RelClear(p, l) =>
      Edit(s, p, s.procs[p].(pc := RelWantP(l), holds := s.procs[p].holds - {l}))
      .(locks := s.locks[l := s.locks[l].(locked := false, pid := 0, owner := None)])
    case RelLockP(p, l) => Goto(s, p, RelWake(l)).(plock := s.procs[p].cpu)
    case RelWakeup(p, l) => Goto(s.(procs := Wakeup1(s.procs, OnLock(l))), p, RelDone(l))
    case RelDropP(p, l) => Goto(s, p, RelUnlock(l)).(plock := None)
    case RelDropSpin(p, l) => Goto(SetSpin(s, l, None), p, User)
  }

  ghost function Do(s: State, step: Step): State
    requires Enabled(s, step)
  {
    match step
    case Scheduling(x) => DoSched(s, x)
    case Lifecycle(x) => DoLife(s, x)
    case Locking(x) => DoLock(s, x)
  }

  /** After boot: init is ready to run, every other slot is unused, every CPU schedules. */
  ghost predicate Init(s: State) {
    && |s.procs| > INIT && s.plock.None? && s.nextpid == 2 && s.reaped == []
    && (forall c :: 0 <= c < |s.cpus| ==> s.cpus[c] == Free)
    && (forall l :: 0 <= l < |s.locks| ==> s.locks[l] == SLock(None, false, 0, None))
    && s.procs[INIT] == Proc(RUNNABLE, 1, None, NoChan, false, true, None, None, {}, Saved(RForkret))
    && (forall p :: 0 < p < |s.procs| ==>
          s.procs[p] == Proc(UNUSED, 0, None, NoChan, false, false, None, None, {}, New))
  }

  ghost predicate Legal(s: State, steps: seq<Step>)
    decreases |steps|
  {
    steps == [] || (Enabled(s, steps[0]) && Legal(Do(s, steps[0]), steps[1..]))
  }

  ghost function Exec(s: State, steps: seq<Step>): State
    requires Legal(s, steps)
    decreases |steps|
  {
    if steps == [] then s else Exec(Do(s, steps[0]), steps[1..])
  }
}
