/** The process invariants hold in every run, and what follows from them. */
module ProcessTheorems {
  import opened Params
  import opened Processes
  import opened ProcessInvariants
  import opened SleepLocks
  import opened ProcessFamilies

  ghost predicate Inv(s: State) {
    Placement(s) && LocksInv(s) && Kin(s) && Pids(s)
  }

  lemma InitInv(s: State)
    requires Init(s)
    ensures Inv(s)
  {
    forall p | 0 <= p < |s.procs|
      ensures PlaceOk(s, p) && HolderOk(s, p) && SleeperOk(s, p) && KinOk(s, p) && WaiterOk(s, p) && PidOk(s, p)
    {
    }
  }

  lemma KillInv(s: State, q: nat)
    requires Inv(s) && CanLife(s, Kill(q))
    ensures Inv(DoLife(s, Kill(q)))
  {
    var t := DoLife(s, Kill(q));
    PlacementKill(s, q);
    OneNeutral(s, t, q);
    FamilyEdit(s, t, q);
  }

  /** A slot without a state of its own has no thread. */
  lemma SlotIsNew(s: State, np: nat)
    requires Placement(s) && np < |s.procs| && (s.procs[np].state == UNUSED || s.procs[np].state == EMBRYO)
    ensures s.procs[np].pc.New? && s.procs[np].cpu.None? && s.procs[np].holds == {}
  {
    assert PlaceOk(s, np);
  }

  lemma ForkAllocInv(s: State, p: nat, np: nat)
    requires Inv(s) && CanLife(s, ForkAlloc(p, np))
    ensures Inv(DoLife(s, ForkAlloc(p, np)))
  {
    var t := DoLife(s, ForkAlloc(p, np));
    assert PlaceOk(s, p);
    SlotIsNew(s, np);
    PlacementFork(s, p, np, t.procs[np], Forking(np));
    PlacementFrame(Goto(Edit(s, np, t.procs[np]), p, Forking(np)), t);
    LocksFork(s, t, p, np, Forking(np));
    FamilyForkAlloc(s, p, np);
  }

  /** Inside fork the slot being created is an EMBRYO. */
  lemma ForkedIsEmbryo(s: State, p: nat, np: nat)
    requires Placement(s) && Kin(s) && OnCpu(s, p) && (s.procs[p].pc == Forking(np) || s.procs[p].pc == ForkReady(np))
    ensures np < |s.procs| && np != p && s.procs[np].state == EMBRYO && s.procs[p].state == RUNNING
    ensures s.procs[np].pc.New? && s.procs[np].cpu.None? && s.procs[np].holds == {}
  {
    assert KinOk(s, p) && PlaceOk(s, p);
    SlotIsNew(s, np);
  }

  predicate ForkMore(step: LifeStep, pc: Pc) {
    (step.ForkFail? && pc.User?) || (step.ForkFill? && pc == ForkReady(step.np)) || (step.ForkPublish? && pc.User?)
  }

  lemma ForkMorePlacement(s: State, step: LifeStep, pc: Pc)
    requires Inv(s) && CanLife(s, step) && ForkMore(step, pc)
    ensures Placement(DoLife(s, step))
  {
    var t := DoLife(s, step);
    ForkedIsEmbryo(s, step.p, step.np);
    assert KinOk(s, step.p) && KinOk(s, step.np);
    PlacementFork(s, step.p, step.np, t.procs[step.np], pc);
  }

  lemma ForkMoreLocks(s: State, step: LifeStep, pc: Pc)
    requires Inv(s) && CanLife(s, step) && ForkMore(step, pc)
    ensures LocksInv(DoLife(s, step))
  {
    var t := DoLife(s, step);
    ForkedIsEmbryo(s, step.p, step.np);
    assert KinOk(s, step.p) && KinOk(s, step.np);
    LocksFork(s, t, step.p, step.np, pc);
  }

  lemma ForkMoreInv(s: State, step: LifeStep, pc: Pc)
    requires Inv(s) && CanLife(s, step) && ForkMore(step, pc)
    ensures Placement(DoLife(s, step)) && LocksInv(DoLife(s, step))
  {
    ForkMorePlacement(s, step, pc);
    ForkMoreLocks(s, step, pc);
  }

  lemma WaitMoveInv(s: State, p: nat, pc: Pc, plock: Option<nat>)
    requires Inv(s) && OnCpu(s, p)
    requires (s.procs[p].pc.User? && s.plock.None? && pc.WaitScan? && plock == s.procs[p].cpu)
          || (s.procs[p].pc.WaitScan? && pc.User? && plock.None?)
    ensures Inv(Goto(s, p, pc).(plock := plock))
  {
    var t := Goto(s, p, pc).(plock := plock);
    PlacementGo(s, p, t.procs[p], plock);
    OneNeutral(s, t, p);
    FamilyEdit(s, t, p);
  }

  lemma WaitSleepInv(s: State, p: nat)
    requires Inv(s) && CanLife(s, WaitSleep(p))
    ensures Inv(DoLife(s, WaitSleep(p)))
  {
    var t := DoLife(s, WaitSleep(p));
    assert PlaceOk(s, p);
    assert s.plock == s.procs[p].cpu by {
      assert InCritical(s, s.procs[p].cpu.value) <==> s.plock == s.procs[p].cpu;
    }
    PlacementLeave(s, p, RWait, OnProc(p));
    OneNeutral(s, t, p);
    FamilyWaitSleep(s, p);
  }

  lemma LifeInv(s: State, step: LifeStep)
    requires Inv(s) && CanLife(s, step)
    ensures Inv(DoLife(s, step))
  {
    match step
    case Kill(q) => KillInv(s, q);
    case ForkAlloc(p, np) => ForkAllocInv(s, p, np);
    case ForkFail(p, np) =>
      ForkedIsEmbryo(s, p, np);
      ForkMoreInv(s, step, User);
      FamilyForkFail(s, p, np);
    case ForkFill(p, np) =>
      ForkedIsEmbryo(s, p, np);
      ForkMoreInv(s, step, ForkReady(np));
      FamilyForkFill(s, p, np);
    case ForkPublish(p, np) =>
      ForkedIsEmbryo(s, p, np);
      ForkMoreInv(s, step, User);
      FamilyForkPublish(s, p, np);
    case Exit(p) =>
      assert PlaceOk(s, p);
      PlacementExit(s, p);
      LocksExit(s, p);
      FamilyExit(s, p);
    case WaitAcquire(p) => WaitMoveInv(s, p, WaitScan, s.procs[p].cpu);
    case WaitReap(p, z) =>
      assert PlaceOk(s, p);
      LocksReap(s, p, z);
      PlacementReap(s, p, z);
      KinReap(s, p, z);
      PidsReap(s, p, z);
    case WaitGiveUp(p) => WaitMoveInv(s, p, User, None);
    case WaitSleep(p) => WaitSleepInv(s, p);
  }

  lemma StepInv(s: State, step: Step)
    requires Inv(s) && Enabled(s, step)
    ensures Inv(Do(s, step))
  {
    match step
    case Scheduling(x) =>
      PlacementSched(s, x);
      LocksSched(s, x);
      FamilySched(s, x);
    case Lifecycle(x) => LifeInv(s, x);
    case Locking(x) =>
      PlacementLock(s, x);
      LocksLock(s, x);
      FamilyLock(s, x);
  }

  lemma {:induction false} RunInv(s: State, steps: seq<Step>)
    requires Inv(s) && Legal(s, steps)
    ensures Inv(Exec(s, steps))
    decreases |steps|
  {
    if steps != [] {
      StepInv(s, steps[0]);
      RunInv(Do(s, steps[0]), steps[1..]);
    }
  }

  // ---------------------------------------------------------------- theorems

  /**
   No lost wakeup: in every run, with any number of processes, CPUs and sleep-locks and
   with kill, a process asleep in acquiresleep waits for a lock that is held, or whose
   releaser has cleared it and still has its wakeup1 ahead.
   */
  lemma NoLostWakeup(s0: State, steps: seq<Step>, p: nat, l: nat)
    requires Init(s0) && Legal(s0, steps)
    requires var s := Exec(s0, steps); p < |s.procs| && AsleepOn(s.procs[p], l)
    ensures var s := Exec(s0, steps); l < |s.locks| && (s.locks[l].locked || WakeupPending(s, l))
  {
    InitInv(s0);
    RunInv(s0, steps);
    assert SleeperOk(Exec(s0, steps), p);
  }

  /** holdingsleep, as bio.c and fs.c use it to check their callers. */
  predicate HoldingSleep(s: State, p: nat, l: nat)
    requires p < |s.procs| && l < |s.locks|
  {
    s.locks[l].locked && s.locks[l].pid == s.procs[p].pid
  }

  /**
   Mutual exclusion: a sleep-lock is held by at most one process, it says `locked` exactly
   while some process holds it, and holdingsleep answers exactly for the caller.
   */
  lemma SleepLockExcludes(s0: State, steps: seq<Step>, p: nat, q: nat, l: nat)
    requires Init(s0) && Legal(s0, steps)
    requires var s := Exec(s0, steps); p < |s.procs| && q < |s.procs| && l < |s.locks|
    ensures var s := Exec(s0, steps);
            && (l in s.procs[p].holds && l in s.procs[q].holds ==> p == q)
            && (s.locks[l].locked <==> exists h :: 0 <= h < |s.procs| && l in s.procs[h].holds)
            && (s.procs[p].state != UNUSED ==> (HoldingSleep(s, p, l) <==> l in s.procs[p].holds))
  {
    InitInv(s0);
    RunInv(s0, steps);
    var s := Exec(s0, steps);
    assert HolderOk(s, p) && HolderOk(s, q) && LockOk(s, l);
    forall h | 0 <= h < |s.procs| && l in s.procs[h].holds ensures s.locks[l].locked {
      assert HolderOk(s, h);
    }
    if s.locks[l].locked {
      var h := s.locks[l].owner.value;
      assert l in s.procs[h].holds && HolderOk(s, h);
      if h != p {
        assert PidsDiffer(s.procs[if p < h then p else h], s.procs[if p < h then h else p]);
      }
    }
  }

  /** The process that c->proc names. */
  function Current(cpu: Cpu): Option<nat> {
    if cpu.Free? || cpu.Hold? then None else Some(cpu.p)
  }

  /** In every run a process is current on at most one CPU, and then has its kernel stack. */
  lemma OneCpuPerProcess(s0: State, steps: seq<Step>, c: nat, d: nat)
    requires Init(s0) && Legal(s0, steps)
    requires var s := Exec(s0, steps);
             c < |s.cpus| && d < |s.cpus| && Current(s.cpus[c]).Some? && Current(s.cpus[c]) == Current(s.cpus[d])
    ensures c == d
    ensures var s := Exec(s0, steps);
            Current(s.cpus[c]).value < |s.procs| && s.procs[Current(s.cpus[c]).value].stack
  {
    InitInv(s0);
    RunInv(s0, steps);
    var s := Exec(s0, steps);
    assert CpuOk(s, c) && CpuOk(s, d);
    assert PlaceOk(s, s.cpus[c].p);
  }

  /**
   wait() frees the kernel stack and page table only of a child that is on no CPU, whose
   context is saved for good, and whose pid no wait() has returned before; the caller is
   the child's current parent, and every other live process keeps its stack.
   */
  lemma ReapIsSafe(s0: State, steps: seq<Step>, p: nat, z: nat)
    requires Init(s0) && Legal(s0, steps) && CanLife(Exec(s0, steps), WaitReap(p, z))
    ensures var s := Exec(s0, steps);
            && (forall c :: 0 <= c < |s.cpus| ==> Current(s.cpus[c]) != Some(z))
            && s.procs[z].pc == Saved(RDead) && s.procs[z].stack
            && s.procs[z].pid !in s.reaped
            && s.procs[z].parent == Some(p) && p != z
            && (forall q :: 0 <= q < |s.procs| && q != z ==> DoReap(s, p, z).procs[q].stack == s.procs[q].stack)
            && (forall q :: 0 <= q < |s.procs| && HasThread(s.procs[q]) ==> s.procs[q].parent != Some(z))
  {
    InitInv(s0);
    RunInv(s0, steps);
    var s := Exec(s0, steps);
    assert PlaceOk(s, p) && PlaceOk(s, z) && KinOk(s, z) && PidOk(s, z);
    ZombieIsOff(s, p, z);
    forall c | 0 <= c < |s.cpus| ensures Current(s.cpus[c]) != Some(z) {
      assert CpuOk(s, c);
    }
    forall q | 0 <= q < |s.procs| && HasThread(s.procs[q]) ensures s.procs[q].parent != Some(z) {
      assert KinOk(s, q);
    }
  }

  /** Over a whole run no pid is reaped twice, and a reaped pid is never in use again. */
  lemma ReapedOnce(s0: State, steps: seq<Step>)
    requires Init(s0) && Legal(s0, steps)
    ensures var s := Exec(s0, steps);
            && (forall i, j :: 0 <= i < j < |s.reaped| ==> s.reaped[i] != s.reaped[j])
            && (forall p :: 0 <= p < |s.procs| && s.procs[p].state != UNUSED ==> s.procs[p].pid !in s.reaped)
            && (forall p, q :: 0 <= p < q < |s.procs| && s.procs[p].state != UNUSED && s.procs[q].state != UNUSED ==>
                  s.procs[p].pid != s.procs[q].pid)
  {
    InitInv(s0);
    RunInv(s0, steps);
    var s := Exec(s0, steps);
    forall p | 0 <= p < |s.procs| && s.procs[p].state != UNUSED ensures s.procs[p].pid !in s.reaped {
      assert PidOk(s, p);
    }
    forall p, q | 0 <= p < q < |s.procs| && s.procs[p].state != UNUSED && s.procs[q].state != UNUSED
      ensures s.procs[p].pid != s.procs[q].pid
    {
      assert PidsDiffer(s.procs[p], s.procs[q]);
    }
  }

  /** No run leaves a parent asleep in wait() while it has a zombie child. */
  lemma NoForgottenZombie(s0: State, steps: seq<Step>, p: nat, z: nat)
    requires Init(s0) && Legal(s0, steps)
    requires var s := Exec(s0, steps);
             p < |s.procs| && z < |s.procs| && s.procs[z].state == ZOMBIE && s.procs[z].parent == Some(p)
    ensures var s := Exec(s0, steps);
            !(s.procs[p].state == SLEEPING && s.procs[p].chan == OnProc(p))
  {
    InitInv(s0);
    RunInv(s0, steps);
    assert WaiterOk(Exec(s0, steps), p);
  }

  /** Every process but init has a live parent, so no exit status is ever orphaned. */
  lemma EveryoneHasALiveParent(s0: State, steps: seq<Step>, p: nat)
    requires Init(s0) && Legal(s0, steps)
    requires var s := Exec(s0, steps); p < |s.procs| && p != INIT && HasThread(s.procs[p])
    ensures var s := Exec(s0, steps);
            && s.procs[p].parent.Some? && s.procs[p].parent.value < |s.procs|
            && Live(s.procs[s.procs[p].parent.value])
  {
    InitInv(s0);
    RunInv(s0, steps);
    assert KinOk(Exec(s0, steps), p);
  }
}
