/**
 Whom kill hits. proc.c compares pids without looking at the state, and allocproc does not
 clear killed; so the pids that unused slots still carry decide what kill does.
 */
module KillByPid {
  import opened Params
  import opened Processes
  import opened ProcessInvariants
  import opened ProcessFamilies
  import opened ProcessTheorems
  import opened ProcessTable

  // ---------------------------------------------------------------- the pids of unused slots

  predicate StaleOk(a: Proc, b: Proc) {
    a.state == UNUSED && b.state != UNUSED ==> a.pid != b.pid
  }

  /** No unused slot carries the pid of a slot in use, nor one that is still to come. */
  ghost predicate Stale(s: State) {
    && (forall p, q :: 0 <= p < |s.procs| && 0 <= q < |s.procs| ==> StaleOk(s.procs[p], s.procs[q]))
    && (forall p :: 0 <= p < |s.procs| ==> s.procs[p].pid < s.nextpid)
  }

  predicate SlotKept(a: Proc, b: Proc) {
    b.pid == a.pid && (b.state == UNUSED <==> a.state == UNUSED)
  }

  /** The slot keeps its pid, its mark, and whether it has a thread. */
  predicate SlotSame(a: Proc, b: Proc) {
    SlotKept(a, b) && b.killed == a.killed && HasThread(b) == HasThread(a)
  }

  lemma StaleFrame(s: State, t: State)
    requires Stale(s) && |t.procs| == |s.procs| && t.nextpid == s.nextpid
    requires forall p :: 0 <= p < |s.procs| ==> SlotKept(s.procs[p], t.procs[p])
    ensures Stale(t)
  {
    forall p, q | 0 <= p < |t.procs| && 0 <= q < |t.procs| ensures StaleOk(t.procs[p], t.procs[q]) {
      assert SlotKept(s.procs[p], t.procs[p]) && SlotKept(s.procs[q], t.procs[q]) && StaleOk(s.procs[p], s.procs[q]);
    }
  }

  /** A change of the one slot z, to a pid that no other slot in use has. */
  lemma StaleEdit(s: State, t: State, z: nat)
    requires Stale(s) && |t.procs| == |s.procs| && t.nextpid >= s.nextpid && z < |s.procs|
    requires forall p :: 0 <= p < |s.procs| && p != z ==> SlotKept(s.procs[p], t.procs[p])
    requires t.procs[z].pid < t.nextpid
    requires forall p :: 0 <= p < |s.procs| && p != z ==>
               StaleOk(t.procs[z], s.procs[p]) && StaleOk(s.procs[p], t.procs[z])
    ensures Stale(t)
  {
    forall p, q | 0 <= p < |t.procs| && 0 <= q < |t.procs| ensures StaleOk(t.procs[p], t.procs[q]) {
      if p != z {
        assert SlotKept(s.procs[p], t.procs[p]);
      }
      if q != z {
        assert SlotKept(s.procs[q], t.procs[q]);
      }
      if p != z && q != z {
        assert StaleOk(s.procs[p], s.procs[q]);
      }
    }
  }

  lemma RunnerHasThread(s: State, p: nat)
    requires Placement(s) && OnCpu(s, p)
    ensures HasThread(s.procs[p])
  {
    assert PlaceOk(s, p);
  }

  lemma SchedSame(s: State, step: SchedStep, q: nat)
    requires CanSched(s, step) && q < |s.procs|
    requires step.Yield? || step.SleepOther? ==> HasThread(s.procs[step.p])
    ensures |DoSched(s, step).procs| == |s.procs| && SlotSame(s.procs[q], DoSched(s, step).procs[q])
  {
  }

  lemma LockSame(s: State, step: LockStep, q: nat)
    requires CanLock(s, step) && q < |s.procs| && HasThread(s.procs[step.p])
    ensures |DoLock(s, step).procs| == |s.procs| && SlotSame(s.procs[q], DoLock(s, step).procs[q])
  {
  }

  lemma ExitSame(s: State, p: nat, q: nat)
    requires OnCpu(s, p) && q < |s.procs| && HasThread(s.procs[p])
    ensures |DoExit(s, p).procs| == |s.procs| && SlotSame(s.procs[q], DoExit(s, p).procs[q])
  {
    assert SlotSame(s.procs[q], Orphaned(s.procs, p)[q]);
  }

  predicate WaitMove(step: LifeStep) {
    step.WaitAcquire? || step.WaitGiveUp? || step.WaitSleep?
  }

  lemma WaitSame(s: State, step: LifeStep, q: nat)
    requires CanLife(s, step) && WaitMove(step) && q < |s.procs| && HasThread(s.procs[step.p])
    ensures |DoLife(s, step).procs| == |s.procs| && SlotSame(s.procs[q], DoLife(s, step).procs[q])
  {
  }

  /** kill, fork and the reaping in wait touch the slot they are about. */
  predicate Touches(step: Step, z: nat) {
    step.Lifecycle? &&
    match step.life
    case Kill(q) => q == z
    case ForkAlloc(_, np) => np == z
    case ForkFail(_, np) => np == z
    case ForkFill(_, np) => np == z
    case ForkPublish(_, np) => np == z
    case WaitReap(_, y) => y == z
    case _ => false
  }

  lemma LifeSame(s: State, step: LifeStep, q: nat)
    requires Placement(s) && CanLife(s, step) && q < |s.procs| && !Touches(Lifecycle(step), q)
    ensures |DoLife(s, step).procs| == |s.procs| && SlotSame(s.procs[q], DoLife(s, step).procs[q])
  {
    if step.Exit? {
      RunnerHasThread(s, step.p);
      ExitSame(s, step.p, q);
    } else if WaitMove(step) {
      RunnerHasThread(s, step.p);
      WaitSame(s, step, q);
    }
  }

  lemma StepSame(s: State, step: Step, q: nat)
    requires Placement(s) && Enabled(s, step) && q < |s.procs| && !Touches(step, q)
    ensures |Do(s, step).procs| == |s.procs| && SlotSame(s.procs[q], Do(s, step).procs[q])
  {
    match step
    case Scheduling(x) =>
      if x.Yield? || x.SleepOther? {
        RunnerHasThread(s, x.p);
      }
      SchedSame(s, x, q);
    case Lifecycle(x) => LifeSame(s, x, q);
    case Locking(x) =>
      RunnerHasThread(s, x.p);
      LockSame(s, x, q);
  }

  /** What the steps that touch a slot make of it. */
  lemma TouchedSlot(s: State, step: LifeStep, z: nat)
    requires Placement(s) && Kin(s) && CanLife(s, step) && z < |s.procs| && Touches(Lifecycle(step), z)
    ensures |DoLife(s, step).procs| == |s.procs|
    ensures var a, b := s.procs[z], DoLife(s, step).procs[z];
            match step
            case Kill(_) => SlotKept(a, b) && b.killed && HasThread(b) == HasThread(a)
            case ForkAlloc(_, _) => a.state == UNUSED && b.state == EMBRYO && b.pid == s.nextpid && b.killed == a.killed
            case ForkFail(_, _) => a.state == EMBRYO && b.state == UNUSED && b.pid == a.pid && b.killed == a.killed
            case ForkFill(_, _) => SlotSame(a, b)
            case ForkPublish(_, _) => a.state == EMBRYO && b.state == RUNNABLE && b.pid == a.pid && b.killed == a.killed
            case _ => HasThread(a) && b.state == UNUSED && b.pid == 0 && !b.killed
  {
    if step.ForkFail? || step.ForkFill? || step.ForkPublish? {
      ForkedIsEmbryo(s, step.p, step.np);
    } else if step.WaitReap? {
      assert PlaceOk(s, step.p) && PlaceOk(s, z);
    }
  }

  predicate Newcomer(s: State, t: State, z: nat)
    requires |t.procs| == |s.procs|
  {
    z < |s.procs| && t.procs[z].pid < t.nextpid
    && forall p :: 0 <= p < |s.procs| && p != z ==> StaleOk(t.procs[z], s.procs[p]) && StaleOk(s.procs[p], t.procs[z])
  }

  lemma TouchStale(s: State, step: LifeStep, z: nat)
    requires Placement(s) && Kin(s) && Pids(s) && Stale(s) && CanLife(s, step) && z < |s.procs|
             && Touches(Lifecycle(step), z)
    ensures |DoLife(s, step).procs| == |s.procs| && DoLife(s, step).nextpid >= s.nextpid
            && Newcomer(s, DoLife(s, step), z)
  {
    var t := DoLife(s, step);
    TouchedSlot(s, step, z);
    forall p | 0 <= p < |s.procs| && p != z ensures StaleOk(t.procs[z], s.procs[p]) && StaleOk(s.procs[p], t.procs[z]) {
      assert StaleOk(s.procs[z], s.procs[p]) && StaleOk(s.procs[p], s.procs[z]) && PidOk(s, p)
             && s.procs[p].pid < s.nextpid;
      assert PidsDiffer(s.procs[if p < z then p else z], s.procs[if p < z then z else p]);
    }
    assert s.procs[z].pid < s.nextpid;
  }

  lemma TouchedOne(s: State, step: LifeStep) returns (z: nat)
    requires Placement(s) && CanLife(s, step) && !step.Exit? && !WaitMove(step)
    ensures z < |s.procs| && Touches(Lifecycle(step), z)
    ensures forall q :: 0 <= q < |s.procs| && q != z ==> !Touches(Lifecycle(step), q)
  {
    z := if step.Kill? then step.q else if step.WaitReap? then step.z else step.np;
  }

  lemma NextPid(s: State, step: Step)
    requires Enabled(s, step) && !(step.Lifecycle? && step.life.ForkAlloc?)
    ensures Do(s, step).nextpid == s.nextpid
  {
  }

  lemma StepStale(s: State, step: Step)
    requires Placement(s) && Kin(s) && Pids(s) && Stale(s) && Enabled(s, step)
    ensures Stale(Do(s, step))
  {
    var t := Do(s, step);
    if step.Lifecycle? && !step.life.Exit? && !WaitMove(step.life) {
      var z := TouchedOne(s, step.life);
      TouchStale(s, step.life, z);
      forall q | 0 <= q < |s.procs| && q != z ensures SlotKept(s.procs[q], t.procs[q]) {
        StepSame(s, step, q);
      }
      StaleEdit(s, t, z);
    } else {
      NextPid(s, step);
      SameSlots(s, step);
      forall q | 0 <= q < |s.procs| ensures SlotKept(s.procs[q], t.procs[q]) {
        StepSame(s, step, q);
      }
      StaleFrame(s, t);
    }
  }

  lemma SameSlots(s: State, step: Step)
    requires Placement(s) && Kin(s) && Enabled(s, step)
    ensures |Do(s, step).procs| == |s.procs|
  {
    if Touches(step, INIT) {
      TouchedSlot(s, step.life, INIT);
    } else {
      StepSame(s, step, INIT);
    }
  }

  lemma {:induction false} RunStale(s: State, steps: seq<Step>)
    requires Inv(s) && Stale(s) && Legal(s, steps)
    ensures Stale(Exec(s, steps))
    decreases |steps|
  {
    if steps != [] {
      StepInv(s, steps[0]);
      StepStale(s, steps[0]);
      RunStale(Do(s, steps[0]), steps[1..]);
    }
  }

  // ---------------------------------------------------------------- whom kill(pid) hits

  ghost predicate InUse(procs: seq<Proc>, pid: nat) {
    exists p :: 0 <= p < |procs| && procs[p].state != UNUSED && procs[p].pid == pid
  }

  lemma OneInUse(s: State)
    requires Pids(s)
    ensures forall p, q ::
              && 0 <= p < |s.procs| && 0 <= q < |s.procs| && s.procs[p].state != UNUSED
              && s.procs[q].state != UNUSED && s.procs[p].pid == s.procs[q].pid
              ==> p == q
  {
    forall p, q | 0 <= p < q < |s.procs| && s.procs[p].state != UNUSED && s.procs[q].state != UNUSED
      ensures s.procs[p].pid != s.procs[q].pid
    {
      assert PidsDiffer(s.procs[p], s.procs[q]);
    }
  }

  /**
   In every run, kill(pid) hits a slot in use if and only if some slot in use has that
   pid, and then it hits that very slot. Otherwise it may still hit an unused one.
   */
  lemma KillHitsIffInUse(s0: State, steps: seq<Step>, pid: nat, q: nat)
    requires Init(s0) && Legal(s0, steps)
    requires Finds(Exec(s0, steps).procs, pid, q)
    ensures var procs := Exec(s0, steps).procs;
            && (procs[q].state != UNUSED <==> InUse(procs, pid))
            && (forall p :: 0 <= p < |procs| && procs[p].state != UNUSED && procs[p].pid == pid ==> p == q)
  {
    InitInv(s0);
    RunInv(s0, steps);
    RunStale(s0, steps);
    var procs := Exec(s0, steps).procs;
    OneInUse(Exec(s0, steps));
    forall p | 0 <= p < |procs| && procs[p].state != UNUSED && procs[p].pid == pid ensures p == q {
      assert StaleOk(procs[q], procs[p]);
    }
  }

  // ---------------------------------------------------------------- who is born killed

  /** The state after the first i steps. */
  ghost function After(s0: State, steps: seq<Step>, i: nat): State
    requires Legal(s0, steps) && i <= |steps|
    decreases |steps|
  {
    if i == 0 then s0 else After(Do(s0, steps[0]), steps[1..], i - 1)
  }

  /** Slot np has had no thread since the first i steps. */
  ghost predicate IdleFrom(s0: State, steps: seq<Step>, np: nat, i: nat)
    requires Legal(s0, steps)
  {
    forall j: nat :: i <= j <= |steps| ==> Idle(After(s0, steps, j), np)
  }

  predicate Idle(s: State, np: nat) {
    np < |s.procs| && !HasThread(s.procs[np])
  }

  /** A kill hit slot np while it was UNUSED or EMBRYO, and it has had no thread since. */
  ghost predicate HitIdle(s0: State, steps: seq<Step>, np: nat)
    requires Legal(s0, steps)
  {
    exists i: nat :: i < |steps| && steps[i] == Lifecycle(Kill(np)) && IdleFrom(s0, steps, np, i)
  }

  /** What one step does to the mark of a slot that has no thread after it. */
  lemma MarkStep(s: State, step: Step, np: nat)
    requires Placement(s) && Kin(s) && Enabled(s, step) && np < |s.procs| && Idle(Do(s, step), np)
    ensures Idle(s, np) ==> (Do(s, step).procs[np].killed <==> s.procs[np].killed || step == Lifecycle(Kill(np)))
    ensures !Idle(s, np) ==> !Do(s, step).procs[np].killed && step != Lifecycle(Kill(np))
  {
    if Touches(step, np) {
      TouchedSlot(s, step.life, np);
    } else {
      StepSame(s, step, np);
    }
  }

  /** HitIdle, one step earlier. */
  lemma HitTail(s0: State, steps: seq<Step>, np: nat)
    requires Legal(s0, steps) && steps != [] && IdleEnd(s0, steps, np)
    ensures HitIdle(s0, steps, np) <==>
              || HitIdle(Do(s0, steps[0]), steps[1..], np)
              || (steps[0] == Lifecycle(Kill(np)) && IdleFrom(s0, steps, np, 0))
  {
    var s1, rest := Do(s0, steps[0]), steps[1..];
    forall i: nat | 1 <= i <= |steps| ensures IdleFrom(s0, steps, np, i) <==> IdleFrom(s1, rest, np, i - 1) {
      IdleShift(s0, steps, np, i);
    }
    if HitIdle(s1, rest, np) {
      var i: nat :| i < |rest| && rest[i] == Lifecycle(Kill(np)) && IdleFrom(s1, rest, np, i);
      assert steps[i + 1] == rest[i] && IdleFrom(s0, steps, np, i + 1);
    }
    if HitIdle(s0, steps, np) {
      var i: nat :| i < |steps| && steps[i] == Lifecycle(Kill(np)) && IdleFrom(s0, steps, np, i);
      if i > 0 {
        assert rest[i - 1] == steps[i] && IdleFrom(s1, rest, np, i - 1);
      }
    }
  }

  ghost predicate IdleEnd(s0: State, steps: seq<Step>, np: nat)
    requires Legal(s0, steps)
  {
    Idle(Exec(s0, steps), np)
  }

  lemma IdleShift(s0: State, steps: seq<Step>, np: nat, i: nat)
    requires Legal(s0, steps) && steps != [] && 1 <= i <= |steps|
    ensures IdleFrom(s0, steps, np, i) <==> IdleFrom(Do(s0, steps[0]), steps[1..], np, i - 1)
  {
    var s1, rest := Do(s0, steps[0]), steps[1..];
    if IdleFrom(s0, steps, np, i) {
      forall j: nat | i - 1 <= j <= |rest| ensures Idle(After(s1, rest, j), np) {
        assert After(s0, steps, j + 1) == After(s1, rest, j);
      }
    }
    if IdleFrom(s1, rest, np, i - 1) {
      forall j: nat | i <= j <= |steps| ensures Idle(After(s0, steps, j), np) {
        assert After(s0, steps, j) == After(s1, rest, j - 1);
      }
    }
  }

  /** A slot without a thread is marked if it was before and has had none since, or was hit since. */
  lemma {:induction false} MarkRun(s0: State, steps: seq<Step>, np: nat)
    requires Inv(s0) && Legal(s0, steps) && np < |s0.procs| && IdleEnd(s0, steps, np)
    ensures Exec(s0, steps).procs[np].killed <==>
              (s0.procs[np].killed && IdleFrom(s0, steps, np, 0)) || HitIdle(s0, steps, np)
    decreases |steps|
  {
    if steps == [] {
      assert After(s0, steps, 0) == s0;
    } else {
      var s1, rest := Do(s0, steps[0]), steps[1..];
      StepInv(s0, steps[0]);
      SameSlots(s0, steps[0]);
      MarkRun(s1, rest, np);
      HitTail(s0, steps, np);
      IdleShift(s0, steps, np, 1);
      assert After(s0, steps, 0) == s0 && After(s0, steps, 1) == After(s1, rest, 0) == s1;
      if IdleFrom(s1, rest, np, 0) {
        assert Idle(After(s1, rest, 0), np);
        MarkStep(s0, steps[0], np);
      }
      IdleZero(s0, steps, np);
    }
  }

  lemma IdleZero(s0: State, steps: seq<Step>, np: nat)
    requires Legal(s0, steps)
    ensures IdleFrom(s0, steps, np, 0) <==> Idle(s0, np) && IdleFrom(s0, steps, np, 1)
  {
    assert After(s0, steps, 0) == s0;
    if IdleFrom(s0, steps, np, 0) {
      assert Idle(After(s0, steps, 0), np);
    }
    if Idle(s0, np) && IdleFrom(s0, steps, np, 1) {
      forall j: nat | 0 <= j <= |steps| ensures Idle(After(s0, steps, j), np) {
      }
    }
  }

  /**
   In every run, a process that fork makes runnable starts with killed set if and only if a
   kill hit its slot while the slot was UNUSED or EMBRYO and without a thread ever since.
   */
  lemma BornKilledIffHitIdle(s0: State, steps: seq<Step>, p: nat, np: nat)
    requires Init(s0) && Legal(s0, steps) && CanLife(Exec(s0, steps), ForkPublish(p, np))
    ensures var t := DoLife(Exec(s0, steps), ForkPublish(p, np));
            np < |t.procs| && t.procs[np].state == RUNNABLE && (t.procs[np].killed <==> HitIdle(s0, steps, np))
  {
    InitInv(s0);
    RunInv(s0, steps);
    RunSlots(s0, steps);
    ForkedIsEmbryo(Exec(s0, steps), p, np);
    MarkRun(s0, steps, np);
  }

  lemma {:induction false} RunSlots(s0: State, steps: seq<Step>)
    requires Inv(s0) && Legal(s0, steps)
    ensures |Exec(s0, steps).procs| == |s0.procs|
    decreases |steps|
  {
    if steps != [] {
      StepInv(s0, steps[0]);
      SameSlots(s0, steps[0]);
      RunSlots(Do(s0, steps[0]), steps[1..]);
    }
  }

  // ---------------------------------------------------------------- killed and asleep

  predicate AsleepKilled(s: State, p: nat) {
    p < |s.procs| && s.procs[p].state == SLEEPING && s.procs[p].killed
  }

  /** A process that is asleep after a step has the mark that it had before. */
  lemma SleeperMark(s: State, step: Step, p: nat)
    requires Placement(s) && Kin(s) && Enabled(s, step) && p < |s.procs| && |Do(s, step).procs| == |s.procs|
    requires Do(s, step).procs[p].state == SLEEPING
    ensures Do(s, step).procs[p].killed == s.procs[p].killed
  {
    if Touches(step, p) {
      TouchedSlot(s, step.life, p);
    } else {
      StepSame(s, step, p);
    }
  }

  /** Whether p, asleep after the step, was killed when it fell asleep; `was` says so for before the step. */
  ghost predicate FellKilled(s: State, step: Step, p: nat, was: bool)
    requires Enabled(s, step) && p < |s.procs|
  {
    && p < |Do(s, step).procs| && Do(s, step).procs[p].state == SLEEPING
    && if s.procs[p].state == SLEEPING then was else s.procs[p].killed
  }

  /** Whether p is asleep after the run and was killed when it last fell asleep. */
  ghost predicate SleptKilled(s: State, steps: seq<Step>, p: nat, was: bool)
    requires Legal(s, steps)
    decreases |steps|
  {
    if steps == [] then was
    else p < |s.procs| && SleptKilled(Do(s, steps[0]), steps[1..], p, FellKilled(s, steps[0], p, was))
  }

  lemma {:induction false} SleptKilledRun(s: State, steps: seq<Step>, p: nat)
    requires Inv(s) && Legal(s, steps) && p < |s.procs|
    ensures AsleepKilled(Exec(s, steps), p) <==> SleptKilled(s, steps, p, AsleepKilled(s, p))
    decreases |steps|
  {
    if steps != [] {
      var t := Do(s, steps[0]);
      StepInv(s, steps[0]);
      SameSlots(s, steps[0]);
      if t.procs[p].state == SLEEPING {
        SleeperMark(s, steps[0], p);
      }
      assert FellKilled(s, steps[0], p, AsleepKilled(s, p)) <==> AsleepKilled(t, p);
      SleptKilledRun(t, steps[1..], p);
    }
  }

  /**
   In every run a process is asleep and killed if and only if the kill came before it fell
   asleep: kill wakes a sleeper, and nothing else marks one.
   */
  lemma AsleepKilledIffBefore(s0: State, steps: seq<Step>, p: nat)
    requires Init(s0) && Legal(s0, steps) && p < |s0.procs|
    ensures AsleepKilled(Exec(s0, steps), p) <==> SleptKilled(s0, steps, p, false)
  {
    InitInv(s0);
    SleptKilledRun(s0, steps, p);
  }

  ghost predicate KilledAwake(s: State) {
    forall p: nat :: !AsleepKilled(s, p)
  }

  /** A killed process goes to sleep, in acquiresleep or elsewhere; wait looks at the mark first. */
  predicate DozesOff(s: State, step: Step) {
    match step
    case Locking(SleepMark(p, _)) => p < |s.procs| && s.procs[p].killed
    case Scheduling(SleepOther(p, _)) => p < |s.procs| && s.procs[p].killed
    case _ => false
  }

  /** A step leaves a killed process asleep, if and only if it is a killed process that goes to sleep. */
  lemma KillLostIffDozesOff(s: State, step: Step)
    requires Inv(s) && Enabled(s, step) && KilledAwake(s)
    ensures KilledAwake(Do(s, step)) <==> !DozesOff(s, step)
  {
    var t := Do(s, step);
    SameSlots(s, step);
    if DozesOff(s, step) {
      var p := if step.Locking? then step.lock.p else step.sched.p;
      assert AsleepKilled(t, p);
    } else {
      forall p: nat ensures !AsleepKilled(t, p) {
        if AsleepKilled(t, p) {
          SleeperMark(s, step, p);
          assert !AsleepKilled(s, p);
          FallsAsleep(s, step, p);
        }
      }
    }
  }

  /** Process p is asleep after the step and was not before. */
  ghost predicate Sleeps(s: State, t: State, p: nat) {
    p < |s.procs| == |t.procs| && t.procs[p].state == SLEEPING && s.procs[p].state != SLEEPING
  }

  lemma SchedSleeps(s: State, step: SchedStep, p: nat)
    requires CanSched(s, step) && Sleeps(s, DoSched(s, step), p)
    ensures step.SleepOther? && step.p == p
  {
  }

  lemma LifeSleeps(s: State, step: LifeStep, p: nat)
    requires CanLife(s, step) && Sleeps(s, DoLife(s, step), p)
    ensures step == WaitSleep(p)
  {
  }

  lemma LockSleeps(s: State, step: LockStep, p: nat)
    requires CanLock(s, step) && Sleeps(s, DoLock(s, step), p)
    ensures step.SleepMark? && step.p == p
  {
  }

  /** Only three steps put a process to sleep, and wait's is not taken by a killed one. */
  lemma FallsAsleep(s: State, step: Step, p: nat)
    requires Enabled(s, step) && Sleeps(s, Do(s, step), p) && s.procs[p].killed
    ensures DozesOff(s, step)
  {
    match step
    case Scheduling(x) => SchedSleeps(s, x, p);
    case Lifecycle(x) => LifeSleeps(s, x, p);
    case Locking(x) => LockSleeps(s, x, p);
  }

  // ---------------------------------------------------------------- a process that kill never named

  lemma Ahead(s: State, step: Step, t: State, rest: seq<Step>)
    requires Enabled(s, step) && Do(s, step) == t && Legal(t, rest)
    ensures Legal(s, [step] + rest) && Exec(s, [step] + rest) == Exec(t, rest)
  {
    assert ([step] + rest)[1..] == rest;
  }

  const FIRST: Proc := Proc(RUNNABLE, 1, None, NoChan, false, true, None, None, {}, Saved(RForkret))
  const SPARE: Proc := Proc(UNUSED, 0, None, NoChan, false, false, None, None, {}, New)

  /** One CPU, and the process table with init and one more slot. */
  function Table(a: Proc, b: Proc, cpu: Cpu, plock: Option<nat>, nextpid: nat): State {
    State([a, b], [cpu], [], plock, nextpid, [])
  }

  const RUNNER: Proc := FIRST.(state := RUNNING, cpu := Some(0), pc := User)

  function Embryo(b: Proc): Proc {
    b.(state := EMBRYO, pid := 2, forker := Some(INIT))
  }

  function Filled(b: Proc): Proc {
    Embryo(b).(stack := true, parent := Some(INIT))
  }

  function Born(b: Proc): Proc {
    Filled(b).(state := RUNNABLE, forker := None, pc := Saved(RForkret))
  }

  lemma Allocates(b: Proc)
    requires b.state == UNUSED
    ensures var s, t := Table(RUNNER, b, Runs(0), None, 2),
              Table(RUNNER.(pc := Forking(1)), Embryo(b), Runs(0), None, 3);
            Enabled(s, Lifecycle(ForkAlloc(0, 1))) && Do(s, Lifecycle(ForkAlloc(0, 1))) == t
  {
  }

  lemma Fills(b: Proc)
    ensures var s, t := Table(RUNNER.(pc := Forking(1)), Embryo(b), Runs(0), None, 3),
              Table(RUNNER.(pc := ForkReady(1)), Filled(b), Runs(0), None, 3);
            Enabled(s, Lifecycle(ForkFill(0, 1))) && Do(s, Lifecycle(ForkFill(0, 1))) == t
  {
  }

  lemma Publishes(b: Proc)
    ensures var s, t := Table(RUNNER.(pc := ForkReady(1)), Filled(b), Runs(0), None, 3),
              Table(RUNNER, Born(b), Runs(0), None, 3);
            Enabled(s, Lifecycle(ForkPublish(0, 1))) && Do(s, Lifecycle(ForkPublish(0, 1))) == t
  {
  }

  /** init forks: from user space to the child being runnable. */
  lemma InitForks(b: Proc) returns (steps: seq<Step>)
    requires b.state == UNUSED
    ensures Legal(Table(RUNNER, b, Runs(0), None, 2), steps)
    ensures Exec(Table(RUNNER, b, Runs(0), None, 2), steps) == Table(RUNNER, Born(b), Runs(0), None, 3)
  {
    var s5, s6 := Table(RUNNER.(pc := Forking(1)), Embryo(b), Runs(0), None, 3),
        Table(RUNNER.(pc := ForkReady(1)), Filled(b), Runs(0), None, 3);
    var s7 := Table(RUNNER, Born(b), Runs(0), None, 3);
    assert Legal(s7, []) && Exec(s7, []) == s7;
    Publishes(b);
    Ahead(s6, Lifecycle(ForkPublish(0, 1)), s7, []);
    steps := [Lifecycle(ForkPublish(0, 1))] + [];
    Fills(b);
    Ahead(s5, Lifecycle(ForkFill(0, 1)), s6, steps);
    steps := [Lifecycle(ForkFill(0, 1))] + steps;
    Allocates(b);
    Ahead(Table(RUNNER, b, Runs(0), None, 2), Lifecycle(ForkAlloc(0, 1)), s5, steps);
    steps := [Lifecycle(ForkAlloc(0, 1))] + steps;
  }

  lemma Dispatch(b: Proc)
    ensures var s0, s2 := Table(FIRST, b, Free, None, 2),
              Table(FIRST.(state := RUNNING, cpu := Some(0)), b, Enter(0), Some(0), 2);
            && Enabled(s0, Scheduling(SchedAcquire(0)))
            && Enabled(Do(s0, Scheduling(SchedAcquire(0))), Scheduling(SchedPick(0, 0)))
            && Do(Do(s0, Scheduling(SchedAcquire(0))), Scheduling(SchedPick(0, 0))) == s2
  {
  }

  lemma Start(b: Proc)
    ensures var s2, s4 := Table(FIRST.(state := RUNNING, cpu := Some(0)), b, Enter(0), Some(0), 2),
              Table(RUNNER, b, Runs(0), None, 2);
            && Enabled(s2, Scheduling(SchedSwtch(0, 0)))
            && Enabled(Do(s2, Scheduling(SchedSwtch(0, 0))), Scheduling(Resumed(0)))
            && Do(Do(s2, Scheduling(SchedSwtch(0, 0))), Scheduling(Resumed(0))) == s4
  {
  }

  /** The scheduler starts init for the first time. */
  lemma InitStarts(b: Proc, rest: seq<Step>) returns (steps: seq<Step>)
    requires Legal(Table(RUNNER, b, Runs(0), None, 2), rest)
    ensures Legal(Table(FIRST, b, Free, None, 2), steps)
    ensures Exec(Table(FIRST, b, Free, None, 2), steps) == Exec(Table(RUNNER, b, Runs(0), None, 2), rest)
  {
    var s0, s2 := Table(FIRST, b, Free, None, 2),
        Table(FIRST.(state := RUNNING, cpu := Some(0)), b, Enter(0), Some(0), 2);
    Dispatch(b);
    Start(b);
    var s1, s3 := Do(s0, Scheduling(SchedAcquire(0))), Do(s2, Scheduling(SchedSwtch(0, 0)));
    Ahead(s3, Scheduling(Resumed(0)), Table(RUNNER, b, Runs(0), None, 2), rest);
    steps := [Scheduling(Resumed(0))] + rest;
    Ahead(s2, Scheduling(SchedSwtch(0, 0)), s3, steps);
    steps := [Scheduling(SchedSwtch(0, 0))] + steps;
    Ahead(s1, Scheduling(SchedPick(0, 0)), s2, steps);
    steps := [Scheduling(SchedPick(0, 0))] + steps;
    Ahead(s0, Scheduling(SchedAcquire(0)), s1, steps);
    steps := [Scheduling(SchedAcquire(0))] + steps;
  }

  /** kill(0) right after boot finds the unused slot 1; the process that fork puts there is killed from the start. */
  lemma BornKilled() returns (s0: State, steps: seq<Step>)
    ensures Init(s0) && Finds(s0.procs, 0, 1) && s0.procs[1].state == UNUSED
    ensures steps != [] && steps[0] == Lifecycle(Kill(1)) && Legal(s0, steps)
    ensures var procs := Exec(s0, steps).procs;
            |procs| == 2 && procs[1].state == RUNNABLE && procs[1].pid == 2 && procs[1].killed
  {
    s0 := Table(FIRST, SPARE, Free, None, 2);
    var forks := InitForks(SPARE.(killed := true));
    var rest := InitStarts(SPARE.(killed := true), forks);
    Ahead(s0, Lifecycle(Kill(1)), Table(FIRST, SPARE.(killed := true), Free, None, 2), rest);
    steps := [Lifecycle(Kill(1))] + rest;
  }
}
