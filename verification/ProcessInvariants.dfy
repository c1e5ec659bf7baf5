/** What every run of the process transition system keeps. */
module ProcessInvariants {
  import opened Params
  import opened Processes

  // ---------------------------------------------------------------- CPUs and ptable.lock

  predicate ChanFits(p: nat, chan: Chan, r: Resume) {
    || (r.RWait? && chan == OnProc(p))
    || (r.RLock? && chan == OnLock(r.l))
    || (r.ROther? && chan.OnOther?)
  }

  /** Only a preemptible point can be behind a yield. */
  predicate YieldOk(r: Resume) {
    r.RYield? ==> Preemptible(r.back)
  }

  /** A process's state, its program point and the CPU it is on fit together. */
  predicate PlaceOk(s: State, p: nat)
    requires p < |s.procs|
  {
    var pr := s.procs[p];
    if pr.pc.New? then
      (pr.state == UNUSED || pr.state == EMBRYO) && pr.cpu.None? && pr.holds == {}
    else if pr.pc.Saved? then
      && pr.state != UNUSED && pr.state != EMBRYO && pr.stack && YieldOk(pr.pc.r)
      && (pr.state == ZOMBIE <==> pr.pc.r.RDead?)
      && (pr.state == SLEEPING ==> ChanFits(p, pr.chan, pr.pc.r))
      && (pr.state == RUNNING ==> pr.cpu.Some?)
      && (pr.cpu.Some? ==>
            && pr.cpu.value < |s.cpus|
            && s.cpus[pr.cpu.value] == if pr.state == RUNNING then Enter(p) else Back(p))
    else
      && OnCpu(s, p) && pr.stack
      && (if pr.pc.Leaving? then
            && YieldOk(pr.pc.r) && pr.state == LeavesAs(pr.pc.r) && !pr.pc.r.RForkret?
            && (pr.state == SLEEPING ==> ChanFits(p, pr.chan, pr.pc.r))
          else pr.state == RUNNING && (pr.pc.Entered? ==> YieldOk(pr.pc.r) && !pr.pc.r.RDead?))
  }

  /** c->proc and the process's own record agree, so no process is current on two CPUs. */
  predicate CpuOk(s: State, c: nat)
    requires c < |s.cpus|
  {
    match s.cpus[c]
    case Enter(p) => p < |s.procs| && s.procs[p].cpu == Some(c) && s.procs[p].pc.Saved?
    case Runs(p) => p < |s.procs| && s.procs[p].cpu == Some(c) && !s.procs[p].pc.Saved? && !s.procs[p].pc.New?
    case Back(p) => p < |s.procs| && s.procs[p].cpu == Some(c) && s.procs[p].pc.Saved?
    case _ => true
  }

  /** Whether the code that CPU c executes is inside a ptable.lock critical section. */
  predicate InCritical(s: State, c: nat)
    requires c < |s.cpus| && CpuOk(s, c)
  {
    match s.cpus[c]
    case Free => false
    case Runs(p) => HoldsP(s.procs[p].pc)
    case _ => true
  }

  ghost predicate Placement(s: State) {
    && (forall p :: 0 <= p < |s.procs| ==> PlaceOk(s, p))
    && (forall c :: 0 <= c < |s.cpus| ==> CpuOk(s, c))
    && (forall c :: 0 <= c < |s.cpus| ==> (InCritical(s, c) <==> s.plock == Some(c)))
    && (s.plock.Some? ==> s.plock.value < |s.cpus|)
  }

  /** Two threads inside ptable.lock critical sections are one thread. */
  lemma CriticalIsUnique(s: State, p: nat, q: nat)
    requires Placement(s) && OnCpu(s, p) && OnCpu(s, q)
    requires HoldsP(s.procs[p].pc) && HoldsP(s.procs[q].pc)
    ensures p == q
  {
    assert InCritical(s, s.procs[p].cpu.value) && InCritical(s, s.procs[q].cpu.value);
  }

  /** Editing one process without moving it between CPUs or across a critical section. */
  lemma Touch(s: State, q: nat, pr: Proc)
    requires Placement(s) && q < |s.procs| && PlaceOk(Edit(s, q, pr), q)
    requires pr.cpu == s.procs[q].cpu
    requires pr.cpu.Some? ==>
      && pr.pc.Saved? == s.procs[q].pc.Saved? && pr.pc.New? == s.procs[q].pc.New?
      && HoldsP(pr.pc) == HoldsP(s.procs[q].pc)
    ensures Placement(Edit(s, q, pr))
  {
    var t := Edit(s, q, pr);
    forall p | 0 <= p < |t.procs| ensures PlaceOk(t, p) {
      assert PlaceOk(s, p);
    }
    forall c | 0 <= c < |t.cpus| ensures CpuOk(t, c) && (InCritical(t, c) <==> t.plock == Some(c)) {
      assert CpuOk(s, c) && (InCritical(s, c) <==> s.plock == Some(c));
    }
  }

  /** Editing CPU c, the process it is about, and who holds ptable.lock. */
  lemma Local(s: State, t: State, p: nat, c: nat)
    requires Placement(s) && p < |s.procs| && c < |s.cpus|
    requires |t.procs| == |s.procs| && |t.cpus| == |s.cpus|
    requires forall q :: 0 <= q < |s.procs| && q != p ==> t.procs[q] == s.procs[q]
    requires forall d :: 0 <= d < |s.cpus| && d != c ==> t.cpus[d] == s.cpus[d]
    requires s.cpus[c] == Free || s.cpus[c] == Hold || s.procs[p].cpu == Some(c)
    requires s.procs[p].cpu == None || s.procs[p].cpu == Some(c)
    requires PlaceOk(t, p) && CpuOk(t, c) && (InCritical(t, c) <==> t.plock == Some(c))
    requires s.plock == None || s.plock == Some(c)
    requires t.plock == None || t.plock == Some(c)
    ensures Placement(t)
  {
    assert CpuOk(s, c) && PlaceOk(s, p);
    forall q | 0 <= q < |t.procs| ensures PlaceOk(t, q) {
      assert PlaceOk(s, q);
    }
    forall d | 0 <= d < |t.cpus| ensures CpuOk(t, d) && (InCritical(t, d) <==> t.plock == Some(d)) {
      assert CpuOk(s, d) && (InCritical(s, d) <==> s.plock == Some(d));
    }
  }

  /** wakeup1 while no one is between setting SLEEPING and the end of its swtch. */
  lemma WakePlacement(s: State, chan: Chan)
    requires Placement(s)
    requires forall q :: 0 <= q < |s.procs| ==> !s.procs[q].pc.Leaving?
    ensures Placement(s.(procs := Wakeup1(s.procs, chan)))
  {
    var t := s.(procs := Wakeup1(s.procs, chan));
    forall q | 0 <= q < |t.procs| ensures PlaceOk(t, q) {
      assert PlaceOk(s, q);
    }
    forall d | 0 <= d < |t.cpus| ensures CpuOk(t, d) && (InCritical(t, d) <==> t.plock == Some(d)) {
      assert CpuOk(s, d) && (InCritical(s, d) <==> s.plock == Some(d));
    }
  }

  lemma FreeLockMeansNoneLeaving(s: State)
    requires Placement(s) && s.plock.None?
    ensures forall q :: 0 <= q < |s.procs| ==> !HoldsP(s.procs[q].pc) && (s.procs[q].cpu.Some? ==> OnCpu(s, q))
  {
    forall q | 0 <= q < |s.procs| ensures !HoldsP(s.procs[q].pc) && (s.procs[q].cpu.Some? ==> OnCpu(s, q)) {
      assert PlaceOk(s, q);
      if s.procs[q].cpu.Some? {
        var c := s.procs[q].cpu.value;
        assert InCritical(s, c) <==> s.plock == Some(c);
      }
    }
  }

  /** The scheduler acquires or releases ptable.lock. */
  lemma CpuOnly(s: State, t: State, c: nat)
    requires Placement(s) && c < |s.cpus|
    requires (s.cpus[c] == Free && s.plock.None? && t == SetCpu(s, c, Hold).(plock := Some(c)))
          || (s.cpus[c] == Hold && t == SetCpu(s, c, Free).(plock := None))
    ensures Placement(t)
  {
    forall q | 0 <= q < |t.procs| ensures PlaceOk(t, q) {
      assert PlaceOk(s, q);
    }
    assert CpuOk(s, c) && (InCritical(s, c) <==> s.plock == Some(c));
    forall d | 0 <= d < |t.cpus| ensures CpuOk(t, d) && (InCritical(t, d) <==> t.plock == Some(d)) {
      assert CpuOk(s, d) && (InCritical(s, d) <==> s.plock == Some(d));
    }
  }

  /** A RUNNABLE process found under ptable.lock by an idle CPU is on no CPU. */
  lemma PickedIsIdle(s: State, c: nat, p: nat)
    requires Placement(s) && c < |s.cpus| && s.cpus[c] == Hold && p < |s.procs| && s.procs[p].state == RUNNABLE
    ensures s.procs[p].cpu.None? && s.procs[p].pc.Saved?
  {
    assert PlaceOk(s, p) && InCritical(s, c);
    if s.procs[p].cpu.Some? {
      assert InCritical(s, s.procs[p].cpu.value);
    }
  }

  /** A step of process p on its own CPU. */
  lemma Moved(s: State, t: State, p: nat)
    requires Placement(s) && OnCpu(s, p)
    requires |t.procs| == |s.procs| && |t.cpus| == |s.cpus|
    requires forall q :: 0 <= q < |s.procs| && q != p ==> t.procs[q] == s.procs[q]
    requires forall d :: 0 <= d < |s.cpus| && d != s.procs[p].cpu.value ==> t.cpus[d] == s.cpus[d]
    requires PlaceOk(s, p) && CpuOk(s, s.procs[p].cpu.value) ==>
      && PlaceOk(t, p) && CpuOk(t, s.procs[p].cpu.value)
      && (InCritical(t, s.procs[p].cpu.value) <==> t.plock == s.procs[p].cpu)
    requires HoldsP(s.procs[p].pc) || s.plock.None?
    requires t.plock == None || t.plock == s.procs[p].cpu
    ensures Placement(t)
  {
    assert PlaceOk(s, p) && CpuOk(s, s.procs[p].cpu.value);
    assert InCritical(s, s.procs[p].cpu.value) <==> s.plock == s.procs[p].cpu;
    Local(s, t, p, s.procs[p].cpu.value);
  }

  lemma PlacementPick(s: State, c: nat, p: nat)
    requires Placement(s) && CanSched(s, SchedPick(c, p))
    ensures Placement(DoSched(s, SchedPick(c, p)))
  {
    assert PlaceOk(s, p) && CpuOk(s, c) && InCritical(s, c);
    PickedIsIdle(s, c, p);
    Local(s, DoSched(s, SchedPick(c, p)), p, c);
  }

  lemma PlacementSwtchIn(s: State, c: nat, p: nat)
    requires Placement(s) && CanSched(s, SchedSwtch(c, p))
    ensures Placement(DoSched(s, SchedSwtch(c, p)))
  {
    assert PlaceOk(s, p) && CpuOk(s, c) && InCritical(s, c);
    Local(s, DoSched(s, SchedSwtch(c, p)), p, c);
  }

  lemma PlacementReturn(s: State, c: nat, p: nat)
    requires Placement(s) && CanSched(s, SchedReturn(c, p))
    ensures Placement(DoSched(s, SchedReturn(c, p)))
  {
    assert PlaceOk(s, p) && CpuOk(s, c) && InCritical(s, c);
    Local(s, DoSched(s, SchedReturn(c, p)), p, c);
  }

  lemma PlacementResumed(s: State, p: nat)
    requires Placement(s) && CanSched(s, Resumed(p))
    ensures Placement(DoResumed(s, p))
  {
    assert PlaceOk(s, p);
    Moved(s, DoResumed(s, p), p);
  }

  lemma PlacementSched(s: State, step: SchedStep)
    requires Placement(s) && CanSched(s, step)
    ensures Placement(DoSched(s, step))
  {
    match step
    case SchedAcquire(c) => CpuOnly(s, DoSched(s, step), c);
    case SchedRelease(c) => CpuOnly(s, DoSched(s, step), c);
    case SchedPick(c, p) => PlacementPick(s, c, p);
    case SchedSwtch(c, p) => PlacementSwtchIn(s, c, p);
    case SchedReturn(c, p) => PlacementReturn(s, c, p);
    case Swtch(p) => PlacementSwtchOut(s, p);
    case Resumed(p) => PlacementResumed(s, p);
    case Yield(p) => PlacementYield(s, p);
    case SleepOther(p, n) => PlacementLeave(s, p, ROther, OnOther(n));
    case WakeOther(n) =>
      FreeLockMeansNoneLeaving(s);
      WakePlacement(s, OnOther(n));
  }

  lemma PlacementSwtchOut(s: State, p: nat)
    requires Placement(s) && CanSched(s, Swtch(p))
    ensures Placement(DoSched(s, Swtch(p)))
  {
    assert PlaceOk(s, p);
    Moved(s, DoSched(s, Swtch(p)), p);
  }

  lemma PlacementYield(s: State, p: nat)
    requires Placement(s) && CanSched(s, Yield(p))
    ensures Placement(DoSched(s, Yield(p)))
  {
    Moved(s, DoSched(s, Yield(p)), p);
  }

  /** Going to sleep under ptable.lock, held already or acquired in the same step. */
  lemma PlacementLeave(s: State, p: nat, r: Resume, chan: Chan)
    requires Placement(s) && OnCpu(s, p) && ChanFits(p, chan, r)
    requires HoldsP(s.procs[p].pc) || s.plock.None?
    ensures Placement(Leave(s, p, r, chan).(plock := s.procs[p].cpu))
  {
    Moved(s, Leave(s, p, r, chan).(plock := s.procs[p].cpu), p);
  }

  /** Placement does not look at the sleep-locks, the pid counter or the reaped list. */
  lemma PlacementFrame(s: State, t: State)
    requires Placement(s) && t.procs == s.procs && t.cpus == s.cpus && t.plock == s.plock
    ensures Placement(t)
  {
    forall p | 0 <= p < |t.procs| ensures PlaceOk(t, p) {
      assert PlaceOk(s, p);
    }
    forall c | 0 <= c < |t.cpus| ensures CpuOk(t, c) && (InCritical(t, c) <==> t.plock == Some(c)) {
      assert CpuOk(s, c) && (InCritical(s, c) <==> s.plock == Some(c));
    }
  }

  /** A program point between system calls and scheduling. */
  predicate Inside(pc: Pc) {
    !pc.New? && !pc.Saved? && !pc.Leaving? && !pc.Entered?
  }

  /** A running process moves to another point, taking or dropping ptable.lock as due. */
  lemma PlacementGo(s: State, p: nat, pr: Proc, plock: Option<nat>)
    requires Placement(s) && OnCpu(s, p) && Inside(s.procs[p].pc) && Inside(pr.pc)
    requires pr.cpu == s.procs[p].cpu && pr.stack == s.procs[p].stack && pr.state == s.procs[p].state
    requires HoldsP(s.procs[p].pc) == HoldsP(pr.pc) ==> plock == s.plock
    requires !HoldsP(s.procs[p].pc) && HoldsP(pr.pc) ==> s.plock.None? && plock == pr.cpu
    requires HoldsP(s.procs[p].pc) && !HoldsP(pr.pc) ==> plock.None?
    ensures Placement(Edit(s, p, pr).(plock := plock))
  {
    assert PlaceOk(s, p);
    if HoldsP(s.procs[p].pc) == HoldsP(pr.pc) {
      Touch(s, p, pr);
    } else {
      Moved(s, Edit(s, p, pr).(plock := plock), p);
    }
  }

  lemma PlacementMark(s: State, p: nat, l: nat)
    requires Placement(s) && At(s, p, SleepSet(l))
    ensures Placement(Leave(s, p, RLock(l), OnLock(l)))
  {
    assert s.plock == s.procs[p].cpu by {
      assert InCritical(s, s.procs[p].cpu.value) <==> s.plock == s.procs[p].cpu;
    }
    assert PlaceOk(s, p);
    PlacementLeave(s, p, RLock(l), OnLock(l));
  }

  /** Nobody else can be between SLEEPING and swtch while p is in a critical section. */
  lemma NoneLeaving(s: State, p: nat)
    requires Placement(s) && OnCpu(s, p) && HoldsP(s.procs[p].pc) && !s.procs[p].pc.Leaving?
    ensures forall q :: 0 <= q < |s.procs| ==> !s.procs[q].pc.Leaving?
  {
    forall q | 0 <= q < |s.procs| ensures !s.procs[q].pc.Leaving? {
      assert PlaceOk(s, q);
      if s.procs[q].pc.Leaving? {
        CriticalIsUnique(s, p, q);
      }
    }
  }

  lemma PlacementWakeup(s: State, p: nat, l: nat)
    requires Placement(s) && At(s, p, RelWake(l))
    ensures Placement(Goto(s.(procs := Wakeup1(s.procs, OnLock(l))), p, RelDone(l)))
  {
    NoneLeaving(s, p);
    WakePlacement(s, OnLock(l));
    var w := s.(procs := Wakeup1(s.procs, OnLock(l)));
    assert PlaceOk(s, p);
    PlacementGo(w, p, w.procs[p].(pc := RelDone(l)), w.plock);
  }

  lemma PlacementAcquire(s: State, step: LockStep)
    requires Placement(s) && CanLock(s, step) && Acquiring(step) && !step.SleepMark?
    ensures Placement(DoLock(s, step))
  {
    var t, p := DoLock(s, step), step.p;
    PlacementGo(s, p, t.procs[p], t.plock);
    PlacementFrame(Edit(s, p, t.procs[p]).(plock := t.plock), t);
  }

  lemma PlacementRelease(s: State, step: LockStep)
    requires Placement(s) && CanLock(s, step) && !Acquiring(step) && !step.RelWakeup?
    ensures Placement(DoLock(s, step))
  {
    var t, p := DoLock(s, step), step.p;
    PlacementGo(s, p, t.procs[p], t.plock);
    PlacementFrame(Edit(s, p, t.procs[p]).(plock := t.plock), t);
  }

  lemma PlacementLock(s: State, step: LockStep)
    requires Placement(s) && CanLock(s, step)
    ensures Placement(DoLock(s, step))
  {
    if step.SleepMark? {
      PlacementMark(s, step.p, step.l);
    } else if step.RelWakeup? {
      PlacementWakeup(s, step.p, step.l);
    } else if Acquiring(step) {
      PlacementAcquire(s, step);
    } else {
      PlacementRelease(s, step);
    }
  }

  lemma PlacementFork(s: State, p: nat, np: nat, child: Proc, pc: Pc)
    requires Placement(s) && OnCpu(s, p) && np < |s.procs| && s.procs[np].pc.New?
    requires Inside(s.procs[p].pc) && !HoldsP(s.procs[p].pc) && Inside(pc) && !HoldsP(pc)
    requires child.cpu == s.procs[np].cpu && PlaceOk(Edit(s, np, child), np)
    ensures Placement(Goto(Edit(s, np, child), p, pc))
  {
    assert PlaceOk(s, p) && PlaceOk(s, np);
    Touch(s, np, child);
    var w := Edit(s, np, child);
    PlacementGo(w, p, w.procs[p].(pc := pc), w.plock);
  }

  /** A process after other processes' wakeups and adoptions: as before, maybe woken, maybe adopted. */
  predicate Stirred(a: Proc, b: Proc) {
    && b == a.(state := b.state, parent := b.parent)
    && (b.state == a.state || (a.state == SLEEPING && b.state == RUNNABLE))
  }

  lemma OrphanedStirs(procs: seq<Proc>, p: nat)
    requires p < |procs|
    ensures var r := Orphaned(procs, p);
            forall q :: 0 <= q < |procs| ==> Stirred(procs[q], r[q])
  {
  }

  lemma PlacementAdopt(s: State, p: nat)
    requires Placement(s)
    ensures Placement(s.(procs := Adopt(s.procs, p)))
  {
    var t := s.(procs := Adopt(s.procs, p));
    forall q | 0 <= q < |t.procs| ensures PlaceOk(t, q) {
      assert PlaceOk(s, q);
    }
    forall c | 0 <= c < |t.cpus| ensures CpuOk(t, c) && (InCritical(t, c) <==> t.plock == Some(c)) {
      assert CpuOk(s, c) && (InCritical(s, c) <==> s.plock == Some(c));
    }
  }

  lemma PlacementOrphaned(s: State, p: nat)
    requires Placement(s) && p < |s.procs| && s.plock.None?
    ensures Placement(s.(procs := Orphaned(s.procs, p)))
  {
    FreeLockMeansNoneLeaving(s);
    var parent := s.procs[p].parent;
    var woken := if parent.Some? then Wakeup1(s.procs, OnProc(parent.value)) else s.procs;
    var w := s.(procs := woken);
    if parent.Some? {
      WakePlacement(s, OnProc(parent.value));
    }
    if HasZombie(woken, p) {
      WakePlacement(w, OnProc(INIT));
      PlacementAdopt(w.(procs := Wakeup1(woken, OnProc(INIT))), p);
    } else {
      PlacementAdopt(w, p);
    }
  }

  lemma PlacementExit(s: State, p: nat)
    requires Placement(s) && CanLife(s, Exit(p))
    ensures Placement(DoExit(s, p))
  {
    assert PlaceOk(s, p);
    PlacementOrphaned(s, p);
    OrphanedStirs(s.procs, p);
    Moved(s.(procs := Orphaned(s.procs, p)), DoExit(s, p), p);
  }

  /** A zombie that its parent finds under ptable.lock has left its CPU and its stack. */
  lemma ZombieIsOff(s: State, p: nat, z: nat)
    requires Placement(s) && OnCpu(s, p) && HoldsP(s.procs[p].pc) && s.procs[p].state == RUNNING
    requires z < |s.procs| && s.procs[z].state == ZOMBIE
    ensures s.procs[z].cpu.None? && s.procs[z].pc == Saved(RDead)
  {
    assert PlaceOk(s, z) && PlaceOk(s, p);
    assert InCritical(s, s.procs[p].cpu.value);
    if s.procs[z].cpu.Some? {
      assert InCritical(s, s.procs[z].cpu.value);
    }
  }

  lemma PlacementReap(s: State, p: nat, z: nat)
    requires Placement(s) && CanLife(s, WaitReap(p, z)) && s.procs[z].holds == {}
    ensures Placement(DoReap(s, p, z))
  {
    assert PlaceOk(s, p) && PlaceOk(s, z);
    ZombieIsOff(s, p, z);
    var t := DoReap(s, p, z);
    Touch(s, z, t.procs[z]);
    var w := Edit(s, z, t.procs[z]);
    PlacementGo(w, p, w.procs[p].(pc := User), None);
    PlacementFrame(Edit(w, p, w.procs[p].(pc := User)).(plock := None), t);
  }

  lemma PlacementKill(s: State, q: nat)
    requires Placement(s) && CanLife(s, Kill(q))
    ensures Placement(DoLife(s, Kill(q)))
  {
    FreeLockMeansNoneLeaving(s);
    assert PlaceOk(s, q);
    Touch(s, q, DoLife(s, Kill(q)).procs[q]);
  }
}
