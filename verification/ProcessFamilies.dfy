/** Parents, children and pids over every run: fork, exit, wait and kill. */
module ProcessFamilies {
  import opened Params
  import opened Processes
  import opened ProcessInvariants
  import opened SleepLocks

  /** The slot a process is creating, looking through a yield. */
  function Child(pc: Pc): Option<nat> {
    if Base(pc).Forking? || Base(pc).ForkReady? then Some(Base(pc).np) else None
  }

  predicate HasThread(pr: Proc) {
    pr.state != UNUSED && pr.state != EMBRYO
  }

  predicate KinOk(s: State, p: nat)
    requires p < |s.procs|
  {
    var pr := s.procs[p];
    && (pr.state == UNUSED ==> pr.parent.None? && pr.forker.None?)
    && (pr.state == EMBRYO ==>
          && pr.forker.Some? && pr.forker.value < |s.procs| && Live(s.procs[pr.forker.value])
          && Child(s.procs[pr.forker.value].pc) == Some(p)
          && (if Base(s.procs[pr.forker.value].pc).ForkReady? then pr.parent == pr.forker && pr.stack
              else pr.parent.None?))
    && (HasThread(pr) ==> pr.forker.None?)
    && (HasThread(pr) && p != INIT ==>
          pr.parent.Some? && pr.parent.value < |s.procs| && pr.parent.value != p && Live(s.procs[pr.parent.value]))
    && (Child(pr.pc).Some? ==>
          var np := Child(pr.pc).value;
          np < |s.procs| && s.procs[np].state == EMBRYO && s.procs[np].forker == Some(p))
  }

  /** A parent asleep in wait() has no zombie child. */
  predicate WaiterOk(s: State, p: nat)
    requires p < |s.procs|
  {
    s.procs[p].state == SLEEPING && s.procs[p].chan == OnProc(p) ==> !HasZombie(s.procs, p)
  }

  predicate PidOk(s: State, p: nat)
    requires p < |s.procs|
  {
    s.procs[p].state != UNUSED ==> 1 <= s.procs[p].pid < s.nextpid && s.procs[p].pid !in s.reaped
  }

  predicate PidsDiffer(a: Proc, b: Proc) {
    a.state != UNUSED && b.state != UNUSED ==> a.pid != b.pid
  }

  ghost predicate Pids(s: State) {
    && 1 <= s.nextpid
    && (forall p :: 0 <= p < |s.procs| ==> PidOk(s, p))
    && (forall p, q :: 0 <= p < q < |s.procs| ==> PidsDiffer(s.procs[p], s.procs[q]))
    && (forall i :: 0 <= i < |s.reaped| ==> s.reaped[i] < s.nextpid)
    && (forall i, j :: 0 <= i < j < |s.reaped| ==> s.reaped[i] != s.reaped[j])
  }

  ghost predicate Kin(s: State) {
    && INIT < |s.procs| && Live(s.procs[INIT]) && s.procs[INIT].parent.None?
    && (forall p :: 0 <= p < |s.procs| ==> KinOk(s, p))
    && (forall p :: 0 <= p < |s.procs| ==> WaiterOk(s, p))
  }

  // ---------------------------------------------------------------- steps that no family notices

  predicate KinNeutral(a: Proc, b: Proc) {
    && b.parent == a.parent && b.forker == a.forker && b.pid == a.pid && b.stack == a.stack
    && Live(b) == Live(a) && (!Live(a) ==> b.state == a.state)
    && Child(b.pc) == Child(a.pc) && (Child(a.pc).Some? ==> Base(b.pc) == Base(a.pc))
    && (b.state == SLEEPING && b.chan.OnProc? ==> a.state == SLEEPING && a.chan == b.chan)
  }

  lemma KinFrame(s: State, t: State)
    requires Kin(s) && |t.procs| == |s.procs|
    requires forall q :: 0 <= q < |s.procs| ==> KinNeutral(s.procs[q], t.procs[q])
    ensures Kin(t)
  {
    forall p | 0 <= p < |t.procs| ensures KinOk(t, p) {
      assert KinOk(s, p);
    }
    forall p | 0 <= p < |t.procs| ensures WaiterOk(t, p) {
      assert WaiterOk(s, p);
    }
  }

  lemma PidsFrame(s: State, t: State)
    requires Pids(s) && |t.procs| == |s.procs| && t.nextpid == s.nextpid && t.reaped == s.reaped
    requires forall q :: 0 <= q < |s.procs| ==>
      t.procs[q].state == UNUSED || (s.procs[q].state != UNUSED && t.procs[q].pid == s.procs[q].pid)
    ensures Pids(t)
  {
    forall p | 0 <= p < |t.procs| ensures PidOk(t, p) {
      assert PidOk(s, p);
    }
    forall p, q | 0 <= p < q < |t.procs| ensures PidsDiffer(t.procs[p], t.procs[q]) {
      assert PidsDiffer(s.procs[p], s.procs[q]);
    }
  }

  lemma FamilyFrame(s: State, t: State)
    requires Kin(s) && Pids(s) && |t.procs| == |s.procs| && t.nextpid == s.nextpid && t.reaped == s.reaped
    requires forall q :: 0 <= q < |s.procs| ==> KinNeutral(s.procs[q], t.procs[q])
    ensures Kin(t) && Pids(t)
  {
    KinFrame(s, t);
    PidsFrame(s, t);
  }

  lemma FamilyEdit(s: State, t: State, p: nat)
    requires Kin(s) && Pids(s) && p < |s.procs| && t.nextpid == s.nextpid && t.reaped == s.reaped
    requires |t.procs| == |s.procs| && t.procs == s.procs[p := t.procs[p]] && KinNeutral(s.procs[p], t.procs[p])
    ensures Kin(t) && Pids(t)
  {
    FamilyFrame(s, t);
  }

  lemma FamilyWake(s: State, t: State, chan: Chan)
    requires Kin(s) && Pids(s) && t.procs == Wakeup1(s.procs, chan) && t.nextpid == s.nextpid && t.reaped == s.reaped
    ensures Kin(t) && Pids(t)
  {
    FamilyFrame(s, t);
  }

  lemma KinOwn(s: State, step: SchedStep)
    requires CanSched(s, step) && Edited(step).Some? && PlaceOk(s, step.p)
    ensures var t, p := DoSched(s, step), step.p;
            && t.procs == s.procs[p := t.procs[p]] && t.nextpid == s.nextpid && t.reaped == s.reaped
            && KinNeutral(s.procs[p], t.procs[p])
  {
  }

  lemma FamilySched(s: State, step: SchedStep)
    requires Placement(s) && Kin(s) && Pids(s) && CanSched(s, step)
    ensures Kin(DoSched(s, step)) && Pids(DoSched(s, step))
  {
    if Edited(step).Some? {
      KinOwn(s, step);
      FamilyEdit(s, DoSched(s, step), step.p);
    } else if step.WakeOther? {
      FamilyWake(s, DoSched(s, step), OnOther(step.n));
    } else {
      FamilyFrame(s, DoSched(s, step));
    }
  }

  lemma KinLock(s: State, step: LockStep)
    requires CanLock(s, step) && !step.RelWakeup? && s.procs[step.p].state == RUNNING
    ensures var t, p := DoLock(s, step), step.p;
            t.procs == s.procs[p := t.procs[p]] && t.nextpid == s.nextpid && t.reaped == s.reaped
  {
  }

  lemma KinAcquire(s: State, step: LockStep)
    requires CanLock(s, step) && Acquiring(step) && s.procs[step.p].state == RUNNING
    ensures |DoLock(s, step).procs| == |s.procs| && KinNeutral(s.procs[step.p], DoLock(s, step).procs[step.p])
  {
  }

  lemma KinRelease(s: State, step: LockStep)
    requires CanLock(s, step) && !Acquiring(step) && !step.RelWakeup? && s.procs[step.p].state == RUNNING
    ensures |DoLock(s, step).procs| == |s.procs| && KinNeutral(s.procs[step.p], DoLock(s, step).procs[step.p])
  {
  }

  lemma KinLockNeutral(s: State, step: LockStep)
    requires CanLock(s, step) && !step.RelWakeup? && s.procs[step.p].state == RUNNING
    ensures |DoLock(s, step).procs| == |s.procs| && KinNeutral(s.procs[step.p], DoLock(s, step).procs[step.p])
  {
    if Acquiring(step) {
      KinAcquire(s, step);
    } else {
      KinRelease(s, step);
    }
  }

  lemma FamilyLock(s: State, step: LockStep)
    requires Placement(s) && Kin(s) && Pids(s) && CanLock(s, step)
    ensures Kin(DoLock(s, step)) && Pids(DoLock(s, step))
  {
    assert PlaceOk(s, step.p);
    if step.RelWakeup? {
      var w := s.(procs := Wakeup1(s.procs, OnLock(step.l)));
      FamilyWake(s, w, OnLock(step.l));
      FamilyEdit(w, DoLock(s, step), step.p);
    } else {
      KinLock(s, step);
      KinLockNeutral(s, step);
      FamilyEdit(s, DoLock(s, step), step.p);
    }
  }

  // ---------------------------------------------------------------- fork

  /** The forker p and the slot np it works on; everyone else is as before. */
  ghost predicate ForkShape(s: State, t: State, p: nat, np: nat) {
    && p < |s.procs| && np < |s.procs| && p != np && |t.procs| == |s.procs|
    && (forall q :: 0 <= q < |s.procs| && q != p && q != np ==> t.procs[q] == s.procs[q])
    && s.procs[p].state == RUNNING && t.procs[p] == s.procs[p].(pc := t.procs[p].pc)
    && (s.procs[np].state == UNUSED || s.procs[np].state == EMBRYO) && Child(s.procs[np].pc).None?
    && t.procs[np].state != ZOMBIE
    && (Child(s.procs[p].pc).Some? ==> Child(s.procs[p].pc) == Some(np))
    && (s.procs[np].state == EMBRYO ==> Child(s.procs[p].pc) == Some(np))
  }

  lemma KinFork(s: State, t: State, p: nat, np: nat)
    requires Kin(s) && ForkShape(s, t, p, np)
    requires Child(t.procs[p].pc).Some? ==> Child(t.procs[p].pc) == Some(np)
    requires KinOk(s, p) && KinOk(s, np) ==> KinOk(t, p) && KinOk(t, np)
    requires t.procs[np].state != SLEEPING
    ensures Kin(t)
  {
    forall q | 0 <= q < |t.procs| ensures KinOk(t, q) {
      assert KinOk(s, q) && KinOk(s, p) && KinOk(s, np);
    }
    forall q | 0 <= q < |t.procs| ensures WaiterOk(t, q) {
      assert WaiterOk(s, q);
    }
  }

  lemma KinForkAlloc(s: State, p: nat, np: nat)
    requires Kin(s) && CanLife(s, ForkAlloc(p, np)) && s.procs[p].state == RUNNING && s.procs[np].pc.New?
    ensures Kin(DoLife(s, ForkAlloc(p, np)))
  {
    KinFork(s, DoLife(s, ForkAlloc(p, np)), p, np);
  }

  lemma PidsForkAlloc(s: State, p: nat, np: nat)
    requires Pids(s) && CanLife(s, ForkAlloc(p, np)) && s.procs[p].state == RUNNING
    ensures Pids(DoLife(s, ForkAlloc(p, np)))
  {
    var t := DoLife(s, ForkAlloc(p, np));
    forall q | 0 <= q < |t.procs| ensures PidOk(t, q) {
      assert PidOk(s, q);
    }
    forall q, r | 0 <= q < r < |t.procs| ensures PidsDiffer(t.procs[q], t.procs[r]) {
      assert PidsDiffer(s.procs[q], s.procs[r]) && PidOk(s, q) && PidOk(s, r);
    }
  }

  lemma FamilyForkAlloc(s: State, p: nat, np: nat)
    requires Kin(s) && Pids(s) && CanLife(s, ForkAlloc(p, np)) && s.procs[p].state == RUNNING && s.procs[np].pc.New?
    ensures Kin(DoLife(s, ForkAlloc(p, np))) && Pids(DoLife(s, ForkAlloc(p, np)))
  {
    KinForkAlloc(s, p, np);
    PidsForkAlloc(s, p, np);
  }

  lemma KinForkFail(s: State, p: nat, np: nat)
    requires Kin(s) && CanLife(s, ForkFail(p, np)) && s.procs[p].state == RUNNING && s.procs[np].pc.New?
    ensures Kin(DoLife(s, ForkFail(p, np)))
  {
    assert KinOk(s, p) && KinOk(s, np);
    KinFork(s, DoLife(s, ForkFail(p, np)), p, np);
  }

  lemma FamilyForkFail(s: State, p: nat, np: nat)
    requires Kin(s) && Pids(s) && CanLife(s, ForkFail(p, np)) && s.procs[p].state == RUNNING && s.procs[np].pc.New?
    ensures Kin(DoLife(s, ForkFail(p, np))) && Pids(DoLife(s, ForkFail(p, np)))
  {
    KinForkFail(s, p, np);
    assert KinOk(s, p) && KinOk(s, np);
    PidsFrame(s, DoLife(s, ForkFail(p, np)));
  }

  lemma KinForkFill(s: State, p: nat, np: nat)
    requires Kin(s) && CanLife(s, ForkFill(p, np)) && s.procs[p].state == RUNNING && s.procs[np].pc.New?
    ensures Kin(DoLife(s, ForkFill(p, np)))
  {
    assert KinOk(s, p) && KinOk(s, np);
    KinFork(s, DoLife(s, ForkFill(p, np)), p, np);
  }

  lemma FamilyForkFill(s: State, p: nat, np: nat)
    requires Kin(s) && Pids(s) && CanLife(s, ForkFill(p, np)) && s.procs[p].state == RUNNING && s.procs[np].pc.New?
    ensures Kin(DoLife(s, ForkFill(p, np))) && Pids(DoLife(s, ForkFill(p, np)))
  {
    KinForkFill(s, p, np);
    assert KinOk(s, p) && KinOk(s, np);
    PidsFrame(s, DoLife(s, ForkFill(p, np)));
  }

  lemma KinForkPublish(s: State, p: nat, np: nat)
    requires Kin(s) && CanLife(s, ForkPublish(p, np)) && s.procs[p].state == RUNNING && s.procs[np].pc.New?
    ensures Kin(DoLife(s, ForkPublish(p, np)))
  {
    assert KinOk(s, p) && KinOk(s, np);
    KinFork(s, DoLife(s, ForkPublish(p, np)), p, np);
  }

  lemma FamilyForkPublish(s: State, p: nat, np: nat)
    requires Kin(s) && Pids(s) && CanLife(s, ForkPublish(p, np)) && s.procs[p].state == RUNNING && s.procs[np].pc.New?
    ensures Kin(DoLife(s, ForkPublish(p, np))) && Pids(DoLife(s, ForkPublish(p, np)))
  {
    KinForkPublish(s, p, np);
    assert KinOk(s, p) && KinOk(s, np);
    PidsFrame(s, DoLife(s, ForkPublish(p, np)));
  }

  // ---------------------------------------------------------------- exit and wait

  /** Who has which parent after exit's loop. */
  lemma AdoptedParents(procs: seq<Proc>, p: nat, q: nat)
    requires p < |procs| && q < |procs|
    ensures Orphaned(procs, p)[q].parent == if procs[q].parent == Some(p) then Some(INIT) else procs[q].parent
  {
  }

  lemma KinAdopted(s: State, p: nat, q: nat)
    requires Kin(s) && p < |s.procs| && q < |s.procs| && p != INIT && s.procs[p].pc.User?
    ensures KinOk(s.(procs := Orphaned(s.procs, p)), q)
  {
    var o := Orphaned(s.procs, p);
    OrphanedStirs(s.procs, p);
    AdoptedParents(s.procs, p, q);
    assert KinOk(s, q);
    assert forall r :: 0 <= r < |s.procs| ==> Stirred(s.procs[r], o[r]);
  }

  /** A process without children that is creating none becomes a zombie. */
  lemma KinZombie(w: State, t: State, p: nat, q: nat)
    requires p < |w.procs| && q < |w.procs| && p != INIT && w.procs[p].pc.User? && HasThread(w.procs[p])
    requires t.procs == w.procs[p := w.procs[p].(state := ZOMBIE, pc := Leaving(RDead))]
    requires KinOk(w, q) && KinOk(w, p) && w.procs[q].parent != Some(p)
    ensures KinOk(t, q)
  {
  }

  lemma KinExit(s: State, p: nat, q: nat)
    requires Kin(s) && CanLife(s, Exit(p)) && s.procs[p].state == RUNNING && q < |s.procs|
    ensures KinOk(DoExit(s, p), q)
  {
    var w := s.(procs := Orphaned(s.procs, p));
    OrphanedStirs(s.procs, p);
    assert Stirred(s.procs[p], w.procs[p]);
    AdoptedParents(s.procs, p, q);
    KinAdopted(s, p, p);
    KinAdopted(s, p, q);
    KinZombie(w, DoExit(s, p), p, q);
  }

  /** Exit wakes whoever gains a zombie child: the parent, or init for the adopted ones. */
  lemma WaiterExit(s: State, p: nat, w: nat)
    requires Kin(s) && CanLife(s, Exit(p)) && s.procs[p].state == RUNNING && w < |s.procs|
    ensures WaiterOk(DoExit(s, p), w)
  {
    var t := DoExit(s, p);
    var o := Orphaned(s.procs, p);
    OrphanedStirs(s.procs, p);
    assert KinOk(s, p) && WaiterOk(s, w) && Stirred(s.procs[w], o[w]);
    if t.procs[w].state == SLEEPING && t.procs[w].chan == OnProc(w) && HasZombie(t.procs, w) {
      var z :| 0 <= z < |t.procs| && t.procs[z].parent == Some(w) && t.procs[z].state == ZOMBIE;
      AdoptedParents(s.procs, p, z);
      assert Stirred(s.procs[z], o[z]);
      WokenParents(s.procs, p, w);
    }
  }

  /** After exit's wakeups, a process still asleep on itself is not p's parent, nor init if p has zombies. */
  lemma WokenParents(procs: seq<Proc>, p: nat, w: nat)
    requires p < |procs| && w < |procs|
    requires Orphaned(procs, p)[w].state == SLEEPING && procs[w].chan == OnProc(w)
    ensures procs[p].parent != Some(w)
    ensures w == INIT ==> !HasZombie(procs, p)
  {
    var woken := if procs[p].parent.Some? then Wakeup1(procs, OnProc(procs[p].parent.value)) else procs;
    if HasZombie(procs, p) {
      var z :| 0 <= z < |procs| && procs[z].parent == Some(p) && procs[z].state == ZOMBIE;
      assert woken[z].parent == Some(p) && woken[z].state == ZOMBIE;
      assert HasZombie(woken, p);
    }
  }

  lemma FamilyExit(s: State, p: nat)
    requires Kin(s) && Pids(s) && CanLife(s, Exit(p)) && s.procs[p].state == RUNNING
    ensures Kin(DoExit(s, p)) && Pids(DoExit(s, p))
  {
    var t := DoExit(s, p);
    OrphanedStirs(s.procs, p);
    AdoptedParents(s.procs, p, INIT);
    assert Stirred(s.procs[INIT], Orphaned(s.procs, p)[INIT]);
    forall q | 0 <= q < |t.procs| ensures KinOk(t, q) && WaiterOk(t, q) {
      KinExit(s, p, q);
      WaiterExit(s, p, q);
    }
    forall q | 0 <= q < |s.procs|
      ensures s.procs[q].state != UNUSED ==> t.procs[q].pid == s.procs[q].pid
      ensures s.procs[q].state == UNUSED ==> t.procs[q].state == UNUSED
    {
      assert Stirred(s.procs[q], Orphaned(s.procs, p)[q]);
    }
    PidsFrame(s, t);
  }

  lemma KinReapAt(s: State, p: nat, z: nat, q: nat)
    requires CanLife(s, WaitReap(p, z)) && s.procs[p].state == RUNNING && q < |s.procs|
    requires KinOk(s, q) && KinOk(s, z) && KinOk(s, p)
    ensures KinOk(DoReap(s, p, z), q)
  {
  }

  lemma WaiterReapAt(s: State, p: nat, z: nat, q: nat)
    requires CanLife(s, WaitReap(p, z)) && s.procs[p].state == RUNNING && q < |s.procs| && WaiterOk(s, q)
    ensures WaiterOk(DoReap(s, p, z), q)
  {
  }

  lemma KinReap(s: State, p: nat, z: nat)
    requires Kin(s) && CanLife(s, WaitReap(p, z)) && s.procs[p].state == RUNNING
    ensures Kin(DoReap(s, p, z))
  {
    var t := DoReap(s, p, z);
    forall q | 0 <= q < |t.procs| ensures KinOk(t, q) {
      assert KinOk(s, q) && KinOk(s, z) && KinOk(s, p);
      KinReapAt(s, p, z, q);
    }
    forall q | 0 <= q < |t.procs| ensures WaiterOk(t, q) {
      assert WaiterOk(s, q);
      WaiterReapAt(s, p, z, q);
    }
  }

  lemma PidsReap(s: State, p: nat, z: nat)
    requires Pids(s) && CanLife(s, WaitReap(p, z)) && s.procs[p].state == RUNNING
    ensures Pids(DoReap(s, p, z))
    ensures s.procs[z].pid !in s.reaped
  {
    var t := DoReap(s, p, z);
    assert PidOk(s, z);
    forall q | 0 <= q < |t.procs| ensures PidOk(t, q) {
      assert PidOk(s, q);
      if q != z {
        assert PidsDiffer(s.procs[if q < z then q else z], s.procs[if q < z then z else q]);
      }
    }
    forall q, r | 0 <= q < r < |t.procs| ensures PidsDiffer(t.procs[q], t.procs[r]) {
      assert PidsDiffer(s.procs[q], s.procs[r]);
    }
  }

  lemma KinWaitSleep(s: State, p: nat, q: nat)
    requires CanLife(s, WaitSleep(p)) && s.procs[p].state == RUNNING && q < |s.procs| && KinOk(s, q) && KinOk(s, p)
    ensures KinOk(DoLife(s, WaitSleep(p)), q)
  {
  }

  lemma WaiterWaitSleep(s: State, p: nat, q: nat)
    requires CanLife(s, WaitSleep(p)) && s.procs[p].state == RUNNING && q < |s.procs| && WaiterOk(s, q)
    ensures WaiterOk(DoLife(s, WaitSleep(p)), q)
  {
  }

  lemma FamilyWaitSleep(s: State, p: nat)
    requires Kin(s) && Pids(s) && CanLife(s, WaitSleep(p)) && s.procs[p].state == RUNNING
    ensures Kin(DoLife(s, WaitSleep(p))) && Pids(DoLife(s, WaitSleep(p)))
  {
    var t := DoLife(s, WaitSleep(p));
    forall q | 0 <= q < |t.procs| ensures KinOk(t, q) {
      assert KinOk(s, q) && KinOk(s, p);
      KinWaitSleep(s, p, q);
    }
    forall q | 0 <= q < |t.procs| ensures WaiterOk(t, q) {
      assert WaiterOk(s, q);
      WaiterWaitSleep(s, p, q);
    }
    PidsFrame(s, t);
  }
}
