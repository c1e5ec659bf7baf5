/** sleeplock.c on top of sleep and wakeup: mutual exclusion and no lost wakeup. */
module SleepLocks {
  import opened Params
  import opened Processes
  import opened ProcessInvariants

  // ---------------------------------------------------------------- invariant

  /** What process p knows about the locks it holds or is inside of. */
  ghost predicate HolderOk(s: State, p: nat)
    requires p < |s.procs|
  {
    var pr := s.procs[p];
    && (SpinOf(pr.pc).Some? ==>
          var l := SpinOf(pr.pc).value;
          l < |s.locks| && s.locks[l].spin == Some(p))
    && (forall l :: l in pr.holds ==> l < |s.locks| && s.locks[l].owner == Some(p))
    && (pr.holds != {} ==> Live(pr))
    && (Base(pr.pc).RelSpin? ==> Base(pr.pc).l in pr.holds)
    && (pr.pc.RelHold? ==> pr.pc.l in pr.holds)
  }

  /** What a lock records about its spin-lock's holder and its owner. */
  ghost predicate LockOk(s: State, l: nat)
    requires l < |s.locks|
  {
    var lk := s.locks[l];
    && (lk.spin.Some? ==> lk.spin.value < |s.procs| && SpinOf(s.procs[lk.spin.value].pc) == Some(l))
    && (lk.locked <==> lk.owner.Some?)
    && (lk.owner.Some? ==>
          && lk.owner.value < |s.procs|
          && l in s.procs[lk.owner.value].holds
          && lk.pid == s.procs[lk.owner.value].pid)
  }

  /** A releaser has cleared locked and has not yet run wakeup1. */
  predicate WakeupPending(s: State, l: nat)
    requires l < |s.locks|
  {
    && s.locks[l].spin.Some? && s.locks[l].spin.value < |s.procs|
    && (s.procs[s.locks[l].spin.value].pc == RelWantP(l) || s.procs[s.locks[l].spin.value].pc == RelWake(l))
  }

  predicate Busy(s: State, l: nat) {
    l < |s.locks| && (s.locks[l].locked || WakeupPending(s, l))
  }

  predicate AsleepOn(pr: Proc, l: nat) {
    pr.state == SLEEPING && pr.chan == OnLock(l)
  }

  /** Nobody sleeps, or is about to, on a lock that no one will hand over. */
  predicate SleeperOk(s: State, p: nat)
    requires p < |s.procs|
  {
    var pr := s.procs[p];
    && (pr.state == SLEEPING && pr.chan.OnLock? ==> Busy(s, pr.chan.l))
    && (pr.pc.SleepWantP? || pr.pc.SleepRel? ==> pr.pc.l < |s.locks| && s.locks[pr.pc.l].locked)
    && (pr.pc.SleepSet? ==> Busy(s, pr.pc.l))
  }

  ghost predicate LocksInv(s: State) {
    && (forall p :: 0 <= p < |s.procs| ==> HolderOk(s, p))
    && (forall l :: 0 <= l < |s.locks| ==> LockOk(s, l))
    && (forall p :: 0 <= p < |s.procs| ==> SleeperOk(s, p))
  }

  // ---------------------------------------------------------------- steps that leave the locks alone

  /** An edit of a process that no lock invariant can notice. */
  predicate Neutral(a: Proc, b: Proc) {
    && b.holds == a.holds && (a.holds != {} ==> b.pid == a.pid && (Live(a) ==> Live(b)))
    && SpinOf(b.pc) == SpinOf(a.pc)
    && (Base(b.pc).RelSpin? ==> Base(b.pc) == Base(a.pc))
    && (SpinOf(a.pc).Some? || b.pc.SleepSet? ==> b.pc == a.pc)
    && (b.state == SLEEPING && b.chan.OnLock? ==> a.state == SLEEPING && a.chan == b.chan)
  }

  lemma LocksFrame(s: State, t: State)
    requires LocksInv(s) && t.locks == s.locks && |t.procs| == |s.procs|
    requires forall q :: 0 <= q < |s.procs| ==> Neutral(s.procs[q], t.procs[q])
    ensures LocksInv(t)
  {
    forall p | 0 <= p < |t.procs| ensures HolderOk(t, p) {
      assert HolderOk(s, p) && Neutral(s.procs[p], t.procs[p]);
    }
    forall l | 0 <= l < |t.locks| ensures LockOk(t, l) {
      assert LockOk(s, l);
      assert s.locks[l].spin.Some? ==> Neutral(s.procs[s.locks[l].spin.value], t.procs[s.locks[l].spin.value]);
      assert s.locks[l].owner.Some? ==> Neutral(s.procs[s.locks[l].owner.value], t.procs[s.locks[l].owner.value]);
    }
    forall l: nat | Busy(s, l) ensures Busy(t, l) {
      assert LockOk(s, l);
      assert s.locks[l].spin.Some? ==> Neutral(s.procs[s.locks[l].spin.value], t.procs[s.locks[l].spin.value]);
    }
    forall p | 0 <= p < |t.procs| ensures SleeperOk(t, p) {
      assert SleeperOk(s, p) && Neutral(s.procs[p], t.procs[p]);
    }
  }

  lemma OneNeutral(s: State, t: State, p: nat)
    requires LocksInv(s) && t.locks == s.locks && |t.procs| == |s.procs| && p < |s.procs|
    requires t.procs == s.procs[p := t.procs[p]] && Neutral(s.procs[p], t.procs[p])
    ensures LocksInv(t)
  {
    LocksFrame(s, t);
  }

  lemma LocksWake(s: State, t: State, chan: Chan)
    requires LocksInv(s) && t.locks == s.locks && t.procs == Wakeup1(s.procs, chan)
    ensures LocksInv(t)
  {
    LocksFrame(s, t);
  }

  /** The process a scheduling step edits, if it edits one. */
  function Edited(step: SchedStep): Option<nat> {
    if step.SchedAcquire? || step.SchedRelease? || step.WakeOther? then None else Some(step.p)
  }

  /** Switching in or out, and coming back from sched(), keeps Base and the locks held. */
  lemma NeutralResumed(a: Proc, pc: Pc, chan: Chan)
    requires a.pc.Entered? && YieldOk(a.pc.r) && a.state == RUNNING
    requires if a.pc.r.RYield? then pc == a.pc.r.back else pc.User? || pc.WaitScan? || pc.AcqSpin?
    ensures Neutral(a, a.(pc := pc, chan := chan))
  {
  }

  lemma NeutralOwn(s: State, step: SchedStep)
    requires CanSched(s, step) && Edited(step).Some? && !step.Resumed?
    ensures var t, p := DoSched(s, step), step.p;
            p < |s.procs| && t.locks == s.locks && t.procs == s.procs[p := t.procs[p]]
              && Neutral(s.procs[p], t.procs[p])
  {
  }

  lemma LocksResumed(s: State, p: nat)
    requires Placement(s) && LocksInv(s) && CanSched(s, Resumed(p))
    ensures LocksInv(DoResumed(s, p))
  {
    assert PlaceOk(s, p);
    var t := DoResumed(s, p);
    NeutralResumed(s.procs[p], t.procs[p].pc, t.procs[p].chan);
    OneNeutral(s, t, p);
  }

  lemma LocksSched(s: State, step: SchedStep)
    requires Placement(s) && LocksInv(s) && CanSched(s, step)
    ensures LocksInv(DoSched(s, step))
  {
    if step.Resumed? {
      LocksResumed(s, step.p);
    } else if Edited(step).Some? {
      NeutralOwn(s, step);
      OneNeutral(s, DoSched(s, step), step.p);
    } else if step.WakeOther? {
      LocksWake(s, DoSched(s, step), OnOther(step.n));
    } else {
      LocksFrame(s, DoSched(s, step));
    }
  }

  lemma TwoNeutral(s: State, t: State, p: nat, q: nat)
    requires LocksInv(s) && t.locks == s.locks && |t.procs| == |s.procs| && p < |s.procs| && q < |s.procs|
    requires forall r :: 0 <= r < |s.procs| && r != p && r != q ==> t.procs[r] == s.procs[r]
    requires Neutral(s.procs[p], t.procs[p]) && Neutral(s.procs[q], t.procs[q])
    ensures LocksInv(t)
  {
    LocksFrame(s, t);
  }

  lemma StirredNeutral(a: Proc, b: Proc)
    requires Stirred(a, b)
    ensures Neutral(a, b)
  {
  }

  lemma LocksExit(s: State, p: nat)
    requires LocksInv(s) && CanLife(s, Exit(p))
    ensures LocksInv(DoExit(s, p))
  {
    OrphanedStirs(s.procs, p);
    var w := s.(procs := Orphaned(s.procs, p));
    forall q | 0 <= q < |s.procs| ensures Neutral(s.procs[q], w.procs[q]) {
      StirredNeutral(s.procs[q], w.procs[q]);
    }
    LocksFrame(s, w);
    OneNeutral(w, DoExit(s, p), p);
  }

  /** fork touches a slot without a thread and moves the forker between unlocked points. */
  lemma LocksFork(s: State, t: State, p: nat, np: nat, pc: Pc)
    requires LocksInv(s) && p < |s.procs| && np < |s.procs| && p != np
    requires t.locks == s.locks && |t.procs| == |s.procs|
    requires forall r :: 0 <= r < |s.procs| && r != p && r != np ==> t.procs[r] == s.procs[r]
    requires t.procs[p] == s.procs[p].(pc := pc) && Unlocked(s.procs[p].pc) && Unlocked(pc)
    requires s.procs[np].pc.New? && s.procs[np].holds == {} == t.procs[np].holds
    requires t.procs[np].state != SLEEPING && (t.procs[np].pc.New? || t.procs[np].pc == Saved(RForkret))
    ensures LocksInv(t)
  {
    TwoNeutral(s, t, p, np);
  }

  predicate Unlocked(pc: Pc) {
    pc.User? || pc.Forking? || pc.ForkReady?
  }

  lemma NeutralReap(s: State, p: nat, z: nat)
    requires At(s, p, WaitScan) && z < |s.procs| && s.procs[z].pc == Saved(RDead) && s.procs[z].holds == {}
    ensures var t := DoReap(s, p, z);
            && |t.procs| == |s.procs| && t.locks == s.locks
            && (forall r :: 0 <= r < |s.procs| && r != p && r != z ==> t.procs[r] == s.procs[r])
            && Neutral(s.procs[p], t.procs[p]) && Neutral(s.procs[z], t.procs[z])
  {
  }

  lemma LocksReap(s: State, p: nat, z: nat)
    requires Placement(s) && LocksInv(s) && CanLife(s, WaitReap(p, z))
    ensures LocksInv(DoReap(s, p, z))
    ensures s.procs[z].holds == {}
  {
    assert HolderOk(s, z) && PlaceOk(s, p);
    ZombieIsOff(s, p, z);
    NeutralReap(s, p, z);
    TwoNeutral(s, DoReap(s, p, z), p, z);
  }

  // ---------------------------------------------------------------- acquiresleep and releasesleep

  lemma LocksAcqTake(s: State, p: nat, l: nat)
    requires LocksInv(s) && CanLock(s, AcqTake(p, l)) && Live(s.procs[p])
    ensures LocksInv(DoLock(s, AcqTake(p, l)))
  {
    var t := DoLock(s, AcqTake(p, l));
    assert HolderOk(s, p) && LockOk(s, l);
    forall q | 0 <= q < |t.procs| ensures HolderOk(t, q) {
      assert HolderOk(s, q);
    }
    forall k | 0 <= k < |t.locks| ensures LockOk(t, k) {
      assert LockOk(s, k);
    }
    forall q | 0 <= q < |t.procs| ensures SleeperOk(t, q) {
      assert SleeperOk(s, q);
    }
  }

  predicate Pending(pc: Pc) {
    pc.RelWantP? || pc.RelWake?
  }

  /** The conditions under which p may go to point pc inside the code for lock l. */
  predicate SpinMove(s: State, p: nat, l: nat, pc: Pc)
    requires p < |s.procs| && l < |s.locks|
  {
    var was := s.procs[p];
    && Inside(was.pc) && Inside(pc)
    && (SpinOf(was.pc) == Some(l) || (SpinOf(was.pc) == None && (s.locks[l].spin == None || SpinOf(pc) == None)))
    && (SpinOf(pc) == Some(l) || SpinOf(pc) == None)
    && (pc.RelSpin? || pc.RelHold? ==> pc.l in was.holds)
    && (pc.SleepWantP? || pc.SleepRel? || pc.SleepSet? ==> pc.l == l && s.locks[l].locked)
    && (Pending(was.pc) ==> Pending(pc) && pc.l == was.pc.l)
  }

  /** lk->lk belongs to p exactly when its point says so. */
  function SpinMoved(s: State, p: nat, l: nat, pc: Pc): State
    requires p < |s.procs| && l < |s.locks|
  {
    if SpinOf(pc) == SpinOf(s.procs[p].pc) then Goto(s, p, pc)
    else Goto(SetSpin(s, l, if SpinOf(pc).Some? then Some(p) else None), p, pc)
  }

  lemma SpinMoveHolder(s: State, p: nat, l: nat, pc: Pc, q: nat)
    requires p < |s.procs| && q < |s.procs| && l < |s.locks| && SpinMove(s, p, l, pc)
    requires HolderOk(s, p) && HolderOk(s, q)
    ensures HolderOk(SpinMoved(s, p, l, pc), q)
  {
    if q == p {
      SpinMoveMover(s, p, l, pc);
    } else {
      SpinMoveOther(s, p, l, pc, q);
    }
  }

  lemma SpinMoveMover(s: State, p: nat, l: nat, pc: Pc)
    requires p < |s.procs| && l < |s.locks| && SpinMove(s, p, l, pc) && HolderOk(s, p)
    ensures HolderOk(SpinMoved(s, p, l, pc), p)
  {
  }

  lemma SpinMoveOther(s: State, p: nat, l: nat, pc: Pc, q: nat)
    requires p < |s.procs| && q < |s.procs| && q != p && l < |s.locks| && SpinMove(s, p, l, pc)
    requires HolderOk(s, p) && HolderOk(s, q)
    ensures HolderOk(SpinMoved(s, p, l, pc), q)
  {
    var t := SpinMoved(s, p, l, pc);
    assert t.procs[q] == s.procs[q];
  }

  lemma SpinMoveLock(s: State, p: nat, l: nat, pc: Pc, k: nat)
    requires p < |s.procs| && k < |s.locks| && l < |s.locks| && SpinMove(s, p, l, pc)
    requires HolderOk(s, p) && LockOk(s, k) && LockOk(s, l)
    ensures LockOk(SpinMoved(s, p, l, pc), k)
  {
    var t := SpinMoved(s, p, l, pc);
    if k != l {
      assert t.locks[k] == s.locks[k];
    }
  }

  lemma SpinMoveBusy(s: State, p: nat, l: nat, pc: Pc, k: nat)
    requires p < |s.procs| && k < |s.locks| && l < |s.locks| && SpinMove(s, p, l, pc)
    requires HolderOk(s, p) && LockOk(s, k) && LockOk(s, l)
    ensures Busy(s, k) ==> Busy(SpinMoved(s, p, l, pc), k)
  {
  }

  lemma SpinMoveSleeper(s: State, p: nat, l: nat, pc: Pc, q: nat)
    requires p < |s.procs| && q < |s.procs| && l < |s.locks| && SpinMove(s, p, l, pc)
    requires SleeperOk(s, q)
    requires forall k: nat :: Busy(s, k) ==> Busy(SpinMoved(s, p, l, pc), k)
    ensures SleeperOk(SpinMoved(s, p, l, pc), q)
  {
  }

  lemma LocksSpinMove(s: State, p: nat, l: nat, pc: Pc)
    requires LocksInv(s) && p < |s.procs| && l < |s.locks| && SpinMove(s, p, l, pc)
    ensures LocksInv(SpinMoved(s, p, l, pc))
  {
    var t := SpinMoved(s, p, l, pc);
    forall q | 0 <= q < |t.procs| ensures HolderOk(t, q) {
      SpinMoveHolder(s, p, l, pc, q);
    }
    forall k | 0 <= k < |t.locks| ensures LockOk(t, k) && (Busy(s, k) ==> Busy(t, k)) {
      SpinMoveLock(s, p, l, pc, k);
      SpinMoveBusy(s, p, l, pc, k);
    }
    forall q | 0 <= q < |t.procs| ensures SleeperOk(t, q) {
      SpinMoveSleeper(s, p, l, pc, q);
    }
  }

  /** releasesleep clears locked: from here until wakeup1 the wakeup is pending. */
  lemma LocksRelClear(s: State, p: nat, l: nat)
    requires LocksInv(s) && CanLock(s, RelClear(p, l)) && Live(s.procs[p])
    ensures LocksInv(DoLock(s, RelClear(p, l)))
  {
    var t := DoLock(s, RelClear(p, l));
    assert HolderOk(s, p) && LockOk(s, l);
    forall q | 0 <= q < |t.procs| ensures HolderOk(t, q) {
      assert HolderOk(s, q);
    }
    forall k | 0 <= k < |t.locks| ensures LockOk(t, k) {
      assert LockOk(s, k);
    }
    assert Busy(t, l);
    forall q | 0 <= q < |t.procs| ensures SleeperOk(t, q) {
      assert SleeperOk(s, q) && HolderOk(s, q);
    }
  }

  /** wakeup1 leaves nobody asleep on the lock, so the pending wakeup may end. */
  lemma LocksRelWakeup(s: State, p: nat, l: nat)
    requires Placement(s) && LocksInv(s) && CanLock(s, RelWakeup(p, l))
    ensures LocksInv(DoLock(s, RelWakeup(p, l)))
  {
    var w := s.(procs := Wakeup1(s.procs, OnLock(l)));
    LocksWake(s, w, OnLock(l));
    var t := DoLock(s, RelWakeup(p, l));
    assert PlaceOk(s, p) && HolderOk(w, p);
    forall q | 0 <= q < |t.procs| ensures HolderOk(t, q) {
      assert HolderOk(w, q);
    }
    forall k | 0 <= k < |t.locks| ensures LockOk(t, k) {
      assert LockOk(w, k);
    }
    forall q | 0 <= q < |t.procs| ensures SleeperOk(t, q) {
      WokenSleeper(s, w, t, p, l, q);
    }
  }

  lemma WokenSleeper(s: State, w: State, t: State, p: nat, l: nat, q: nat)
    requires Placement(s) && LocksInv(w) && At(s, p, RelWake(l)) && q < |s.procs| && l < |s.locks|
    requires w == s.(procs := Wakeup1(s.procs, OnLock(l))) && t == Goto(w, p, RelDone(l))
    ensures SleeperOk(t, q)
  {
    assert SleeperOk(w, q) && PlaceOk(s, q) && PlaceOk(s, p);
    assert HolderOk(w, p) && HolderOk(w, q);
    if s.procs[q].pc.SleepSet? {
      CriticalIsUnique(s, p, q);
    }
    forall k: nat | k != l && Busy(w, k) ensures Busy(t, k) {
      assert LockOk(w, k);
    }
  }

  lemma LocksMark(s: State, p: nat, l: nat)
    requires LocksInv(s) && CanLock(s, SleepMark(p, l))
    ensures LocksInv(DoLock(s, SleepMark(p, l)))
  {
    var t := DoLock(s, SleepMark(p, l));
    assert HolderOk(s, p) && SleeperOk(s, p);
    forall q | 0 <= q < |t.procs| ensures HolderOk(t, q) {
      assert HolderOk(s, q);
    }
    forall k | 0 <= k < |t.locks| ensures LockOk(t, k) {
      assert LockOk(s, k);
    }
    forall k: nat | Busy(s, k) ensures Busy(t, k) {
      assert LockOk(s, k);
    }
    forall q | 0 <= q < |t.procs| ensures SleeperOk(t, q) {
      assert SleeperOk(s, q);
    }
  }

  /** The point a spin-move step goes to. */
  function Target(step: LockStep): Pc
    requires !step.AcqTake? && !step.RelClear? && !step.RelWakeup? && !step.SleepMark?
  {
    match step
    case AcqStart(_, l) => AcqSpin(l)
    case AcqLock(_, l) => Testing(l)
    case AcqMustSleep(_, l) => SleepWantP(l)
    case SleepLockP(_, l) => SleepRel(l)
    case SleepDropSpin(_, l) => SleepSet(l)
    case RelStart(_, l) => RelSpin(l)
    case RelLock(_, l) => RelHold(l)
    case RelLockP(_, l) => RelWake(l)
    case RelDropP(_, l) => RelUnlock(l)
    case RelDropSpin(_, l) => User
  }

  lemma MoveShape(s: State, step: LockStep)
    requires CanLock(s, step) && !step.AcqTake? && !step.RelClear? && !step.RelWakeup? && !step.SleepMark?
    requires SleeperOk(s, step.p) && HolderOk(s, step.p)
    ensures SpinMove(s, step.p, step.l, Target(step))
    ensures var m, t := SpinMoved(s, step.p, step.l, Target(step)), DoLock(s, step);
            m.procs == t.procs && m.locks == t.locks
  {
  }

  lemma LocksLock(s: State, step: LockStep)
    requires Placement(s) && LocksInv(s) && CanLock(s, step)
    ensures LocksInv(DoLock(s, step))
  {
    var p, l := step.p, step.l;
    assert PlaceOk(s, p) && SleeperOk(s, p) && HolderOk(s, p);
    if step.AcqTake? {
      LocksAcqTake(s, p, l);
    } else if step.RelClear? {
      LocksRelClear(s, p, l);
    } else if step.RelWakeup? {
      LocksRelWakeup(s, p, l);
    } else if step.SleepMark? {
      LocksMark(s, p, l);
    } else {
      MoveShape(s, step);
      LocksSpinMove(s, p, l, Target(step));
      SameLocks(SpinMoved(s, p, l, Target(step)), DoLock(s, step));
    }
  }

  lemma SameLocks(s: State, t: State)
    requires LocksInv(s) && t.procs == s.procs && t.locks == s.locks
    ensures LocksInv(t)
  {
    LocksFrame(s, t);
  }
}
