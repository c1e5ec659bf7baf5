/**
 Who is whose child, told from the history of forks, exits and waits alone: the record
 below does not look at the process table, and in every run the table agrees with it.
 */
module Parentage {
  import opened Params
  import opened Processes
  import opened ProcessInvariants
  import opened ProcessFamilies
  import opened ProcessTheorems
  import KillByPid

  /** For every process since its fork and until it is waited for: who forked it, None once that one has exited. */
  type Makers = map<nat, Option<nat>>

  ghost function Note(m: Makers, step: Step): Makers {
    match step
    case Lifecycle(ForkPublish(p, np)) => m[np := Some(p)]
    case Lifecycle(Exit(p)) => map q | q in m :: if m[q] == Some(p) then None else m[q]
    case Lifecycle(WaitReap(_, z)) => m - {z}
    case _ => m
  }

  ghost function Chronicle(m: Makers, steps: seq<Step>): Makers
    decreases |steps|
  {
    if steps == [] then m else Chronicle(Note(m, steps[0]), steps[1..])
  }

  /** The process in slot q is on record, and its parent is its maker or else init. */
  ghost predicate MadeBy(s: State, m: Makers, q: nat)
    requires q < |s.procs|
  {
    && (q in m <==> HasThread(s.procs[q]))
    && (q in m ==> s.procs[q].parent == Some(if m[q].Some? then m[q].value else INIT))
  }

  ghost predicate Descends(s: State, m: Makers) {
    forall q: nat :: q < |s.procs| && q != INIT ==> MadeBy(s, m, q)
  }

  predicate SameKin(a: Proc, b: Proc) {
    b.parent == a.parent && HasThread(b) == HasThread(a)
  }

  lemma SchedKin(s: State, x: SchedStep, q: nat)
    requires CanSched(s, x) && q < |s.procs| && PlaceOk(s, q)
    ensures q < |DoSched(s, x).procs| && SameKin(s.procs[q], DoSched(s, x).procs[q])
  {
  }

  lemma AcquireKin(s: State, x: LockStep, q: nat)
    requires Acquiring(x) && CanLock(s, x) && q < |s.procs| && PlaceOk(s, q)
    ensures q < |DoLock(s, x).procs| && SameKin(s.procs[q], DoLock(s, x).procs[q])
  {
  }

  lemma ReleaseKin(s: State, x: LockStep, q: nat)
    requires !Acquiring(x) && CanLock(s, x) && q < |s.procs| && PlaceOk(s, q)
    ensures q < |DoLock(s, x).procs| && SameKin(s.procs[q], DoLock(s, x).procs[q])
  {
  }

  lemma LockKin(s: State, x: LockStep, q: nat)
    requires CanLock(s, x) && q < |s.procs| && PlaceOk(s, q)
    ensures q < |DoLock(s, x).procs| && SameKin(s.procs[q], DoLock(s, x).procs[q])
  {
    if Acquiring(x) {
      AcquireKin(s, x, q);
    } else {
      ReleaseKin(s, x, q);
    }
  }

  lemma OrphanedAt(procs: seq<Proc>, p: nat, q: nat)
    requires p < |procs| && q < |procs|
    ensures Orphaned(procs, p)[q].parent == if procs[q].parent == Some(p) then Some(INIT) else procs[q].parent
    ensures HasThread(Orphaned(procs, p)[q]) == HasThread(procs[q])
  {
  }

  /** exit passes on its own children and nobody else's. */
  lemma ExitKin(s: State, m: Makers, p: nat, q: nat)
    requires OnCpu(s, p) && HasThread(s.procs[p]) && p != INIT && q < |s.procs| && MadeBy(s, m, q)
    ensures q < |DoExit(s, p).procs| && MadeBy(DoExit(s, p), Note(m, Lifecycle(Exit(p))), q)
  {
    OrphanedAt(s.procs, p, q);
    var was, now := s.procs[q], DoExit(s, p).procs[q];
    assert now.parent == if was.parent == Some(p) then Some(INIT) else was.parent;
    assert HasThread(now) == HasThread(was);
  }

  /** fork: the child has the caller for parent when others can first see it. */
  lemma ForkKin(s: State, m: Makers, x: LifeStep, q: nat)
    requires x.ForkAlloc? || x.ForkFail? || x.ForkFill? || x.ForkPublish?
    requires CanLife(s, x) && q < |s.procs| && MadeBy(s, m, q) && HasThread(s.procs[x.p]) && x.np != x.p
    requires !HasThread(s.procs[x.np]) && (x.ForkPublish? ==> s.procs[x.np].parent == Some(x.p))
    ensures q < |DoLife(s, x).procs| && MadeBy(DoLife(s, x), Note(m, Lifecycle(x)), q)
  {
  }

  lemma WaitKin(s: State, m: Makers, x: LifeStep, q: nat)
    requires x.Kill? || x.WaitAcquire? || x.WaitReap? || x.WaitGiveUp? || x.WaitSleep?
    requires CanLife(s, x) && q < |s.procs| && MadeBy(s, m, q)
    requires !x.Kill? ==> s.procs[x.p].state == RUNNING
    ensures q < |DoLife(s, x).procs| && MadeBy(DoLife(s, x), Note(m, Lifecycle(x)), q)
  {
  }

  lemma LifeKin(s: State, m: Makers, x: LifeStep, q: nat)
    requires Placement(s) && Kin(s) && CanLife(s, x) && q < |s.procs| && MadeBy(s, m, q)
    ensures q < |DoLife(s, x).procs| && MadeBy(DoLife(s, x), Note(m, Lifecycle(x)), q)
  {
    if !x.Kill? {
      assert PlaceOk(s, x.p) && KinOk(s, x.p);
    }
    if x.Exit? {
      ExitKin(s, m, x.p, q);
    } else if x.ForkAlloc? || x.ForkFail? || x.ForkFill? || x.ForkPublish? {
      assert KinOk(s, x.np);
      ForkKin(s, m, x, q);
    } else {
      WaitKin(s, m, x, q);
    }
  }

  lemma StepDescends(s: State, m: Makers, step: Step)
    requires Inv(s) && Enabled(s, step) && Descends(s, m)
    ensures Descends(Do(s, step), Note(m, step))
  {
    var t := Do(s, step);
    KillByPid.SameSlots(s, step);
    forall q: nat | q < |t.procs| && q != INIT ensures MadeBy(t, Note(m, step), q) {
      assert MadeBy(s, m, q) && PlaceOk(s, q);
      match step
      case Scheduling(x) => SchedKin(s, x, q);
      case Locking(x) => LockKin(s, x, q);
      case Lifecycle(x) => LifeKin(s, m, x, q);
    }
  }

  lemma {:induction false} RunDescends(s: State, m: Makers, steps: seq<Step>)
    requires Inv(s) && Legal(s, steps) && Descends(s, m)
    ensures Descends(Exec(s, steps), Chronicle(m, steps))
    decreases |steps|
  {
    if steps != [] {
      StepInv(s, steps[0]);
      StepDescends(s, m, steps[0]);
      RunDescends(Do(s, steps[0]), Note(m, steps[0]), steps[1..]);
    }
  }

  /** In every run a process's parent is the one that forked it, and init once that one has exited. */
  lemma ParentIsMaker(s0: State, steps: seq<Step>)
    requires Init(s0) && Legal(s0, steps)
    ensures Descends(Exec(s0, steps), Chronicle(map[], steps))
  {
    InitInv(s0);
    RunDescends(s0, map[], steps);
  }

  /** In every run wait returns a child that the caller forked, or to init an orphan. */
  lemma WaitReturnsOwn(s0: State, steps: seq<Step>, p: nat, z: nat)
    requires Init(s0) && Legal(s0, steps) && CanLife(Exec(s0, steps), WaitReap(p, z))
    ensures var m := Chronicle(map[], steps);
            z in m && (m[z] == Some(p) || (m[z].None? && p == INIT))
  {
    InitInv(s0);
    RunInv(s0, steps);
    ParentIsMaker(s0, steps);
    assert MadeBy(Exec(s0, steps), Chronicle(map[], steps), z);
  }
}
