/**
 The scans of ptable.proc in proc.c as loops over an array, in the order of the source.
 Each computes, or performs, what the steps of the transition system say in one go.
 */
module ProcessTable {
  import opened Params
  import opened Processes

  /** wakeup1. */
  method WakeupScan(a: array<Proc>, chan: Chan)
    modifies a
    ensures a[..] == Wakeup1(old(a[..]), chan)
    ensures forall k :: 0 <= k < a.Length ==>
              a[k] == if old(a[k]).state == SLEEPING && old(a[k]).chan == chan then old(a[k]).(state := RUNNABLE)
                      else old(a[k])
  {
    var i := 0;
    while i < a.Length
      invariant 0 <= i <= a.Length
      invariant forall k :: 0 <= k < i ==> a[k] == Wakeup1(old(a[..]), chan)[k]
      invariant forall k :: i <= k < a.Length ==> a[k] == old(a[k])
    {
      if a[i].state == SLEEPING && a[i].chan == chan {
        a[i] := a[i].(state := RUNNABLE);
      }
      i := i + 1;
    }
  }

  /** Slot k part-way through exit's loop: init woken or not, children below i adopted. */
  function HalfAdopted(was: Proc, woke: bool, done: bool, p: nat): Proc {
    var w := if woke && was.state == SLEEPING && was.chan == OnProc(INIT) then was.(state := RUNNABLE) else was;
    if done && w.parent == Some(p) then w.(parent := Some(INIT)) else w
  }

  ghost predicate ZombieBelow(procs: seq<Proc>, p: nat, i: nat) {
    exists z :: 0 <= z < i && z < |procs| && procs[z].parent == Some(p) && procs[z].state == ZOMBIE
  }

  lemma WakeTwice(procs: seq<Proc>, woke: bool, i: nat, p: nat, now: seq<Proc>)
    requires |now| == |procs|
    requires forall k :: 0 <= k < |procs| ==> now[k] == HalfAdopted(procs[k], woke, k < i, p)
    ensures forall k :: 0 <= k < |procs| ==>
              Wakeup1(now, OnProc(INIT))[k] == HalfAdopted(procs[k], true, k < i, p)
  {
  }

  /** Slot k after exit's loop: its parent is init if it was p, and a sleeping init is awake if p had a zombie. */
  ghost predicate AdoptedWell(procs: seq<Proc>, k: nat, p: nat, now: Proc)
    requires k < |procs|
  {
    && now == procs[k].(parent := now.parent, state := now.state)
    && now.parent == (if procs[k].parent == Some(p) then Some(INIT) else procs[k].parent)
    && now.state == (if procs[k].state == SLEEPING && procs[k].chan == OnProc(INIT) && ZombieBelow(procs, p, |procs|)
                     then RUNNABLE else procs[k].state)
  }

  /**
   exit's loop interleaves adoption with wakeup1(initproc) for every zombie it meets; the
   result is as if init had been woken once, if at all, and the children adopted after.
   */
  method AdoptScan(a: array<Proc>, p: nat)
    requires p != INIT
    modifies a
    ensures a[..] == Adopt(if HasZombie(old(a[..]), p) then Wakeup1(old(a[..]), OnProc(INIT)) else old(a[..]), p)
    ensures forall k :: 0 <= k < a.Length ==> AdoptedWell(old(a[..]), k, p, a[k])
  {
    ghost var procs := a[..];
    ghost var woke := false;
    var i := 0;
    while i < a.Length
      invariant 0 <= i <= a.Length
      invariant woke <==> ZombieBelow(procs, p, i)
      invariant forall k :: 0 <= k < a.Length ==> a[k] == HalfAdopted(procs[k], woke, k < i, p)
    {
      if a[i].parent == Some(p) {
        a[i] := a[i].(parent := Some(INIT));
        if a[i].state == ZOMBIE {
          assert forall k :: 0 <= k < a.Length ==> a[..][k] == HalfAdopted(procs[k], woke, k < i + 1, p);
          WakeTwice(procs, woke, i + 1, p, a[..]);
          WakeupScan(a, OnProc(INIT));
          woke := true;
        }
      }
      i := i + 1;
    }
    assert woke <==> HasZombie(procs, p);
  }

  /** exit between its acquire of ptable.lock and its own change of state. */
  method ExitScan(a: array<Proc>, p: nat)
    requires p < a.Length && p != INIT
    modifies a
    ensures a[..] == Orphaned(old(a[..]), p)
  {
    if a[p].parent.Some? {
      WakeupScan(a, OnProc(a[p].parent.value));
    }
    AdoptScan(a, p);
  }

  /** allocproc's search: the first UNUSED slot. */
  method FindUnused(a: array<Proc>) returns (r: Option<nat>)
    ensures r.Some? ==> r.value < a.Length && a[r.value].state == UNUSED
    ensures r.Some? ==> forall k :: 0 <= k < r.value ==> a[k].state != UNUSED
    ensures r.None? ==> forall k :: 0 <= k < a.Length ==> a[k].state != UNUSED
  {
    var i := 0;
    while i < a.Length
      invariant 0 <= i <= a.Length
      invariant forall k :: 0 <= k < i ==> a[k].state != UNUSED
    {
      if a[i].state == UNUSED {
        return Some(i);
      }
      i := i + 1;
    }
    return None;
  }

  /** wait's scan: the first zombie child, else whether there are children at all. */
  method WaitScanTable(a: array<Proc>, p: nat) returns (zombie: Option<nat>, havekids: bool)
    ensures zombie.Some? <==> HasZombie(a[..], p)
    ensures zombie.Some? ==>
      && zombie.value < a.Length && a[zombie.value].parent == Some(p) && a[zombie.value].state == ZOMBIE
      && forall k :: 0 <= k < zombie.value ==> !(a[k].parent == Some(p) && a[k].state == ZOMBIE)
    ensures zombie.None? ==> (havekids <==> HasKids(a[..], p))
  {
    havekids := false;
    var i := 0;
    while i < a.Length
      invariant 0 <= i <= a.Length
      invariant forall k :: 0 <= k < i ==> !(a[k].parent == Some(p) && a[k].state == ZOMBIE)
      invariant havekids <==> exists k :: 0 <= k < i && a[k].parent == Some(p)
    {
      if a[i].parent == Some(p) {
        havekids := true;
        if a[i].state == ZOMBIE {
          assert a[..][i].state == ZOMBIE;
          return Some(i), true;
        }
      }
      i := i + 1;
    }
    zombie := None;
  }

  /** Slot q is the first one with the pid, whatever its state. */
  predicate Finds(procs: seq<Proc>, pid: nat, q: nat) {
    q < |procs| && procs[q].pid == pid && forall k :: 0 <= k < q ==> procs[k].pid != pid
  }

  /**
   kill: only the first slot with the pid is touched, whatever its state. It is marked and
   does not sleep afterwards; the table is as after the step of the transition system.
   */
  method KillScan(a: array<Proc>, pid: nat) returns (found: Option<nat>)
    modifies a
    ensures found.None? ==> a[..] == old(a[..]) && forall k :: 0 <= k < a.Length ==> a[k].pid != pid
    ensures found.Some? ==>
      && found.value < a.Length && Finds(old(a[..]), pid, found.value)
      && a[..] == old(a[..])[found.value := Killed(old(a[found.value]))]
    ensures found.Some? ==>
      && a[found.value].killed && a[found.value].state != SLEEPING
      && a[found.value] == old(a[found.value]).(killed := true, state := a[found.value].state)
      && (old(a[found.value]).state != SLEEPING ==> a[found.value].state == old(a[found.value]).state)
      && (old(a[found.value]).state == SLEEPING ==> a[found.value].state == RUNNABLE)
      && forall s: State :: s.procs == old(a[..]) && CanLife(s, Kill(found.value)) ==>
           DoLife(s, Kill(found.value)) == s.(procs := a[..])
  {
    var i := 0;
    while i < a.Length
      invariant 0 <= i <= a.Length
      invariant a[..] == old(a[..])
      invariant forall k :: 0 <= k < i ==> a[k].pid != pid
    {
      if a[i].pid == pid {
        a[i] := a[i].(killed := true);
        if a[i].state == SLEEPING {
          a[i] := a[i].(state := RUNNABLE);
        }
        return Some(i);
      }
      i := i + 1;
    }
    return None;
  }
}
