/**
 pipe.c. Code between two releases of p->lock (acquire, sleep, return) is one turn of one
 thread, which no other turn can interrupt. kill can: it takes only ptable.lock, so it may
 fall between a thread's test of killed and the moment sleep takes ptable.lock. A thread
 in that window is Drowsy. Queue is the pipe as its users see it: everything ever placed and
 everything ever taken, with the threads inside pipewrite and piperead. Ring is the
 512-byte buffer with its two wrapping 32-bit counters, run by the same turns.
 */
module Pipe {
  import opened Params

  /** Drowsy: it has decided to sleep, still holds p->lock, and is not asleep yet. */
  datatype Mode = Awake | Drowsy | Asleep

  datatype Thread =
    | Writing(buf: string, i: nat, mode: Mode, killed: bool)
    | Reading(n: nat, mode: Mode, killed: bool)
    | Done(ret: int, got: string)

  datatype Queue = Queue(placed: string, taken: string, readopen: bool, writeopen: bool)

  type Threads = map<nat, Thread>

  datatype Step = Turn(t: nat) | Doze(t: nat) | Kill(t: nat) | Enter(t: nat, th: Thread) | Close(writable: bool)

  // ---------------------------------------------------------------- turns on the queue

  function Held(q: Queue): int {
    |q.placed| - |q.taken|
  }

  /** Bytes leave in the order they came, and at most PIPESIZE are inside. */
  ghost predicate Fifo(q: Queue) {
    q.taken <= q.placed && Held(q) <= PIPESIZE
  }

  /** What is inside, oldest first. */
  function Inside(q: Queue): string
    requires |q.taken| <= |q.placed|
  {
    q.placed[|q.taken|..]
  }

  /** wakeup and kill wake a thread only if it is asleep already. */
  function Woken(m: Mode): Mode {
    if m == Asleep then Awake else m
  }

  function WakeReaders(ts: Threads): Threads {
    map t | t in ts :: if ts[t].Reading? then Reading(ts[t].n, Woken(ts[t].mode), ts[t].killed) else ts[t]
  }

  function WakeWriters(ts: Threads): Threads {
    map t | t in ts :: if ts[t].Writing? then Writing(ts[t].buf, ts[t].i, Woken(ts[t].mode), ts[t].killed) else ts[t]
  }

  /** How far a writer gets before the pipe is full or its bytes run out. */
  function Reach(q: Queue, buf: string, i: nat): nat
    requires i <= |buf| && 0 <= Held(q) <= PIPESIZE
  {
    i + Min(|buf| - i, PIPESIZE - Held(q))
  }

  function DoWrite(q: Queue, ts: Threads, t: nat): (Queue, Threads)
    requires t in ts && ts[t].Writing? && ts[t].i <= |ts[t].buf| && 0 <= Held(q) <= PIPESIZE
  {
    var buf, i := ts[t].buf, ts[t].i;
    var j := Reach(q, buf, i);
    var q' := q.(placed := q.placed + buf[i..j]);
    if j == |buf| then (q', WakeReaders(ts)[t := Done(|buf|, "")])
    else if !q.readopen || ts[t].killed then (q', ts[t := Done(-1, "")])
    else (q', WakeReaders(ts)[t := Writing(buf, j, Drowsy, false)])
  }

  function DoRead(q: Queue, ts: Threads, t: nat): (Queue, Threads)
    requires t in ts && ts[t].Reading? && 0 <= Held(q) <= PIPESIZE
  {
    if Held(q) == 0 && q.writeopen then
      (q, ts[t := if ts[t].killed then Done(-1, "") else Reading(ts[t].n, Drowsy, false)])
    else
      var out := Inside(q)[..Min(ts[t].n, Held(q))];
      (q.(taken := q.taken + out), WakeWriters(ts)[t := Done(|out|, out)])
  }

  function DoClose(q: Queue, ts: Threads, writable: bool): (Queue, Threads) {
    if writable then (q.(writeopen := false), WakeReaders(ts)) else (q.(readopen := false), WakeWriters(ts))
  }

  /** p->lock is free: nobody is on the way to sleep. */
  ghost predicate LockFree(ts: Threads) {
    forall t :: t in ts && !ts[t].Done? ==> ts[t].mode != Drowsy
  }

  /**
   An awake thread runs when it gets p->lock; an end of the pipe is closed only when no
   thread is inside it, since a thread in a system call still holds the open file.
   */
  ghost predicate Enabled(q: Queue, ts: Threads, step: Step) {
    match step
    case Turn(t) => t in ts && !ts[t].Done? && ts[t].mode == Awake && LockFree(ts)
    case Doze(t) => t in ts && !ts[t].Done? && ts[t].mode == Drowsy
    case Kill(t) => t in ts && !ts[t].Done?
    case Enter(t, th) => t !in ts && !th.Done? && th.mode == Awake && (th.Writing? ==> th.i == 0 && q.writeopen)
      && (th.Reading? ==> q.readopen)
    case Close(true) => q.writeopen && LockFree(ts) && forall t :: t in ts ==> !ts[t].Writing?
    case Close(false) => q.readopen && LockFree(ts) && forall t :: t in ts ==> !ts[t].Reading?
  }

  /** kill marks the thread, and wakes it if it is asleep. */
  function Killed(th: Thread): Thread
    requires !th.Done?
  {
    th.(mode := Woken(th.mode), killed := true)
  }

  ghost function Do(q: Queue, ts: Threads, step: Step): (Queue, Threads)
    requires Enabled(q, ts, step) && Sane(q, ts)
  {
    match step
    case Turn(t) => if ts[t].Writing? then DoWrite(q, ts, t) else DoRead(q, ts, t)
    case Doze(t) => (q, ts[t := ts[t].(mode := Asleep)])
    case Kill(t) => (q, ts[t := Killed(ts[t])])
    case Enter(t, th) => (q, ts[t := th])
    case Close(w) => DoClose(q, ts, w)
  }

  /** The FIFO law, and every writer within its own bytes. */
  ghost predicate Sane(q: Queue, ts: Threads) {
    Fifo(q) && forall t :: t in ts && ts[t].Writing? ==> ts[t].i <= |ts[t].buf|
  }

  lemma WriteSane(q: Queue, ts: Threads, t: nat)
    requires Sane(q, ts) && t in ts && ts[t].Writing?
    ensures var q' := DoWrite(q, ts, t).0; Fifo(q') && q.placed <= q'.placed && q'.taken == q.taken
    ensures Sane(q, DoWrite(q, ts, t).1)
  {
  }

  lemma ReadSane(q: Queue, ts: Threads, t: nat)
    requires Sane(q, ts) && t in ts && ts[t].Reading?
    ensures var q' := DoRead(q, ts, t).0; Fifo(q') && q.taken <= q'.taken && q'.placed == q.placed
    ensures Sane(q, DoRead(q, ts, t).1)
  {
    var q' := DoRead(q, ts, t).0;
    assert q.placed == q.taken + Inside(q);
    assert q'.taken <= q.placed;
  }

  lemma StepSane(q: Queue, ts: Threads, step: Step)
    requires Enabled(q, ts, step) && Sane(q, ts)
    ensures Sane(Do(q, ts, step).0, Do(q, ts, step).1)
    ensures q.placed <= Do(q, ts, step).0.placed && q.taken <= Do(q, ts, step).0.taken
  {
    if step.Turn? {
      if ts[step.t].Writing? {
        WriteSane(q, ts, step.t);
      } else {
        ReadSane(q, ts, step.t);
      }
    }
  }

  ghost predicate Legal(q: Queue, ts: Threads, run: seq<Step>)
    decreases |run|
  {
    run == [] || (Sane(q, ts) && Enabled(q, ts, run[0]) &&
                  var next := Do(q, ts, run[0]); Legal(next.0, next.1, run[1..]))
  }

  ghost function Exec(q: Queue, ts: Threads, run: seq<Step>): (Queue, Threads)
    requires Legal(q, ts, run)
    decreases |run|
  {
    if run == [] then (q, ts) else var next := Do(q, ts, run[0]); Exec(next.0, next.1, run[1..])
  }

  const EMPTY: Queue := Queue("", "", true, true)

  /** In every run, with any readers and writers, bytes come out in the order they went in. */
  lemma {:induction false} FifoForEver(q: Queue, ts: Threads, run: seq<Step>)
    requires Sane(q, ts) && Legal(q, ts, run)
    ensures Sane(Exec(q, ts, run).0, Exec(q, ts, run).1)
    ensures var q' := Exec(q, ts, run).0; q'.taken + Inside(q') == q'.placed && |Inside(q')| <= PIPESIZE
    ensures q.placed <= Exec(q, ts, run).0.placed && q.taken <= Exec(q, ts, run).0.taken
    decreases |run|
  {
    if run != [] {
      StepSane(q, ts, run[0]);
      var next := Do(q, ts, run[0]);
      FifoForEver(next.0, next.1, run[1..]);
    }
  }

  // ---------------------------------------------------------------- who may be asleep

  predicate Resting(th: Thread) {
    !th.Done? && th.mode != Awake
  }

  /** A writer sleeps only on a full pipe that is still being read. */
  ghost predicate WritersRest(q: Queue, ts: Threads) {
    forall t :: t in ts && ts[t].Writing? && Resting(ts[t]) ==> Held(q) == PIPESIZE && q.readopen
  }

  /** A reader sleeps only on an empty pipe that is still being written. */
  ghost predicate ReadersRest(q: Queue, ts: Threads) {
    forall t :: t in ts && ts[t].Reading? && Resting(ts[t]) ==> Held(q) == 0 && q.writeopen
  }

  /** No killed thread sleeps or is about to. */
  ghost predicate KilledRun(ts: Threads) {
    forall t :: t in ts && Resting(ts[t]) ==> !ts[t].killed
  }

  /** Ends are open while threads are inside them. */
  ghost predicate Ends(q: Queue, ts: Threads) {
    && (forall t :: t in ts && ts[t].Writing? ==> q.writeopen)
    && (forall t :: t in ts && ts[t].Reading? ==> q.readopen)
  }

  lemma StepEnds(q: Queue, ts: Threads, step: Step)
    requires Enabled(q, ts, step) && Sane(q, ts) && Ends(q, ts)
    ensures Ends(Do(q, ts, step).0, Do(q, ts, step).1)
  {
  }

  /** No writer's wakeup is ever lost. */
  lemma StepWriters(q: Queue, ts: Threads, step: Step)
    requires Enabled(q, ts, step) && Sane(q, ts) && WritersRest(q, ts)
    ensures WritersRest(Do(q, ts, step).0, Do(q, ts, step).1)
  {
  }

  /** A killed writer that fills the pipe part-way through its bytes leaves without waking readers. */
  ghost predicate Slips(q: Queue, ts: Threads, step: Step) {
    && step.Turn? && step.t in ts && ts[step.t].Writing? && ts[step.t].killed
    && |ts[step.t].buf| - ts[step.t].i > PIPESIZE - Held(q) > 0
    && exists r :: r in ts && ts[r].Reading? && Resting(ts[r])
  }

  /** A kill that comes after the thread's test and before its sleep. */
  ghost predicate Misses(ts: Threads, step: Step) {
    step.Kill? && step.t in ts && !ts[step.t].Done? && ts[step.t].mode == Drowsy
  }

  /** A slip, and no other step, leaves a reader asleep on bytes it should have. */
  lemma ReaderLostIffSlips(q: Queue, ts: Threads, step: Step)
    requires Enabled(q, ts, step) && Sane(q, ts) && Ends(q, ts) && ReadersRest(q, ts)
    ensures ReadersRest(Do(q, ts, step).0, Do(q, ts, step).1) <==> !Slips(q, ts, step)
  {
    var next := Do(q, ts, step);
    if Slips(q, ts, step) {
      var r :| r in ts && ts[r].Reading? && Resting(ts[r]);
      assert next.1[r] == ts[r];
    }
  }

  /** A miss, and no other step, leaves a killed thread asleep or on its way to sleep. */
  lemma KillLostIffMisses(q: Queue, ts: Threads, step: Step)
    requires Enabled(q, ts, step) && Sane(q, ts) && KilledRun(ts)
    ensures KilledRun(Do(q, ts, step).1) <==> !Misses(ts, step)
  {
    var next := Do(q, ts, step);
    if Misses(ts, step) {
      assert Resting(next.1[step.t]);
    }
  }

  /** A missed thread does fall asleep: nothing else can happen to it before. */
  lemma MissedSleeps(q: Queue, ts: Threads, step: Step, t: nat)
    requires Enabled(q, ts, step) && Sane(q, ts) && t in ts && !ts[t].Done? && ts[t].mode == Drowsy && ts[t].killed
    ensures var th := Do(q, ts, step).1;
            t in th && !th[t].Done? && th[t].killed
              && (if step == Doze(t) then th[t].mode == Asleep else th[t] == ts[t])
  {
  }

  ghost predicate Rested(q: Queue, ts: Threads) {
    Sane(q, ts) && Ends(q, ts) && WritersRest(q, ts) && ReadersRest(q, ts) && KilledRun(ts)
  }

  /** No step of the run slips or misses. */
  ghost predicate Steady(q: Queue, ts: Threads, run: seq<Step>)
    requires Legal(q, ts, run)
    decreases |run|
  {
    run == [] || (!Slips(q, ts, run[0]) && !Misses(ts, run[0])
      && var next := Do(q, ts, run[0]); Steady(next.0, next.1, run[1..]))
  }

  /** At no moment of the run does anybody sleep that could go on. */
  ghost predicate AlwaysRested(q: Queue, ts: Threads, run: seq<Step>)
    requires Legal(q, ts, run)
    decreases |run|
  {
    Rested(q, ts) && (run == [] || var next := Do(q, ts, run[0]); AlwaysRested(next.0, next.1, run[1..]))
  }

  /** In a run nobody ever sleeps that could go on, if and only if no step slips or misses. */
  lemma {:induction false} NobodyLeftAsleep(q: Queue, ts: Threads, run: seq<Step>)
    requires Rested(q, ts) && Legal(q, ts, run)
    ensures AlwaysRested(q, ts, run) <==> Steady(q, ts, run)
    decreases |run|
  {
    if run != [] {
      var next := Do(q, ts, run[0]);
      StepSane(q, ts, run[0]);
      StepEnds(q, ts, run[0]);
      StepWriters(q, ts, run[0]);
      ReaderLostIffSlips(q, ts, run[0]);
      KillLostIffMisses(q, ts, run[0]);
      if Rested(next.0, next.1) {
        NobodyLeftAsleep(next.0, next.1, run[1..]);
      }
    }
  }

  /** One step in front of a run. */
  lemma Ahead(q: Queue, ts: Threads, run: seq<Step>, step: Step, q': Queue, ts': Threads)
    requires Sane(q, ts) && Enabled(q, ts, step) && Do(q, ts, step) == (q', ts') && Legal(q', ts', run)
    ensures Legal(q, ts, [step] + run) && Exec(q, ts, [step] + run) == Exec(q', ts', run)
  {
    assert ([step] + run)[1..] == run;
  }

  /** A run that loses a reader: it sleeps, a killed writer of 513 bytes fills the pipe and leaves. */
  lemma LostReader(buf: string)
    requires |buf| == PIPESIZE + 1
    ensures var run := [Enter(0, Reading(1, Awake, false))]
              + ([Turn(0)] + ([Doze(0)] + ([Enter(1, Writing(buf, 0, Awake, true))] + ([Turn(1)] + []))));
            && Legal(EMPTY, map[], run)
            && var (q, ts) := Exec(EMPTY, map[], run);
               Held(q) == PIPESIZE && 0 in ts && 1 in ts && ts[0] == Reading(1, Asleep, false) && ts[1] == Done(-1, "")
  {
    var r0, r1, r2 := Reading(1, Awake, false), Reading(1, Drowsy, false), Reading(1, Asleep, false);
    var w := Writing(buf, 0, Awake, true);
    var ts3: Threads := map[0 := r2, 1 := w];
    var q4 := EMPTY.(placed := buf[..PIPESIZE]);
    var ts4: Threads := map[0 := r2, 1 := Done(-1, "")];
    assert ts3[1 := Done(-1, "")] == ts4;
    assert "" + buf[0..PIPESIZE] == buf[..PIPESIZE];
    Ahead(EMPTY, ts3, [], Turn(1), q4, ts4);
    Ahead(EMPTY, map[0 := r2], [Turn(1)] + [], Enter(1, w), EMPTY, ts3);
    var ts0: Threads, ts1: Threads, ts2: Threads, none: Threads := map[0 := r0], map[0 := r1], map[0 := r2], map[];
    assert none[0 := r0] == ts0 && ts0[0 := r1] == ts1 && ts1[0 := r2] == ts2;
    var rest := [Enter(1, w)] + ([Turn(1)] + []);
    Ahead(EMPTY, ts1, rest, Doze(0), EMPTY, ts2);
    Ahead(EMPTY, ts0, [Doze(0)] + rest, Turn(0), EMPTY, ts1);
    Ahead(EMPTY, none, [Turn(0)] + ([Doze(0)] + rest), Enter(0, r0), EMPTY, ts0);
  }

  /** A run that loses a kill: it comes between the reader's test and its sleep. */
  lemma LostKill()
    ensures var run := [Enter(0, Reading(1, Awake, false))] + ([Turn(0)] + ([Kill(0)] + ([Doze(0)] + [])));
            && Legal(EMPTY, map[], run)
            && var (q, ts) := Exec(EMPTY, map[], run);
               q == EMPTY && 0 in ts && ts[0] == Reading(1, Asleep, true)
  {
    var r0, r1, k1, k2 := Reading(1, Awake, false), Reading(1, Drowsy, false), Reading(1, Drowsy, true),
        Reading(1, Asleep, true);
    var ts0: Threads, ts1: Threads, ts2: Threads, ts3: Threads, none: Threads := map[0 := r0], map[0 := r1],
        map[0 := k1], map[0 := k2], map[];
    assert none[0 := r0] == ts0 && ts0[0 := r1] == ts1 && ts1[0 := k1] == ts2 && ts2[0 := k2] == ts3;
    Ahead(EMPTY, ts2, [], Doze(0), EMPTY, ts3);
    Ahead(EMPTY, ts1, [Doze(0)] + [], Kill(0), EMPTY, ts2);
    Ahead(EMPTY, ts0, [Kill(0)] + ([Doze(0)] + []), Turn(0), EMPTY, ts1);
    Ahead(EMPTY, none, [Turn(0)] + ([Kill(0)] + ([Doze(0)] + [])), Enter(0, r0), EMPTY, ts0);
  }

  // ---------------------------------------------------------------- the ring with its counters

  /** PIPESIZE divides 2^32, so a wrapped counter still finds the right slot. */
  lemma WrapKeepsSlot(x: nat)
    ensures x % TWO32 % PIPESIZE == x % PIPESIZE
  {
    assert x == TWO32 * (x / TWO32) + x % TWO32;
    assert TWO32 * (x / TWO32) == PIPESIZE * (0x80_0000 * (x / TWO32));
  }

  /** Equality of wrapped counters decides full and empty, the difference being at most PIPESIZE. */
  lemma WrapDecides(r: nat, w: nat)
    requires r <= w <= r + PIPESIZE
    ensures w % TWO32 == r % TWO32 <==> w == r
    ensures w % TWO32 == (r % TWO32 + PIPESIZE) % TWO32 <==> w == r + PIPESIZE
  {
    WrapGap(r, w);
    WrapGap(w, r + PIPESIZE);
    WrapAdd(r, PIPESIZE);
  }

  lemma WrapGap(r: nat, w: nat)
    requires r <= w < r + TWO32
    ensures w % TWO32 == r % TWO32 <==> w == r
  {
  }

  lemma WrapAdd(x: nat, d: nat)
    requires d < TWO32
    ensures (x % TWO32 + d) % TWO32 == (x + d) % TWO32
  {
  }

  /** Within a window of PIPESIZE bytes no two share a slot. */
  lemma SlotsDiffer(x: nat, y: nat)
    requires x < y < x + PIPESIZE
    ensures x % PIPESIZE != y % PIPESIZE
  {
  }

  class Ring {
    const data: array<char>
    var nread: nat
    var nwrite: nat
    var readopen: bool
    var writeopen: bool
    ghost var placed: string
    ghost var taken: string

    /** The counters are the two totals mod 2^32 and the ring holds what is in between. */
    ghost predicate Valid()
      reads this, data
    {
      && data.Length == PIPESIZE
      && taken <= placed && |placed| <= |taken| + PIPESIZE
      && nread == |taken| % TWO32 && nwrite == |placed| % TWO32
      && forall j :: |taken| <= j < |placed| ==> data[j % PIPESIZE] == placed[j]
    }

    ghost function View(): Queue
      reads this
    {
      Queue(placed, taken, readopen, writeopen)
    }

    constructor ()
      ensures Valid() && View() == EMPTY && fresh(data)
    {
      data := new char[PIPESIZE];
      nread, nwrite, readopen, writeopen, placed, taken := 0, 0, true, true, "", "";
    }

    method Put(c: char)
      requires Valid() && |placed| < |taken| + PIPESIZE
      modifies data, `nwrite, `placed
      ensures Valid() && placed == old(placed) + [c]
    {
      WrapKeepsSlot(|placed|);
      WrapAdd(|placed|, 1);
      forall j | |taken| <= j < |placed| ensures j % PIPESIZE != |placed| % PIPESIZE {
        SlotsDiffer(j, |placed|);
      }
      data[nwrite % PIPESIZE] := c;
      nwrite := (nwrite + 1) % TWO32;
      placed := placed + [c];
    }

    method Get() returns (c: char)
      requires Valid() && |taken| < |placed|
      modifies `nread, `taken
      ensures Valid() && c == placed[|old(taken)|] && taken == old(taken) + [c]
    {
      WrapKeepsSlot(|taken|);
      WrapAdd(|taken|, 1);
      c := data[nread % PIPESIZE];
      nread := (nread + 1) % TWO32;
      taken := taken + [c];
    }

    /** pipewrite's test for a full pipe, on the wrapped counters. */
    method IsFull() returns (full: bool)
      requires Valid()
      ensures full <==> |placed| == |taken| + PIPESIZE
    {
      WrapDecides(|taken|, |placed|);
      full := nwrite == (nread + PIPESIZE) % TWO32;
    }

    /** pipewrite's copying, up to the next full pipe. */
    method Fill(buf: string, i: nat) returns (j: nat)
      requires Valid() && i <= |buf|
      modifies data, `nwrite, `placed
      ensures Valid() && j == Reach(old(View()), buf, i) && placed == old(placed) + buf[i..j]
    {
      j := i;
      ghost var placed0 := placed;
      var full := IsFull();
      while j < |buf| && !full
        invariant Valid() && i <= j <= |buf|
        invariant placed == placed0 + buf[i..j]
        invariant full <==> |placed| == |taken| + PIPESIZE
      {
        Put(buf[j]);
        j := j + 1;
        assert buf[i..j] == buf[i..j - 1] + [buf[j - 1]];
        full := IsFull();
      }
    }

    method IsEmpty() returns (empty: bool)
      requires Valid()
      ensures empty <==> |placed| == |taken|
    {
      WrapDecides(|taken|, |placed|);
      empty := nread == nwrite;
    }

    /** piperead's copying, up to the next empty pipe. */
    method Drain(n: nat) returns (out: string)
      requires Valid()
      modifies `nread, `taken
      ensures Valid() && out == Inside(old(View()))[..Min(n, Held(old(View())))]
      ensures taken == old(taken) + out
    {
      out := "";
      ghost var q0 := View();
      var empty := IsEmpty();
      while |out| < n && !empty
        invariant Valid() && placed == q0.placed && taken == q0.taken + out
        invariant |out| <= n && out <= Inside(q0)
        invariant empty <==> |placed| == |taken|
      {
        var c := Get();
        out := out + [c];
        empty := IsEmpty();
      }
    }

    /** One turn of pipewrite: from acquire or the return of sleep to release or sleep. */
    method Write(ts: Threads, t: nat) returns (ts': Threads)
      requires Valid() && t in ts && ts[t].Writing? && ts[t].i <= |ts[t].buf|
      modifies data, `nwrite, `placed
      ensures Valid() && (View(), ts') == DoWrite(old(View()), ts, t)
    {
      var buf := ts[t].buf;
      var j := Fill(buf, ts[t].i);
      if j == |buf| {
        ts' := WakeReaders(ts)[t := Done(|buf|, "")];
      } else if !readopen || ts[t].killed {
        ts' := ts[t := Done(-1, "")];
      } else {
        ts' := WakeReaders(ts)[t := Writing(buf, j, Drowsy, false)];
      }
    }

    /** One turn of piperead. */
    method Read(ts: Threads, t: nat) returns (ts': Threads)
      requires Valid() && t in ts && ts[t].Reading?
      modifies `nread, `taken
      ensures Valid() && (View(), ts') == DoRead(old(View()), ts, t)
    {
      var empty := IsEmpty();
      if empty && writeopen {
        if ts[t].killed {
          ts' := ts[t := Done(-1, "")];
        } else {
          ts' := ts[t := Reading(ts[t].n, Drowsy, false)];
        }
        return;
      }
      var out := Drain(ts[t].n);
      ts' := WakeWriters(ts)[t := Done(|out|, out)];
    }

    /** pipeclose; freed tells whether the pipe's page is given back. */
    method CloseEnd(ts: Threads, writable: bool) returns (ts': Threads, freed: bool)
      requires Valid()
      modifies `readopen, `writeopen
      ensures Valid() && (View(), ts') == DoClose(old(View()), ts, writable)
      ensures if writable then !writeopen && readopen == old(readopen)
              else !readopen && writeopen == old(writeopen)
      ensures freed <==> !readopen && !writeopen
    {
      if writable {
        writeopen := false;
        ts' := WakeReaders(ts);
      } else {
        readopen := false;
        ts' := WakeWriters(ts);
      }
      freed := !readopen && !writeopen;
    }

    /** Any schedule of turns on the ring does what it does on the queue. */
    method Replay(ts: Threads, run: seq<Step>) returns (ts': Threads)
      requires Valid() && Legal(View(), ts, run)
      modifies this, data
      ensures Valid() && (View(), ts') == Exec(old(View()), ts, run)
    {
      ts' := ts;
      var k := 0;
      ghost var goal := Exec(View(), ts, run);
      while k < |run|
        invariant 0 <= k <= |run| && Valid()
        invariant Legal(View(), ts', run[k..]) && Exec(View(), ts', run[k..]) == goal
      {
        assert run[k..][0] == run[k] && run[k..][1..] == run[k + 1..];
        ghost var next := Do(View(), ts', run[k]);
        match run[k] {
          case Turn(t) =>
            if ts'[t].Writing? {
              ts' := Write(ts', t);
            } else {
              ts' := Read(ts', t);
            }
          case Doze(t) =>
            ts' := ts'[t := ts'[t].(mode := Asleep)];
          case Kill(t) =>
            ts' := ts'[t := Killed(ts'[t])];
          case Enter(t, th) =>
            ts' := ts'[t := th];
          case Close(w) =>
            var freed;
            ts', freed := CloseEnd(ts', w);
        }
        assert (View(), ts') == next;
        k := k + 1;
      }
    }
  }
}
