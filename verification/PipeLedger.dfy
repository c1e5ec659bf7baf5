/**
 Who put each byte into the pipe and who took it. The ledger labels every byte with the
 thread whose turn moved it; it is kept beside a run and does not look into the turns.
 */
module PipeLedger {
  import opened Params
  import opened Pipe

  /**
   `entered` is what each thread came with, `writers` and `readers` name the thread that
   placed or took each byte, and `order` lists the readers that have come back.
   */
  datatype Ledger = Ledger(entered: Threads, writers: seq<nat>, readers: seq<nat>, order: seq<nat>)

  const BLANK: Ledger := Ledger(map[], [], [], [])

  function Times(t: nat, k: nat): seq<nat> {
    seq(k, _ => t)
  }

  /** The bytes of s that thread t moved, in order. */
  function By(s: string, who: seq<nat>, t: nat): string
    requires |s| == |who|
  {
    if s == "" then ""
    else
      var k := |s| - 1;
      By(s[..k], who[..k], t) + (if who[k] == t then [s[k]] else "")
  }

  ghost function Note(l: Ledger, q: Queue, ts: Threads, step: Step): Ledger
    requires Enabled(q, ts, step) && Sane(q, ts)
  {
    match step
    case Enter(t, th) => l.(entered := l.entered[t := th])
    case Turn(t) =>
      StepSane(q, ts, step);
      var (q', ts') := Do(q, ts, step);
      Ledger(l.entered, l.writers + Times(t, |q'.placed| - |q.placed|), l.readers + Times(t, |q'.taken| - |q.taken|),
             if ts[t].Reading? && t in ts' && ts'[t].Done? then l.order + [t] else l.order)
    case _ => l
  }

  ghost function Chronicle(l: Ledger, q: Queue, ts: Threads, run: seq<Step>): Ledger
    requires Legal(q, ts, run)
    decreases |run|
  {
    if run == [] then l
    else var next := Do(q, ts, run[0]); Chronicle(Note(l, q, ts, run[0]), next.0, next.1, run[1..])
  }

  // ---------------------------------------------------------------- what a thread has to show for its bytes

  /** A writer has placed exactly its first i bytes, all of them if it came back with their number. */
  predicate WriterSettled(buf: string, th: Thread, sent: string) {
    match th
    case Writing(b, i, _, _) => b == buf && i <= |buf| && sent == buf[..i]
    case Done(ret, got) => got == "" && ((ret == |buf| && sent == buf) || (ret == -1 && sent < buf))
    case _ => false
  }

  /** A reader has taken nothing until it comes back, and then what it got, or nothing and -1. */
  predicate ReaderSettled(n: nat, th: Thread, took: string) {
    match th
    case Reading(m, _, _) => m == n && took == ""
    case Done(ret, got) => got == took && ((ret == |got| && |got| <= n) || (ret == -1 && got == ""))
    case _ => false
  }

  predicate Settled(came: Thread, th: Thread, sent: string, took: string) {
    match came
    case Writing(buf, _, _, _) => WriterSettled(buf, th, sent) && took == ""
    case Reading(n, _, _) => ReaderSettled(n, th, took) && sent == ""
    case _ => false
  }

  /** What the readers in the list got, one after the other. */
  function Gots(ts: Threads, order: seq<nat>): string {
    if order == [] then ""
    else
      var t := order[|order| - 1];
      Gots(ts, order[..|order| - 1]) + (if t in ts && ts[t].Done? then ts[t].got else "")
  }

  ghost predicate Labelled(q: Queue, l: Ledger) {
    |l.writers| == |q.placed| && |l.readers| == |q.taken|
  }

  /** Thread u can show for its bytes; one that never entered has moved none. */
  ghost predicate SettledAt(q: Queue, ts: Threads, l: Ledger, u: nat)
    requires Labelled(q, l)
  {
    var sent, took := By(q.placed, l.writers, u), By(q.taken, l.readers, u);
    if u in ts then u in l.entered && Settled(l.entered[u], ts[u], sent, took)
    else u !in l.entered && sent == took == ""
  }

  ghost predicate Ordered(taken: string, ts: Threads, order: seq<nat>) {
    taken == Gots(ts, order) && forall k :: 0 <= k < |order| ==> order[k] in ts && ts[order[k]].Done?
  }

  ghost predicate Account(q: Queue, ts: Threads, l: Ledger) {
    Labelled(q, l) && (forall u: nat :: SettledAt(q, ts, l, u)) && Ordered(q.taken, ts, l.order)
  }

  // ---------------------------------------------------------------- one step

  lemma {:induction false} ByMore(s: string, who: seq<nat>, x: string, u: nat, t: nat)
    requires |s| == |who|
    ensures |s + x| == |who + Times(u, |x|)|
    ensures By(s + x, who + Times(u, |x|), t) == By(s, who, t) + (if t == u then x else "")
    decreases |x|
  {
    if x == "" {
      assert s + x == s && who + Times(u, 0) == who;
    } else {
      var k := |x| - 1;
      ByMore(s, who, x[..k], u, t);
      assert (s + x)[..|s| + k] == s + x[..k];
      assert (who + Times(u, |x|))[..|s| + k] == who + Times(u, k);
      assert x == x[..k] + [x[k]];
    }
  }

  lemma {:induction false} GotsSame(ts: Threads, ts': Threads, order: seq<nat>)
    requires forall k :: 0 <= k < |order| ==> order[k] in ts && ts[order[k]].Done?
    requires forall t :: t in ts && ts[t].Done? ==> t in ts' && ts'[t] == ts[t]
    ensures Gots(ts', order) == Gots(ts, order)
    decreases |order|
  {
    if order != [] {
      GotsSame(ts, ts', order[..|order| - 1]);
    }
  }

  /** A thread's account does not depend on whether it sleeps or has been killed. */
  predicate Alike(a: Thread, b: Thread) {
    match a
    case Writing(buf, i, _, _) => b.Writing? && b.buf == buf && b.i == i
    case Reading(n, _, _) => b.Reading? && b.n == n
    case Done(_, _) => b == a
  }

  /** The same threads, and all but t with the same to show. */
  ghost predicate OthersAlike(ts: Threads, ts': Threads, t: nat) {
    ts'.Keys == ts.Keys && forall u :: u in ts && u != t ==> Alike(ts[u], ts'[u])
  }

  lemma OtherSettled(q: Queue, ts: Threads, l: Ledger, q': Queue, ts': Threads, l': Ledger, u: nat)
    requires Labelled(q, l) && Labelled(q', l') && SettledAt(q, ts, l, u) && l'.entered == l.entered
    requires By(q'.placed, l'.writers, u) == By(q.placed, l.writers, u)
    requires By(q'.taken, l'.readers, u) == By(q.taken, l.readers, u)
    requires (u in ts' <==> u in ts) && (u in ts ==> Alike(ts[u], ts'[u]))
    ensures SettledAt(q', ts', l', u)
  {
  }

  /** Thread t has placed x. */
  lemma Sent(q: Queue, ts: Threads, l: Ledger, q': Queue, ts': Threads, l': Ledger, t: nat, x: string)
    requires Account(q, ts, l) && t in ts && ts[t].Writing? && OthersAlike(ts, ts', t)
    requires q'.placed == q.placed + x && q'.taken == q.taken
    requires l' == l.(writers := l.writers + Times(t, |x|))
    requires forall sent :: WriterSettled(ts[t].buf, ts[t], sent) ==> WriterSettled(ts[t].buf, ts'[t], sent + x)
    ensures Account(q', ts', l')
  {
    forall u: nat ensures SettledAt(q', ts', l', u) {
      ByMore(q.placed, l.writers, x, t, u);
      assert SettledAt(q, ts, l, u);
      if u != t {
        OtherSettled(q, ts, l, q', ts', l', u);
      }
    }
    GotsSame(ts, ts', l.order);
  }

  /** Thread t has taken x, and has come back if that is anything. */
  lemma Took(q: Queue, ts: Threads, l: Ledger, q': Queue, ts': Threads, l': Ledger, t: nat, x: string)
    requires Account(q, ts, l) && t in ts && ts[t].Reading? && OthersAlike(ts, ts', t)
    requires q'.placed == q.placed && q'.taken == q.taken + x
    requires l' == l.(readers := l.readers + Times(t, |x|), order := if ts'[t].Done? then l.order + [t] else l.order)
    requires ReaderSettled(ts[t].n, ts'[t], x)
    ensures Account(q', ts', l')
  {
    forall u: nat ensures SettledAt(q', ts', l', u) {
      ByMore(q.taken, l.readers, x, t, u);
      assert SettledAt(q, ts, l, u);
      if u != t {
        OtherSettled(q, ts, l, q', ts', l', u);
      }
    }
    GotsSame(ts, ts', l.order);
    if ts'[t].Done? {
      assert l'.order[..|l.order|] == l.order;
    }
  }

  lemma WriteStep(q: Queue, ts: Threads, l: Ledger, t: nat)
    requires Enabled(q, ts, Turn(t)) && Sane(q, ts) && Account(q, ts, l) && ts[t].Writing?
    ensures var next := Do(q, ts, Turn(t)); Account(next.0, next.1, Note(l, q, ts, Turn(t)))
  {
    var (q', ts') := Do(q, ts, Turn(t));
    var buf, i := ts[t].buf, ts[t].i;
    var j := Reach(q, buf, i);
    var l' := Note(l, q, ts, Turn(t));
    assert buf[..i] + buf[i..j] == buf[..j] && buf[..|buf|] == buf;
    assert l.readers + Times(t, 0) == l.readers;
    Sent(q, ts, l, q', ts', l', t, buf[i..j]);
  }

  lemma ReadStep(q: Queue, ts: Threads, l: Ledger, t: nat)
    requires Enabled(q, ts, Turn(t)) && Sane(q, ts) && Account(q, ts, l) && ts[t].Reading?
    ensures var next := Do(q, ts, Turn(t)); Account(next.0, next.1, Note(l, q, ts, Turn(t)))
  {
    var (q', ts') := Do(q, ts, Turn(t));
    var x := q'.taken[|q.taken|..];
    var l' := Note(l, q, ts, Turn(t));
    assert q'.taken == q.taken + x;
    assert l.writers + Times(t, 0) == l.writers;
    Took(q, ts, l, q', ts', l', t, x);
  }

  /** A step that moves no byte. */
  lemma OtherStep(q: Queue, ts: Threads, l: Ledger, step: Step)
    requires Enabled(q, ts, step) && Sane(q, ts) && Account(q, ts, l) && !step.Turn?
    ensures var next := Do(q, ts, step); Account(next.0, next.1, Note(l, q, ts, step))
  {
    var (q', ts') := Do(q, ts, step);
    var l' := Note(l, q, ts, step);
    forall u: nat ensures SettledAt(q', ts', l', u) {
      assert SettledAt(q, ts, l, u);
      if u in ts {
        assert Alike(ts[u], ts'[u]);
      }
    }
    GotsSame(ts, ts', l.order);
  }

  lemma StepAccount(q: Queue, ts: Threads, l: Ledger, step: Step)
    requires Enabled(q, ts, step) && Sane(q, ts) && Account(q, ts, l)
    ensures var next := Do(q, ts, step); Account(next.0, next.1, Note(l, q, ts, step))
  {
    if !step.Turn? {
      OtherStep(q, ts, l, step);
    } else if ts[step.t].Writing? {
      WriteStep(q, ts, l, step.t);
    } else {
      ReadStep(q, ts, l, step.t);
    }
  }

  /**
   In every run every writer has placed exactly the first bytes of its own buffer, each once
   and in order, all of them if it came back with their number; and every reader that came
   back has what it took, so that what they got, in the order in which they came back, is
   what was taken.
   */
  lemma {:induction false} EveryByteAccounted(q: Queue, ts: Threads, l: Ledger, run: seq<Step>)
    requires Sane(q, ts) && Account(q, ts, l) && Legal(q, ts, run)
    ensures var (q', ts') := Exec(q, ts, run); Account(q', ts', Chronicle(l, q, ts, run))
    decreases |run|
  {
    if run != [] {
      var next := Do(q, ts, run[0]);
      StepSane(q, ts, run[0]);
      StepAccount(q, ts, l, run[0]);
      EveryByteAccounted(next.0, next.1, Note(l, q, ts, run[0]), run[1..]);
    }
  }

  /** From an empty pipe, for the thread that entered as t. */
  lemma WriterDelivers(run: seq<Step>, t: nat)
    requires Legal(EMPTY, map[], run)
    ensures var (q, ts) := Exec(EMPTY, map[], run);
            var l := Chronicle(BLANK, EMPTY, map[], run);
            && Labelled(q, l) && SettledAt(q, ts, l, t)
            && q.taken == Gots(ts, l.order)
  {
    EveryByteAccounted(EMPTY, map[], BLANK, run);
  }

  // ---------------------------------------------------------------- how a turn ends

  /** A writer stops short only at a full pipe, and then leaves exactly if nobody reads or it is killed. */
  lemma WriterStops(q: Queue, ts: Threads, t: nat)
    requires Enabled(q, ts, Turn(t)) && Sane(q, ts) && ts[t].Writing?
    ensures var (q', ts') := Do(q, ts, Turn(t));
            && t in ts' && (ts'[t] == Done(|ts[t].buf|, "") <==> |ts[t].buf| - ts[t].i <= PIPESIZE - Held(q))
            && (ts'[t] != Done(|ts[t].buf|, "") ==>
                  && Held(q') == PIPESIZE
                  && ts'[t] == if q.readopen && !ts[t].killed then Writing(ts[t].buf, ts'[t].i, Drowsy, false)
                               else Done(-1, ""))
  {
  }

  /** A reader waits only on an empty pipe that can still fill; otherwise it leaves less than n only by emptying it. */
  lemma ReaderStops(q: Queue, ts: Threads, t: nat)
    requires Enabled(q, ts, Turn(t)) && Sane(q, ts) && ts[t].Reading?
    ensures var (q', ts') := Do(q, ts, Turn(t));
            && t in ts'
            && if Held(q) == 0 && q.writeopen then
                 q' == q && ts'[t] == if ts[t].killed then Done(-1, "") else Reading(ts[t].n, Drowsy, false)
               else
                 && ts'[t].Done? && ts'[t].ret == |ts'[t].got| <= ts[t].n
                 && (ts'[t].ret < ts[t].n ==> Held(q') == 0) && ts'[t].got <= Inside(q)
  {
  }
}
