/**
 log.c as a concurrent protocol: any number of file-system operations run
 begin_op / log_write / end_op in any interleaving, the last one out commits, and the
 machine may crash between any two block writes, also during recovery.

 A run is a list of steps. `trace` records every log_write since boot of the disk
 image, in order, and is what the durability theorems speak about; a crash drops the
 part of it that had not reached the disk.
 */
module LogProtocol {
  import opened Params
  import opened RedoLog

  /** One log_write of block `bno` with contents `data` by operation `op`. */
  datatype Rec = Rec(op: nat, bno: nat, data: Block)

  /**
   `added` counts the blocks the operation added to the header; `checked` says that it
   is inside log_write, past the panic tests of log.c:218 but not yet holding log.lock.
   */
  datatype Op =
    | Active(added: nat, checked: bool, wrote: seq<Rec>)
    | Ended(wrote: seq<Rec>)
    | Lost(wrote: seq<Rec>)

  /** d0 is the disk when commit or recovery started, k the number of block writes since. */
  datatype Phase =
    | Idle
    | Commit(d0: Disk, k: nat)
    | Recovery(d0: Disk, k: nat)

  datatype State = State(
    disk: Disk,
    phase: Phase,
    lh: seq<nat>,
    cache: map<nat, Block>,
    outstanding: int,
    committing: bool,
    ops: map<nat, Op>,
    trace: seq<Rec>,
    stable: nat,
    base: Disk)

  datatype Step =
    | BeginOp(op: nat)
    | Check(op: nat)
    | Append(op: nat, bno: nat, data: Block)
    | EndOp(op: nat)
    | Advance
    | Crash

  // ---------------------------------------------------------------- definitions

  predicate IsActive(s: State, o: nat) {
    o in s.ops && s.ops[o].Active?
  }

  /** The panic test at the head of log_write. */
  predicate TooBig(cfg: Config, s: State) {
    |s.lh| >= LOGSIZE || |s.lh| >= cfg.size - 1
  }

  ghost predicate Pinned(s: State) {
    forall i :: 0 <= i < |s.lh| ==> s.lh[i] in s.cache
  }

  /** The buffers that write_log copies, in log order. */
  ghost function Data(s: State): (data: seq<Block>)
    requires Pinned(s)
    ensures |data| == |s.lh|
  {
    seq(|s.lh|, i requires 0 <= i < |s.lh| => s.cache[s.lh[i]])
  }

  ghost function Only(t: seq<Rec>, o: nat): (r: seq<Rec>) {
    if t == [] then []
    else
      var last := t[|t| - 1];
      if last.op == o then Only(t[..|t| - 1], o) + [last] else Only(t[..|t| - 1], o)
  }

  ghost predicate HomeTrace(cfg: Config, d: Disk, t: seq<Rec>) {
    forall i :: 0 <= i < |t| ==> t[i].bno < |d| && !InLog(cfg, t[i].bno) && |t[i].data| == WORDS
  }

  /** The disk contents that the log_writes of t describe. */
  ghost function Replay(cfg: Config, d: Disk, t: seq<Rec>): (r: Disk)
    requires HomeTrace(cfg, d, t)
    ensures |r| == |d|
  {
    if t == [] then d
    else
      var last := t[|t| - 1];
      Replay(cfg, d, t[..|t| - 1])[last.bno := last.data]
  }

  /** How much of the trace a crash right now would keep. */
  function Durable(s: State): nat {
    if s.phase.Commit? && s.phase.k > |s.lh| then |s.trace| else s.stable
  }

  // ---------------------------------------------------------------- steps

  /** What bread returns: the buffer of a logged block if there is one, the disk block otherwise. */
  ghost function View(s: State, b: nat): Block
    requires b < |s.disk|
  {
    if b in s.cache then s.cache[b] else s.disk[b]
  }

  /** The block that write_log and install_trans take for slot t, also past the end of the log. */
  function SlotBlock(cfg: Config, t: nat): nat {
    cfg.start + 1 + t
  }

  /**
   Turn t of write_log or install_trans gets both its buffers: a block beyond the disk
   panics (ide.c:78), and a second bread of the same block waits for its own caller.
   */
  predicate Copies(cfg: Config, d: Disk, lh: seq<nat>, t: nat)
    requires t < |lh|
  {
    SlotBlock(cfg, t) < |d| && lh[t] < |d| && SlotBlock(cfg, t) != lh[t]
  }

  predicate HeadFits(cfg: Config, d: Disk, n: nat) {
    cfg.start < |d| && n < |d[cfg.start]|
  }

  ghost predicate CanWrite(cfg: Config, s: State, k: nat) {
    var n := |s.lh|;
    && HeadFits(cfg, s.disk, n) && k <= 2 * n + 1
    && (k < n ==> Copies(cfg, s.disk, s.lh, k)) && (n < k <= 2 * n ==> Copies(cfg, s.disk, s.lh, k - n - 1))
  }

  /** Block write k of commit: the slots, the header, the home blocks, the empty header. */
  ghost function CommitWrite(cfg: Config, s: State, k: nat): (w: Write)
    requires CanWrite(cfg, s, k)
    ensures w.bno < |s.disk|
  {
    var n := |s.lh|;
    if k < n then Write(SlotBlock(cfg, k), View(s, s.lh[k]))
    else if k == n then Write(cfg.start, EncodeHeader(s.disk[cfg.start], s.lh))
    else if k <= 2 * n then Write(s.lh[k - n - 1], View(s, SlotBlock(cfg, k - n - 1)))
    else Write(cfg.start, EncodeHeader(s.disk[cfg.start], []))
  }

  /** Block write k of a recovery that found list lh: the home blocks, then the empty header. */
  ghost predicate CanRedo(cfg: Config, d: Disk, lh: seq<nat>, k: nat) {
    HeadFits(cfg, d, 0) && k <= |lh| && (k < |lh| ==> Copies(cfg, d, lh, k))
  }

  ghost function RedoWrite(cfg: Config, d: Disk, lh: seq<nat>, k: nat): (w: Write)
    requires CanRedo(cfg, d, lh, k)
    ensures w.bno < |d|
  {
    if k < |lh| then Write(lh[k], d[SlotBlock(cfg, k)]) else Write(cfg.start, EncodeHeader(d[cfg.start], []))
  }

  /** write_log's first bread finds no buffer: every one of them is pinned by the log. */
  predicate AllPinned(s: State) {
    s.phase.Commit? && s.phase.k == 0 && |s.lh| >= NBUF
  }

  ghost predicate CanAdvance(cfg: Config, s: State) {
    match s.phase
    case Idle => false
    case Commit(d0, k) =>
      s.lh == [] || k == 2 * |s.lh| + 2 || (CanWrite(cfg, s, k) && !AllPinned(s))
    case Recovery(d0, k) =>
      && cfg.start < |d0| && HeaderOk(d0[cfg.start])
      && var lh := DecodeHeader(d0[cfg.start]); k == |lh| + 1 || CanRedo(cfg, s.disk, lh, k)
  }

  ghost predicate Enabled(cfg: Config, s: State, step: Step) {
    match step
    case BeginOp(o) =>
      && !s.phase.Recovery? && o !in s.ops
      && !s.committing && |s.lh| + (s.outstanding + 1) * MAXOPBLOCKS <= LOGSIZE
    case Check(o) =>
      IsActive(s, o) && !TooBig(cfg, s) && s.outstanding >= 1
    case Append(o, b, data) =>
      && IsActive(s, o) && s.ops[o].checked
      && b < |s.disk| && !InLog(cfg, b) && |data| == WORDS
      && (b in s.lh || s.ops[o].added < MAXOPBLOCKS)
    case EndOp(o) => IsActive(s, o) && !s.committing
    case Advance => CanAdvance(cfg, s)
    case Crash => s.stable <= |s.trace|
  }

  ghost function Survives(s: State, o: nat): bool
    requires o in s.ops && s.stable <= |s.trace|
  {
    s.ops[o].Ended? && Only(s.trace[..Durable(s)], o) == s.ops[o].wrote
  }

  ghost function DoAppend(s: State, o: nat, b: nat, data: Block): State
    requires IsActive(s, o)
  {
    var op := s.ops[o];
    var rec := Rec(o, b, data);
    s.(lh := if b in s.lh then s.lh else s.lh + [b],
       cache := s.cache[b := data],
       ops := s.ops[o := Active(if b in s.lh then op.added else op.added + 1, false, op.wrote + [rec])],
       trace := s.trace + [rec])
  }

  ghost function DoEnd(s: State, o: nat): State
    requires IsActive(s, o)
  {
    var out := s.outstanding - 1;
    var t := s.(outstanding := out, ops := s.ops[o := Ended(s.ops[o].wrote)]);
    if out == 0 then t.(committing := true, phase := Commit(s.disk, 0)) else t
  }

  /** A block write reaches the disk, and the buffer of its block if that has one. */
  ghost function DoWrite(s: State, w: Write, phase: Phase): State
    requires w.bno < |s.disk|
  {
    s.(disk := s.disk[w.bno := w.data],
       cache := if w.bno in s.cache then s.cache[w.bno := w.data] else s.cache,
       phase := phase)
  }

  ghost function DoAdvance(cfg: Config, s: State): State
    requires CanAdvance(cfg, s)
  {
    match s.phase
    case Commit(d0, k) =>
      if s.lh == [] || k == 2 * |s.lh| + 2 then
        s.(phase := Idle, committing := false, lh := [], cache := map[], stable := |s.trace|)
      else DoWrite(s, CommitWrite(cfg, s, k), Commit(d0, k + 1))
    case Recovery(d0, k) =>
      var lh := DecodeHeader(d0[cfg.start]);
      if k == |lh| + 1 then s.(phase := Idle)
      else DoWrite(s, RedoWrite(cfg, s.disk, lh, k), Recovery(d0, k + 1))
  }

  ghost function DoCrash(s: State): State
    requires s.stable <= |s.trace|
  {
    State(s.disk, Recovery(s.disk, 0), [], map[], 0, false,
          map o | o in s.ops :: if Survives(s, o) then s.ops[o] else Lost(s.ops[o].wrote),
          s.trace[..Durable(s)], Durable(s), s.base)
  }

  ghost function Do(cfg: Config, s: State, step: Step): State
    requires Enabled(cfg, s, step)
  {
    match step
    case BeginOp(o) => s.(outstanding := s.outstanding + 1, ops := s.ops[o := Active(0, false, [])])
    case Check(o) => s.(ops := s.ops[o := s.ops[o].(checked := true)])
    case Append(o, b, data) => DoAppend(s, o, b, data)
    case EndOp(o) => DoEnd(s, o)
    case Advance => DoAdvance(cfg, s)
    case Crash => DoCrash(s)
  }

  /** Power-on with any mountable image: recovery is about to run. */
  ghost predicate Init(cfg: Config, s: State) {
    && Mounted(cfg, s.disk)
    && s == State(s.disk, Recovery(s.disk, 0), [], map[], 0, false, map[], [], 0, Recover(cfg, s.disk))
  }

  ghost predicate Legal(cfg: Config, s: State, steps: seq<Step>)
    decreases |steps|
  {
    steps == [] || (Enabled(cfg, s, steps[0]) && Legal(cfg, Do(cfg, s, steps[0]), steps[1..]))
  }

  ghost function Exec(cfg: Config, s: State, steps: seq<Step>): State
    requires Legal(cfg, s, steps)
    decreases |steps|
  {
    if steps == [] then s else Exec(cfg, Do(cfg, s, steps[0]), steps[1..])
  }

  // ---------------------------------------------------------------- sums over operations

  ghost function Sum(ops: map<nat, Op>, f: Op -> nat): nat {
    if ops == map[] then 0
    else
      var o :| o in ops;
      f(ops[o]) + Sum(ops - {o}, f)
  }

  function Unspent(op: Op): nat {
    if op.Active? && op.added <= MAXOPBLOCKS then MAXOPBLOCKS - op.added else 0
  }

  function Running(op: Op): nat {
    if op.Active? then 1 else 0
  }

  lemma {:induction false} SumSplit(ops: map<nat, Op>, f: Op -> nat, o: nat)
    requires o in ops
    ensures Sum(ops, f) == f(ops[o]) + Sum(ops - {o}, f)
    decreases |ops|
  {
    var p :| p in ops && Sum(ops, f) == f(ops[p]) + Sum(ops - {p}, f);
    if p != o {
      SumSplit(ops - {p}, f, o);
      SumSplit(ops - {o}, f, p);
      assert ops - {p} - {o} == ops - {o} - {p};
    }
  }

  lemma SumUpdate(ops: map<nat, Op>, f: Op -> nat, o: nat, op: Op)
    ensures Sum(ops[o := op], f) + (if o in ops then f(ops[o]) else 0) == Sum(ops, f) + f(op)
  {
    var rest := ops - {o};
    assert ops[o := op] - {o} == rest;
    SumSplit(ops[o := op], f, o);
    if o in ops {
      SumSplit(ops, f, o);
    } else {
      assert rest == ops;
    }
  }

  lemma {:induction false} SumZero(ops: map<nat, Op>, f: Op -> nat)
    requires forall o :: o in ops ==> f(ops[o]) == 0
    ensures Sum(ops, f) == 0
    decreases |ops|
  {
    if ops != map[] {
      var o :| o in ops && Sum(ops, f) == f(ops[o]) + Sum(ops - {o}, f);
      SumZero(ops - {o}, f);
    }
  }

  // ---------------------------------------------------------------- reservation

  /** Group commit and log-space reservation: what begin_op and end_op maintain. */
  ghost predicate Reserved(s: State) {
    && s.outstanding == Sum(s.ops, Running)
    && (s.committing <==> s.phase.Commit?)
    && (!s.phase.Idle? ==> s.outstanding == 0)
    && (s.phase.Recovery? ==> s.lh == [])
    && (forall o :: IsActive(s, o) ==> s.ops[o].added <= MAXOPBLOCKS)
    && |s.lh| + Sum(s.ops, Unspent) <= LOGSIZE
    && (forall i, j :: 0 <= i < j < |s.lh| ==> s.lh[i] != s.lh[j])
  }

  lemma ReservedBegin(cfg: Config, s: State, o: nat)
    requires Reserved(s) && Enabled(cfg, s, BeginOp(o))
    ensures Reserved(Do(cfg, s, BeginOp(o)))
  {
    SumUpdate(s.ops, Running, o, Active(0, false, []));
    SumUpdate(s.ops, Unspent, o, Active(0, false, []));
    UnspentBound(s.ops);
  }

  lemma ReservedAppend(s: State, o: nat, b: nat, data: Block)
    requires Reserved(s) && IsActive(s, o) && (b in s.lh || s.ops[o].added < MAXOPBLOCKS)
    ensures Reserved(DoAppend(s, o, b, data))
  {
    var t := DoAppend(s, o, b, data);
    SumUpdate(s.ops, Running, o, t.ops[o]);
    SumUpdate(s.ops, Unspent, o, t.ops[o]);
    SumSplit(s.ops, Running, o);
  }

  lemma ReservedEnd(s: State, o: nat)
    requires Reserved(s) && IsActive(s, o)
    ensures Reserved(DoEnd(s, o))
  {
    var t := DoEnd(s, o);
    SumUpdate(s.ops, Running, o, t.ops[o]);
    SumUpdate(s.ops, Unspent, o, t.ops[o]);
    SumSplit(s.ops, Running, o);
  }

  lemma ReservedStep(cfg: Config, s: State, step: Step)
    requires Reserved(s) && Enabled(cfg, s, step)
    ensures Reserved(Do(cfg, s, step))
  {
    var t := Do(cfg, s, step);
    match step
    case BeginOp(o) => ReservedBegin(cfg, s, o);
    case Check(o) =>
      SumUpdate(s.ops, Running, o, t.ops[o]);
      SumUpdate(s.ops, Unspent, o, t.ops[o]);
    case Append(o, b, data) => ReservedAppend(s, o, b, data);
    case EndOp(o) => ReservedEnd(s, o);
    case Advance =>
    case Crash =>
      SumZero(t.ops, Running);
      SumZero(t.ops, Unspent);
  }

  lemma {:induction false} UnspentBound(ops: map<nat, Op>)
    ensures Sum(ops, Unspent) <= MAXOPBLOCKS * Sum(ops, Running)
    decreases |ops|
  {
    if ops != map[] {
      var o :| o in ops;
      SumSplit(ops, Running, o);
      SumSplit(ops, Unspent, o);
      UnspentBound(ops - {o});
    }
  }

  lemma {:induction false} ReservedRun(cfg: Config, s: State, steps: seq<Step>)
    requires Reserved(s) && Legal(cfg, s, steps)
    ensures Reserved(Exec(cfg, s, steps))
    decreases |steps|
  {
    if steps != [] {
      ReservedStep(cfg, s, steps[0]);
      ReservedRun(cfg, Do(cfg, s, steps[0]), steps[1..]);
    }
  }

  lemma InitReserved(cfg: Config, s: State)
    requires Init(cfg, s)
    ensures Reserved(s)
  {
    SumZero(s.ops, Running);
    SumZero(s.ops, Unspent);
  }

  /**
   In every run: the header never outgrows block[LOGSIZE] and is duplicate-free, the
   header length plus all unspent budgets stays within LOGSIZE, no operation is inside
   begin_op/end_op while the log commits, and end_op never finds log.committing set.
   */
  lemma GroupCommit(cfg: Config, s0: State, steps: seq<Step>)
    requires Init(cfg, s0) && Legal(cfg, s0, steps)
    ensures var s := Exec(cfg, s0, steps);
            && |s.lh| + Sum(s.ops, Unspent) <= LOGSIZE
            && (forall i, j :: 0 <= i < j < |s.lh| ==> s.lh[i] != s.lh[j])
            && (s.committing ==> s.outstanding == 0)
            && (forall o :: IsActive(s, o) ==> s.outstanding >= 1 && !s.committing)
  {
    InitReserved(cfg, s0);
    ReservedRun(cfg, s0, steps);
    var s := Exec(cfg, s0, steps);
    forall o | IsActive(s, o) ensures s.outstanding >= 1 {
      SumSplit(s.ops, Running, o);
    }
  }

  /** A log_write that will add a block has room, whatever the other operations did. */
  lemma FreshHasRoom(s: State, o: nat)
    requires Reserved(s) && IsActive(s, o) && s.ops[o].added < MAXOPBLOCKS
    ensures |s.lh| < LOGSIZE
  {
    SumSplit(s.ops, Unspent, o);
  }

  /** The condition on mkfs's nlog under which a reservation of LOGSIZE blocks is honest. */
  predicate Roomy(cfg: Config) {
    cfg.size - 1 >= LOGSIZE
  }

  lemma NoFreshPanic(cfg: Config, s0: State, steps: seq<Step>, o: nat)
    requires Init(cfg, s0) && Legal(cfg, s0, steps) && Roomy(cfg)
    requires IsActive(Exec(cfg, s0, steps), o) && Exec(cfg, s0, steps).ops[o].added < MAXOPBLOCKS
    ensures !TooBig(cfg, Exec(cfg, s0, steps))
  {
    InitReserved(cfg, s0);
    ReservedRun(cfg, s0, steps);
    FreshHasRoom(Exec(cfg, s0, steps), o);
  }
}
