/**
 How far the reservation of begin_op carries. mkfs makes the log LOGSIZE blocks long
 including its header (mkfs.c:25) while begin_op reserves LOGSIZE data blocks, log_write
 tests for room before it takes log.lock, and NBUF equals LOGSIZE. Which logs can panic a
 well-behaved operation, which can be written past their end, which lose crash atomicity
 and which can leave a commit without a buffer: each exactly, by the number of slots.
 */
module LogLimits {
  import opened Params
  import opened RedoLog
  import opened LogProtocol
  import opened LogDurability

  // ---------------------------------------------------------------- building runs

  lemma {:induction false} ExecMore(cfg: Config, s: State, steps: seq<Step>, step: Step)
    requires Legal(cfg, s, steps) && Enabled(cfg, Exec(cfg, s, steps), step)
    ensures Legal(cfg, s, steps + [step]) && Exec(cfg, s, steps + [step]) == Do(cfg, Exec(cfg, s, steps), step)
    ensures KeepsToLog(cfg, s, steps + [step]) <==> KeepsToLog(cfg, s, steps) && !Strays(cfg, Exec(cfg, s, steps), step)
    decreases |steps|
  {
    if steps == [] {
      assert [step][1..] == [] && steps + [step] == [step];
      assert Legal(cfg, Do(cfg, s, step), []);
    } else {
      ExecMore(cfg, Do(cfg, s, steps[0]), steps[1..], step);
      assert (steps + [step])[1..] == steps[1..] + [step];
    }
  }

  /** Some run that keeps to the log ends in s. */
  ghost predicate Reachable(cfg: Config, s0: State, s: State) {
    exists steps :: Reaches(cfg, s0, steps, s)
  }

  ghost predicate Reaches(cfg: Config, s0: State, steps: seq<Step>, s: State) {
    Legal(cfg, s0, steps) && KeepsToLog(cfg, s0, steps) && Exec(cfg, s0, steps) == s
  }

  lemma Go(cfg: Config, s0: State, s: State, step: Step)
    requires Reachable(cfg, s0, s) && Enabled(cfg, s, step) && !Strays(cfg, s, step)
    ensures Reachable(cfg, s0, Do(cfg, s, step))
  {
    var steps :| Reaches(cfg, s0, steps, s);
    ExecMore(cfg, s0, steps, step);
    assert Reaches(cfg, s0, steps + [step], Do(cfg, s, step));
  }

  lemma ReachableInv(cfg: Config, s0: State, s: State)
    requires Init(cfg, s0) && Reachable(cfg, s0, s)
    ensures Inv(cfg, s)
  {
    var steps :| Reaches(cfg, s0, steps, s);
    InitInv(cfg, s0);
    RunInv(cfg, s0, steps);
  }

  /** Distinct home blocks. */
  ghost predicate HomeBlocks(cfg: Config, d: Disk, blocks: seq<nat>) {
    && (forall i :: 0 <= i < |blocks| ==> blocks[i] < |d| && !InLog(cfg, blocks[i]))
    && (forall i, j :: 0 <= i < j < |blocks| ==> blocks[i] != blocks[j])
  }

  lemma {:induction false} FinishRecovery(cfg: Config, s0: State, s: State) returns (t: State)
    requires Init(cfg, s0) && Reachable(cfg, s0, s) && s.phase.Recovery? && s.cache == map[]
    ensures Reachable(cfg, s0, t) && t == s.(phase := Idle, disk := t.disk) && |t.disk| == |s.disk|
    decreases cfg.size + 1 - (if s.phase.Recovery? then s.phase.k else 0)
  {
    ReachableInv(cfg, s0, s);
    RecoverInv(cfg, s);
    Go(cfg, s0, s, Advance);
    t := Do(cfg, s, Advance);
    if t.phase.Recovery? {
      t := FinishRecovery(cfg, s0, t);
    }
  }

  /** Operation i's part of the first m log_writes when three operations take turns. */
  function Share(i: nat, m: nat): nat
    requires i < 3
  {
    (m + 2 - i) / 3
  }

  /** Three operations have logged the first m blocks, with the same contents for all. */
  ghost predicate Filled(s: State, blocks: seq<nat>, m: nat, data: Block) {
    && m <= |blocks| && |data| == WORDS
    && s.phase.Idle? && !s.committing && s.outstanding == 3
    && s.lh == blocks[..m]
    && (forall i :: 0 <= i < m ==> blocks[i] in s.cache && s.cache[blocks[i]] == data)
    && (forall i :: 0 <= i < |s.trace| ==> s.trace[i].bno in blocks)
    && forall i :: 0 <= i < 3 ==> IsActive(s, i) && s.ops[i].added == Share(i, m)
  }

  lemma StartThree(cfg: Config, s0: State, blocks: seq<nat>, data: Block) returns (t: State)
    requires Init(cfg, s0) && |data| == WORDS
    ensures Reachable(cfg, s0, t) && Filled(t, blocks, 0, data) && |t.disk| == |s0.disk| && t.base == s0.base
  {
    assert Reaches(cfg, s0, [], s0);
    t := FinishRecovery(cfg, s0, s0);
    Go(cfg, s0, t, BeginOp(0));
    t := Do(cfg, t, BeginOp(0));
    Go(cfg, s0, t, BeginOp(1));
    t := Do(cfg, t, BeginOp(1));
    Go(cfg, s0, t, BeginOp(2));
    t := Do(cfg, t, BeginOp(2));
    assert blocks[..0] == [];
  }

  /** Operation o is past log_write's test. */
  predicate Tested(s: State, o: nat) {
    IsActive(s, o) && s.ops[o].checked
  }

  /** So are the next c operations in turn. */
  predicate Ready(s: State, m: nat, c: nat) {
    (c >= 1 ==> Tested(s, m % 3)) && (c >= 2 ==> Tested(s, (m + 1) % 3)) && (c >= 3 ==> Tested(s, (m + 2) % 3))
  }

  lemma CheckOne(cfg: Config, s0: State, s: State, blocks: seq<nat>, m: nat, data: Block, o: nat) returns (t: State)
    requires Reachable(cfg, s0, s) && Filled(s, blocks, m, data) && m < LOGSIZE && m < cfg.size - 1 && o < 3
    ensures Reachable(cfg, s0, t) && Filled(t, blocks, m, data) && t == s.(ops := t.ops)
    ensures Tested(t, o) && forall p :: Tested(s, p) ==> Tested(t, p)
  {
    assert IsActive(s, o);
    Go(cfg, s0, s, Check(o));
    t := Do(cfg, s, Check(o));
  }

  lemma AppendOne(cfg: Config, s0: State, s: State, blocks: seq<nat>, m: nat, data: Block, o: nat) returns (t: State)
    requires Reachable(cfg, s0, s) && Filled(s, blocks, m, data) && HomeBlocks(cfg, s.disk, blocks)
    requires m < LOGSIZE && m < |blocks| && o == m % 3 && Tested(s, o)
    ensures Reachable(cfg, s0, t) && Filled(t, blocks, m + 1, data) && t.disk == s.disk && t.base == s.base
    ensures forall p :: Tested(s, p) && p != o ==> Tested(t, p)
  {
    assert blocks[m] !in s.lh;
    Go(cfg, s0, s, Append(o, blocks[m], data));
    t := Do(cfg, s, Append(o, blocks[m], data));
    assert t.lh == blocks[..m + 1];
  }

  lemma CheckAll(cfg: Config, s0: State, s: State, blocks: seq<nat>, m: nat, data: Block) returns (t: State)
    requires Reachable(cfg, s0, s) && Filled(s, blocks, m, data) && m < LOGSIZE && m < cfg.size - 1
    ensures Reachable(cfg, s0, t) && Filled(t, blocks, m, data) && t == s.(ops := t.ops) && Ready(t, m, 3)
  {
    t := CheckOne(cfg, s0, s, blocks, m, data, 0);
    t := CheckOne(cfg, s0, t, blocks, m, data, 1);
    t := CheckOne(cfg, s0, t, blocks, m, data, 2);
  }

  lemma {:induction false} AppendMany(cfg: Config, s0: State, s: State, blocks: seq<nat>, m: nat, data: Block, c: nat)
    returns (t: State)
    requires Reachable(cfg, s0, s) && Filled(s, blocks, m, data) && HomeBlocks(cfg, s.disk, blocks) && Ready(s, m, c)
    requires c <= 3 && m + c <= LOGSIZE && m + c <= |blocks|
    ensures Reachable(cfg, s0, t) && Filled(t, blocks, m + c, data) && t.disk == s.disk && t.base == s.base
    decreases c
  {
    t := s;
    if c > 0 {
      t := AppendOne(cfg, s0, s, blocks, m, data, m % 3);
      t := AppendMany(cfg, s0, t, blocks, m + 1, data, c - 1);
    }
  }

  /** All operations pass the test for room before c of them append. */
  lemma Burst(cfg: Config, s0: State, s: State, blocks: seq<nat>, m: nat, data: Block, c: nat) returns (t: State)
    requires Reachable(cfg, s0, s) && Filled(s, blocks, m, data) && HomeBlocks(cfg, s.disk, blocks)
    requires c <= 3 && m < cfg.size - 1 && m < LOGSIZE && m + c <= LOGSIZE && m + c <= |blocks|
    ensures Reachable(cfg, s0, t) && Filled(t, blocks, m + c, data) && t.disk == s.disk && t.base == s.base
  {
    t := CheckAll(cfg, s0, s, blocks, m, data);
    t := AppendMany(cfg, s0, t, blocks, m, data, c);
  }

  /** m blocks are logged, one after the other. */
  lemma Fill(cfg: Config, s0: State, blocks: seq<nat>, m: nat, data: Block) returns (t: State)
    requires Init(cfg, s0) && HomeBlocks(cfg, s0.disk, blocks) && |data| == WORDS
    requires m <= LOGSIZE && m <= cfg.size - 1 && m <= |blocks|
    ensures Reachable(cfg, s0, t) && Filled(t, blocks, m, data) && |t.disk| == |s0.disk| && t.base == s0.base
  {
    t := StartThree(cfg, s0, blocks, data);
    var i := 0;
    while i < m
      invariant i <= m && Reachable(cfg, s0, t) && Filled(t, blocks, i, data)
      invariant |t.disk| == |s0.disk| && t.base == s0.base
    {
      t := Burst(cfg, s0, t, blocks, i, data, 1);
      i := i + 1;
    }
  }

  /** m blocks are logged, the last c of them by operations that race for the same room. */
  lemma Overfill(cfg: Config, s0: State, blocks: seq<nat>, m: nat, data: Block, c: nat) returns (t: State)
    requires Init(cfg, s0) && HomeBlocks(cfg, s0.disk, blocks) && |data| == WORDS
    requires c <= 3 && c <= m <= LOGSIZE && m - c < cfg.size - 1 && m - c < LOGSIZE && m <= |blocks|
    ensures Reachable(cfg, s0, t) && Filled(t, blocks, m, data) && |t.disk| == |s0.disk| && t.base == s0.base
  {
    t := Fill(cfg, s0, blocks, m - c, data);
    t := Burst(cfg, s0, t, blocks, m - c, data, c);
  }

  /** The three operations end one after the other; the last one starts the commit. */
  lemma EndThree(cfg: Config, s0: State, s: State, blocks: seq<nat>, m: nat, data: Block) returns (t: State)
    requires Reachable(cfg, s0, s) && Filled(s, blocks, m, data)
    ensures Reachable(cfg, s0, t)
    ensures t == s.(phase := Commit(s.disk, 0), committing := true, outstanding := 0, ops := t.ops)
  {
    assert IsActive(s, 0) && IsActive(s, 1) && IsActive(s, 2);
    Go(cfg, s0, s, EndOp(0));
    t := Do(cfg, s, EndOp(0));
    Go(cfg, s0, t, EndOp(1));
    t := Do(cfg, t, EndOp(1));
    Go(cfg, s0, t, EndOp(2));
    t := Do(cfg, t, EndOp(2));
  }

  const ZERO: Block := seq(WORDS, i => 0)

  // ---------------------------------------------------------------- panics of log_write

  /** A log_write that panics although its operation has budget left. */
  ghost predicate UnfairPanic(cfg: Config, s0: State, steps: seq<Step>, o: nat) {
    && Legal(cfg, s0, steps)
    && IsActive(Exec(cfg, s0, steps), o)
    && Exec(cfg, s0, steps).ops[o].added < MAXOPBLOCKS
    && TooBig(cfg, Exec(cfg, s0, steps))
  }

  /**
   An operation within its budget of MAXOPBLOCKS can never be panicked by log_write if
   and only if the log region has LOGSIZE data slots. A log made by mkfs has one less.
   */
  lemma ReservationHonestIffRoomy(cfg: Config, s0: State, blocks: seq<nat>)
    requires Init(cfg, s0) && HomeBlocks(cfg, s0.disk, blocks) && |blocks| >= LOGSIZE
    ensures (forall steps, o :: !UnfairPanic(cfg, s0, steps, o)) <==> Roomy(cfg)
  {
    if Roomy(cfg) {
      forall steps, o ensures !UnfairPanic(cfg, s0, steps, o) {
        if UnfairPanic(cfg, s0, steps, o) {
          NoFreshPanic(cfg, s0, steps, o);
        }
      }
    } else {
      var m := cfg.size - 1;
      var t := Fill(cfg, s0, blocks, m, ZERO);
      var steps :| Reaches(cfg, s0, steps, t);
      assert UnfairPanic(cfg, s0, steps, m % 3);
    }
  }

  /**
   The test of log.c:218 runs before the absorption search: however large the log, an
   operation that only rewrites a block already in the header can still be panicked once
   all budgets are spent.
   */
  lemma AbsorbedWriteCanPanic(cfg: Config, s0: State, blocks: seq<nat>) returns (steps: seq<Step>)
    requires Init(cfg, s0) && HomeBlocks(cfg, s0.disk, blocks) && |blocks| == LOGSIZE && Roomy(cfg)
    ensures Legal(cfg, s0, steps)
    ensures var s := Exec(cfg, s0, steps);
            IsActive(s, 0) && blocks[0] in s.lh && TooBig(cfg, s)
  {
    var t := Fill(cfg, s0, blocks, LOGSIZE, ZERO);
    steps :| Reaches(cfg, s0, steps, t);
    assert blocks[..LOGSIZE] == blocks;
  }

  // ---------------------------------------------------------------- lists too long for the log

  function Waiting(op: Op): nat {
    if op.Active? && op.checked then 1 else 0
  }

  /** At most three operations run, so at most two can find room that others have just used up. */
  ghost predicate Crowded(cfg: Config, s: State) {
    s.outstanding <= 3 && |s.lh| + Sum(s.ops, Waiting) <= cfg.size + 1
  }

  lemma {:induction false} WaitingBound(ops: map<nat, Op>)
    ensures Sum(ops, Waiting) <= Sum(ops, Running)
    decreases |ops|
  {
    if ops != map[] {
      var o :| o in ops;
      SumSplit(ops, Waiting, o);
      SumSplit(ops, Running, o);
      WaitingBound(ops - {o});
    }
  }

  lemma CrowdedStep(cfg: Config, s: State, step: Step)
    requires Reserved(s) && Crowded(cfg, s) && Enabled(cfg, s, step)
    ensures Crowded(cfg, Do(cfg, s, step))
  {
    var t := Do(cfg, s, step);
    if step.Crash? {
      SumZero(t.ops, Waiting);
    } else if !step.Advance? {
      SumUpdate(s.ops, Waiting, step.op, t.ops[step.op]);
      if step.Check? {
        SumUpdate(s.ops, Running, step.op, t.ops[step.op]);
        WaitingBound(t.ops);
      }
    }
  }

  lemma {:induction false} CrowdedRun(cfg: Config, s: State, steps: seq<Step>)
    requires Reserved(s) && Crowded(cfg, s) && Legal(cfg, s, steps)
    ensures Crowded(cfg, Exec(cfg, s, steps))
    decreases |steps|
  {
    if steps != [] {
      CrowdedStep(cfg, s, steps[0]);
      ReservedStep(cfg, s, steps[0]);
      CrowdedRun(cfg, Do(cfg, s, steps[0]), steps[1..]);
    }
  }

  /** In every run the list is at most two longer than the log has slots. */
  lemma OverrunAtMostTwo(cfg: Config, s0: State, steps: seq<Step>)
    requires Init(cfg, s0) && Legal(cfg, s0, steps)
    ensures |Exec(cfg, s0, steps).lh| <= cfg.size + 1
  {
    InitReserved(cfg, s0);
    SumZero(s0.ops, Waiting);
    CrowdedRun(cfg, s0, steps);
  }

  /** Some interleaving logs more blocks than the log has slots for. */
  ghost predicate Overruns(cfg: Config, s0: State, steps: seq<Step>) {
    Legal(cfg, s0, steps) && !InRegion(cfg, Exec(cfg, s0, steps))
  }

  lemma {:induction false} ShutRun(cfg: Config, s: State, steps: seq<Step>)
    requires cfg.size == 1 && Shut(s) && Legal(cfg, s, steps)
    ensures Shut(Exec(cfg, s, steps))
    decreases |steps|
  {
    if steps != [] {
      ShutStep(cfg, s, steps[0]);
      ShutRun(cfg, Do(cfg, s, steps[0]), steps[1..]);
    }
  }

  /**
   Because the test for room runs before log.lock is taken, racing operations that all
   stay within budget can make the list in memory longer than the log, exactly when the log
   has at least one but fewer than LOGSIZE data slots.
   */
  lemma OverrunIffCramped(cfg: Config, s0: State, blocks: seq<nat>)
    requires Init(cfg, s0) && HomeBlocks(cfg, s0.disk, blocks) && |blocks| >= LOGSIZE
    ensures (exists steps :: Overruns(cfg, s0, steps)) <==> 1 <= cfg.size - 1 < LOGSIZE
  {
    InitReserved(cfg, s0);
    if 1 <= cfg.size - 1 < LOGSIZE {
      var t := Overfill(cfg, s0, blocks, cfg.size, ZERO, 2);
      var steps :| Reaches(cfg, s0, steps, t);
      assert Overruns(cfg, s0, steps);
    } else {
      forall steps ensures !Overruns(cfg, s0, steps) {
        if Legal(cfg, s0, steps) {
          ReservedRun(cfg, s0, steps);
          if cfg.size == 1 {
            ShutRun(cfg, s0, steps);
          }
        }
      }
    }
  }

  // ---------------------------------------------------------------- commits without a buffer

  /** The run ends in a commit that finds every buffer pinned and goes no further. */
  ghost predicate Sticks(cfg: Config, s0: State, steps: seq<Step>) {
    Legal(cfg, s0, steps) && AllPinned(Exec(cfg, s0, steps)) && !Enabled(cfg, Exec(cfg, s0, steps), Advance)
  }

  /** NBUF equals LOGSIZE: some commit finds every buffer pinned, exactly from LOGSIZE - 2 slots on. */
  lemma CommitSticksIffLong(cfg: Config, s0: State, blocks: seq<nat>)
    requires Init(cfg, s0) && HomeBlocks(cfg, s0.disk, blocks) && |blocks| >= LOGSIZE
    ensures (exists steps :: Sticks(cfg, s0, steps)) <==> cfg.size - 1 >= LOGSIZE - 2
  {
    if cfg.size - 1 >= LOGSIZE - 2 {
      var t := Overfill(cfg, s0, blocks, LOGSIZE, ZERO, 3);
      t := EndThree(cfg, s0, t, blocks, LOGSIZE, ZERO);
      var steps :| Reaches(cfg, s0, steps, t);
      assert Sticks(cfg, s0, steps);
    } else {
      forall steps ensures !Sticks(cfg, s0, steps) {
        if Legal(cfg, s0, steps) {
          OverrunAtMostTwo(cfg, s0, steps);
        }
      }
    }
  }

  // ---------------------------------------------------------------- writes past the end of the log

  /** A commit with too long a list fills every slot of the log. */
  lemma {:induction false} FillSlots(cfg: Config, s0: State, s: State) returns (t: State)
    requires Init(cfg, s0) && Reachable(cfg, s0, s) && s.phase.Commit? && !InRegion(cfg, s) && |s.lh| < NBUF
    requires s.phase.k <= cfg.size - 1
    ensures Reachable(cfg, s0, t) && t == s.(phase := Commit(s.phase.d0, cfg.size - 1), disk := t.disk)
            && |t.disk| == |s.disk|
    decreases cfg.size - (if s.phase.Commit? then s.phase.k else 0)
  {
    t := s;
    if s.phase.k < cfg.size - 1 {
      ReachableInv(cfg, s0, s);
      SlotWriteInv(cfg, s);
      Go(cfg, s0, s, Advance);
      t := Do(cfg, s, Advance);
      assert SlotBlock(cfg, s.phase.k) !in s.cache;
      t := FillSlots(cfg, s0, t);
    }
  }

  /** The first block behind the log. */
  function Behind(cfg: Config): nat {
    cfg.start + cfg.size
  }

  lemma Without(cfg: Config, d: Disk, blocks: seq<nat>, x: nat) returns (rest: seq<nat>)
    requires HomeBlocks(cfg, d, blocks)
    ensures HomeBlocks(cfg, d, rest) && x !in rest && |rest| >= |blocks| - 1
  {
    if x in blocks {
      var i :| 0 <= i < |blocks| && blocks[i] == x;
      rest := blocks[..i] + blocks[i + 1..];
    } else {
      rest := blocks;
    }
  }

  /** Commit writes the block behind the log next, with contents that are not its own. */
  ghost predicate AtTheEdge(cfg: Config, s: State, data: Block) {
    && s.phase.Commit? && s.phase.k == cfg.size - 1 < |s.lh| < NBUF && Copies(cfg, s.disk, s.lh, s.phase.k)
    && View(s, s.lh[s.phase.k]) == data && |data| == WORDS
    && forall i :: 0 <= i < |s.trace| ==> s.trace[i].bno != Behind(cfg)
  }

  lemma ToTheEdge(cfg: Config, s0: State, blocks: seq<nat>, data: Block) returns (t: State)
    requires Init(cfg, s0) && HomeBlocks(cfg, s0.disk, blocks) && |blocks| >= LOGSIZE - 1 && Behind(cfg) !in blocks
    requires !Sheltered(cfg, s0.disk) && |data| == WORDS
    ensures Reachable(cfg, s0, t) && AtTheEdge(cfg, t, data) && |t.disk| == |s0.disk| && t.base == s0.base
  {
    var n := cfg.size;
    var a := Overfill(cfg, s0, blocks, n, data, 2);
    var b := EndThree(cfg, s0, a, blocks, n, data);
    t := FillSlots(cfg, s0, b);
    assert t.lh[n - 1] == blocks[n - 1] && blocks[n - 1] in blocks;
    forall i | 0 <= i < |t.trace| ensures t.trace[i].bno != Behind(cfg) {
      assert a.trace[i].bno in blocks;
    }
  }

  /** The next step of the run writes past the end of the log. */
  ghost predicate StrayRun(cfg: Config, s0: State, steps: seq<Step>) {
    && Legal(cfg, s0, steps) && Enabled(cfg, Exec(cfg, s0, steps), Advance)
    && Strays(cfg, Exec(cfg, s0, steps), Advance)
  }

  /** At the edge the write goes out, to a block outside the log. */
  lemma OverTheEdge(cfg: Config, s: State, data: Block)
    requires Inv(cfg, s) && AtTheEdge(cfg, s, data)
    ensures Enabled(cfg, s, Advance) && Strays(cfg, s, Advance) && !InLog(cfg, Behind(cfg))
    ensures Behind(cfg) < |s.disk| && Do(cfg, s, Advance).disk == s.disk[Behind(cfg) := data]
  {
    StuckIffAllPinned(cfg, s);
  }

  lemma {:induction false} ReplayElsewhere(cfg: Config, d: Disk, t: seq<Rec>, x: nat)
    requires HomeTrace(cfg, d, t) && x < |d| && forall i :: 0 <= i < |t| ==> t[i].bno != x
    ensures Replay(cfg, d, t)[x] == d[x]
  {
    if t != [] {
      ReplayElsewhere(cfg, d, t[..|t| - 1], x);
    }
  }

  /** If the machine crashed now, recovery would give a prefix of the logged writes made of whole ended operations. */
  ghost predicate Atomic(cfg: Config, s: State) {
    exists j: nat :: RecoversPrefix(cfg, s, j)
  }

  /** A block behind the log that holds what nobody logged for it. */
  lemma Torn(cfg: Config, s: State, x: nat)
    requires ValidDisk(cfg, s.disk) && Mounted(cfg, s.disk) && Header(cfg, s.disk) == [] && |s.base| == |s.disk|
    requires x < |s.disk| && !InLog(cfg, x) && s.disk[x] != s.base[x]
             && forall i :: 0 <= i < |s.trace| ==> s.trace[i].bno != x
    ensures !Atomic(cfg, s)
  {
    RecoverHome(cfg, s.disk);
    assert HomeWrites([], Slots(cfg, s.disk, 0)) == [];
    assert Recover(cfg, s.disk)[x] == s.disk[x];
    if HomeTrace(cfg, s.base, s.trace) {
      forall j: nat | j <= |s.trace| ensures !RecoversPrefix(cfg, s, j) {
        ReplayElsewhere(cfg, s.base, s.trace[..j], x);
      }
    }
  }

  /** Once the write is out no prefix of what was logged explains the disk. */
  lemma EdgeTears(cfg: Config, s: State, data: Block)
    requires Inv(cfg, s) && AtTheEdge(cfg, s, data) && Behind(cfg) < |s.base| && data != s.base[Behind(cfg)]
    ensures Enabled(cfg, s, Advance) && !Atomic(cfg, Do(cfg, s, Advance))
  {
    OverTheEdge(cfg, s, data);
    var t := Do(cfg, s, Advance);
    assert Mounted(cfg, t.disk) && Header(cfg, t.disk) == [];
    Torn(cfg, t, Behind(cfg));
  }

  /** Some contents other than b. */
  lemma Other(b: Block) returns (data: Block)
    requires |b| == WORDS
    ensures |data| == WORDS && data != b
  {
    data := seq(WORDS, _ => b[0] + 1);
    assert data[0] != b[0];
  }

  /** A run of an exposed log up to the write of the block behind it. */
  lemma Edge(cfg: Config, s0: State, blocks: seq<nat>) returns (t: State, data: Block)
    requires Init(cfg, s0) && HomeBlocks(cfg, s0.disk, blocks) && |blocks| >= LOGSIZE && !Sheltered(cfg, s0.disk)
    ensures Reachable(cfg, s0, t) && Inv(cfg, t) && AtTheEdge(cfg, t, data)
    ensures Behind(cfg) < |t.base| && data != t.base[Behind(cfg)]
  {
    InitInv(cfg, s0);
    data := Other(s0.base[Behind(cfg)]);
    var rest := Without(cfg, s0.disk, blocks, Behind(cfg));
    t := ToTheEdge(cfg, s0, rest, data);
    ReachableInv(cfg, s0, t);
  }

  /**
   Some run writes past the end of the log, over a home block, if and only if the log has at
   least one and at most NBUF - 2 data slots and is not at the end of the disk.
   */
  lemma StraysIffExposed(cfg: Config, s0: State, blocks: seq<nat>)
    requires Init(cfg, s0) && HomeBlocks(cfg, s0.disk, blocks) && |blocks| >= LOGSIZE
    ensures (exists steps :: StrayRun(cfg, s0, steps)) <==> !Sheltered(cfg, s0.disk)
  {
    if Sheltered(cfg, s0.disk) {
      forall steps ensures !StrayRun(cfg, s0, steps) {
        if Legal(cfg, s0, steps) {
          ShelteredNeverStrays(cfg, s0, steps);
        }
      }
    } else {
      var t, data := Edge(cfg, s0, blocks);
      OverTheEdge(cfg, t, data);
      var steps :| Reaches(cfg, s0, steps, t);
      assert StrayRun(cfg, s0, steps);
    }
  }

  lemma ShelteredNeverStrays(cfg: Config, s0: State, steps: seq<Step>)
    requires Init(cfg, s0) && Legal(cfg, s0, steps) && Sheltered(cfg, s0.disk)
    ensures !StrayRun(cfg, s0, steps)
  {
    if Enabled(cfg, Exec(cfg, s0, steps), Advance) {
      ExecMore(cfg, s0, steps, Advance);
      InitInv(cfg, s0);
      ShelteredKeeps(cfg, s0, steps + [Advance]);
    }
  }

  /**
   Crash atomicity, exactly: after every run, a crash leaves what recovery turns into whole
   operations, if and only if the log is sheltered.
   */
  lemma AtomicIffSheltered(cfg: Config, s0: State, blocks: seq<nat>)
    requires Init(cfg, s0) && HomeBlocks(cfg, s0.disk, blocks) && |blocks| >= LOGSIZE
    ensures (forall steps :: Legal(cfg, s0, steps) ==> Atomic(cfg, Exec(cfg, s0, steps))) <==> Sheltered(cfg, s0.disk)
  {
    if Sheltered(cfg, s0.disk) {
      forall steps | Legal(cfg, s0, steps) ensures Atomic(cfg, Exec(cfg, s0, steps)) {
        ShelteredLogIsAtomic(cfg, s0, steps);
        assert RecoversPrefix(cfg, Exec(cfg, s0, steps), Durable(Exec(cfg, s0, steps)));
      }
    } else {
      var steps := Tear(cfg, s0, blocks);
    }
  }

  /** A run of an exposed log after which a crash loses atomicity. */
  lemma Tear(cfg: Config, s0: State, blocks: seq<nat>) returns (steps: seq<Step>)
    requires Init(cfg, s0) && HomeBlocks(cfg, s0.disk, blocks) && |blocks| >= LOGSIZE && !Sheltered(cfg, s0.disk)
    ensures Legal(cfg, s0, steps) && !Atomic(cfg, Exec(cfg, s0, steps))
  {
    var t, data := Edge(cfg, s0, blocks);
    EdgeTears(cfg, t, data);
    var front :| Reaches(cfg, s0, front, t);
    ExecMore(cfg, s0, front, Advance);
    steps := front + [Advance];
  }

  /**
   The log that mkfs makes has LOGSIZE - 1 slots. It can panic an operation within its
   budget and leave a commit without a buffer, but no run writes past its end or loses
   crash atomicity.
   */
  lemma MkfsLog(start: nat, s0: State, blocks: seq<nat>)
    requires Init(Config(start, LOGSIZE), s0) && HomeBlocks(Config(start, LOGSIZE), s0.disk, blocks)
             && |blocks| >= LOGSIZE
    ensures var cfg := Config(start, LOGSIZE);
            && (exists steps, o :: UnfairPanic(cfg, s0, steps, o)) && (exists steps :: Sticks(cfg, s0, steps))
            && (forall steps :: !StrayRun(cfg, s0, steps))
            && forall steps :: Legal(cfg, s0, steps) ==> Atomic(cfg, Exec(cfg, s0, steps))
  {
    var cfg := Config(start, LOGSIZE);
    ReservationHonestIffRoomy(cfg, s0, blocks);
    CommitSticksIffLong(cfg, s0, blocks);
    StraysIffExposed(cfg, s0, blocks);
    AtomicIffSheltered(cfg, s0, blocks);
  }

  /** An empty disk of FSSIZE blocks with a log of ten slots, and a run that loses atomicity on it. */
  lemma ShortLogTears() returns (s0: State, steps: seq<Step>)
    ensures |s0.disk| == 1000 && Init(Config(2, 11), s0)
    ensures Legal(Config(2, 11), s0, steps) && !Atomic(Config(2, 11), Exec(Config(2, 11), s0, steps))
  {
    var cfg, d := Config(2, 11), seq(1000, _ => ZERO);
    assert DecodeHeader(d[2]) == [];
    s0 := State(d, Recovery(d, 0), [], map[], 0, false, map[], [], 0, Recover(cfg, d));
    steps := Tear(cfg, s0, seq(LOGSIZE, i => 100 + i));
  }
}
