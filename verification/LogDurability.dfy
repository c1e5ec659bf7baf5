/**
 What the disk holds in every reachable state of the log protocol: recovery yields the
 effect of a prefix of whole operations, and committed operations stay, as long as no
 commit has written past the end of the log. LogLimits says which logs that can happen to.
 */
module LogDurability {
  import opened Params
  import opened RedoLog
  import opened LogProtocol

  // ---------------------------------------------------------------- traces

  lemma OnlyAppend(t: seq<Rec>, r: Rec, o: nat)
    ensures Only(t + [r], o) == if r.op == o then Only(t, o) + [r] else Only(t, o)
  {
    assert (t + [r])[..|t|] == t;
  }

  lemma ReplayAppend(cfg: Config, d: Disk, t: seq<Rec>, r: Rec)
    requires HomeTrace(cfg, d, t) && HomeTrace(cfg, d, [r])
    ensures r.bno < |d| && HomeTrace(cfg, d, t + [r])
    ensures Replay(cfg, d, t + [r]) == Replay(cfg, d, t)[r.bno := r.data]
  {
    assert [r][0] == r;
    assert (t + [r])[..|t|] == t;
  }

  // ---------------------------------------------------------------- invariant

  /** No operation is split across the durable boundary. */
  ghost predicate WholeOps(s: State, k: nat)
    requires k <= |s.trace|
  {
    forall o ::
      var part := Only(s.trace[..k], o);
      part == [] || (o in s.ops && s.ops[o].Ended? && part == s.ops[o].wrote)
  }

  /** The trace holds all the writes of every operation that has not been lost. */
  ghost predicate TraceMatchesOps(s: State) {
    forall o ::
      Only(s.trace, o) == if o in s.ops && !s.ops[o].Lost? then s.ops[o].wrote else []
  }

  /** The pinned buffers are exactly the header's blocks and hold the last logged data. */
  ghost predicate CacheOk(cfg: Config, s: State)
    requires HomeTrace(cfg, s.base, s.trace) && s.stable <= |s.trace|
  {
    && (forall b :: b in s.cache <==> b in s.lh)
    && (forall b :: b in s.lh ==>
         b < |s.base| && !InLog(cfg, b) && |s.cache[b]| == WORDS
         && s.cache[b] == Replay(cfg, s.base, s.trace)[b])
    && (forall b :: 0 <= b < |s.base| && b !in s.lh ==>
         Replay(cfg, s.base, s.trace)[b] == Replay(cfg, s.base, s.trace[..s.stable])[b])
  }

  /** Every logged block has a slot inside the log region. */
  predicate InRegion(cfg: Config, s: State) {
    |s.lh| <= cfg.size - 1
  }

  /** A commit that has more blocks than the log has slots has filled some of the slots so far. */
  ghost predicate DiskOk(cfg: Config, s: State)
    requires HomeTrace(cfg, s.base, s.trace) && s.stable <= |s.trace|
  {
    var settled := Replay(cfg, s.base, s.trace[..s.stable]);
    match s.phase
    case Idle =>
      Mounted(cfg, s.disk) && Header(cfg, s.disk) == [] && SameHome(cfg, s.disk, settled)
    case Commit(d0, k) =>
      && Mounted(cfg, d0) && Header(cfg, d0) == [] && SameHome(cfg, d0, settled)
      && (s.lh == [] ==> s.disk == d0 && k == 0) && (|s.lh| >= NBUF ==> k == 0)
      && (s.lh != [] && InRegion(cfg, s) ==>
           && Pinned(s) && Committable(cfg, d0, s.lh, Data(s)) && k <= 2 * |s.lh| + 2
           && s.disk == CommitDisk(cfg, d0, s.lh, Data(s), k))
      && (!InRegion(cfg, s) ==>
           k <= cfg.size - 1 && Mounted(cfg, s.disk) && Header(cfg, s.disk) == [] && SameHome(cfg, s.disk, settled))
    case Recovery(d0, k) =>
      && s.stable == |s.trace|
      && Mounted(cfg, d0) && k <= |RecoveryWrites(cfg, d0)|
      && s.disk == Apply(d0, RecoveryWrites(cfg, d0)[..k])
      && SameHome(cfg, Recover(cfg, d0), settled)
  }

  ghost predicate Inv(cfg: Config, s: State) {
    && ValidDisk(cfg, s.base) && |s.disk| == |s.base|
    && Reserved(s)
    && HomeTrace(cfg, s.base, s.trace) && s.stable <= |s.trace|
    && TraceMatchesOps(s) && WholeOps(s, s.stable)
    && CacheOk(cfg, s) && DiskOk(cfg, s)
  }

  lemma InitInv(cfg: Config, s: State)
    requires Init(cfg, s)
    ensures Inv(cfg, s)
  {
    InitReserved(cfg, s);
    RecoverHome(cfg, s.disk);
    assert RecoveryWrites(cfg, s.disk)[..0] == [];
  }

  // ---------------------------------------------------------------- steps

  lemma AppendTrace(s: State, o: nat, b: nat, data: Block)
    requires IsActive(s, o) && s.stable <= |s.trace| && TraceMatchesOps(s) && WholeOps(s, s.stable)
    ensures TraceMatchesOps(DoAppend(s, o, b, data)) && WholeOps(DoAppend(s, o, b, data), s.stable)
  {
    var t := DoAppend(s, o, b, data);
    assert t.trace[..t.stable] == s.trace[..s.stable];
    forall p ensures Only(t.trace, p) == if p in t.ops && !t.ops[p].Lost? then t.ops[p].wrote else [] {
      OnlyAppend(s.trace, Rec(o, b, data), p);
    }
  }

  lemma AppendCache(cfg: Config, s: State, o: nat, b: nat, data: Block)
    requires IsActive(s, o) && HomeTrace(cfg, s.base, s.trace) && s.stable <= |s.trace|
    requires b < |s.base| && !InLog(cfg, b) && |data| == WORDS
    requires CacheOk(cfg, s)
    ensures HomeTrace(cfg, s.base, s.trace + [Rec(o, b, data)])
    ensures CacheOk(cfg, DoAppend(s, o, b, data))
  {
    var t := DoAppend(s, o, b, data);
    assert t.trace[..t.stable] == s.trace[..s.stable];
    ReplayAppend(cfg, s.base, s.trace, Rec(o, b, data));
    assert forall x :: x in t.lh <==> x == b || x in s.lh;
  }

  lemma AppendDisk(cfg: Config, s: State, o: nat, b: nat, data: Block)
    requires IsActive(s, o) && s.phase.Idle? && s.stable <= |s.trace|
    requires HomeTrace(cfg, s.base, s.trace) && HomeTrace(cfg, s.base, s.trace + [Rec(o, b, data)])
    requires DiskOk(cfg, s)
    ensures DiskOk(cfg, DoAppend(s, o, b, data))
  {
    var t := DoAppend(s, o, b, data);
    assert t.trace[..t.stable] == s.trace[..s.stable];
  }

  lemma AppendInv(cfg: Config, s: State, o: nat, b: nat, data: Block)
    requires Inv(cfg, s) && Enabled(cfg, s, Append(o, b, data))
    ensures Inv(cfg, DoAppend(s, o, b, data))
  {
    ReservedAppend(s, o, b, data);
    AppendTrace(s, o, b, data);
    AppendCache(cfg, s, o, b, data);
    assert s.phase.Idle? by {
      SumSplit(s.ops, Running, o);
    }
    AppendDisk(cfg, s, o, b, data);
  }

  lemma CommittableNow(cfg: Config, s: State)
    requires Inv(cfg, s) && s.phase.Idle? && InRegion(cfg, s)
    ensures Pinned(s) && Committable(cfg, s.disk, s.lh, Data(s))
  {
    assert forall i :: 0 <= i < |s.lh| ==> s.lh[i] in s.lh;
  }

  lemma EndTrace(s: State, o: nat)
    requires IsActive(s, o) && s.stable <= |s.trace| && TraceMatchesOps(s) && WholeOps(s, s.stable)
    ensures TraceMatchesOps(DoEnd(s, o)) && WholeOps(DoEnd(s, o), s.stable)
  {
  }

  lemma EndDisk(cfg: Config, s: State, o: nat)
    requires Inv(cfg, s) && IsActive(s, o) && s.phase.Idle?
    ensures CacheOk(cfg, DoEnd(s, o)) && DiskOk(cfg, DoEnd(s, o))
  {
    var t := DoEnd(s, o);
    if t.phase.Commit? && InRegion(cfg, s) {
      CommittableNow(cfg, s);
      assert Data(t) == Data(s);
      CommitInRange(cfg, s.disk, s.lh, Data(s));
      assert CommitWrites(cfg, s.disk[cfg.start], s.lh, Data(s))[..0] == [];
    }
  }

  lemma EndInv(cfg: Config, s: State, o: nat)
    requires Inv(cfg, s) && Enabled(cfg, s, EndOp(o))
    ensures Inv(cfg, DoEnd(s, o))
  {
    assert s.phase.Idle? by {
      SumSplit(s.ops, Running, o);
    }
    ReservedEnd(s, o);
    EndTrace(s, o);
    EndDisk(cfg, s, o);
  }

  lemma BeginInv(cfg: Config, s: State, o: nat)
    requires Inv(cfg, s) && Enabled(cfg, s, BeginOp(o))
    ensures Inv(cfg, Do(cfg, s, BeginOp(o)))
  {
    ReservedBegin(cfg, s, o);
  }

  lemma CheckInv(cfg: Config, s: State, o: nat)
    requires Inv(cfg, s) && Enabled(cfg, s, Check(o))
    ensures Inv(cfg, Do(cfg, s, Check(o)))
  {
    ReservedStep(cfg, s, Check(o));
    assert s.phase.Idle? by {
      SumSplit(s.ops, Running, o);
    }
  }

  /** With distinct block numbers, installing puts each block at its home and nothing else. */
  lemma {:induction false} InstalledAt(d: Disk, lh: seq<nat>, data: seq<Block>, k: nat)
    requires |lh| == |data| && InRange(d, HomeWrites(lh, data)) && k <= |lh|
    requires forall i :: 0 <= i < |lh| ==> lh[i] < |d|
    requires forall i, j :: 0 <= i < j < |lh| ==> lh[i] != lh[j]
    ensures var e := Apply(d, HomeWrites(lh, data)[..k]);
            && (forall i :: 0 <= i < k ==> e[lh[i]] == data[i])
            && (forall b :: 0 <= b < |d| && b !in lh ==> e[b] == d[b])
  {
    if k > 0 {
      InstalledAt(d, lh, data, k - 1);
      ApplyStep(d, HomeWrites(lh, data), k - 1);
      assert HomeWrites(lh, data)[k - 1] == Write(lh[k - 1], data[k - 1]);
    }
  }

  /** A committed transaction installs exactly the replay of the whole trace. */
  lemma CommitInstallsTrace(cfg: Config, s: State)
    requires Inv(cfg, s) && s.phase.Commit? && s.lh != [] && InRegion(cfg, s)
    ensures SameHome(cfg, Installed(cfg, s.phase.d0, s.lh, Data(s)), Replay(cfg, s.base, s.trace))
  {
    var hw := HomeWrites(s.lh, Data(s));
    assert hw[..|s.lh|] == hw;
    InstalledAt(s.phase.d0, s.lh, Data(s), |s.lh|);
    var e := Installed(cfg, s.phase.d0, s.lh, Data(s));
    forall b | 0 <= b < |e| && !InLog(cfg, b) ensures e[b] == Replay(cfg, s.base, s.trace)[b] {
      if b in s.lh {
        var i :| 0 <= i < |s.lh| && s.lh[i] == b;
        assert e[s.lh[i]] == Data(s)[i];
      }
    }
  }

  /** With no operation running, the whole trace consists of ended operations. */
  lemma AllEnded(s: State)
    requires TraceMatchesOps(s) && Reserved(s) && s.outstanding == 0
    ensures WholeOps(s, |s.trace|)
  {
    assert s.trace[..|s.trace|] == s.trace;
    forall o | Only(s.trace, o) != []
      ensures o in s.ops && s.ops[o].Ended? && Only(s.trace, o) == s.ops[o].wrote
    {
      if s.ops[o].Active? {
        SumSplit(s.ops, Running, o);
      }
    }
  }

  lemma FinishInv(cfg: Config, s: State)
    requires Inv(cfg, s) && s.phase.Commit? && (s.lh == [] || s.phase.k == 2 * |s.lh| + 2)
    ensures CanAdvance(cfg, s) && Inv(cfg, DoAdvance(cfg, s))
  {
    var t := DoAdvance(cfg, s);
    AllEnded(s);
    assert t.trace[..t.stable] == s.trace;
    if s.lh != [] {
      CommitCrash(cfg, s.phase.d0, s.lh, Data(s), s.phase.k);
      CommitInstallsTrace(cfg, s);
    }
  }

  /** A commit is k writes under way in the region. */
  ghost predicate Committing(cfg: Config, s: State, d0: Disk, k: nat) {
    && Pinned(s) && Committable(cfg, d0, s.lh, Data(s)) && k <= 2 * |s.lh| + 1
    && s.disk == CommitDisk(cfg, d0, s.lh, Data(s), k)
    && forall b :: b in s.cache ==> !InLog(cfg, b)
  }

  /** The next block write is the one that the list of commit's writes says, and no news to its buffer. */
  ghost predicate NextWrite(cfg: Config, s: State, d0: Disk, k: nat)
    requires Committing(cfg, s, d0, k)
  {
    CommitInRange(cfg, d0, s.lh, Data(s));
    && CanWrite(cfg, s, k)
    && var w := CommitWrite(cfg, s, k);
       w == CommitWrites(cfg, d0[cfg.start], s.lh, Data(s))[k] && (w.bno in s.cache ==> s.cache[w.bno] == w.data)
  }

  lemma NextSlot(cfg: Config, s: State, d0: Disk, k: nat)
    requires Committing(cfg, s, d0, k) && k < |s.lh|
    ensures NextWrite(cfg, s, d0, k)
  {
    CommitRegion(cfg, d0, s.lh, Data(s), k);
    CommitInRange(cfg, d0, s.lh, Data(s));
    assert CommitWrites(cfg, d0[cfg.start], s.lh, Data(s))[k] == LogWrites(cfg, Data(s))[k];
    assert InLog(cfg, SlotBlock(cfg, k));
  }

  lemma NextHead(cfg: Config, s: State, d0: Disk, k: nat)
    requires Committing(cfg, s, d0, k) && (k == |s.lh| || k == 2 * |s.lh| + 1)
    ensures NextWrite(cfg, s, d0, k)
  {
    CommitRegion(cfg, d0, s.lh, Data(s), k);
    CommitInRange(cfg, d0, s.lh, Data(s));
    assert InLog(cfg, cfg.start);
  }

  lemma NextHome(cfg: Config, s: State, d0: Disk, k: nat)
    requires Committing(cfg, s, d0, k) && |s.lh| < k <= 2 * |s.lh|
    ensures NextWrite(cfg, s, d0, k)
  {
    var n := |s.lh|;
    CommitRegion(cfg, d0, s.lh, Data(s), k);
    CommitInRange(cfg, d0, s.lh, Data(s));
    assert CommitWrites(cfg, d0[cfg.start], s.lh, Data(s))[k] == HomeWrites(s.lh, Data(s))[k - n - 1];
    assert InLog(cfg, SlotBlock(cfg, k - n - 1));
    assert s.disk[SlotBlock(cfg, k - n - 1)] == Slots(cfg, s.disk, n)[k - n - 1];
  }

  lemma NextCommitWrite(cfg: Config, s: State, d0: Disk, k: nat)
    requires Committing(cfg, s, d0, k)
    ensures NextWrite(cfg, s, d0, k)
  {
    if k < |s.lh| {
      NextSlot(cfg, s, d0, k);
    } else if k == |s.lh| || k == 2 * |s.lh| + 1 {
      NextHead(cfg, s, d0, k);
    } else {
      NextHome(cfg, s, d0, k);
    }
  }

  lemma CommitStep(cfg: Config, s: State, d0: Disk, k: nat)
    requires Committing(cfg, s, d0, k)
    ensures CanWrite(cfg, s, k)
    ensures var t := DoWrite(s, CommitWrite(cfg, s, k), Commit(d0, k + 1));
            t.cache == s.cache && t.disk == CommitDisk(cfg, d0, s.lh, Data(s), k + 1)
  {
    NextCommitWrite(cfg, s, d0, k);
    CommitInRange(cfg, d0, s.lh, Data(s));
    ApplyStep(d0, CommitWrites(cfg, d0[cfg.start], s.lh, Data(s)), k);
  }

  /** A block write of commit touches nothing but the disk. */
  lemma OtherDisk(cfg: Config, s: State, t: State)
    requires Inv(cfg, s) && s.phase.Commit? && t.phase.Commit? && t == s.(disk := t.disk, phase := t.phase)
    requires |t.disk| == |s.disk| && DiskOk(cfg, t)
    ensures Inv(cfg, t)
  {
  }

  lemma CommitDiskOk(cfg: Config, s: State, t: State)
    requires HomeTrace(cfg, s.base, s.trace) && s.stable <= |s.trace| && DiskOk(cfg, s)
    requires s.phase.Commit? && s.lh != [] && InRegion(cfg, s) && s.phase.k < 2 * |s.lh| + 2 && |s.lh| < NBUF
    requires t == s.(disk := CommitDisk(cfg, s.phase.d0, s.lh, Data(s), s.phase.k + 1),
               phase := Commit(s.phase.d0, s.phase.k + 1))
    ensures DiskOk(cfg, t)
  {
    assert Data(t) == Data(s);
  }

  lemma CommittingNow(cfg: Config, s: State)
    requires Inv(cfg, s) && s.phase.Commit? && s.lh != [] && InRegion(cfg, s) && s.phase.k < 2 * |s.lh| + 2
    ensures Committing(cfg, s, s.phase.d0, s.phase.k)
  {
  }

  lemma CommitAdvance(cfg: Config, s: State, d0: Disk, k: nat)
    requires Committing(cfg, s, d0, k) && s.phase == Commit(d0, k) && s.lh != [] && !AllPinned(s)
    ensures CanAdvance(cfg, s)
    ensures DoAdvance(cfg, s) == s.(disk := CommitDisk(cfg, d0, s.lh, Data(s), k + 1), phase := Commit(d0, k + 1))
  {
    CommitStep(cfg, s, d0, k);
  }

  lemma CommitWriteInv(cfg: Config, s: State)
    requires Inv(cfg, s) && s.phase.Commit? && s.lh != [] && InRegion(cfg, s) && s.phase.k < 2 * |s.lh| + 2
             && !AllPinned(s)
    ensures CanAdvance(cfg, s) && Inv(cfg, DoAdvance(cfg, s))
  {
    CommittingNow(cfg, s);
    CommitAdvance(cfg, s, s.phase.d0, s.phase.k);
    CommitDiskOk(cfg, s, DoAdvance(cfg, s));
    OtherDisk(cfg, s, DoAdvance(cfg, s));
  }

  /** The next write of an overlong commit still goes to a slot. */
  lemma SlotWriteInv(cfg: Config, s: State)
    requires Inv(cfg, s) && s.phase.Commit? && !InRegion(cfg, s) && s.phase.k < cfg.size - 1 && !AllPinned(s)
    ensures CanAdvance(cfg, s) && Inv(cfg, DoAdvance(cfg, s))
  {
    var k := s.phase.k;
    assert s.lh[k] in s.lh && SlotBlock(cfg, k) !in s.cache;
    OtherDisk(cfg, s, DoAdvance(cfg, s));
  }

  lemma RecoverStep(cfg: Config, d0: Disk, d: Disk, k: nat)
    requires Mounted(cfg, d0) && k < |RecoveryWrites(cfg, d0)| && d == Apply(d0, RecoveryWrites(cfg, d0)[..k])
    ensures CanRedo(cfg, d, Header(cfg, d0), k)
    ensures var w := RedoWrite(cfg, d, Header(cfg, d0), k);
            d[w.bno := w.data] == Apply(d0, RecoveryWrites(cfg, d0)[..k + 1])
  {
    var lh := Header(cfg, d0);
    RecoveryRegion(cfg, d0, k);
    ApplyStep(d0, RecoveryWrites(cfg, d0), k);
    if k < |lh| {
      assert d[SlotBlock(cfg, k)] == Slots(cfg, d, |lh|)[k];
      assert InLog(cfg, SlotBlock(cfg, k));
    }
  }

  lemma RecoverWriteInv(cfg: Config, s: State)
    requires Inv(cfg, s) && s.phase.Recovery? && s.phase.k < |RecoveryWrites(cfg, s.phase.d0)|
    ensures CanAdvance(cfg, s) && Inv(cfg, DoAdvance(cfg, s))
  {
    RecoverStep(cfg, s.phase.d0, s.disk, s.phase.k);
  }

  lemma RecoverDoneInv(cfg: Config, s: State)
    requires Inv(cfg, s) && s.phase.Recovery? && s.phase.k >= |RecoveryWrites(cfg, s.phase.d0)|
    ensures CanAdvance(cfg, s) && Inv(cfg, DoAdvance(cfg, s))
  {
    var d0, k := s.phase.d0, s.phase.k;
    assert RecoveryWrites(cfg, d0)[..k] == RecoveryWrites(cfg, d0);
    RecoverHome(cfg, d0);
  }

  lemma RecoverInv(cfg: Config, s: State)
    requires Inv(cfg, s) && s.phase.Recovery?
    ensures CanAdvance(cfg, s) && Inv(cfg, DoAdvance(cfg, s))
  {
    if s.phase.k < |RecoveryWrites(cfg, s.phase.d0)| {
      RecoverWriteInv(cfg, s);
    } else {
      RecoverDoneInv(cfg, s);
    }
  }

  /** Recovering the disk right now would give the first j logged writes, and these are whole ended operations. */
  ghost predicate RecoversPrefix(cfg: Config, s: State, j: nat) {
    && HomeTrace(cfg, s.base, s.trace) && Mounted(cfg, s.disk) && j <= |s.trace| && WholeOps(s, j)
    && SameHome(cfg, Recover(cfg, s.disk), Replay(cfg, s.base, s.trace[..j]))
  }

  /** Recovering the disk right now would give the writes made durable so far. */
  ghost predicate RecoversTo(cfg: Config, s: State) {
    RecoversPrefix(cfg, s, Durable(s))
  }

  lemma RecoveredEmpty(cfg: Config, s: State)
    requires Inv(cfg, s) && (s.phase.Idle? || (s.phase.Commit? && (s.lh == [] || !InRegion(cfg, s))))
    ensures RecoversTo(cfg, s)
  {
    assert s.trace[..|s.trace|] == s.trace;
    RecoverHome(cfg, s.disk);
    assert HomeWrites([], Slots(cfg, s.disk, 0)) == [];
  }

  lemma RecoveredCommit(cfg: Config, s: State)
    requires Inv(cfg, s) && s.phase.Commit? && s.lh != [] && InRegion(cfg, s)
    ensures RecoversTo(cfg, s)
  {
    assert s.trace[..|s.trace|] == s.trace;
    CommitCrash(cfg, s.phase.d0, s.lh, Data(s), s.phase.k);
    if s.phase.k > |s.lh| {
      CommitInstallsTrace(cfg, s);
      AllEnded(s);
    }
  }

  lemma RecoveredRecovery(cfg: Config, s: State)
    requires Inv(cfg, s) && s.phase.Recovery?
    ensures RecoversTo(cfg, s)
  {
    assert s.trace[..|s.trace|] == s.trace;
    RecoveryCrash(cfg, s.phase.d0, s.phase.k);
  }

  /** What recovery would make of the disk right now. */
  lemma RecoveredNow(cfg: Config, s: State)
    requires Inv(cfg, s)
    ensures RecoversTo(cfg, s)
  {
    if s.phase.Recovery? {
      RecoveredRecovery(cfg, s);
    } else if s.phase.Commit? && s.lh != [] && InRegion(cfg, s) {
      RecoveredCommit(cfg, s);
    } else {
      RecoveredEmpty(cfg, s);
    }
  }

  lemma CrashInv(cfg: Config, s: State)
    requires Inv(cfg, s)
    ensures Inv(cfg, DoCrash(s))
  {
    var t := DoCrash(s);
    RecoveredNow(cfg, s);
    ReservedStep(cfg, s, Crash);
    assert RecoveryWrites(cfg, s.disk)[..0] == [];
    assert t.trace[..|t.trace|] == t.trace;
  }

  /** A step of write_log that leaves the log: the slot it writes lies behind the last one. */
  predicate Strays(cfg: Config, s: State, step: Step) {
    step.Advance? && s.phase.Commit? && cfg.size - 1 <= s.phase.k < |s.lh|
  }

  lemma StepInv(cfg: Config, s: State, step: Step)
    requires Inv(cfg, s) && Enabled(cfg, s, step) && !Strays(cfg, s, step)
    ensures Inv(cfg, Do(cfg, s, step))
  {
    match step
    case BeginOp(o) => BeginInv(cfg, s, o);
    case Check(o) => CheckInv(cfg, s, o);
    case Append(o, b, data) => AppendInv(cfg, s, o, b, data);
    case EndOp(o) => EndInv(cfg, s, o);
    case Advance =>
      if s.phase.Recovery? {
        RecoverInv(cfg, s);
      } else if s.lh == [] || s.phase.k == 2 * |s.lh| + 2 {
        FinishInv(cfg, s);
      } else if InRegion(cfg, s) {
        CommitWriteInv(cfg, s);
      } else {
        SlotWriteInv(cfg, s);
      }
    case Crash => CrashInv(cfg, s);
  }

  // ---------------------------------------------------------------- runs

  /** No step of the run writes past the end of the log. */
  ghost predicate KeepsToLog(cfg: Config, s: State, steps: seq<Step>)
    requires Legal(cfg, s, steps)
    decreases |steps|
  {
    steps == [] || (!Strays(cfg, s, steps[0]) && KeepsToLog(cfg, Do(cfg, s, steps[0]), steps[1..]))
  }

  lemma {:induction false} RunInv(cfg: Config, s: State, steps: seq<Step>)
    requires Inv(cfg, s) && Legal(cfg, s, steps) && KeepsToLog(cfg, s, steps)
    ensures Inv(cfg, Exec(cfg, s, steps))
    decreases |steps|
  {
    if steps != [] {
      StepInv(cfg, s, steps[0]);
      RunInv(cfg, Do(cfg, s, steps[0]), steps[1..]);
    }
  }

  /**
   A log that no run can leave: with no slot nothing is ever logged; with NBUF - 1 slots or
   more a list that is too long for them pins every buffer; and with no block behind the
   log there is nothing to write to. A log made by mkfs has NBUF - 1 slots.
   */
  predicate Sheltered(cfg: Config, d: Disk) {
    cfg.size <= 1 || cfg.size - 1 >= NBUF - 1 || cfg.start + cfg.size >= |d|
  }

  /** With no data slot at all, log_write never gets past its test. */
  ghost predicate Shut(s: State) {
    s.lh == [] && forall o :: IsActive(s, o) ==> !s.ops[o].checked
  }

  lemma ShutStep(cfg: Config, s: State, step: Step)
    requires cfg.size == 1 && Shut(s) && Enabled(cfg, s, step)
    ensures Shut(Do(cfg, s, step))
  {
  }

  lemma NeverStrays(cfg: Config, s: State, step: Step)
    requires Inv(cfg, s) && Enabled(cfg, s, step) && Sheltered(cfg, s.disk) && (cfg.size == 1 ==> Shut(s))
    ensures !Strays(cfg, s, step)
  {
  }

  lemma {:induction false} ShelteredKeeps(cfg: Config, s: State, steps: seq<Step>)
    requires Inv(cfg, s) && Legal(cfg, s, steps) && Sheltered(cfg, s.disk) && (cfg.size == 1 ==> Shut(s))
    ensures KeepsToLog(cfg, s, steps)
    decreases |steps|
  {
    if steps != [] {
      NeverStrays(cfg, s, steps[0]);
      StepInv(cfg, s, steps[0]);
      if cfg.size == 1 {
        ShutStep(cfg, s, steps[0]);
      }
      ShelteredKeeps(cfg, Do(cfg, s, steps[0]), steps[1..]);
    }
  }

  /**
   Crash atomicity and group commit over whole runs. After any run, with any number of
   operations in any interleaving and any number of crashes anywhere, recovering the disk
   gives the home blocks of the image replayed with a prefix of the logged writes that
   contains each operation either whole and ended or not at all, as long as no step has
   written past the end of the log.
   */
  lemma RecoveryYieldsWholeOperations(cfg: Config, s0: State, steps: seq<Step>)
    requires Init(cfg, s0) && Legal(cfg, s0, steps) && KeepsToLog(cfg, s0, steps)
    ensures RecoversTo(cfg, Exec(cfg, s0, steps))
  {
    InitInv(cfg, s0);
    RunInv(cfg, s0, steps);
    RecoveredNow(cfg, Exec(cfg, s0, steps));
  }

  /** The same for every run whatsoever of a sheltered log, hence of any log that mkfs makes. */
  lemma ShelteredLogIsAtomic(cfg: Config, s0: State, steps: seq<Step>)
    requires Init(cfg, s0) && Legal(cfg, s0, steps) && Sheltered(cfg, s0.disk)
    ensures RecoversTo(cfg, Exec(cfg, s0, steps))
  {
    InitInv(cfg, s0);
    ShelteredKeeps(cfg, s0, steps);
    RecoveryYieldsWholeOperations(cfg, s0, steps);
  }

  /** What is durable stays durable, in order, through every step, crashes included. */
  lemma DurableOnlyGrows(cfg: Config, s: State, step: Step)
    requires Reserved(s) && s.stable <= |s.trace| && Enabled(cfg, s, step)
    ensures var t := Do(cfg, s, step);
            && Durable(s) <= |s.trace| && Durable(t) <= |t.trace|
            && s.trace[..Durable(s)] <= t.trace[..Durable(t)]
  {
    var t := Do(cfg, s, step);
    var keep := s.trace[..Durable(s)];
    if step.Append? {
      SumSplit(s.ops, Running, step.op);
      assert t.trace[..Durable(t)] == keep;
    } else if step.Crash? {
      assert t.trace[..Durable(t)] == keep;
    } else if step.EndOp? {
      SumSplit(s.ops, Running, step.op);
    }
  }

  /** When the commit that an end_op started is over, every write logged so far is durable. */
  lemma CommitReturnsDurable(cfg: Config, s: State)
    requires Inv(cfg, s) && s.phase.Commit? && (s.lh == [] || s.phase.k == 2 * |s.lh| + 2)
    ensures CanAdvance(cfg, s)
    ensures var t := DoAdvance(cfg, s);
            && t.phase.Idle? && t.trace == s.trace && Durable(t) == |t.trace|
            && SameHome(cfg, t.disk, Replay(cfg, t.base, t.trace))
  {
    FinishInv(cfg, s);
    var t := DoAdvance(cfg, s);
    assert t.trace[..t.stable] == t.trace;
  }

  /**
   Commit and recovery can take their next step, unless a commit finds every buffer pinned,
   or has filled the log and cannot get the next block behind it.
   */
  lemma StuckIffAllPinned(cfg: Config, s: State)
    requires Inv(cfg, s) && !s.phase.Idle?
    ensures Enabled(cfg, s, Advance) <==>
              !AllPinned(s) && (Strays(cfg, s, Advance) ==> Copies(cfg, s.disk, s.lh, s.phase.k))
  {
    if s.phase.Recovery? {
      RecoverInv(cfg, s);
    } else if s.lh == [] || s.phase.k == 2 * |s.lh| + 2 {
      FinishInv(cfg, s);
    } else if !AllPinned(s) {
      if InRegion(cfg, s) {
        CommitWriteInv(cfg, s);
      } else if s.phase.k < cfg.size - 1 {
        SlotWriteInv(cfg, s);
      }
    }
  }

  lemma CommitKeepsOthers(cfg: Config, d0: Disk, lh: seq<nat>, data: seq<Block>, k: nat, b: nat)
    requires Committable(cfg, d0, lh, data) && k <= 2 * |lh| + 2
    requires b < |d0| && !InLog(cfg, b) && b !in lh
    ensures CommitDisk(cfg, d0, lh, data, k)[b] == d0[b]
  {
    CommitInRange(cfg, d0, lh, data);
    var ws := CommitWrites(cfg, d0[cfg.start], lh, data);
    forall i | 0 <= i < k ensures ws[..k][i].bno != b {
      assert ws[i].bno == if i < |lh| then cfg.start + 1 + i
                          else if i == |lh| || i == 2 * |lh| + 1 then cfg.start
                          else lh[i - |lh| - 1];
    }
    ApplyFrame(d0, ws[..k], b);
  }

  /** Outside recovery, reading a home block gives the last contents logged for it. */
  lemma ReadSeesLastLogged(cfg: Config, s: State, b: nat)
    requires Inv(cfg, s) && !s.phase.Recovery? && b < |s.disk| && !InLog(cfg, b)
    ensures View(s, b) == Replay(cfg, s.base, s.trace)[b]
  {
    if s.phase.Commit? && s.lh != [] && InRegion(cfg, s) && b !in s.lh {
      CommitKeepsOthers(cfg, s.phase.d0, s.lh, Data(s), s.phase.k, b);
    }
  }
}
