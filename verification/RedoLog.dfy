/**
 The on-disk redo log of log.c as a theory of single-block writes.

 A disk is a sequence of blocks; one block write is atomic; a crash keeps the disk
 and may fall between any two writes. `CommitWrites` is the exact list of block
 writes that commit() issues and `RecoveryWrites` the list that recover_from_log()
 issues, so a crash is a prefix of one of the two lists.
 */
module RedoLog {
  import opened Params

  type Block = seq<int>
  type Disk = seq<Block>

  datatype Write = Write(bno: nat, data: Block)

  /** `start` is the header block; slots start+1 .. start+size-1 hold logged blocks. */
  datatype Config = Config(start: nat, size: nat)

  predicate InLog(cfg: Config, b: nat) {
    cfg.start <= b < cfg.start + cfg.size
  }

  ghost predicate ValidDisk(cfg: Config, d: Disk) {
    && 1 <= cfg.size
    && cfg.start + cfg.size <= |d|
    && forall b :: 0 <= b < |d| ==> |d[b]| == WORDS
  }

  /** Block numbers that a transaction may log: on the disk and outside the log region. */
  ghost predicate ValidList(cfg: Config, d: Disk, lh: seq<nat>) {
    && |lh| <= LOGSIZE
    && |lh| <= cfg.size - 1
    && forall i :: 0 <= i < |lh| ==> lh[i] < |d| && !InLog(cfg, lh[i])
  }

  /** write_head: n and block[0..n) overwrite the front of the buffer, the rest stays. */
  function EncodeHeader(was: Block, lh: seq<nat>): (b: Block)
    requires |lh| < |was|
    ensures |b| == |was|
  {
    [|lh|] + seq(|lh|, i requires 0 <= i < |lh| => lh[i]) + was[|lh| + 1..]
  }

  ghost predicate HeaderOk(b: Block) {
    && |b| == WORDS
    && 0 <= b[0] <= LOGSIZE
    && forall i :: 1 <= i <= b[0] ==> 0 <= b[i]
  }

  /** read_head. */
  function DecodeHeader(b: Block): (lh: seq<nat>)
    requires HeaderOk(b)
    ensures |lh| == b[0]
  {
    seq(b[0], i requires 0 <= i < b[0] => b[i + 1])
  }

  lemma HeaderRoundTrip(was: Block, lh: seq<nat>)
    requires |was| == WORDS && |lh| <= LOGSIZE
    ensures HeaderOk(EncodeHeader(was, lh))
    ensures DecodeHeader(EncodeHeader(was, lh)) == lh
  {
    var b := EncodeHeader(was, lh);
    assert b[0] == |lh|;
    forall i | 1 <= i <= |lh| ensures b[i] == lh[i - 1] {
    }
  }

  ghost predicate InRange(d: Disk, ws: seq<Write>) {
    forall i :: 0 <= i < |ws| ==> ws[i].bno < |d| && |ws[i].data| == WORDS
  }

  ghost predicate Targets(ws: seq<Write>, b: nat) {
    exists i :: 0 <= i < |ws| && ws[i].bno == b
  }

  /** The disk after the writes of ws, in order. */
  ghost function Apply(d: Disk, ws: seq<Write>): (r: Disk)
    requires InRange(d, ws)
    ensures |r| == |d|
  {
    if ws == [] then d
    else
      var k := |ws| - 1;
      Apply(d, ws[..k])[ws[k].bno := ws[k].data]
  }

  lemma {:induction false} ApplyStep(d: Disk, ws: seq<Write>, k: nat)
    requires k < |ws| && InRange(d, ws)
    ensures Apply(d, ws[..k + 1]) == Apply(d, ws[..k])[ws[k].bno := ws[k].data]
  {
    assert ws[..k + 1][..k] == ws[..k];
  }

  lemma {:induction false} ApplyConcat(d: Disk, ws: seq<Write>, vs: seq<Write>)
    requires InRange(d, ws) && InRange(d, vs)
    ensures InRange(d, ws + vs)
    ensures Apply(d, ws + vs) == Apply(Apply(d, ws), vs)
  {
    if vs == [] {
      assert ws + vs == ws;
    } else {
      var k := |vs| - 1;
      assert (ws + vs)[..|ws| + k] == ws + vs[..k];
      ApplyConcat(d, ws, vs[..k]);
    }
  }

  /** A block that ws does not write keeps its contents. */
  lemma {:induction false} ApplyFrame(d: Disk, ws: seq<Write>, b: nat)
    requires InRange(d, ws) && b < |d| && !Targets(ws, b)
    ensures Apply(d, ws)[b] == d[b]
  {
    if ws != [] {
      var k := |ws| - 1;
      assert ws[k].bno != b;
      assert forall i :: 0 <= i < k ==> ws[..k][i] == ws[i];
      ApplyFrame(d, ws[..k], b);
    }
  }

  /** A block that ws writes ends with contents that do not depend on the disk before. */
  lemma {:induction false} ApplyDetermined(d: Disk, e: Disk, ws: seq<Write>, b: nat)
    requires |d| == |e| && InRange(d, ws) && b < |d|
    requires d[b] == e[b] || Targets(ws, b)
    ensures Apply(d, ws)[b] == Apply(e, ws)[b]
  {
    if ws != [] {
      var k := |ws| - 1;
      if ws[k].bno != b {
        assert Targets(ws, b) ==> Targets(ws[..k], b) by {
          if Targets(ws, b) {
            var i :| 0 <= i < |ws| && ws[i].bno == b;
            assert ws[..k][i].bno == b;
          }
        }
        ApplyDetermined(d, e, ws[..k], b);
      }
    }
  }

  lemma {:induction false} ApplyKeepsWords(cfg: Config, d: Disk, ws: seq<Write>)
    requires ValidDisk(cfg, d) && InRange(d, ws)
    ensures ValidDisk(cfg, Apply(d, ws))
  {
    if ws != [] {
      ApplyKeepsWords(cfg, d, ws[..|ws| - 1]);
    }
  }

  function LogWrites(cfg: Config, data: seq<Block>): (ws: seq<Write>) {
    seq(|data|, i requires 0 <= i < |data| => Write(cfg.start + 1 + i, data[i]))
  }

  function HomeWrites(lh: seq<nat>, data: seq<Block>): (ws: seq<Write>)
    requires |lh| == |data|
  {
    seq(|lh|, i requires 0 <= i < |lh| => Write(lh[i], data[i]))
  }

  /** commit(): write_log, write_head, install_trans, write_head with n = 0. */
  function CommitWrites(cfg: Config, head: Block, lh: seq<nat>, data: seq<Block>): (ws: seq<Write>)
    requires |lh| == |data| && |lh| < |head|
  {
    var full := EncodeHeader(head, lh);
    LogWrites(cfg, data) + [Write(cfg.start, full)] + HomeWrites(lh, data)
    + [Write(cfg.start, EncodeHeader(full, []))]
  }

  ghost predicate Mounted(cfg: Config, d: Disk) {
    && ValidDisk(cfg, d)
    && HeaderOk(d[cfg.start])
    && ValidList(cfg, d, DecodeHeader(d[cfg.start]))
  }

  ghost function Header(cfg: Config, d: Disk): (lh: seq<nat>)
    requires Mounted(cfg, d)
    ensures ValidList(cfg, d, lh)
  {
    DecodeHeader(d[cfg.start])
  }

  ghost function Slots(cfg: Config, d: Disk, n: nat): (data: seq<Block>)
    requires ValidDisk(cfg, d) && n <= cfg.size - 1
    ensures |data| == n
  {
    seq(n, i requires 0 <= i < n => d[cfg.start + 1 + i])
  }

  /** recover_from_log(): install_trans of the header found on disk, then clear it. */
  ghost function RecoveryWrites(cfg: Config, d: Disk): (ws: seq<Write>)
    requires Mounted(cfg, d)
    ensures InRange(d, ws)
  {
    var lh := Header(cfg, d);
    HomeWrites(lh, Slots(cfg, d, |lh|)) + [Write(cfg.start, EncodeHeader(d[cfg.start], []))]
  }

  ghost function Recover(cfg: Config, d: Disk): (r: Disk)
    requires Mounted(cfg, d)
    ensures |r| == |d|
  {
    Apply(d, RecoveryWrites(cfg, d))
  }

  /** Equal on every block outside the log region. */
  ghost predicate SameHome(cfg: Config, d: Disk, e: Disk) {
    && |d| == |e|
    && forall b :: 0 <= b < |d| && !InLog(cfg, b) ==> d[b] == e[b]
  }

  ghost predicate SameSlots(cfg: Config, d: Disk, e: Disk, n: nat) {
    && |d| == |e| && n <= cfg.size - 1 && cfg.start + cfg.size <= |d|
    && forall b :: cfg.start < b <= cfg.start + n ==> d[b] == e[b]
  }

  /** What recovery makes of the home blocks, without the log region. */
  lemma RecoverHome(cfg: Config, d: Disk)
    requires Mounted(cfg, d)
    ensures var lh := Header(cfg, d);
            SameHome(cfg, Recover(cfg, d), Apply(d, HomeWrites(lh, Slots(cfg, d, |lh|))))
    ensures Mounted(cfg, Recover(cfg, d)) && Header(cfg, Recover(cfg, d)) == []
  {
    var lh := Header(cfg, d);
    var hw := HomeWrites(lh, Slots(cfg, d, |lh|));
    var ws := RecoveryWrites(cfg, d);
    assert ws[..|hw|] == hw;
    HeaderRoundTrip(d[cfg.start], []);
    ApplyKeepsWords(cfg, d, ws);
  }

  /** Installing on top of a partly installed disk gives the fully installed disk. */
  lemma ReinstallHome(cfg: Config, d: Disk, e: Disk, lh: seq<nat>, data: seq<Block>)
    requires |lh| == |data| && |d| == |e| && InRange(d, HomeWrites(lh, data))
    requires forall b :: 0 <= b < |d| && !InLog(cfg, b) ==> d[b] == e[b] || Targets(HomeWrites(lh, data), b)
    ensures SameHome(cfg, Apply(d, HomeWrites(lh, data)), Apply(e, HomeWrites(lh, data)))
  {
    var hw := HomeWrites(lh, data);
    forall b | 0 <= b < |d| && !InLog(cfg, b) ensures Apply(d, hw)[b] == Apply(e, hw)[b] {
      ApplyDetermined(d, e, hw, b);
    }
  }

  /** HomeWrites touch only logged home blocks: header and slots survive any prefix. */
  lemma HomePrefix(cfg: Config, d: Disk, lh: seq<nat>, data: seq<Block>, k: nat)
    requires ValidDisk(cfg, d) && ValidList(cfg, d, lh) && |data| == |lh| && k <= |lh|
    requires forall i :: 0 <= i < |data| ==> |data[i]| == WORDS
    ensures InRange(d, HomeWrites(lh, data))
    ensures var e := Apply(d, HomeWrites(lh, data)[..k]);
            && ValidDisk(cfg, e) && |e| == |d|
            && (forall b :: 0 <= b < |d| && InLog(cfg, b) ==> e[b] == d[b])
            && (forall b :: 0 <= b < |d| ==> e[b] == d[b] || Targets(HomeWrites(lh, data), b))
  {
    var hw := HomeWrites(lh, data);
    var e := Apply(d, hw[..k]);
    ApplyKeepsWords(cfg, d, hw[..k]);
    forall b | 0 <= b < |d| && !Targets(hw[..k], b) ensures e[b] == d[b] {
      ApplyFrame(d, hw[..k], b);
    }
    forall b | Targets(hw[..k], b) ensures Targets(hw, b) && !InLog(cfg, b) {
      var i :| 0 <= i < k && hw[..k][i].bno == b;
      assert hw[i].bno == b;
    }
  }

  lemma RecoverSame(cfg: Config, d: Disk, e: Disk, lh: seq<nat>)
    requires Mounted(cfg, d) && ValidDisk(cfg, e) && |e| == |d| && e[cfg.start] == d[cfg.start]
    requires lh == Header(cfg, d) && SameSlots(cfg, d, e, |lh|)
    requires forall b :: 0 <= b < |d| && !InLog(cfg, b) ==>
               d[b] == e[b] || Targets(HomeWrites(lh, Slots(cfg, d, |lh|)), b)
    ensures Mounted(cfg, e) && Header(cfg, e) == lh
    ensures SameHome(cfg, Recover(cfg, e), Recover(cfg, d))
  {
    var data := Slots(cfg, d, |lh|);
    assert Slots(cfg, e, |lh|) == data;
    assert InRange(d, HomeWrites(lh, data));
    ReinstallHome(cfg, d, e, lh, data);
    RecoverHome(cfg, d);
    RecoverHome(cfg, e);
  }

  /**
   Idempotent redo: a recovery that crashes after any k of its block writes leaves a
   disk on which a completed recovery gives the same home blocks.
   */
  lemma RecoveryCrash(cfg: Config, d: Disk, k: nat)
    requires Mounted(cfg, d) && k <= |RecoveryWrites(cfg, d)|
    ensures var e := Apply(d, RecoveryWrites(cfg, d)[..k]);
            && Mounted(cfg, e)
            && SameHome(cfg, Recover(cfg, e), Recover(cfg, d))
            && Header(cfg, e) == (if k < |RecoveryWrites(cfg, d)| then Header(cfg, d) else [])
  {
    var lh := Header(cfg, d);
    var data := Slots(cfg, d, |lh|);
    var hw := HomeWrites(lh, data);
    var ws := RecoveryWrites(cfg, d);
    if k <= |lh| {
      assert ws[..k] == hw[..k];
      HomePrefix(cfg, d, lh, data, k);
      RecoverSame(cfg, d, Apply(d, hw[..k]), lh);
    } else {
      assert ws[..k] == ws;
      RecoverHome(cfg, d);
      var e := Recover(cfg, d);
      RecoverHome(cfg, e);
      assert HomeWrites([], Slots(cfg, e, 0)) == [];
    }
  }

  /** The disk after recoveries that crash, one after the other, after cuts[i] writes each. */
  ghost function CrashedRecoveries(cfg: Config, d: Disk, cuts: seq<nat>): (e: Disk)
    requires Mounted(cfg, d)
    ensures Mounted(cfg, e) && |e| == |d|
    decreases |cuts|
  {
    if cuts == [] then d
    else
      var ws := RecoveryWrites(cfg, d);
      var k := if cuts[0] <= |ws| then cuts[0] else |ws|;
      RecoveryCrash(cfg, d, k);
      CrashedRecoveries(cfg, Apply(d, ws[..k]), cuts[1..])
  }

  /** Any number of crashes during recovery changes nothing about what recovery reaches. */
  lemma {:induction false} RecoveryIsIdempotent(cfg: Config, d: Disk, cuts: seq<nat>)
    requires Mounted(cfg, d)
    ensures SameHome(cfg, Recover(cfg, CrashedRecoveries(cfg, d, cuts)), Recover(cfg, d))
    decreases |cuts|
  {
    if cuts != [] {
      var ws := RecoveryWrites(cfg, d);
      var k := if cuts[0] <= |ws| then cuts[0] else |ws|;
      RecoveryCrash(cfg, d, k);
      var e := Apply(d, ws[..k]);
      RecoveryIsIdempotent(cfg, e, cuts[1..]);
      var f := CrashedRecoveries(cfg, e, cuts[1..]);
      assert CrashedRecoveries(cfg, d, cuts) == f;
      SameHomeTrans(cfg, Recover(cfg, f), Recover(cfg, e), Recover(cfg, d));
    }
  }

  lemma SameHomeTrans(cfg: Config, a: Disk, b: Disk, c: Disk)
    requires SameHome(cfg, a, b) && SameHome(cfg, b, c)
    ensures SameHome(cfg, a, c)
  {
  }

  ghost predicate Committable(cfg: Config, d: Disk, lh: seq<nat>, data: seq<Block>) {
    && Mounted(cfg, d) && Header(cfg, d) == []
    && ValidList(cfg, d, lh) && |data| == |lh|
    && forall i :: 0 <= i < |data| ==> |data[i]| == WORDS
  }

  lemma CommitInRange(cfg: Config, d: Disk, lh: seq<nat>, data: seq<Block>)
    requires Committable(cfg, d, lh, data)
    ensures InRange(d, CommitWrites(cfg, d[cfg.start], lh, data))
    ensures |CommitWrites(cfg, d[cfg.start], lh, data)| == 2 * |lh| + 2
  {
  }

  /** The commit has written k <= n log slots: the header still says there is nothing to do. */
  lemma CrashBeforeHeader(cfg: Config, d: Disk, lh: seq<nat>, data: seq<Block>, k: nat)
    requires Committable(cfg, d, lh, data) && k <= |lh|
    ensures InRange(d, LogWrites(cfg, data))
    ensures var e := Apply(d, LogWrites(cfg, data)[..k]);
            && Mounted(cfg, e) && Header(cfg, e) == [] && SameHome(cfg, e, d)
            && SameHome(cfg, Recover(cfg, e), d)
            && (forall i :: 0 <= i < k ==> e[cfg.start + 1 + i] == data[i])
            && e[cfg.start] == d[cfg.start]
  {
    var lw := LogWrites(cfg, data);
    var e := Apply(d, lw[..k]);
    LogSlotsAfter(cfg, d, data, k);
    ApplyKeepsWords(cfg, d, lw[..k]);
    RecoverHome(cfg, e);
    assert HomeWrites([], Slots(cfg, e, 0)) == [];
  }

  lemma {:induction false} LogSlotsAfter(cfg: Config, d: Disk, data: seq<Block>, k: nat)
    requires ValidDisk(cfg, d) && |data| <= cfg.size - 1 && k <= |data|
    requires forall i :: 0 <= i < |data| ==> |data[i]| == WORDS
    ensures InRange(d, LogWrites(cfg, data))
    ensures var e := Apply(d, LogWrites(cfg, data)[..k]);
            && SameHome(cfg, e, d) && e[cfg.start] == d[cfg.start]
            && (forall i :: 0 <= i < k ==> e[cfg.start + 1 + i] == data[i])
  {
    if k > 0 {
      LogSlotsAfter(cfg, d, data, k - 1);
      ApplyStep(d, LogWrites(cfg, data), k - 1);
    }
  }

  /** All n slots and the header are on disk. */
  lemma HeaderWritten(cfg: Config, d: Disk, lh: seq<nat>, data: seq<Block>)
    requires Committable(cfg, d, lh, data)
    ensures InRange(d, LogWrites(cfg, data)) && InRange(d, HomeWrites(lh, data))
    ensures var e := HeadDisk(cfg, d, lh, data);
            && Mounted(cfg, e) && Header(cfg, e) == lh
            && Slots(cfg, e, |lh|) == data
            && SameHome(cfg, e, d)
            && SameHome(cfg, Recover(cfg, e), Apply(d, HomeWrites(lh, data)))
  {
    var lw := LogWrites(cfg, data);
    assert lw[..|lh|] == lw;
    CrashBeforeHeader(cfg, d, lh, data, |lh|);
    HeaderRoundTrip(d[cfg.start], lh);
    var e := HeadDisk(cfg, d, lh, data);
    assert DecodeHeader(e[cfg.start]) == lh;
    assert Mounted(cfg, e);
    assert Slots(cfg, e, |lh|) == data;
    RecoverHome(cfg, e);
    ReinstallHome(cfg, e, d, lh, data);
  }

  /** The commit has written the header and then k of the n home blocks. */
  lemma CrashWhileInstalling(cfg: Config, d: Disk, lh: seq<nat>, data: seq<Block>, k: nat)
    requires Committable(cfg, d, lh, data) && k <= |lh|
    ensures InRange(d, LogWrites(cfg, data)) && InRange(d, HomeWrites(lh, data))
    ensures var e := Apply(HeadDisk(cfg, d, lh, data), HomeWrites(lh, data)[..k]);
            && Mounted(cfg, e) && Header(cfg, e) == lh
            && e[cfg.start] == EncodeHeader(d[cfg.start], lh)
            && SameHome(cfg, Recover(cfg, e), Apply(d, HomeWrites(lh, data)))
            && (k == |lh| ==> SameHome(cfg, e, Apply(d, HomeWrites(lh, data))))
  {
    HeaderWritten(cfg, d, lh, data);
    var head := HeadDisk(cfg, d, lh, data);
    HomePrefix(cfg, head, lh, data, k);
    RecoverSame(cfg, head, Apply(head, HomeWrites(lh, data)[..k]), lh);
    if k == |lh| {
      assert HomeWrites(lh, data)[..k] == HomeWrites(lh, data);
      ReinstallHome(cfg, head, d, lh, data);
    }
  }

  /** The commit list up to and including the header. */
  function CommitFront(cfg: Config, head: Block, lh: seq<nat>, data: seq<Block>): (ws: seq<Write>)
    requires |lh| == |data| && |lh| < |head|
  {
    LogWrites(cfg, data) + [Write(cfg.start, EncodeHeader(head, lh))]
  }

  /** The disk at the moment the header reaches it, the commit point. */
  ghost function HeadDisk(cfg: Config, d: Disk, lh: seq<nat>, data: seq<Block>): (e: Disk)
    requires Committable(cfg, d, lh, data)
    ensures |e| == |d|
  {
    Apply(d, LogWrites(cfg, data))[cfg.start := EncodeHeader(d[cfg.start], lh)]
  }

  lemma FrontDisk(cfg: Config, d: Disk, lh: seq<nat>, data: seq<Block>)
    requires Committable(cfg, d, lh, data)
    ensures InRange(d, CommitFront(cfg, d[cfg.start], lh, data))
    ensures Apply(d, CommitFront(cfg, d[cfg.start], lh, data)) == HeadDisk(cfg, d, lh, data)
  {
    var front := CommitFront(cfg, d[cfg.start], lh, data);
    assert front[..|lh|] == LogWrites(cfg, data);
  }

  lemma PrefixInstalling(cfg: Config, d: Disk, lh: seq<nat>, data: seq<Block>, j: nat)
    requires Committable(cfg, d, lh, data) && j <= |lh|
    ensures InRange(d, CommitWrites(cfg, d[cfg.start], lh, data)) && InRange(d, HomeWrites(lh, data))
    ensures Apply(d, CommitWrites(cfg, d[cfg.start], lh, data)[..|lh| + 1 + j])
         == Apply(HeadDisk(cfg, d, lh, data), HomeWrites(lh, data)[..j])
  {
    var hw := HomeWrites(lh, data);
    var ws := CommitWrites(cfg, d[cfg.start], lh, data);
    var front := CommitFront(cfg, d[cfg.start], lh, data);
    FrontDisk(cfg, d, lh, data);
    assert ws[..|lh| + 1 + j] == front + hw[..j];
    ApplyConcat(d, front, hw[..j]);
  }

  lemma PrefixCleared(cfg: Config, d: Disk, lh: seq<nat>, data: seq<Block>)
    requires Committable(cfg, d, lh, data)
    ensures InRange(d, CommitWrites(cfg, d[cfg.start], lh, data)) && InRange(d, HomeWrites(lh, data))
    ensures Apply(d, CommitWrites(cfg, d[cfg.start], lh, data))
         == Apply(HeadDisk(cfg, d, lh, data), HomeWrites(lh, data))
            [cfg.start := EncodeHeader(EncodeHeader(d[cfg.start], lh), [])]
  {
    var ws := CommitWrites(cfg, d[cfg.start], lh, data);
    PrefixInstalling(cfg, d, lh, data, |lh|);
    assert HomeWrites(lh, data)[..|lh|] == HomeWrites(lh, data);
    assert |ws| == 2 * |lh| + 2;
  }

  /** write_head with n = 0 on any mounted disk. */
  lemma ClearHeader(cfg: Config, d: Disk, h: Block)
    requires ValidDisk(cfg, d) && |h| == WORDS
    ensures var e := d[cfg.start := EncodeHeader(h, [])];
            && Mounted(cfg, e) && Header(cfg, e) == []
            && SameHome(cfg, e, d) && SameHome(cfg, Recover(cfg, e), d)
  {
    HeaderRoundTrip(h, []);
    var e := d[cfg.start := EncodeHeader(h, [])];
    RecoverHome(cfg, e);
    assert HomeWrites([], Slots(cfg, e, 0)) == [];
  }

  /** The disk after the first k block writes of commit(). */
  ghost function CommitDisk(cfg: Config, d: Disk, lh: seq<nat>, data: seq<Block>, k: nat): (e: Disk)
    requires Committable(cfg, d, lh, data) && k <= 2 * |lh| + 2
    ensures |e| == |d|
  {
    CommitInRange(cfg, d, lh, data);
    Apply(d, CommitWrites(cfg, d[cfg.start], lh, data)[..k])
  }

  /** The disk with every logged block at its home. */
  ghost function Installed(cfg: Config, d: Disk, lh: seq<nat>, data: seq<Block>): (e: Disk)
    requires Committable(cfg, d, lh, data)
    ensures |e| == |d|
  {
    Apply(d, HomeWrites(lh, data))
  }

  lemma CrashAfterClear(cfg: Config, d: Disk, lh: seq<nat>, data: seq<Block>)
    requires Committable(cfg, d, lh, data)
    ensures var e := CommitDisk(cfg, d, lh, data, 2 * |lh| + 2);
            && Mounted(cfg, e) && Header(cfg, e) == []
            && SameHome(cfg, e, Installed(cfg, d, lh, data))
            && SameHome(cfg, Recover(cfg, e), Installed(cfg, d, lh, data))
  {
    var ws := CommitWrites(cfg, d[cfg.start], lh, data);
    CommitInRange(cfg, d, lh, data);
    assert ws[..2 * |lh| + 2] == ws;
    PrefixCleared(cfg, d, lh, data);
    var hw := HomeWrites(lh, data);
    assert hw[..|lh|] == hw;
    CrashWhileInstalling(cfg, d, lh, data, |lh|);
    ClearHeader(cfg, Apply(HeadDisk(cfg, d, lh, data), hw), EncodeHeader(d[cfg.start], lh));
  }

  lemma CrashMidInstall(cfg: Config, d: Disk, lh: seq<nat>, data: seq<Block>, k: nat)
    requires Committable(cfg, d, lh, data) && |lh| < k <= 2 * |lh| + 1
    ensures var e := CommitDisk(cfg, d, lh, data, k);
            && Mounted(cfg, e) && Header(cfg, e) == lh
            && SameHome(cfg, Recover(cfg, e), Installed(cfg, d, lh, data))
  {
    var j := k - |lh| - 1;
    var e := CommitDisk(cfg, d, lh, data, k);
    assert InRange(d, HomeWrites(lh, data));
    assert e == Apply(HeadDisk(cfg, d, lh, data), HomeWrites(lh, data)[..j]) by {
      PrefixInstalling(cfg, d, lh, data, j);
    }
    CrashWhileInstalling(cfg, d, lh, data, j);
  }

  lemma CrashEarly(cfg: Config, d: Disk, lh: seq<nat>, data: seq<Block>, k: nat)
    requires Committable(cfg, d, lh, data) && k <= |lh|
    ensures var e := CommitDisk(cfg, d, lh, data, k);
            && Mounted(cfg, e) && Header(cfg, e) == []
            && SameHome(cfg, e, d) && SameHome(cfg, Recover(cfg, e), d)
  {
    CommitInRange(cfg, d, lh, data);
    assert CommitWrites(cfg, d[cfg.start], lh, data)[..k] == LogWrites(cfg, data)[..k];
    CrashBeforeHeader(cfg, d, lh, data, k);
  }

  /** Header and slots while commit() installs. */
  lemma InstallingRegion(cfg: Config, d: Disk, lh: seq<nat>, data: seq<Block>, j: nat)
    requires Committable(cfg, d, lh, data) && j <= |lh|
    ensures InRange(d, HomeWrites(lh, data))
    ensures var e := Apply(HeadDisk(cfg, d, lh, data), HomeWrites(lh, data)[..j]);
            ValidDisk(cfg, e) && e[cfg.start] == EncodeHeader(d[cfg.start], lh) && Slots(cfg, e, |lh|) == data
  {
    var head := HeadDisk(cfg, d, lh, data);
    HeaderWritten(cfg, d, lh, data);
    HomePrefix(cfg, head, lh, data, j);
    assert Slots(cfg, Apply(head, HomeWrites(lh, data)[..j]), |lh|) == Slots(cfg, head, |lh|);
  }

  /** Header and slots k writes into commit(), up to the write that clears the header. */
  lemma CommitRegion(cfg: Config, d: Disk, lh: seq<nat>, data: seq<Block>, k: nat)
    requires Committable(cfg, d, lh, data) && k <= 2 * |lh| + 1
    ensures var e := CommitDisk(cfg, d, lh, data, k);
            && ValidDisk(cfg, e) && e[cfg.start] == (if k <= |lh| then d[cfg.start] else EncodeHeader(d[cfg.start], lh))
            && (k > |lh| ==> Slots(cfg, e, |lh|) == data)
  {
    CommitInRange(cfg, d, lh, data);
    if k <= |lh| {
      assert CommitWrites(cfg, d[cfg.start], lh, data)[..k] == LogWrites(cfg, data)[..k];
      CrashBeforeHeader(cfg, d, lh, data, k);
    } else {
      InstallingRegion(cfg, d, lh, data, k - |lh| - 1);
      PrefixInstalling(cfg, d, lh, data, k - |lh| - 1);
    }
  }

  /** Header and slots k writes into a recovery, up to the write that clears the header. */
  lemma RecoveryRegion(cfg: Config, d: Disk, k: nat)
    requires Mounted(cfg, d) && k <= |Header(cfg, d)|
    ensures var e := Apply(d, RecoveryWrites(cfg, d)[..k]);
            && ValidDisk(cfg, e) && e[cfg.start] == d[cfg.start]
            && Slots(cfg, e, |Header(cfg, d)|) == Slots(cfg, d, |Header(cfg, d)|)
  {
    var lh := Header(cfg, d);
    var data := Slots(cfg, d, |lh|);
    assert RecoveryWrites(cfg, d)[..k] == HomeWrites(lh, data)[..k];
    HomePrefix(cfg, d, lh, data, k);
  }

  /** Recovery takes e, the disk k writes into commit(), to all old home blocks or to all new ones. */
  ghost predicate CommitSafe(cfg: Config, d: Disk, lh: seq<nat>, data: seq<Block>, k: nat, e: Disk)
    requires Committable(cfg, d, lh, data)
  {
    && Mounted(cfg, e)
    && Header(cfg, e) == (if |lh| < k <= 2 * |lh| + 1 then lh else [])
    && SameHome(cfg, Recover(cfg, e), if k <= |lh| then d else Installed(cfg, d, lh, data))
    && (k <= |lh| ==> SameHome(cfg, e, d))
    && (k == 2 * |lh| + 2 ==> SameHome(cfg, e, Installed(cfg, d, lh, data)))
  }

  /**
   Crash atomicity of commit(): a crash after any k of its 2n+2 block writes leaves a
   disk from which recovery reaches the old home blocks if the header had not been
   written (k <= n), and all the new ones once it had been.
   */
  lemma CommitCrash(cfg: Config, d: Disk, lh: seq<nat>, data: seq<Block>, k: nat)
    requires Committable(cfg, d, lh, data) && k <= 2 * |lh| + 2
    ensures CommitSafe(cfg, d, lh, data, k, CommitDisk(cfg, d, lh, data, k))
  {
    if k <= |lh| {
      CrashEarly(cfg, d, lh, data, k);
    } else if k <= 2 * |lh| + 1 {
      CrashMidInstall(cfg, d, lh, data, k);
    } else {
      CrashAfterClear(cfg, d, lh, data);
    }
  }
}
