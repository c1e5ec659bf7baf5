/**
 log.c on top of the buffer cache, with its loops: write_log, write_head, install_trans,
 commit, recover_from_log, log_write, begin_op and end_op. Each commit and recovery is
 shown to issue exactly the block writes that the crash theorems of RedoLog speak about.
 */
module LogFile {
  import opened Params
  import opened RedoLog
  import opened BufferCache
  import opened Sets

  /** Nobody is changing a buffer; refs counts the references of those who are reading one meanwhile. */
  ghost predicate Shared(bc: BCache, refs: seq<nat>)
    reads bc
  {
    bc.held == {} && |bc.bufs| == NBUF == |refs| && forall i :: 0 <= i < NBUF ==> bc.bufs[i].refcnt == refs[i]
  }

  /** No buffer is referenced at all. */
  function NoReaders(): seq<nat> {
    seq(NBUF, _ => 0)
  }

  /** bget can find a buffer for a block that is not cached: one that is neither pinned nor referenced. */
  ghost predicate SomeSpare(bufs: seq<Buf>) {
    exists i :: 0 <= i < |bufs| && Recyclable(bufs[i])
  }

  ghost predicate TwoSpare(bufs: seq<Buf>) {
    exists i, j :: 0 <= i < j < |bufs| && Recyclable(bufs[i]) && Recyclable(bufs[j])
  }

  /** What install_trans needs: a buffer for the log slot, and one for the home block unless that is pinned. */
  ghost predicate EnoughSpare(bufs: seq<Buf>, pinned: bool) {
    if pinned then SomeSpare(bufs) else TwoSpare(bufs)
  }

  /** Readers outside the log read home blocks: no buffer they hold is one of the log's. */
  ghost predicate ReadersAtHome(cfg: Config, bufs: seq<Buf>) {
    forall i :: 0 <= i < |bufs| && bufs[i].refcnt > 0 && bufs[i].dev == ROOTDEV ==> !InLog(cfg, bufs[i].blockno)
  }

  /** What writing `data` to block dst through a buffer does to every block's contents. */
  lemma WriteBack(was: seq<Buf>, now: seq<Buf>, d: Disk, dst: nat, data: Block)
    requires UniqueKeys(was) && UniqueKeys(now) && |was| == |now| && dst < |d|
    requires forall i: nat, b: nat :: DirtyAt(now, i, b) <==> DirtyAt(was, i, b) && b != dst
    requires forall i :: 0 <= i < |now| && now[i].dirty ==> now[i].data == was[i].data
    ensures forall b: nat :: DirtyBlock(now, b) <==> DirtyBlock(was, b) && b != dst
    ensures forall b :: 0 <= b < |d| ==>
              Logical(now, d[dst := data], b) == if b == dst then data else Logical(was, d, b)
  {
    forall b: nat | DirtyBlock(was, b) && b != dst ensures DirtyBlock(now, b) {
      var i: nat :| DirtyAt(was, i, b);
      assert DirtyAt(now, i, b);
    }
    forall b: nat | DirtyBlock(now, b) ensures DirtyBlock(was, b) && b != dst {
      var i: nat :| DirtyAt(now, i, b);
      assert DirtyAt(was, i, b);
    }
    forall b | 0 <= b < |d|
      ensures Logical(now, d[dst := data], b) == if b == dst then data else Logical(was, d, b)
    {
      if DirtyBlock(now, b) {
        var i: nat :| DirtyAt(now, i, b);
        assert DirtyAt(was, i, b);
        LogicalOfDirty(was, d, i);
        LogicalOfDirty(now, d[dst := data], i);
      }
    }
  }

  /** NBUF buffers cannot all be dirty with fewer than NBUF blocks logged. */
  lemma CleanBufferLeft(bufs: seq<Buf>, lh: seq<nat>)
    requires |bufs| == NBUF && UniqueKeys(bufs) && |lh| < NBUF
    requires forall i :: 0 <= i < NBUF && bufs[i].dirty ==> bufs[i].dev == ROOTDEV && bufs[i].blockno in lh
    ensures exists i :: 0 <= i < |bufs| && !bufs[i].dirty
  {
    if forall i :: 0 <= i < |bufs| ==> bufs[i].dirty {
      var nos := seq(NBUF, i requires 0 <= i < NBUF => bufs[i].blockno);
      forall i, j | 0 <= i < j < NBUF ensures nos[i] != nos[j] {
        KeysDiffer(bufs, i, j);
      }
      SeqSize(nos);
      var a := set i | 0 <= i < |nos| :: nos[i];
      var b := set i | 0 <= i < |lh| :: lh[i];
      forall x | x in a ensures x in b {
        assert x in lh;
      }
      SubsetSize(a, b);
      SetAtMost(lh);
    }
  }

  /** Every block reads as before, except that block dst now holds data on disk and in the cache. */
  ghost predicate WroteBlock(was: seq<Buf>, now: seq<Buf>, d: Disk, e: Disk, dst: nat, data: Block)
    requires dst < |d|
  {
    && e == d[dst := data]
    && (forall b: nat :: DirtyBlock(now, b) <==> DirtyBlock(was, b) && b != dst)
    && (forall b :: 0 <= b < |d| ==>
          Logical(now, e, b) == if b == dst then data else Logical(was, d, b))
  }

  /** Two buffers in use, each by one reference more than the readers have. */
  ghost predicate InUse(bc: BCache, refs: seq<nat>, i: nat, j: nat)
    reads bc
  {
    && |bc.bufs| == NBUF == |refs| && bc.held == {} && i < NBUF && j < NBUF && i != j
    && bc.bufs[i].valid && bc.bufs[j].valid && bc.bufs[i].refcnt == refs[i] + 1 && bc.bufs[j].refcnt == refs[j] + 1
    && forall k :: 0 <= k < NBUF && k != i && k != j ==> bc.bufs[k].refcnt == refs[k]
  }

  predicate LeftAlone(a: Buf, b: Buf) {
    (Recyclable(a) ==> Recyclable(b)) && (a.refcnt > 0 ==> b.dev == a.dev && b.blockno == a.blockno)
  }

  /** A buffer that was to be had still is, and a buffer somebody reads still holds the same block. */
  ghost predicate Undisturbed(was: seq<Buf>, now: seq<Buf>) {
    |was| == |now| && forall k :: 0 <= k < |was| ==> LeftAlone(was[k], now[k])
  }

  lemma UndisturbedKeeps(cfg: Config, was: seq<Buf>, now: seq<Buf>)
    requires Undisturbed(was, now) && forall k :: 0 <= k < |was| ==> now[k].refcnt == was[k].refcnt
    ensures SomeSpare(was) ==> SomeSpare(now)
    ensures TwoSpare(was) ==> TwoSpare(now)
    ensures ReadersAtHome(cfg, was) ==> ReadersAtHome(cfg, now)
  {
    if SomeSpare(was) {
      var k :| 0 <= k < |was| && Recyclable(was[k]);
      assert LeftAlone(was[k], now[k]);
    }
    if TwoSpare(was) {
      var i, j :| 0 <= i < j < |was| && Recyclable(was[i]) && Recyclable(was[j]);
      assert LeftAlone(was[i], now[i]) && LeftAlone(was[j], now[j]);
    }
    forall k | 0 <= k < |now| && ReadersAtHome(cfg, was) && now[k].refcnt > 0
      && now[k].dev == ROOTDEV ensures !InLog(cfg, now[k].blockno) {
      assert LeftAlone(was[k], now[k]);
    }
  }

  method ReadPair(bc: BCache, slot: nat, home: nat, ghost refs: seq<nat>) returns (ok: bool, i: nat, j: nat)
    requires bc.Valid() && Shared(bc, refs) && slot != home && slot < |bc.disk| && home < |bc.disk|
    requires !DirtyBlock(bc.bufs, slot)
    modifies bc`bufs
    ensures bc.Valid()
    ensures SomeSpare(old(bc.bufs)) && (DirtyBlock(old(bc.bufs), home) || TwoSpare(old(bc.bufs))) ==> ok
    ensures !SomeSpare(old(bc.bufs)) && (forall k :: 0 <= k < NBUF ==> !HasKey(old(bc.bufs)[k], ROOTDEV, slot)) ==> !ok
    ensures ok ==>
      && InUse(bc, refs, i, j) && PairTaken(old(bc.bufs), bc.bufs, i, j)
      && HasKey(bc.bufs[i], ROOTDEV, slot) && HasKey(bc.bufs[j], ROOTDEV, home)
      && bc.bufs[i].data == Logical(old(bc.bufs), bc.disk, slot)
      && bc.bufs[j].data == Logical(old(bc.bufs), bc.disk, home)
      && bc.SameContents()
  {
    i, j := 0, 0;
    var r := bc.Bread(ROOTDEV, slot);
    if r.None? {
      return false, 0, 0;
    }
    i := r.value;
    assert !bc.bufs[i].dirty by {
      assert bc.bufs[i].dirty ==> DirtyAt(bc.bufs, i, slot);
    }
    label L:
    r := bc.Bread(ROOTDEV, home);
    if r.None? {
      HomeMissed(old(bc.bufs), old@L(bc.bufs), i, home);
      return false, 0, 0;
    }
    j := r.value;
    PairInUse(old(bc.bufs), i, j, slot, home, bc.disk);
    ok := true;
  }

  /** Buffers i and j have one more reader; one that was referenced or pinned keeps its block. */
  ghost predicate PairTaken(was: seq<Buf>, now: seq<Buf>, i: nat, j: nat) {
    && |was| == |now| && i < |was| && j < |was| && i != j
    && Taken(was[i], now[i]) && Taken(was[j], now[j])
    && forall k :: 0 <= k < |was| && k != i && k != j ==> now[k] == was[k]
  }

  predicate Taken(a: Buf, b: Buf) {
    && b.refcnt == a.refcnt + 1 && b.dirty == a.dirty
    && (a.refcnt > 0 || a.dirty ==> b.dev == a.dev && b.blockno == a.blockno)
  }

  lemma PairInUse(was: seq<Buf>, i: nat, j: nat, slot: nat, home: nat, disk: Disk)
    requires slot < |disk| && home < |disk| && slot != home && i < |was| && j < |was|
    requires HasKey(was[i], ROOTDEV, slot) || Recyclable(was[i])
    requires var mid := was[i := Loaded(was[i], slot, disk)];
             HasKey(mid[j], ROOTDEV, home) || Recyclable(mid[j])
    ensures i != j
    ensures var now := was[i := Loaded(was[i], slot, disk)][j := Loaded(was[j], home, disk)];
            && PairTaken(was, now, i, j) && now[i].valid && now[j].valid
            && HasKey(now[i], ROOTDEV, slot) && HasKey(now[j], ROOTDEV, home)
            && now[i] == Loaded(was[i], slot, disk)
  {
  }

  /** If the home block found no buffer, there was at most one to be had to begin with. */
  lemma HomeMissed(was: seq<Buf>, now: seq<Buf>, i: nat, home: nat)
    requires |was| == |now| && i < |was|
    requires forall k :: 0 <= k < |was| && k != i ==> now[k] == was[k]
    requires !was[i].dirty
    requires forall k :: 0 <= k < |now| ==> !HasKey(now[k], ROOTDEV, home) && !Recyclable(now[k])
    ensures !DirtyBlock(was, home) && !TwoSpare(was)
  {
  }

  lemma WriteOutDirty(was: seq<Buf>, src: nat, dst: nat, now: seq<Buf>)
    requires UniqueKeys(was) && |was| == |now| && src < |was| && dst < |was| && src != dst
    requires was[dst].dev == ROOTDEV
    requires now == was[dst := now[dst]][src := was[src].(refcnt := now[src].refcnt)] && !now[dst].dirty
    ensures forall i: nat, b: nat :: DirtyAt(now, i, b) <==> DirtyAt(was, i, b) && b != was[dst].blockno
    ensures forall i :: 0 <= i < |now| && now[i].dirty ==> now[i].data == was[i].data
  {
    forall i: nat, b: nat
      ensures DirtyAt(now, i, b) <==> DirtyAt(was, i, b) && b != was[dst].blockno
    {
      if i != dst && DirtyAt(was, i, b) {
        KeysDiffer(was, i, dst);
      }
    }
  }

  /** Buffers src and dst have one reader less, dst is clean, and no buffer has changed its block. */
  ghost predicate PairGiven(was: seq<Buf>, now: seq<Buf>, src: nat, dst: nat) {
    && |was| == |now| && src < |was| && dst < |was| && !now[dst].dirty && now[src].dirty == was[src].dirty
    && now[dst].dev == was[dst].dev && now[dst].blockno == was[dst].blockno && now[src].dev == was[src].dev
       && now[src].blockno == was[src].blockno
    && forall k :: 0 <= k < |was| && k != src && k != dst ==> now[k] == was[k]
  }

  lemma CopyUndisturbed(was: seq<Buf>, mid: seq<Buf>, now: seq<Buf>, i: nat, j: nat, src: nat, dst: nat)
    requires PairTaken(was, mid, i, j) && PairGiven(mid, now, src, dst)
             && ((src == i && dst == j) || (src == j && dst == i))
    requires forall k :: 0 <= k < |was| ==> now[k].refcnt == was[k].refcnt
    ensures Undisturbed(was, now)
  {
    forall k | 0 <= k < |was| ensures LeftAlone(was[k], now[k]) {
      assert k == i ==> Taken(was[i], mid[i]);
      assert k == j ==> Taken(was[j], mid[j]);
    }
  }

  /** The bytes of src go into dst and to disk, and both buffers are released. */
  method PutOut(bc: BCache, src: nat, dst: nat)
    requires bc.Valid() && src < NBUF && dst < NBUF && src != dst && bc.held == {}
    requires bc.bufs[src].valid && bc.bufs[dst].valid && bc.bufs[src].refcnt > 0 && bc.bufs[dst].refcnt > 0
    modifies bc
    ensures bc.Valid() && bc.held == {}
    ensures var a, b := old(bc.bufs)[src], old(bc.bufs)[dst];
            && b.dev == ROOTDEV && b.blockno < |old(bc.disk)| && |a.data| == WORDS
            && bc.bufs == old(bc.bufs)[dst := b.(data := a.data, dirty := false, refcnt := b.refcnt - 1)][src
               := a.(refcnt := a.refcnt - 1)]
            && bc.disk == old(bc.disk)[b.blockno := a.data] && bc.writes == old(bc.writes) + [Write(b.blockno, a.data)]
  {
    bc.Modify(dst, bc.bufs[src].data);
    bc.Bwrite(dst);
    bc.Brelse(src);
    bc.Brelse(dst);
  }

  /** The copy is made, written to disk, and both buffers are released. */
  method WriteOut(bc: BCache, src: nat, dst: nat, ghost refs: seq<nat>)
    requires bc.Valid() && InUse(bc, refs, src, dst)
    modifies bc
    ensures bc.Valid() && Shared(bc, refs) && PairGiven(old(bc.bufs), bc.bufs, src, dst)
    ensures var bno := old(bc.bufs[dst].blockno);
            var data := old(bc.bufs[src].data);
            && bno < |old(bc.disk)| && |data| == WORDS
            && WroteBlock(old(bc.bufs), bc.bufs, old(bc.disk), bc.disk, bno, data)
            && bc.writes == old(bc.writes) + [Write(bno, data)]
  {
    ghost var bno, data := bc.bufs[dst].blockno, bc.bufs[src].data;
    PutOut(bc, src, dst);
    WriteOutDirty(old(bc.bufs), src, dst, bc.bufs);
    WriteBack(old(bc.bufs), bc.bufs, old(bc.disk), bno, data);
  }

  /** A block is read and its buffer released. */
  method ReadOut(bc: BCache, b: nat) returns (data: Block)
    requires bc.Valid() && b < |bc.disk| && bc.held == {} && SomeSpare(bc.bufs)
    modifies bc
    ensures bc.Valid() && bc.SameContents() && data == Logical(old(bc.bufs), bc.disk, b)
    ensures forall i :: 0 <= i < NBUF ==> bc.bufs[i].refcnt == old(bc.bufs)[i].refcnt
  {
    var r := bc.Bread(ROOTDEV, b);
    ghost var was := bc.bufs;
    data := bc.bufs[r.value].data;
    bc.Brelse(r.value);
    SameDirty(was, bc.bufs, bc.disk, r.value);
  }

  /**
   One turn of the loops of write_log and install_trans: read the log slot and the home
   block, copy one over the other, write the copy to disk and release both buffers.
   The result is false for the panic "bget: no buffers".
   */
  method CopyBlock(bc: BCache, slot: nat, home: nat, toHome: bool, ghost refs: seq<nat>) returns (ok: bool)
    requires bc.Valid() && Shared(bc, refs) && slot != home && slot < |bc.disk| && home < |bc.disk|
    requires !DirtyBlock(bc.bufs, slot)
    modifies bc
    ensures bc.Valid()
    ensures SomeSpare(old(bc.bufs)) && (DirtyBlock(old(bc.bufs), home) || TwoSpare(old(bc.bufs))) ==> ok
    ensures !SomeSpare(old(bc.bufs)) && (forall k :: 0 <= k < NBUF ==> !HasKey(old(bc.bufs)[k], ROOTDEV, slot)) ==> !ok
    ensures ok ==>
      var dst := if toHome then home else slot;
      var data := Logical(old(bc.bufs), old(bc.disk), if toHome then slot else home);
      && Shared(bc, refs) && |data| == WORDS && Undisturbed(old(bc.bufs), bc.bufs)
      && WroteBlock(old(bc.bufs), bc.bufs, old(bc.disk), bc.disk, dst, data)
      && bc.writes == old(bc.writes) + [Write(dst, data)]
  {
    var i, j;
    ok, i, j := ReadPair(bc, slot, home, refs);
    if ok {
      ghost var mid := bc.bufs;
      if toHome {
        WriteOut(bc, i, j, refs);
        CopyUndisturbed(old(bc.bufs), mid, bc.bufs, i, j, i, j);
      } else {
        WriteOut(bc, j, i, refs);
        CopyUndisturbed(old(bc.bufs), mid, bc.bufs, i, j, j, i);
      }
    }
  }

  /** A single block is read, changed, written to disk and released. */
  method Overwrite(bc: BCache, i: nat, data: Block, ghost refs: seq<nat>)
    requires bc.Valid() && bc.held == {} && |refs| == NBUF && i < NBUF && bc.bufs[i].valid
             && bc.bufs[i].refcnt == refs[i] + 1 && |data| == WORDS
    requires forall k :: 0 <= k < NBUF && k != i ==> bc.bufs[k].refcnt == refs[k]
    modifies bc
    ensures bc.Valid() && Shared(bc, refs) && OneGiven(old(bc.bufs), bc.bufs, i)
    ensures var bno := old(bc.bufs[i].blockno);
            && bno < |old(bc.disk)|
            && WroteBlock(old(bc.bufs), bc.bufs, old(bc.disk), bc.disk, bno, data)
            && bc.writes == old(bc.writes) + [Write(bno, data)]
  {
    var bno := bc.bufs[i].blockno;
    bc.Modify(i, data);
    bc.Bwrite(i);
    bc.Brelse(i);
    OneCleaned(old(bc.bufs), i, bc.bufs);
    WriteBack(old(bc.bufs), bc.bufs, old(bc.disk), bno, data);
  }

  ghost predicate OneGiven(was: seq<Buf>, now: seq<Buf>, i: nat) {
    && |was| == |now| && i < |was| && !now[i].dirty && now[i].dev == was[i].dev && now[i].blockno == was[i].blockno
    && forall k :: 0 <= k < |was| && k != i ==> now[k] == was[k]
  }

  lemma OneCleaned(was: seq<Buf>, dst: nat, now: seq<Buf>)
    requires UniqueKeys(was) && |was| == |now| && dst < |was| && was[dst].dev == ROOTDEV
    requires now == was[dst := now[dst]] && !now[dst].dirty
    ensures forall i: nat, b: nat :: DirtyAt(now, i, b) <==> DirtyAt(was, i, b) && b != was[dst].blockno
    ensures forall i :: 0 <= i < |now| && now[i].dirty ==> now[i].data == was[i].data
  {
    forall i: nat, b: nat
      ensures DirtyAt(now, i, b) <==> DirtyAt(was, i, b) && b != was[dst].blockno
    {
      if i != dst && DirtyAt(was, i, b) {
        KeysDiffer(was, i, dst);
      }
    }
  }

  /** NBUF distinct dirty blocks leave no clean buffer. */
  lemma NoCleanBuffer(bufs: seq<Buf>, lh: seq<nat>)
    requires |bufs| == NBUF == |lh| && forall i, j :: 0 <= i < j < |lh| ==> lh[i] != lh[j]
    requires forall i :: 0 <= i < |lh| ==> DirtyBlock(bufs, lh[i])
    ensures forall i :: 0 <= i < |bufs| ==> bufs[i].dirty
  {
    if exists c :: 0 <= c < |bufs| && !bufs[c].dirty {
      var c :| 0 <= c < NBUF && !bufs[c].dirty;
      var rest := seq(NBUF, i requires 0 <= i < NBUF => if bufs[i].dirty then bufs[i].blockno
          else bufs[(c + 1) % NBUF].blockno);
      var pick := rest[..c] + rest[c + 1..];
      SetAtMost(pick);
      SeqSize(lh);
      var a := set i | 0 <= i < |lh| :: lh[i];
      var b := set i | 0 <= i < |pick| :: pick[i];
      forall x | x in a ensures x in b {
        var k: nat :| DirtyAt(bufs, k, x);
        assert pick[if k < c then k else k - 1] == x;
      }
      SubsetSize(a, b);
    }
  }

  lemma PrefixGrows<T>(pre: seq<T>, ws: seq<T>, k: nat)
    requires k < |ws|
    ensures pre + ws[..k] + [ws[k]] == pre + ws[..k + 1]
  {
  }

  /** The current contents of the blocks of a list, in order. */
  ghost function Contents(bufs: seq<Buf>, disk: Disk, lh: seq<nat>): (data: seq<Block>)
    requires forall i :: 0 <= i < |lh| ==> lh[i] < |disk|
    ensures |data| == |lh|
  {
    seq(|lh|, i requires 0 <= i < |lh| => Logical(bufs, disk, lh[i]))
  }

  ghost predicate NoRepeats(lh: seq<nat>) {
    forall i, j :: 0 <= i < j < |lh| ==> lh[i] != lh[j]
  }

  /** The dirty buffers are exactly those of the blocks in the list. */
  ghost predicate DirtyExactly(bufs: seq<Buf>, lh: seq<nat>) {
    forall b: nat :: DirtyBlock(bufs, b) <==> b in lh
  }

  lemma ContentsWords(bufs: seq<Buf>, disk: Disk, held: set<nat>, lh: seq<nat>)
    requires UniqueKeys(bufs) && Coherent(bufs, disk, held)
    requires forall i :: 0 <= i < |disk| ==> |disk[i]| == WORDS
    requires forall i :: 0 <= i < |lh| ==> lh[i] < |disk|
    ensures forall i :: 0 <= i < |lh| ==> |Contents(bufs, disk, lh)[i]| == WORDS
  {
    forall i | 0 <= i < |lh| ensures |Logical(bufs, disk, lh[i])| == WORDS {
      if DirtyBlock(bufs, lh[i]) {
        var k: nat :| DirtyAt(bufs, k, lh[i]);
        LogicalOfDirty(bufs, disk, k);
      }
    }
  }

  /** Without readers, one more buffer can be found exactly while fewer than NBUF blocks are logged. */
  lemma SpareIffShort(bufs: seq<Buf>, disk: Disk, held: set<nat>, lh: seq<nat>)
    requires |bufs| == NBUF && UniqueKeys(bufs) && Coherent(bufs, disk, held)
    requires DirtyExactly(bufs, lh) && NoRepeats(lh) && |lh| <= NBUF
             && forall i :: 0 <= i < NBUF ==> bufs[i].refcnt == 0
    ensures SomeSpare(bufs) <==> |lh| < NBUF
  {
    if |lh| < NBUF {
      forall i | 0 <= i < NBUF && bufs[i].dirty ensures bufs[i].dev == ROOTDEV && bufs[i].blockno in lh {
        assert DirtyAt(bufs, i, bufs[i].blockno);
      }
      CleanBufferLeft(bufs, lh);
      var i :| 0 <= i < |bufs| && !bufs[i].dirty;
      assert Recyclable(bufs[i]);
    } else {
      assert forall i :: 0 <= i < |lh| ==> lh[i] in lh;
      NoCleanBuffer(bufs, lh);
    }
  }

  /** The loop of read_head: block[0..n) of the header block. */
  method ReadEntries(h: Block) returns (entries: seq<nat>)
    requires HeaderOk(h)
    ensures entries == DecodeHeader(h)
  {
    entries := [];
    var i := 0;
    while i < h[0]
      invariant 0 <= i <= h[0] && |entries| == i
      invariant forall k :: 0 <= k < i ==> entries[k] == h[k + 1]
    {
      entries := entries + [h[i + 1]];
      i := i + 1;
    }
  }

  class Log {
    const cfg: Config
    const bc: BCache
    var lh: seq<nat>
    var outstanding: int
    var committing: bool

    constructor (c: Config, cache: BCache)
      ensures cfg == c && bc == cache && lh == [] && outstanding == 0 && !committing
    {
      cfg, bc, lh, outstanding, committing := c, cache, [], 0, false;
    }

    /** Between commits the dirty buffers are exactly those of the blocks in the header. */
    ghost predicate Valid()
      reads this, bc
    {
      && bc.Valid() && ValidDisk(cfg, bc.disk) && ValidList(cfg, bc.disk, lh) && NoRepeats(lh)
      && DirtyExactly(bc.bufs, lh)
    }

    /** One turn of write_log's loop. */
    method WriteLogTurn(tail: nat, ghost refs: seq<nat>) returns (ok: bool)
      requires Valid() && Shared(bc, refs) && ReadersAtHome(cfg, bc.bufs) && tail < |lh|
      modifies bc
      ensures bc.Valid() && (ok <==> SomeSpare(old(bc.bufs)))
      ensures ok ==>
        var w := Write(cfg.start + 1 + tail, old(Contents(bc.bufs, bc.disk, lh))[tail]);
        && Valid() && Shared(bc, refs) && ReadersAtHome(cfg, bc.bufs) && SomeSpare(bc.bufs)
        && Contents(bc.bufs, bc.disk, lh) == old(Contents(bc.bufs, bc.disk, lh))
        && bc.disk == old(bc.disk)[w.bno := w.data]
        && bc.writes == old(bc.writes) + [w]
    {
      assert lh[tail] in lh;
      SlotUncached(cfg, bc.bufs, cfg.start + 1 + tail);
      ok := CopyBlock(bc, cfg.start + 1 + tail, lh[tail], false, refs);
      if ok {
        UndisturbedKeeps(cfg, old(bc.bufs), bc.bufs);
        SlotWritten(cfg, old(bc.bufs), bc.bufs, old(bc.disk), bc.disk, lh, tail);
      }
    }

    /** write_log: copies every logged block from the cache to its log slot. */
    method WriteLog(ghost refs: seq<nat>) returns (ok: bool)
      requires Valid() && Shared(bc, refs) && ReadersAtHome(cfg, bc.bufs)
      modifies bc
      ensures bc.Valid()
      ensures ok <==> lh == [] || SomeSpare(old(bc.bufs))
      ensures ok ==>
        var ws := LogWrites(cfg, old(Contents(bc.bufs, bc.disk, lh)));
        && Valid() && Shared(bc, refs) && (lh != [] ==> SomeSpare(bc.bufs))
        && Contents(bc.bufs, bc.disk, lh) == old(Contents(bc.bufs, bc.disk, lh))
        && InRange(old(bc.disk), ws)
        && bc.disk == Apply(old(bc.disk), ws)
        && bc.writes == old(bc.writes) + ws
    {
      ghost var d0, w0, spare := bc.disk, bc.writes, SomeSpare(bc.bufs);
      ghost var data := Contents(bc.bufs, bc.disk, lh);
      ContentsWords(bc.bufs, bc.disk, bc.held, lh);
      ghost var ws := LogWrites(cfg, data);
      assert InRange(d0, ws);
      var tail := 0;
      while tail < |lh|
        invariant 0 <= tail <= |lh|
        invariant Valid() && Shared(bc, refs) && ReadersAtHome(cfg, bc.bufs) && |bc.disk| == |d0|
        invariant Contents(bc.bufs, bc.disk, lh) == data
        invariant bc.disk == Apply(d0, ws[..tail])
        invariant bc.writes == w0 + ws[..tail]
        invariant SomeSpare(bc.bufs) == spare && (tail > 0 ==> spare)
      {
        ok := WriteLogTurn(tail, refs);
        if !ok {
          return;
        }
        ApplyStep(d0, ws, tail);
        assert ws[tail] == Write(cfg.start + 1 + tail, data[tail]);
        PrefixGrows(w0, ws, tail);
        tail := tail + 1;
      }
      assert ws[..tail] == ws;
      ok := true;
    }

    /** write_head: the in-memory header goes to the front of the header block. */
    method WriteHead(ghost refs: seq<nat>) returns (ok: bool)
      requires bc.Valid() && Shared(bc, refs) && ValidDisk(cfg, bc.disk) && |lh| <= LOGSIZE
      requires !DirtyBlock(bc.bufs, cfg.start) && SomeSpare(bc.bufs)
      modifies bc
      ensures ok && bc.Valid() && Shared(bc, refs) && Undisturbed(old(bc.bufs), bc.bufs)
      ensures var h := EncodeHeader(old(bc.disk)[cfg.start], lh);
              && WroteBlock(old(bc.bufs), bc.bufs, old(bc.disk), bc.disk, cfg.start, h)
              && bc.writes == old(bc.writes) + [Write(cfg.start, h)]
    {
      var r := bc.Bread(ROOTDEV, cfg.start);
      var i := r.value;
      assert Logical(old(bc.bufs), old(bc.disk), cfg.start) == old(bc.disk)[cfg.start];
      ghost var was := bc.bufs;
      Overwrite(bc, i, EncodeHeader(bc.bufs[i].data, lh), refs);
      Rebase(old(bc.bufs), was, bc.bufs, old(bc.disk), bc.disk, cfg.start, EncodeHeader(old(bc.disk)[cfg.start], lh));
      forall k | 0 <= k < NBUF ensures LeftAlone(old(bc.bufs)[k], bc.bufs[k]) {
      }
      ok := true;
    }

    /** One turn of install_trans's loop. */
    method InstallTurn(tail: nat, ghost pinned: bool, ghost refs: seq<nat>)
      requires bc.Valid() && Shared(bc, refs) && ValidDisk(cfg, bc.disk) && ValidList(cfg, bc.disk, lh) && tail < |lh|
      requires EnoughSpare(bc.bufs, pinned) && (pinned ==> NoRepeats(lh))
      requires DirtyExactly(bc.bufs, if pinned then lh[tail..] else [])
      modifies bc
      ensures bc.Valid() && Shared(bc, refs) && ValidDisk(cfg, bc.disk)
      ensures EnoughSpare(bc.bufs, pinned)
      ensures DirtyExactly(bc.bufs, if pinned then lh[tail + 1..] else [])
      ensures var w := Write(lh[tail], old(bc.disk)[cfg.start + 1 + tail]);
              && bc.disk == old(bc.disk)[w.bno := w.data]
              && bc.writes == old(bc.writes) + [w]
    {
      BuffersForInstall(cfg, bc.bufs, bc.disk, lh, tail, pinned);
      var ok := CopyBlock(bc, cfg.start + 1 + tail, lh[tail], true, refs);
      InstalledOne(cfg, old(bc.bufs), bc.bufs, old(bc.disk), bc.disk, lh, tail, pinned);
    }

    /**
     install_trans: copies every log slot to its home block. `pinned` says whether the home
     blocks are still dirty in the cache (commit) or nothing is cached yet (recovery).
     */
    method InstallTrans(ghost pinned: bool, ghost refs: seq<nat>)
      requires bc.Valid() && Shared(bc, refs) && ValidDisk(cfg, bc.disk) && ValidList(cfg, bc.disk, lh)
      requires pinned ==> DirtyExactly(bc.bufs, lh) && NoRepeats(lh) && SomeSpare(bc.bufs)
      requires !pinned ==> DirtyExactly(bc.bufs, []) && TwoSpare(bc.bufs)
      modifies bc
      ensures bc.Valid() && Shared(bc, refs) && DirtyExactly(bc.bufs, []) && SomeSpare(bc.bufs)
      ensures var ws := HomeWrites(lh, Slots(cfg, old(bc.disk), |lh|));
              && InRange(old(bc.disk), ws)
              && bc.disk == Apply(old(bc.disk), ws)
              && bc.writes == old(bc.writes) + ws
    {
      ghost var d0, w0 := bc.disk, bc.writes;
      ghost var ws := HomeWrites(lh, Slots(cfg, d0, |lh|));
      assert InRange(d0, ws) && lh[0..] == lh;
      var tail := 0;
      while tail < |lh|
        invariant 0 <= tail <= |lh| && Installing(d0, w0, ws, tail, pinned, refs)
      {
        InstallStep(tail, d0, w0, ws, pinned, refs);
        tail := tail + 1;
      }
      assert ws[..tail] == ws;
    }

    /** The first tail log slots are in place. */
    ghost predicate Installing(d0: Disk, w0: seq<Write>, ws: seq<Write>, tail: nat, pinned: bool, refs: seq<nat>)
      reads this, bc
    {
      && tail <= |lh| && |ws| == |lh| && InRange(d0, ws) && bc.Valid() && Shared(bc, refs) && |bc.disk| == |d0|
         && ValidDisk(cfg, bc.disk)
      && DirtyExactly(bc.bufs, if pinned then lh[tail..] else []) && EnoughSpare(bc.bufs, pinned)
      && bc.disk == Apply(d0, ws[..tail])
      && bc.writes == w0 + ws[..tail]
    }

    method InstallStep(tail: nat, ghost d0: Disk, ghost w0: seq<Write>, ghost ws: seq<Write>, ghost pinned: bool,
                       ghost refs: seq<nat>)
      requires tail < |lh| && Installing(d0, w0, ws, tail, pinned, refs)
      requires ValidDisk(cfg, d0) && ValidList(cfg, d0, lh) && ws == HomeWrites(lh, Slots(cfg, d0, |lh|))
      requires pinned ==> NoRepeats(lh)
      modifies bc
      ensures Installing(d0, w0, ws, tail + 1, pinned, refs)
    {
      InstallWrite(cfg, d0, lh, ws, w0, tail);
      InstallTurn(tail, pinned, refs);
    }

    /** The first half of commit, up to the write that makes the transaction permanent. */
    method LogAndHeader(ghost refs: seq<nat>) returns (ok: bool)
      requires Valid() && Shared(bc, refs) && ReadersAtHome(cfg, bc.bufs) && lh != [] && Mounted(cfg, bc.disk)
               && Header(cfg, bc.disk) == []
      modifies bc
      ensures ok <==> SomeSpare(old(bc.bufs))
      ensures ok ==>
        var data := old(Contents(bc.bufs, bc.disk, lh));
        && bc.Valid() && Shared(bc, refs) && DirtyExactly(bc.bufs, lh) && SomeSpare(bc.bufs)
        && Committable(cfg, old(bc.disk), lh, data)
        && bc.disk == HeadDisk(cfg, old(bc.disk), lh, data)
        && bc.writes == old(bc.writes) + CommitFront(cfg, old(bc.disk)[cfg.start], lh, data)
    {
      ghost var d0, w0 := bc.disk, bc.writes;
      ghost var data := Contents(bc.bufs, bc.disk, lh);
      ContentsWords(bc.bufs, bc.disk, bc.held, lh);
      ok := WriteLog(refs);
      if ok {
        HeaderUntouched(cfg, d0, lh, data);
        ghost var was := bc.bufs;
        ok := WriteHead(refs);
        UndisturbedKeeps(cfg, was, bc.bufs);
        DirtyKept(cfg, was, bc.bufs, d0, lh);
      }
    }

    /** The second half of commit. */
    method InstallAndClear(ghost d0: Disk, ghost data: seq<Block>, ghost refs: seq<nat>)
      requires bc.Valid() && Shared(bc, refs) && DirtyExactly(bc.bufs, lh) && NoRepeats(lh) && SomeSpare(bc.bufs)
      requires Committable(cfg, d0, lh, data) && bc.disk == HeadDisk(cfg, d0, lh, data)
      modifies this`lh, bc
      ensures bc.Valid() && Shared(bc, refs) && DirtyExactly(bc.bufs, []) && lh == []
      ensures Cleared(cfg, d0, old(lh), data, bc.disk)
      ensures bc.writes == old(bc.writes) + HomeWrites(old(lh), data)
                           + [Write(cfg.start, EncodeHeader(EncodeHeader(d0[cfg.start], old(lh)), []))]
    {
      ghost var lh0 := lh;
      HeaderWritten(cfg, d0, lh, data);
      InstallTrans(true, refs);
      HeadAfterInstall(cfg, d0, lh, data);
      ghost var e := bc.disk;
      assert e == Apply(HeadDisk(cfg, d0, lh0, data), HomeWrites(lh0, data));
      lh := [];
      var ok := WriteHead(refs);
      assert bc.disk == e[cfg.start := EncodeHeader(EncodeHeader(d0[cfg.start], lh0), [])];
    }

    /**
     commit: issues exactly CommitWrites, whatever others are reading meanwhile. It gets
     through unless every buffer of the cache is pinned or referenced, which is the panic
     "bget: no buffers" at the first log slot.
     */
    method Commit(ghost refs: seq<nat>) returns (ok: bool)
      requires Valid() && Shared(bc, refs) && ReadersAtHome(cfg, bc.bufs) && Mounted(cfg, bc.disk)
               && Header(cfg, bc.disk) == []
      modifies this`lh, bc
      ensures ok <==> old(lh) == [] || SomeSpare(old(bc.bufs))
      ensures ok ==>
        && Valid() && Shared(bc, refs) && lh == [] && Mounted(cfg, bc.disk) && Header(cfg, bc.disk) == []
      ensures ok && old(lh) == [] ==> bc.disk == old(bc.disk) && bc.writes == old(bc.writes)
      ensures ok && old(lh) != [] ==>
        var data := old(Contents(bc.bufs, bc.disk, lh));
        && Committable(cfg, old(bc.disk), old(lh), data)
        && bc.disk == CommitDisk(cfg, old(bc.disk), old(lh), data, 2 * |old(lh)| + 2)
        && bc.writes == old(bc.writes) + CommitWrites(cfg, old(bc.disk)[cfg.start], old(lh), data)
    {
      if |lh| == 0 {
        return true;
      }
      ghost var d0, w0, lh0 := bc.disk, bc.writes, lh;
      ghost var data := Contents(bc.bufs, bc.disk, lh);
      ok := LogAndHeader(refs);
      if ok {
        InstallAndClear(d0, data, refs);
        ListWhole(w0, CommitFront(cfg, d0[cfg.start], lh0, data), HomeWrites(lh0, data),
                  [Write(cfg.start, EncodeHeader(EncodeHeader(d0[cfg.start], lh0), []))]);
        CommitListed(cfg, d0, lh0, data, bc.disk);
      }
    }

    /** read_head. */
    method ReadHead()
      requires bc.Valid() && Shared(bc, NoReaders()) && Mounted(cfg, bc.disk) && DirtyExactly(bc.bufs, [])
      modifies this`lh, bc
      ensures bc.Valid() && Shared(bc, NoReaders()) && DirtyExactly(bc.bufs, [])
      ensures bc.disk == old(bc.disk) && bc.writes == old(bc.writes)
      ensures lh == Header(cfg, bc.disk)
    {
      NothingDirty(bc.bufs, bc.disk, bc.held);
      assert Logical(bc.bufs, bc.disk, cfg.start) == bc.disk[cfg.start];
      var head := ReadOut(bc, cfg.start);
      lh := ReadEntries(head);
    }

    /** recover_from_log: issues exactly RecoveryWrites and leaves an empty log. */
    method RecoverFromLog()
      requires bc.Valid() && Shared(bc, NoReaders()) && Mounted(cfg, bc.disk) && DirtyExactly(bc.bufs, [])
      modifies this`lh, bc
      ensures Valid() && Shared(bc, NoReaders()) && lh == []
      ensures bc.disk == Recover(cfg, old(bc.disk))
      ensures bc.writes == old(bc.writes) + RecoveryWrites(cfg, old(bc.disk))
      ensures Mounted(cfg, bc.disk) && Header(cfg, bc.disk) == []
    {
      ghost var d0, w0 := bc.disk, bc.writes;
      ReadHead();
      ghost var lh0 := lh;
      NothingDirty(bc.bufs, bc.disk, bc.held);
      InstallTrans(false, NoReaders());
      InstalledForRecovery(cfg, d0);
      lh := [];
      var ok := WriteHead(NoReaders());
      RecoveryListed(cfg, d0, bc.disk);
      ListTwo(w0, HomeWrites(lh0, Slots(cfg, d0, |lh0|)), [Write(cfg.start, EncodeHeader(d0[cfg.start], []))]);
    }

    /**
     log_write: false is one of its two panics. Otherwise the block is in the header once,
     its buffer is pinned, and it now reads as what the caller put into the buffer.
     */
    method LogWrite(i: nat) returns (ok: bool)
      requires Valid() && i < NBUF && bc.bufs[i].valid && bc.bufs[i].refcnt > 0
      requires !InLog(cfg, bc.bufs[i].blockno)
      modifies this`lh, bc`bufs, bc`held
      ensures Valid()
      ensures ok <==> |old(lh)| < LOGSIZE && |old(lh)| < cfg.size - 1 && outstanding >= 1
      ensures !ok ==> lh == old(lh) && bc.bufs == old(bc.bufs)
      ensures ok ==>
        var b := old(bc.bufs[i].blockno);
        && b < |bc.disk|
        && lh == (if b in old(lh) then old(lh) else old(lh) + [b])
        && bc.held == old(bc.held) - {i}
        && forall x :: 0 <= x < |bc.disk| ==>
             Logical(bc.bufs, bc.disk, x) ==
               if x == b then old(bc.bufs[i].data) else Logical(old(bc.bufs), bc.disk, x)
    {
      if |lh| >= LOGSIZE || |lh| >= cfg.size - 1 {
        return false;
      }
      if outstanding < 1 {
        return false;
      }
      var b := bc.bufs[i].blockno;
      var k := 0;
      while k < |lh| && lh[k] != b
        invariant 0 <= k <= |lh| && b !in lh[..k]
      {
        k := k + 1;
      }
      if k == |lh| {
        assert lh[..k] == lh;
        lh := lh + [b];
      } else {
        lh := lh[k := b];
        assert lh == old(lh) && b in lh;
      }
      PinContents(bc.bufs, bc.disk, i);
      bc.Pin(i);
      ok := true;
    }

    /**
     begin_op without its loop: false means that the caller sleeps and tries again. Once
     admitted, the log has room for the worst case of every operation under way.
     */
    method BeginOp() returns (admitted: bool)
      requires Valid()
      modifies this`outstanding
      ensures Valid()
      ensures admitted ==> |lh| + outstanding * MAXOPBLOCKS <= LOGSIZE
      ensures admitted <==> !committing && |lh| + (old(outstanding) + 1) * MAXOPBLOCKS <= LOGSIZE
      ensures outstanding == old(outstanding) + (if admitted then 1 else 0)
    {
      if committing {
        return false;
      } else if |lh| + (outstanding + 1) * MAXOPBLOCKS > LOGSIZE {
        return false;
      }
      outstanding := outstanding + 1;
      return true;
    }

    /** end_op: the last operation out commits. False is a panic. */
    method EndOp(ghost refs: seq<nat>) returns (ok: bool)
      requires Valid() && outstanding >= 1
      requires outstanding == 1 ==>
                 Shared(bc, refs) && ReadersAtHome(cfg, bc.bufs) && Mounted(cfg, bc.disk) && Header(cfg, bc.disk) == []
      modifies this`lh, this`outstanding, this`committing, bc
      ensures ok <==> !old(committing) && (old(outstanding) > 1 || old(lh) == [] || SomeSpare(old(bc.bufs)))
      ensures ok ==>
                Valid() && outstanding == old(outstanding) - 1 && lh == (if outstanding == 0 then [] else old(lh))
                    && !committing
      ensures ok && (outstanding > 0 || old(lh) == []) ==> bc.disk == old(bc.disk)
      ensures ok && outstanding == 0 && old(lh) != [] ==>
        var data := old(Contents(bc.bufs, bc.disk, lh));
        && Committable(cfg, old(bc.disk), old(lh), data)
        && bc.disk == CommitDisk(cfg, old(bc.disk), old(lh), data, 2 * |old(lh)| + 2)
    {
      outstanding := outstanding - 1;
      if committing {
        return false;
      }
      ok := true;
      if outstanding == 0 {
        committing := true;
        ok := Commit(refs);
        committing := false;
      }
    }
  }

  lemma ListTwo<T>(a: seq<T>, b: seq<T>, c: seq<T>)
    ensures a + b + c == a + (b + c)
  {
  }

  lemma InstalledForRecovery(cfg: Config, d: Disk)
    requires Mounted(cfg, d)
    ensures var lh := Header(cfg, d);
            var hw := HomeWrites(lh, Slots(cfg, d, |lh|));
            && InRange(d, hw) && ValidDisk(cfg, Apply(d, hw))
            && Apply(d, hw)[cfg.start] == d[cfg.start]
            && Recover(cfg, d) == Apply(d, hw)[cfg.start := EncodeHeader(d[cfg.start], [])]
  {
    var lh := Header(cfg, d);
    var data := Slots(cfg, d, |lh|);
    var hw := HomeWrites(lh, data);
    assert hw[..|lh|] == hw;
    HomePrefix(cfg, d, lh, data, |lh|);
    assert RecoveryWrites(cfg, d)[..|hw|] == hw;
  }

  lemma RecoveryListed(cfg: Config, d: Disk, e: Disk)
    requires Mounted(cfg, d)
    requires var lh := Header(cfg, d);
             var hw := HomeWrites(lh, Slots(cfg, d, |lh|));
             InRange(d, hw) && e == Apply(d, hw)[cfg.start := EncodeHeader(d[cfg.start], [])]
    ensures e == Recover(cfg, d) && Mounted(cfg, e) && Header(cfg, e) == []
  {
    InstalledForRecovery(cfg, d);
    RecoverHome(cfg, d);
  }

  lemma PinContents(was: seq<Buf>, disk: Disk, i: nat)
    requires UniqueKeys(was) && i < |was| && was[i].dev == ROOTDEV && was[i].blockno < |disk|
    ensures var now := was[i := was[i].(dirty := true)];
            var b := was[i].blockno;
            && (forall x: nat :: DirtyBlock(now, x) <==> DirtyBlock(was, x) || x == b)
            && forall x :: 0 <= x < |disk| ==>
                 Logical(now, disk, x) == if x == b then was[i].data else Logical(was, disk, x)
  {
    var now := was[i := was[i].(dirty := true)];
    var b := was[i].blockno;
    KeysKept(was, i, now[i]);
    assert DirtyAt(now, i, b);
    LogicalOfDirty(now, disk, i);
    forall x: nat | x != b ensures DirtyBlock(now, x) <==> DirtyBlock(was, x) {
      assert forall k: nat :: DirtyAt(now, k, x) <==> DirtyAt(was, k, x);
    }
    forall x | 0 <= x < |disk| && x != b && DirtyBlock(was, x) ensures Logical(now, disk, x) == Logical(was, disk, x) {
      var k: nat :| DirtyAt(was, k, x);
      assert DirtyAt(now, k, x);
      LogicalOfDirty(was, disk, k);
      LogicalOfDirty(now, disk, k);
    }
  }

  lemma ListWhole<T>(a: seq<T>, b: seq<T>, c: seq<T>, d: seq<T>)
    ensures a + b + c + d == a + (b + c + d)
  {
  }

  lemma HeaderUntouched(cfg: Config, d: Disk, lh: seq<nat>, data: seq<Block>)
    requires Committable(cfg, d, lh, data)
    ensures InRange(d, LogWrites(cfg, data))
    ensures Apply(d, LogWrites(cfg, data))[cfg.start] == d[cfg.start]
  {
    assert LogWrites(cfg, data)[..|lh|] == LogWrites(cfg, data);
    CrashBeforeHeader(cfg, d, lh, data, |lh|);
  }

  lemma HeadAfterInstall(cfg: Config, d: Disk, lh: seq<nat>, data: seq<Block>)
    requires Committable(cfg, d, lh, data)
    ensures InRange(d, HomeWrites(lh, data))
    ensures var e := Apply(HeadDisk(cfg, d, lh, data), HomeWrites(lh, data));
            ValidDisk(cfg, e) && e[cfg.start] == EncodeHeader(d[cfg.start], lh)
  {
    HeaderWritten(cfg, d, lh, data);
    assert HomeWrites(lh, data)[..|lh|] == HomeWrites(lh, data);
    HomePrefix(cfg, HeadDisk(cfg, d, lh, data), lh, data, |lh|);
  }

  /** The disk after the last write of commit, one write after HeadDisk has been installed. */
  ghost predicate Cleared(cfg: Config, d: Disk, lh: seq<nat>, data: seq<Block>, e: Disk)
    requires Committable(cfg, d, lh, data)
  {
    && InRange(d, HomeWrites(lh, data))
    && e == Apply(HeadDisk(cfg, d, lh, data), HomeWrites(lh, data))
            [cfg.start := EncodeHeader(EncodeHeader(d[cfg.start], lh), [])]
  }

  lemma CommitListed(cfg: Config, d: Disk, lh: seq<nat>, data: seq<Block>, e: Disk)
    requires Committable(cfg, d, lh, data) && Cleared(cfg, d, lh, data, e)
    ensures e == CommitDisk(cfg, d, lh, data, 2 * |lh| + 2)
    ensures Mounted(cfg, e) && Header(cfg, e) == []
  {
    var ws := CommitWrites(cfg, d[cfg.start], lh, data);
    assert ws[..2 * |lh| + 2] == ws;
    PrefixCleared(cfg, d, lh, data);
    CrashAfterClear(cfg, d, lh, data);
  }

  lemma DirtyKept(cfg: Config, was: seq<Buf>, now: seq<Buf>, d: Disk, lh: seq<nat>)
    requires DirtyExactly(was, lh) && ValidList(cfg, d, lh) && cfg.size >= 1
    requires forall b: nat :: DirtyBlock(now, b) <==> DirtyBlock(was, b) && b != cfg.start
    ensures DirtyExactly(now, lh)
  {
    assert cfg.start !in lh;
  }

  /** The tail-th write of install_trans, as the next step of the list of writes. */
  lemma InstallWrite(cfg: Config, d: Disk, lh: seq<nat>, ws: seq<Write>, w0: seq<Write>, tail: nat)
    requires ValidDisk(cfg, d) && ValidList(cfg, d, lh) && tail < |lh| && ws == HomeWrites(lh, Slots(cfg, d, |lh|))
    ensures InRange(d, ws) && |Apply(d, ws[..tail])| == |d| && lh[tail] < |d| && cfg.start + 1 + tail < |d|
    ensures var e, w := Apply(d, ws[..tail]), Write(lh[tail], d[cfg.start + 1 + tail]);
            && e[cfg.start + 1 + tail] == w.data
            && Apply(d, ws[..tail + 1]) == e[w.bno := w.data]
            && w0 + ws[..tail] + [w] == w0 + ws[..tail + 1]
  {
    SlotIntact(cfg, d, lh, tail);
    ApplyStep(d, ws, tail);
    assert ws[tail] == Write(lh[tail], Slots(cfg, d, |lh|)[tail]);
    PrefixGrows(w0, ws, tail);
  }

  lemma InstalledOne(cfg: Config, was: seq<Buf>, now: seq<Buf>, d: Disk, e: Disk, lh: seq<nat>, tail: nat, pinned: bool)
    requires ValidDisk(cfg, d) && ValidList(cfg, d, lh) && tail < |lh| && (pinned ==> NoRepeats(lh))
             && EnoughSpare(was, pinned)
    requires DirtyExactly(was, if pinned then lh[tail..] else []) && !DirtyBlock(was, cfg.start + 1 + tail)
    requires Undisturbed(was, now) && forall k :: 0 <= k < |was| ==> now[k].refcnt == was[k].refcnt
    requires |Logical(was, d, cfg.start + 1 + tail)| == WORDS
             && WroteBlock(was, now, d, e, lh[tail], Logical(was, d, cfg.start + 1 + tail))
    ensures ValidDisk(cfg, e) && EnoughSpare(now, pinned) && DirtyExactly(now, if pinned then lh[tail + 1..] else [])
    ensures e == d[lh[tail] := d[cfg.start + 1 + tail]]
  {
    UndisturbedKeeps(cfg, was, now);
    DirtyShrinks(was, now, lh, tail, pinned);
  }

  lemma DirtyShrinks(was: seq<Buf>, now: seq<Buf>, lh: seq<nat>, tail: nat, pinned: bool)
    requires tail < |lh| && (pinned ==> NoRepeats(lh))
    requires DirtyExactly(was, if pinned then lh[tail..] else [])
    requires forall b: nat :: DirtyBlock(now, b) <==> DirtyBlock(was, b) && b != lh[tail]
    ensures DirtyExactly(now, if pinned then lh[tail + 1..] else [])
  {
    if pinned {
      assert lh[tail..] == [lh[tail]] + lh[tail + 1..];
      assert lh[tail] !in lh[tail + 1..];
    }
  }

  lemma SlotIntact(cfg: Config, d: Disk, lh: seq<nat>, tail: nat)
    requires ValidDisk(cfg, d) && ValidList(cfg, d, lh) && tail < |lh|
    ensures var hw := HomeWrites(lh, Slots(cfg, d, |lh|));
            && InRange(d, hw) && ValidDisk(cfg, Apply(d, hw[..tail]))
            && Apply(d, hw[..tail])[cfg.start + 1 + tail] == d[cfg.start + 1 + tail]
  {
    HomePrefix(cfg, d, lh, Slots(cfg, d, |lh|), tail);
    assert InLog(cfg, cfg.start + 1 + tail);
  }

  /** install_trans finds its two buffers: the home block is pinned, or there are two to be had. */
  lemma BuffersForInstall(cfg: Config, bufs: seq<Buf>, disk: Disk, lh: seq<nat>, tail: nat, pinned: bool)
    requires ValidList(cfg, disk, lh) && tail < |lh|
    requires EnoughSpare(bufs, pinned)
    requires DirtyExactly(bufs, if pinned then lh[tail..] else [])
    ensures SomeSpare(bufs) && !DirtyBlock(bufs, cfg.start + 1 + tail)
    ensures DirtyBlock(bufs, lh[tail]) || TwoSpare(bufs)
  {
    if pinned {
      assert lh[tail..][0] == lh[tail];
    }
  }

  /** A log slot is cached only in a buffer that is to be had. */
  lemma SlotUncached(cfg: Config, bufs: seq<Buf>, slot: nat)
    requires ReadersAtHome(cfg, bufs) && InLog(cfg, slot) && !DirtyBlock(bufs, slot)
    ensures !SomeSpare(bufs) ==> forall k :: 0 <= k < |bufs| ==> !HasKey(bufs[k], ROOTDEV, slot)
  {
    forall k: nat | k < |bufs| && HasKey(bufs[k], ROOTDEV, slot) ensures Recyclable(bufs[k]) {
      assert !DirtyAt(bufs, k, slot);
    }
  }

  lemma NothingDirty(bufs: seq<Buf>, disk: Disk, held: set<nat>)
    requires |bufs| == NBUF && Coherent(bufs, disk, held) && DirtyExactly(bufs, [])
             && forall i :: 0 <= i < NBUF ==> bufs[i].refcnt == 0
    ensures SomeSpare(bufs) && TwoSpare(bufs)
  {
    forall i | 0 <= i < NBUF ensures !bufs[i].dirty {
      assert bufs[i].dirty ==> DirtyAt(bufs, i, bufs[i].blockno) && DirtyBlock(bufs, bufs[i].blockno);
    }
    assert Recyclable(bufs[0]) && Recyclable(bufs[1]);
  }

  /** A step that changed no contents, followed by a write, is a write. */
  lemma Rebase(a: seq<Buf>, b: seq<Buf>, c: seq<Buf>, d: Disk, e: Disk, dst: nat, data: Block)
    requires dst < |d| && WroteBlock(b, c, d, e, dst, data)
    requires forall x: nat :: DirtyBlock(b, x) <==> DirtyBlock(a, x)
    requires forall x :: 0 <= x < |d| ==> Logical(b, d, x) == Logical(a, d, x)
    ensures WroteBlock(a, c, d, e, dst, data)
  {
  }

  /** Writing a log slot leaves the logged blocks' contents and the dirty buffers alone. */
  lemma SlotWritten(cfg: Config, was: seq<Buf>, now: seq<Buf>, d: Disk, e: Disk, lh: seq<nat>, tail: nat)
    requires ValidDisk(cfg, d) && ValidList(cfg, d, lh) && tail < |lh| && DirtyExactly(was, lh)
    requires WroteBlock(was, now, d, e, cfg.start + 1 + tail, Logical(was, d, lh[tail]))
    ensures DirtyExactly(now, lh)
    ensures Contents(now, e, lh) == Contents(was, d, lh)
  {
    assert cfg.start + 1 + tail !in lh;
    forall i | 0 <= i < |lh| ensures Logical(now, e, lh[i]) == Logical(was, d, lh[i]) {
    }
  }
}
