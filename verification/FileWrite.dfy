/** file.c: filewrite cuts a write into transactions that each fit the log. */
module FileWrite {
  import opened Params
  import opened Inodes
  import opened FreeBlocks
  import opened FileSystem
  import opened FileBytes
  import opened FileData

  /** The bytes written per transaction. */
  const CHUNK: nat := (MAXOPBLOCKS - 1 - 1 - 2) / 2 * BSIZE

  lemma ChunkBudget(n: nat)
    requires n <= CHUNK
    ensures 2 * BlocksFor(n) + 4 <= MAXOPBLOCKS
  {
  }

  /** Writing on where the last write ended is writing once. */
  lemma SpliceTwice(c: seq<Byte>, off: nat, s: seq<Byte>, t: seq<Byte>)
    requires off <= |c|
    ensures off + |s| <= |Splice(c, off, s)|
    ensures Splice(Splice(c, off, s), off + |s|, t) == Splice(c, off, s + t)
  {
  }

  class File {
    const inum: nat
    const writable: bool
    var off: nat

    constructor (i: nat, w: bool)
      ensures inum == i && writable == w && off == 0
    {
      inum, writable, off := i, w, 0;
    }
  }

  datatype Outcome = All | Short(done: nat) | OnDevice | Stop | NotWritable

  /** Up to done, src is in file i from off on, as if by one write; other files are as in a. */
  ghost predicate Chunked(fs: Fs, a: Snap, i: nat, off: nat, src: seq<Byte>, done: nat)
    reads fs
  {
    && fs.Valid() && i in fs.icache && fs.nodes[i].kind != 0 && done <= |src|
    && Spliced(a, fs.nodes, fs.blocks, i, off, src[..done])
  }

  lemma ChunkMore(a: Snap, y: Snap, nodes: seq<Dinode>, blocks: seq<Bytes>, i: nat, off: nat, src: seq<Byte>, done: nat,
                  now: nat)
    requires done <= now <= |src| && Spliced(a, y.nodes, y.blocks, i, off, src[..done])
    requires Spliced(y, nodes, blocks, i, off + done, src[done..now])
    ensures Spliced(a, nodes, blocks, i, off, src[..now])
  {
    SpliceTwice(Contents(a.nodes, a.blocks, i), off, src[..done], src[done..now]);
    assert src[..done] + src[done..now] == src[..now];
    forall j: nat, k: nat | j < |nodes| && j != i
      && k < MAXBYTES ensures SameByte(a.nodes, a.blocks, nodes, blocks, j, k) {
      assert SameByte(a.nodes, a.blocks, y.nodes, y.blocks, j, k) && SameByte(y.nodes, y.blocks, nodes, blocks, j, k);
    }
  }

  lemma SplicedNone(a: Snap, i: nat, off: nat)
    requires Shaped(a.nodes) && i < |a.nodes| && off <= a.nodes[i].size <= MAXBYTES
    ensures Spliced(a, a.nodes, a.blocks, i, off, [])
  {
  }

  /** Nothing has changed but what the current transaction logs. */
  ghost predicate Untouched(fs: Fs, a: Snap, icache: map<nat, Dinode>, dinodes: seq<Dinode>)
    reads fs
  {
    fs.Valid() && fs.Now() == a.(logged := fs.logged) && fs.icache == icache && fs.dinodes == dinodes
  }

  /** The disk copies of the other inodes are as they were, and cached inodes still equal theirs if they did. */
  ghost predicate Stored(fs: Fs, dinodes: seq<Dinode>, through: bool, i: nat)
    reads fs
  {
    && |fs.dinodes| == |dinodes| && (forall j: nat :: j < |dinodes| && j != i ==> fs.dinodes[j] == dinodes[j])
    && (through ==> fs.Through())
  }

  /** One transaction: begin_op, writei of at most CHUNK bytes, end_op. It logs at most MAXOPBLOCKS blocks. */
  method Transaction(fs: Fs, i: nat, part: seq<Byte>, off: nat) returns (r: Write)
    requires fs.Valid() && i in fs.icache && fs.nodes[i].kind != 0 && off < TWO32 && |part| <= CHUNK
    modifies fs
    ensures r == Panic <==> old(fs.nodes)[i].kind != T_DEV && off <= old(fs.nodes)[i].size && off + |part| <= MAXBYTES
                            && FreeCount(old(fs.bits)) < WriteCost(old(fs.nodes), old(fs.blocks), i, off, |part|)
    ensures r == Wrote ==> BalanceKept(old(fs.Now()), fs.Now(), i, off / BSIZE, EndBlock(off, |part|))
    ensures r == TooFar || r == ToDevice ==> Untouched(fs, old(fs.Now()), old(fs.icache), old(fs.dinodes))
    ensures r == Wrote ==> Stored(fs, old(fs.dinodes), old(fs.Through()), i)
    ensures r == ToDevice <==> old(fs.nodes)[i].kind == T_DEV
    ensures r == Wrote || r == TooFar ==>
              fs.Valid() && i in fs.icache && fs.nodes[i].kind != 0 && |fs.logged| <= MAXOPBLOCKS
    ensures r == TooFar <==>
              old(fs.nodes)[i].kind != T_DEV && (off > old(fs.nodes)[i].size || off + |part| >= TWO32
                  || off + |part| > MAXBYTES)
    ensures r == Wrote ==> Spliced(old(fs.Now()), fs.nodes, fs.blocks, i, off, part)
  {
    ghost var a0 := fs.Now();
    fs.logged := {};
    ghost var a := fs.Now();
    assert NodeNow(fs.nodes, fs.dinodes, fs.icache, i);
    r := Writei(fs, i, part, off);
    if r == Wrote {
      ChunkBudget(|part|);
      WrittenBudget(fs.sb, a, fs.Now(), i, off, part);
      assert Spliced(a0, fs.nodes, fs.blocks, i, off, part);
      SameBalance(a0, a, fs.Now(), i, off / BSIZE, EndBlock(off, |part|));
    }
  }

  /** What was logged before does not matter for the blocks. */
  lemma SameBalance(a0: Snap, a: Snap, z: Snap, i: nat, first: nat, end: nat)
    requires BalanceKept(a, z, i, first, end) && a == a0.(logged := {})
    ensures BalanceKept(a0, z, i, first, end)
  {
    forall lo: nat, hi: nat | lo <= first && end <= hi <= MAXFILE
      && lo <= hi ensures Balance(z, i, lo, hi) == Balance(a0, i, lo, hi) {
      assert Balance(a, i, lo, hi) == Balance(a0, i, lo, hi);
    }
  }

  lemma WrittenBudget(sb: Super, a: Snap, z: Snap, i: nat, off: nat, src: seq<Byte>)
    requires Written(sb, a, z, i, off, src) && a.logged == {}
    ensures |z.logged| <= 2 * BlocksFor(|src|) + 4 && Spliced(a, z.nodes, z.blocks, i, off, src)
  {
    var t :| WriteDone(sb, a, z, i, off, src, off / BSIZE, t);
    var log := WriteLog(sb, z, i, off / BSIZE, t, |src| > 0 && off + |src| > a.nodes[i].size);
    assert {} + log == log;
  }

  /** The file offset has moved with what is written. */
  ghost predicate Reached(fs: Fs, f: File, a: Snap, off: nat, src: seq<Byte>, done: nat)
    reads fs, f
  {
    Chunked(fs, a, f.inum, off, src, done) && f.off == off + done && f.off <= fs.nodes[f.inum].size <= MAXBYTES
  }

  /** Nothing is written yet and the offset may be anywhere, or Reached. */
  ghost predicate Under(fs: Fs, f: File, a: Snap, off: nat, src: seq<Byte>, i: nat)
    reads fs, f
  {
    && (i == 0 ==>
          && fs.Valid() && f.inum in fs.icache && fs.nodes == a.nodes && fs.blocks == a.blocks
          && a.nodes[f.inum].kind != 0 && f.off == off)
    && (i > 0 ==> Reached(fs, f, a, off, src, i) && a.nodes[f.inum].kind != T_DEV)
  }

  /** Unless the offset is past the end to start with, Under is Reached. */
  lemma UnderReached(fs: Fs, f: File, a: Snap, off: nat, src: seq<Byte>, i: nat)
    requires Under(fs, f, a, off, src, i)
    ensures i > 0 || off <= a.nodes[f.inum].size ==> Reached(fs, f, a, off, src, i)
    ensures fs.Valid() && f.inum in fs.icache && fs.nodes[f.inum].kind == a.nodes[f.inum].kind
            && fs.nodes[f.inum].kind != 0
    ensures f.off == off + i && fs.nodes[f.inum].size <= MAXBYTES
  {
    assert FileOk(fs.nodes, fs.blocks, f.inum);
    if i == 0 {
      assert src[..0] == [];
      if off <= a.nodes[f.inum].size {
        SplicedNone(a, f.inum, off);
      }
    }
  }

  /** One turn of filewrite's loop. */
  method ChunkTurn(fs: Fs, f: File, src: seq<Byte>, i: nat, ghost a: Snap, ghost off: nat) returns (r: Write, now: nat)
    requires Under(fs, f, a, off, src, i) && i < |src| && off < TWO32
    modifies fs, f
    ensures r == TooFar || r == ToDevice ==>
              Untouched(fs, old(fs.Now()), old(fs.icache), old(fs.dinodes)) && f.off == old(f.off)
    ensures r == Wrote ==> Stored(fs, old(fs.dinodes), old(fs.Through()), f.inum)
    ensures now == i + Min(|src| - i, CHUNK)
    ensures r == Wrote ==>
              Reached(fs, f, a, off, src, now) && a.nodes[f.inum].kind != T_DEV && |fs.logged| <= MAXOPBLOCKS
    ensures r == Wrote ==> off <= a.nodes[f.inum].size && off + now <= MAXBYTES
                           && BalanceKept(old(fs.Now()), fs.Now(), f.inum, (off + i) / BSIZE,
                              EndBlock(off + i, now - i))
    ensures r == TooFar ==> a.nodes[f.inum].kind != T_DEV
                            && if off > a.nodes[f.inum].size then i == 0 && fs.nodes == a.nodes && fs.blocks == a.blocks
                               else
                                 && Reached(fs, f, a, off, src, i) && off + now > MAXBYTES
                                 && fs.nodes == old(fs.nodes) && fs.blocks == old(fs.blocks)
    ensures r == Panic ==> a.nodes[f.inum].kind != T_DEV && off <= a.nodes[f.inum].size && off + now <= MAXBYTES
                           && FreeCount(old(fs.bits)) < WriteCost(old(fs.nodes), old(fs.blocks), f.inum, off + i,
                              now - i)
    ensures r == ToDevice <==> i == 0 && a.nodes[f.inum].kind == T_DEV
  {
    UnderReached(fs, f, a, off, src, i);
    ghost var y := fs.Now();
    now := i + Min(|src| - i, CHUNK);
    r := Transaction(fs, f.inum, src[i..now], f.off);
    if r == Wrote {
      ChunkMore(a, y, fs.nodes, fs.blocks, f.inum, off, src, i, now);
      SplicedEnd(y, fs.nodes, fs.blocks, f.inum, off + i, src[i..now]);
      f.off := f.off + (now - i);
    }
  }

  lemma SplicedEnd(a: Snap, nodes: seq<Dinode>, blocks: seq<Bytes>, i: nat, off: nat, src: seq<Byte>)
    requires Spliced(a, nodes, blocks, i, off, src)
    ensures off + |src| <= nodes[i].size && nodes[i].kind == a.nodes[i].kind
  {
    assert |Contents(nodes, blocks, i)| == nodes[i].size;
  }

  /** How much of n bytes at off is in chunks that do not pass the largest file. */
  function Fitting(off: nat, n: nat): nat
    requires off <= MAXBYTES
  {
    if off + n <= MAXBYTES then n else (MAXBYTES - off) / CHUNK * CHUNK
  }

  /** The k-th chunk of n bytes, when q whole chunks fit before the largest file. */
  lemma EdgeOf(room: nat, n: nat, k: nat, q: nat, now: nat)
    requires q * CHUNK <= room < (q + 1) * CHUNK && k * CHUNK < n && room < n && k <= q
             && now == k * CHUNK + Min(n - k * CHUNK, CHUNK)
    ensures now <= room ==> now == (k + 1) * CHUNK && k < q
    ensures now > room ==> k == q
  {
    assert k < q ==> (k + 1) * CHUNK <= q * CHUNK;
  }

  lemma Quotient(x: nat)
    ensures x / CHUNK * CHUNK <= x < (x / CHUNK + 1) * CHUNK
    ensures x % CHUNK == 0 ==> x == x / CHUNK * CHUNK && (x + CHUNK) % CHUNK == 0
  {
    var q, r := x / 1536, x % 1536;
    assert CHUNK == 1536 && x == 1536 * q + r;
    assert x + 1536 == 1536 * (q + 1) + r;
  }

  lemma EdgePast(off: nat, n: nat, i: nat, k: nat, q: nat, now: nat)
    requires off <= MAXBYTES < off + n && i < n && i == k * CHUNK && i <= q * CHUNK && now == i + Min(n - i, CHUNK)
    requires q * CHUNK <= MAXBYTES - off < (q + 1) * CHUNK
    ensures q * CHUNK <= n && off + now <= MAXBYTES ==> now <= q * CHUNK && now == i + CHUNK
    ensures off + now > MAXBYTES ==> i == q * CHUNK
  {
    EdgeOf(MAXBYTES - off, n, k, q, now);
  }

  /** The chunk from i on fits, or what fits is exactly what comes before it. */
  lemma ChunkEdge(off: nat, n: nat, i: nat, now: nat)
    requires off <= MAXBYTES && i < n && i % CHUNK == 0 && i <= Fitting(off, n) && now == i + Min(n - i, CHUNK)
    ensures Fitting(off, n) <= n && off + Fitting(off, n) <= MAXBYTES
    ensures off + now <= MAXBYTES ==> now <= Fitting(off, n) && (now == n || now % CHUNK == 0)
    ensures off + now > MAXBYTES ==> i == Fitting(off, n)
  {
    Quotient(i);
    if off + n > MAXBYTES {
      Quotient(MAXBYTES - off);
      EdgePast(off, n, i, i / CHUNK, (MAXBYTES - off) / CHUNK, now);
    }
  }

  lemma ChunkBlocks(off: nat, c: nat, i: nat, now: nat)
    requires i <= now <= c && off + c <= MAXBYTES
    ensures off / BSIZE <= (off + i) / BSIZE <= EndBlock(off + i, now - i) <= EndBlock(off, c) <= MAXFILE || now == i
  {
  }

  /** A chunk that finds too few blocks: there were too few for all of them. */
  lemma ChunkShort(a: Snap, y: Snap, i: nat, off: nat, c: nat, from: nat, now: nat)
    requires BalanceKept(a, y, i, off / BSIZE, EndBlock(off, c)) && from < now <= c && off + c <= MAXBYTES
    requires FreeCount(y.bits) < WriteCost(y.nodes, y.blocks, i, off + from, now - from)
    ensures FreeCount(a.bits) < WriteCost(a.nodes, a.blocks, i, off, c)
  {
    ChunkBlocks(off, c, from, now);
    LackWider(y.nodes, y.blocks, i, off / BSIZE, EndBlock(off, c), (off + from) / BSIZE,
        EndBlock(off + from, now - from));
    assert Balance(y, i, off / BSIZE, EndBlock(off, c)) < 0;
  }

  /** With all of them written there were enough. */
  lemma ChunksPaid(a: Snap, y: Snap, i: nat, off: nat, c: nat)
    requires BalanceKept(a, y, i, off / BSIZE, EndBlock(off, c)) && FileOk(y.nodes, y.blocks, i)
             && off + c <= y.nodes[i].size <= MAXBYTES
    ensures FreeCount(a.bits) >= WriteCost(a.nodes, a.blocks, i, off, c)
  {
    var lo, hi := off / BSIZE, EndBlock(off, c);
    EndInRange(off, c);
    forall u: nat | lo <= u < hi ensures HasBlock(y.nodes, y.blocks, i, u) {
      assert u * BSIZE < y.nodes[i].size;
    }
    LackNone(y.nodes, y.blocks, i, lo, hi);
    assert Balance(y, i, lo, hi) >= 0;
  }

  /** The chunks before i are written and paid for, within what fits. */
  ghost predicate Paying(fs: Fs, f: File, a: Snap, off: nat, src: seq<Byte>, i: nat)
    reads fs, f
  {
    && Under(fs, f, a, off, src, i) && i <= |src| && (i == |src| || i % CHUNK == 0) && f.inum < |a.nodes|
    && (i > 0 ==> off <= a.nodes[f.inum].size)
    && (off <= a.nodes[f.inum].size <= MAXBYTES ==>
          && i <= Fitting(off, |src|)
          && BalanceKept(a, fs.Now(), f.inum, off / BSIZE, EndBlock(off, Fitting(off, |src|))))
  }

  lemma PayStart(fs: Fs, f: File, src: seq<Byte>)
    requires fs.Valid() && f.inum in fs.icache && fs.nodes[f.inum].kind != 0
    ensures Paying(fs, f, fs.Now(), f.off, src, 0) && fs.nodes[f.inum].size <= MAXBYTES
  {
    assert FileOk(fs.nodes, fs.blocks, f.inum);
    if f.off <= fs.nodes[f.inum].size {
      BalanceStart(fs.Now(), f.inum, f.off / BSIZE, EndBlock(f.off, Fitting(f.off, |src|)));
    }
  }

  /** One turn of filewrite's loop, with what it costs. */
  method ChunkNext(fs: Fs, f: File, src: seq<Byte>, i: nat, ghost a: Snap, ghost off: nat) returns (r: Write, now: nat)
    requires Paying(fs, f, a, off, src, i) && i < |src| && off < TWO32 && a.nodes[f.inum].size <= MAXBYTES
             && Shaped(a.nodes)
    modifies fs, f
    ensures r == TooFar || r == ToDevice ==>
              Untouched(fs, old(fs.Now()), old(fs.icache), old(fs.dinodes)) && f.off == old(f.off)
    ensures r == Wrote ==> Stored(fs, old(fs.dinodes), old(fs.Through()), f.inum)
    ensures r == Wrote ==>
              i < now <= |src| && now <= i + CHUNK && Paying(fs, f, a, off, src, now) && now > 0
                && |fs.logged| <= MAXOPBLOCKS
    ensures r == TooFar ==> a.nodes[f.inum].kind != T_DEV
                            && if off > a.nodes[f.inum].size then i == 0 && fs.nodes == a.nodes && fs.blocks == a.blocks
                               else
                                 && Reached(fs, f, a, off, src, i) && i == Fitting(off, |src|)
                                 && FreeCount(a.bits) >= WriteCost(a.nodes, a.blocks, f.inum, off, i)
    ensures r == Panic ==>
              a.nodes[f.inum].kind != T_DEV && off <= a.nodes[f.inum].size && off + Fitting(off, |src|) <= MAXBYTES
                           && FreeCount(a.bits) < WriteCost(a.nodes, a.blocks, f.inum, off, Fitting(off, |src|))
    ensures r == ToDevice <==> i == 0 && a.nodes[f.inum].kind == T_DEV
  {
    ghost var y, c := fs.Now(), if off <= a.nodes[f.inum].size then Fitting(off, |src|) else 0;
    r, now := ChunkTurn(fs, f, src, i, a, off);
    if off <= a.nodes[f.inum].size {
      ChunkEdge(off, |src|, i, now);
      if r == Wrote {
        ChunkBlocks(off, c, i, now);
        BalanceTrans(a, y, fs.Now(), f.inum, off / BSIZE, EndBlock(off, c), (off + i) / BSIZE,
            EndBlock(off + i, now - i));
      } else if r == Panic {
        ChunkShort(a, y, f.inum, off, c, i, now);
      } else if r == TooFar {
        TooFarPaid(fs, f, a, y, off, src, i);
      }
    }
  }

  lemma TooFarPaid(fs: Fs, f: File, a: Snap, y: Snap, off: nat, src: seq<Byte>, i: nat)
    requires Reached(fs, f, a, off, src, i) && BalanceKept(a, y, f.inum, off / BSIZE, EndBlock(off, i))
             && y.nodes == fs.nodes && y.blocks == fs.blocks
    ensures off + i <= MAXBYTES && FreeCount(a.bits) >= WriteCost(a.nodes, a.blocks, f.inum, off, i)
  {
    assert FileOk(fs.nodes, fs.blocks, f.inum);
    ChunksPaid(a, y, f.inum, off, i);
  }

  /** The number of chunks of n bytes. */
  function Chunks(n: nat): nat {
    (n + CHUNK - 1) / CHUNK
  }

  /** One transaction for every chunk before i, and each fits the log. */
  ghost predicate Logged(txns: seq<set<nat>>, i: nat) {
    |txns| == Chunks(i) && forall k :: 0 <= k < |txns| ==> |txns[k]| <= MAXOPBLOCKS
  }

  lemma LoggedMore(txns: seq<set<nat>>, i: nat, now: nat, log: set<nat>)
    requires Logged(txns, i) && i % CHUNK == 0 && i < now <= i + CHUNK && |log| <= MAXOPBLOCKS
    ensures Logged(txns + [log], now)
  {
    Quotient(i);
    ChunkCount(i / CHUNK, i, now);
  }

  lemma ChunkCount(k: nat, i: nat, now: nat)
    requires i == k * CHUNK && i < now <= i + CHUNK
    ensures Chunks(i) == k && Chunks(now) == k + 1
  {
    assert CHUNK == 1536 && (1536 * k + 1535) / 1536 == k;
    assert 1536 * (k + 1) <= now + 1535 < 1536 * (k + 2);
  }

  /** How a write to a file ends, from the offset, the largest file and the number of free blocks. */
  ghost predicate Ends(fs: Fs, f: File, a: Snap, off: nat, src: seq<Byte>, r: Outcome)
    requires Shaped(a.nodes) && f.inum < |a.nodes| && off <= a.nodes[f.inum].size <= MAXBYTES
    reads fs, f
  {
    var c := Fitting(off, |src|);
    && off + c <= MAXBYTES
    && (r == Stop <==> FreeCount(a.bits) < WriteCost(a.nodes, a.blocks, f.inum, off, c))
    && (r != Stop ==> Reached(fs, f, a, off, src, c) && r == if c == |src| then All else Short(c))
  }

  /**
   filewrite on an inode. What fits is cut into transactions of at most CHUNK bytes that
   each fit the log; together they are one splice. The outcome is decided by the offset,
   the largest file and the number of free blocks.
   */
  method WriteFile(fs: Fs, f: File, src: seq<Byte>) returns (r: Outcome, ghost txns: seq<set<nat>>)
    requires fs.Valid() && f.inum in fs.icache && fs.nodes[f.inum].kind != 0 && f.off < TWO32
    modifies fs, f
    ensures r == NotWritable <==> !f.writable
    ensures !f.writable || src == [] ==> unchanged(fs) && unchanged(f) && txns == []
    ensures f.writable && src == [] ==> r == All
    ensures r == OnDevice || (r.Short? && old(f.off) > old(fs.nodes)[f.inum].size) ==>
              Untouched(fs, old(fs.Now()), old(fs.icache), old(fs.dinodes)) && f.off == old(f.off)
    ensures r != Stop ==> Stored(fs, old(fs.dinodes), old(fs.Through()), f.inum)
    ensures r == OnDevice <==> f.writable && src != [] && old(fs.nodes)[f.inum].kind == T_DEV
    ensures old(fs.nodes)[f.inum].size <= MAXBYTES
    ensures f.writable && src != [] && old(fs.nodes)[f.inum].kind != T_DEV
            && old(f.off) > old(fs.nodes)[f.inum].size ==>
              r == Short(0)
    ensures f.writable && src != [] && old(fs.nodes)[f.inum].kind != T_DEV
            && old(f.off) <= old(fs.nodes)[f.inum].size ==>
              Ends(fs, f, old(fs.Now()), old(f.off), src, r)
    ensures r == All ==> Logged(txns, |src|)
    ensures forall k :: 0 <= k < |txns| ==> |txns[k]| <= MAXOPBLOCKS
  {
    txns := [];
    PayStart(fs, f, src);
    if !f.writable {
      return NotWritable, txns;
    }
    ghost var a, off, ic, di, through := fs.Now(), f.off, fs.icache, fs.dinodes, fs.Through();
    var i := 0;
    while i < |src|
      invariant Paying(fs, f, a, off, src, i) && Stored(fs, di, through, f.inum)
      invariant i == 0 ==> unchanged(fs) && unchanged(f)
      invariant Logged(txns, i)
    {
      var w, now := ChunkNext(fs, f, src, i, a, off);
      if w == Panic {
        return Stop, txns;
      }
      if w == ToDevice {
        return OnDevice, txns;
      }
      if w == TooFar {
        return Short(i), txns;
      }
      LoggedMore(txns, i, now, fs.logged);
      i, txns := now, txns + [fs.logged];
    }
    r := All;
    if src != [] {
      TooFarPaid(fs, f, a, fs.Now(), off, src, i);
    }
  }
}
