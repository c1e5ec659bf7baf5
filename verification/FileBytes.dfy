/**
 What readi and writei do to files as byte sequences, and to the log: the facts about one
 turn of their loops, on values.
 */
module FileBytes {
  import opened Params
  import opened Inodes
  import opened FreeBlocks
  import opened FileSystem

  /** Byte off + x is in the same block as byte off. */
  lemma InBlock(off: nat, x: nat)
    requires off % BSIZE + x < BSIZE
    ensures (off + x) / BSIZE == off / BSIZE && (off + x) % BSIZE == off % BSIZE + x
  {
  }

  // ---------------------------------------------------------------- readi

  datatype Read = Got(bytes: seq<Byte>) | Refused | Device

  /** The stretch of one block that a turn of readi copies is a stretch of the file. */
  lemma ReadStretch(nodes: seq<Dinode>, blocks: seq<Bytes>, owner: Owners, i: nat, off: nat, m: nat)
    requires Owned(nodes, blocks, owner) && i < |nodes| && NoHoles(nodes, blocks, i)
    requires off + m <= nodes[i].size && 0 < m <= BSIZE - off % BSIZE
    ensures var b := Addr(nodes, blocks, i, SlotOf(off / BSIZE));
            && HasBlock(nodes, blocks, i, off / BSIZE) && 0 < b < |blocks|
            && blocks[b][off % BSIZE..off % BSIZE + m] == Contents(nodes, blocks, i)[off..off + m]
  {
    var bn := off / BSIZE;
    assert bn * BSIZE <= off < nodes[i].size <= MAXBYTES;
    assert HasBlock(nodes, blocks, i, bn);
    SlotBlock(nodes, blocks, owner, i, SlotOf(bn));
    var b := Addr(nodes, blocks, i, SlotOf(bn));
    var part, whole := blocks[b][off % BSIZE..off % BSIZE + m], Contents(nodes, blocks, i)[off..off + m];
    forall x | 0 <= x < m ensures part[x] == whole[x] {
      InBlock(off, x);
    }
  }

  ghost predicate Same(fs: Fs, a: Snap, icache: map<nat, Dinode>)
    reads fs
  {
    fs.Valid() && fs.Now() == a && fs.icache == icache
  }

  // ---------------------------------------------------------------- writei, on values

  /** A block with src written over it from offset at on. */
  function Patched(b: Bytes, at: nat, src: seq<Byte>): Bytes
    requires at + |src| <= BSIZE
  {
    b[..at] + src + b[at + |src|..]
  }

  /** src laid over the contents at off, growing them if it reaches past the end. */
  function Splice(c: seq<Byte>, off: nat, src: seq<Byte>): seq<Byte>
    requires off <= |c|
  {
    c[..off] + src + (if off + |src| <= |c| then c[off + |src|..] else [])
  }

  /** Byte k of file j, the first tot bytes of src being written. */
  predicate ByteNow(a: Snap, z: Snap, i: nat, off: nat, src: seq<Byte>, tot: nat, j: nat, k: nat)
    requires Shaped(a.nodes) && Shaped(z.nodes) && j < |a.nodes| && j < |z.nodes| && k < MAXBYTES && tot <= |src|
  {
    ByteAt(z.nodes, z.blocks, j, k) == if j == i
        && off <= k < off + tot then src[k - off] else ByteAt(a.nodes, a.blocks, j, k)
  }

  /** The first tot bytes of src are in file i from off on; no other byte of any file has changed. */
  ghost predicate WroteTo(a: Snap, z: Snap, i: nat, off: nat, src: seq<Byte>, tot: nat) {
    && Shaped(a.nodes) && Shaped(z.nodes) && |z.nodes| == |a.nodes| && i < |a.nodes| && tot <= |src|
       && off + tot <= MAXBYTES
    && (forall j: nat :: j < |a.nodes| && j != i ==> z.nodes[j] == a.nodes[j])
    && z.nodes[i] == a.nodes[i].(addrs := z.nodes[i].addrs)
    && (forall j: nat, k: nat :: j < |a.nodes| && k < MAXBYTES ==> ByteNow(a, z, i, off, src, tot, j, k))
    && (forall j: nat, s: nat :: j < |a.nodes| && s < SLOTS ==> KeepsAddr(a.nodes, a.blocks, z.nodes, z.blocks, j, s))
    && (forall bn: nat :: bn < MAXFILE && bn * BSIZE < off + tot ==> HasBlock(z.nodes, z.blocks, i, bn))
  }

  /** The blocks of inode i with indices lo..hi. */
  ghost function DataBlocks(nodes: seq<Dinode>, blocks: seq<Bytes>, i: nat, lo: nat, hi: nat): set<nat>
    requires Shaped(nodes) && i < |nodes| && hi <= MAXFILE
    decreases hi
  {
    if hi <= lo then {} else DataBlocks(nodes, blocks, i, lo, hi - 1) + {Addr(nodes, blocks, i, SlotOf(hi - 1))}
  }

  lemma {:induction false} DataBlocksSize(nodes: seq<Dinode>, blocks: seq<Bytes>, i: nat, lo: nat, hi: nat)
    requires Shaped(nodes) && i < |nodes| && lo <= hi <= MAXFILE
    ensures |DataBlocks(nodes, blocks, i, lo, hi)| <= hi - lo
    decreases hi
  {
    if lo < hi {
      DataBlocksSize(nodes, blocks, i, lo, hi - 1);
    }
  }

  lemma {:induction false} DataBlocksSame(nodes: seq<Dinode>, blocks: seq<Bytes>, nodes': seq<Dinode>,
                                          blocks': seq<Bytes>, i: nat, lo: nat, hi: nat)
    requires Shaped(nodes) && Shaped(nodes') && i < |nodes| && i < |nodes'| && hi <= MAXFILE
    requires forall bn: nat :: lo <= bn < hi ==>
               Addr(nodes', blocks', i, SlotOf(bn)) == Addr(nodes, blocks, i, SlotOf(bn))
    ensures DataBlocks(nodes', blocks', i, lo, hi) == DataBlocks(nodes, blocks, i, lo, hi)
    decreases hi
  {
    if lo < hi {
      DataBlocksSame(nodes, blocks, nodes', blocks', i, lo, hi - 1);
    }
  }

  /** Byte k lies at, or not at, offset at..at + m of block bn. */
  lemma InPart(bn: nat, at: nat, m: nat, k: nat)
    requires at + m <= BSIZE
    ensures bn * BSIZE + at <= k < bn * BSIZE + at + m <==> k / BSIZE == bn && at <= k % BSIZE < at + m
    ensures k / BSIZE == bn ==> k % BSIZE == k - bn * BSIZE
  {
  }

  /** One block written: the bytes of that turn. */
  lemma PatchStep(nodes: seq<Dinode>, blocks: seq<Bytes>, owner: Owners, i: nat, bn: nat, at: nat, part: seq<Byte>,
                  j: nat, k: nat)
    requires Owned(nodes, blocks, owner) && i < |nodes| && at + |part| <= BSIZE && bn < MAXFILE
    requires HasBlock(nodes, blocks, i, bn) && Addr(nodes, blocks, i, SlotOf(bn)) < |blocks| && j < |nodes|
             && k < MAXBYTES
    ensures var b := Addr(nodes, blocks, i, SlotOf(bn));
            ByteAt(nodes, blocks[b := Patched(blocks[b], at, part)], j, k)
            == if j == i && bn * BSIZE + at <= k < bn * BSIZE + at + |part| then part[k - (bn * BSIZE + at)]
              else ByteAt(nodes, blocks, j, k)
  {
    var b := Addr(nodes, blocks, i, SlotOf(bn));
    WriteByte(nodes, blocks, owner, i, bn, Patched(blocks[b], at, part), j, k);
    SlotBlock(nodes, blocks, owner, i, SlotOf(bn));
    InPart(bn, at, |part|, k);
  }

  /** A turn of writei: bmap from y to z, then the block patched. */
  lemma WroteMore(sb: Super, a: Snap, y: Snap, z: Snap, i: nat, off: nat, src: seq<Byte>, tot: nat, now: nat, bn: nat,
                  at: nat, b: nat, picked: seq<nat>)
    requires WroteTo(a, y, i, off, src, tot) && tot < now <= |src| && off + now <= MAXBYTES
    requires off + tot == bn * BSIZE + at && at + (now - tot) <= BSIZE && bn < MAXFILE
    requires Bmapped(sb, y, z, i, bn, b, picked) && Owned(z.nodes, z.blocks, z.owner) && b < |z.blocks|
    ensures var bytes := Patched(z.blocks[b], at, src[tot..now]);
            WroteTo(a, z.(blocks := z.blocks[b := bytes], logged := z.logged + {b}), i, off, src, now)
  {
    var part := src[tot..now];
    var bytes := Patched(z.blocks[b], at, part);
    SlotOfInjective(bn, 0);
    SlotBlock(z.nodes, z.blocks, z.owner, i, SlotOf(bn));
    var z' := z.(blocks := z.blocks[b := bytes], logged := z.logged + {b});
    forall j: nat, k: nat | j < |a.nodes| && k < MAXBYTES ensures ByteNow(a, z', i, off, src, now, j, k) {
      assert ByteNow(a, y, i, off, src, tot, j, k) && SameByte(y.nodes, y.blocks, z.nodes, z.blocks, j, k);
      PatchStep(z.nodes, z.blocks, z.owner, i, bn, at, part, j, k);
    }
    forall j: nat, s: nat | j < |a.nodes| && s < SLOTS ensures KeepsAddr(a.nodes, a.blocks, z'.nodes, z'.blocks, j, s) {
      assert KeepsAddr(a.nodes, a.blocks, y.nodes, y.blocks, j, s)
             && KeepsAddr(y.nodes, y.blocks, z.nodes, z.blocks, j, s);
      WriteAddr(z.nodes, z.blocks, z.owner, b, bytes, j, s);
    }
    forall u: nat | u < MAXFILE && u * BSIZE < off + now ensures HasBlock(z'.nodes, z'.blocks, i, u) {
      WriteAddr(z.nodes, z.blocks, z.owner, b, bytes, i, SlotOf(u));
      if u * BSIZE < off + tot {
        assert HasBlock(y.nodes, y.blocks, i, u) && KeepsAddr(y.nodes, y.blocks, z.nodes, z.blocks, i, SlotOf(u));
      } else {
        assert u == bn;
      }
    }
  }

  // ---------------------------------------------------------------- what a write logs

  /** Book-keeping after some turns of writei from block first: added of them found no block. */
  datatype Tally = Tally(turns: nat, added: nat, picked: seq<nat>, table: bool)

  /**
   The log writes since a are the data blocks of the turns, the bitmap blocks of what was
   allocated, and the indirect block if a word of it changed.
   */
  ghost predicate Tallied(sb: Super, a: Snap, z: Snap, i: nat, first: nat, t: Tally) {
    && Shaped(a.nodes) && Shaped(z.nodes) && i < |a.nodes| && i < |z.nodes| && first + t.turns <= MAXFILE
    && Picks(a.bits, z.bits, t.picked)
    && |t.picked| <= t.added + (if a.nodes[i].addrs[NDIRECT] == 0 && z.nodes[i].addrs[NDIRECT] != 0 then 1 else 0)
    && t.added <= t.turns && (t.added == 0 ==> z.nodes == a.nodes && t.picked == [] && !t.table)
    && (t.table ==> z.nodes[i].addrs[NDIRECT] != 0)
    && (!t.table ==> z.nodes[i].addrs[NDIRECT] == a.nodes[i].addrs[NDIRECT])
    && Logs(sb, a.logged, z, i, first, t)
    && Have(z, i, first, first + t.turns)
  }

  ghost predicate Logs(sb: Super, logged: set<nat>, z: Snap, i: nat, first: nat, t: Tally)
    requires Shaped(z.nodes) && i < |z.nodes| && first + t.turns <= MAXFILE
  {
    MadeOf(z.logged, logged, DataBlocks(z.nodes, z.blocks, i, first, first + t.turns), BBlocks(sb, t.picked),
        Table(z, i, t.table))
  }

  /** The blocks logged; folded until Equals(log, log) is asserted. */
  ghost predicate MadeOf(log: set<nat>, was: set<nat>, d: set<nat>, p: set<nat>, x: set<nat>) {
    forall w: set<nat> {:trigger Equals(log, w)} :: Equals(log, w) ==> w == was + d + p + x
  }

  /** Plain equality; as a trigger it keeps MadeOf folded in the lemmas that only pass it on. */
  predicate Equals(a: set<nat>, b: set<nat>) {
    a == b
  }

  ghost predicate Have(z: Snap, i: nat, lo: nat, hi: nat)
    requires Shaped(z.nodes) && i < |z.nodes| && hi <= MAXFILE
  {
    forall bn: nat :: lo <= bn < hi ==> HasBlock(z.nodes, z.blocks, i, bn)
  }

  ghost function Table(z: Snap, i: nat, used: bool): set<nat>
    requires Shaped(z.nodes) && i < |z.nodes|
  {
    if used then {z.nodes[i].addrs[NDIRECT]} else {}
  }

  function Count(y: Snap, i: nat, bn: nat, t: Tally, p: seq<nat>): Tally
    requires Shaped(y.nodes) && i < |y.nodes| && bn < MAXFILE
  {
    if HasBlock(y.nodes, y.blocks, i, bn) then t.(turns := t.turns + 1)
    else Tally(t.turns + 1, t.added + 1, t.picked + p, t.table || bn >= NDIRECT)
  }

  lemma BBlocksConcat(sb: Super, p: seq<nat>, q: seq<nat>)
    ensures BBlocks(sb, p + q) == BBlocks(sb, p) + BBlocks(sb, q)
  {
    forall x | x in BBlocks(sb, p) + BBlocks(sb, q) ensures x in BBlocks(sb, p + q) {
      var b :| (b in p || b in q) && x == BBlock(sb, b);
      assert b in p + q;
    }
  }

  /** A turn logs block b, the bitmap blocks q and the table u. */
  lemma LogsStep(sb: Super, logged: set<nat>, y: Snap, z: Snap, i: nat, first: nat, t: Tally, t': Tally, b: nat,
                 q: set<nat>, u: set<nat>)
    requires Shaped(y.nodes) && i < |y.nodes| && first + t.turns <= MAXFILE && Shaped(z.nodes) && i < |z.nodes|
             && first + t'.turns <= MAXFILE
    requires Logs(sb, logged, y, i, first, t) && z.logged == y.logged + q + {b} + u + {b}
    requires DataBlocks(z.nodes, z.blocks, i, first, first + t'.turns)
               == DataBlocks(y.nodes, y.blocks, i, first, first + t.turns) + {b}
    requires BBlocks(sb, t'.picked) == BBlocks(sb, t.picked) + q && Table(z, i, t'.table) == Table(y, i, t.table) + u
    ensures Logs(sb, logged, z, i, first, t')
  {
    assert Equals(y.logged, y.logged);
  }

  lemma TableUnion(y: Snap, z: Snap, i: nat, used: bool, now: bool)
    requires Shaped(y.nodes) && Shaped(z.nodes) && i < |y.nodes| && i < |z.nodes|
    requires used ==> z.nodes[i].addrs[NDIRECT] == y.nodes[i].addrs[NDIRECT]
    ensures Table(z, i, used || now) == Table(y, i, used) + Table(z, i, now)
  {
  }

  /** The slots after a turn: those of earlier turns keep their blocks. */
  lemma TurnSlots(sb: Super, y: Snap, z: Snap, i: nat, first: nat, bn: nat, b: nat, p: seq<nat>, bytes: Bytes)
    requires BmapSlots(sb, y, z, i, bn, b, p) && Owned(z.nodes, z.blocks, z.owner) && b < |z.blocks| && first <= bn
    requires Have(y, i, first, bn)
    ensures SlotsAfter(y, z.(blocks := z.blocks[b := bytes], logged := z.logged + {b}), i, first, bn, b)
  {
    SlotOfInjective(bn, 0);
    SlotBlock(z.nodes, z.blocks, z.owner, i, SlotOf(bn));
    WriteAddr(z.nodes, z.blocks, z.owner, b, bytes, i, SlotOf(bn));
    forall u: nat | first <= u < bn ensures Addr(z.nodes, z.blocks[b := bytes], i, SlotOf(u))
      == Addr(y.nodes, y.blocks, i, SlotOf(u)) {
      assert HasBlock(y.nodes, y.blocks, i, u) && KeepsAddr(y.nodes, y.blocks, z.nodes, z.blocks, i, SlotOf(u));
      WriteAddr(z.nodes, z.blocks, z.owner, b, bytes, i, SlotOf(u));
    }
    DataBlocksSame(y.nodes, y.blocks, z.nodes, z.blocks[b := bytes], i, first, bn);
  }

  ghost predicate SlotsAfter(y: Snap, z: Snap, i: nat, first: nat, bn: nat, b: nat)
    requires Shaped(y.nodes) && Shaped(z.nodes) && i < |y.nodes| && i < |z.nodes| && bn < MAXFILE
  {
    && b != 0 && Addr(z.nodes, z.blocks, i, SlotOf(bn)) == b
    && (forall u: nat :: first <= u < bn ==>
          Addr(z.nodes, z.blocks, i, SlotOf(u)) == Addr(y.nodes, y.blocks, i, SlotOf(u)))
    && DataBlocks(z.nodes, z.blocks, i, first, bn) == DataBlocks(y.nodes, y.blocks, i, first, bn)
  }

  lemma HaveMore(y: Snap, z: Snap, i: nat, first: nat, bn: nat, b: nat)
    requires Shaped(y.nodes) && Shaped(z.nodes) && i < |y.nodes| && i < |z.nodes| && bn < MAXFILE
    requires Have(y, i, first, bn) && SlotsAfter(y, z, i, first, bn, b)
    ensures Have(z, i, first, bn + 1)
  {
    forall u: nat | first <= u < bn + 1 ensures HasBlock(z.nodes, z.blocks, i, u) {
      assert u < bn ==> HasBlock(y.nodes, y.blocks, i, u);
    }
  }

  lemma DataBlocksStep(y: Snap, z: Snap, i: nat, first: nat, bn: nat, stop: nat, b: nat)
    requires Shaped(y.nodes) && Shaped(z.nodes) && i < |y.nodes| && i < |z.nodes| && first <= bn < MAXFILE
             && stop == bn + 1
    requires SlotsAfter(y, z, i, first, bn, b)
    ensures DataBlocks(z.nodes, z.blocks, i, first, stop) == DataBlocks(y.nodes, y.blocks, i, first, bn) + {b}
  {
  }

  /** A turn that finds its block. */
  lemma TallyHad(sb: Super, a: Snap, y: Snap, z: Snap, i: nat, first: nat, t: Tally, b: nat)
    requires Tallied(sb, a, y, i, first, t) && first + t.turns < MAXFILE && z.nodes == y.nodes && z.bits == y.bits
    requires SlotsAfter(y, z, i, first, first + t.turns, b) && z.logged == y.logged + {b}
    ensures Tallied(sb, a, z, i, first, t.(turns := t.turns + 1))
  {
    var t' := t.(turns := t.turns + 1);
    HaveMore(y, z, i, first, first + t.turns, b);
    LogsHad(sb, a.logged, y, z, i, first, t, t', b);
  }

  lemma LogsHad(sb: Super, logged: set<nat>, y: Snap, z: Snap, i: nat, first: nat, t: Tally, t': Tally, b: nat)
    requires Shaped(y.nodes) && i < |y.nodes| && first + t.turns < MAXFILE && z.nodes == y.nodes
    requires Logs(sb, logged, y, i, first, t) && SlotsAfter(y, z, i, first, first + t.turns, b)
             && z.logged == y.logged + {b}
    requires t'.turns == t.turns + 1 && t'.picked == t.picked && t'.table == t.table
    ensures Logs(sb, logged, z, i, first, t')
  {
    DataBlocksStep(y, z, i, first, first + t.turns, first + t'.turns, b);
    LogsStep(sb, logged, y, z, i, first, t, t', b, {}, {});
  }

  /** A turn that allocates it. */
  lemma TallyNew(sb: Super, a: Snap, y: Snap, z: Snap, i: nat, first: nat, t: Tally, b: nat, p: seq<nat>)
    requires Tallied(sb, a, y, i, first, t) && first + t.turns < MAXFILE && Shaped(z.nodes) && i < |z.nodes|
    requires SlotsAfter(y, z, i, first, first + t.turns, b) && Picks(y.bits, z.bits, p)
    requires |t.picked + p| <= t.added + 1 + (if a.nodes[i].addrs[NDIRECT] == 0
               && z.nodes[i].addrs[NDIRECT] != 0 then 1 else 0)
    requires TableKept(y, z, i, first + t.turns)
    requires z.logged == y.logged + BBlocks(sb, p) + {b} + Table(z, i, first + t.turns >= NDIRECT) + {b}
    ensures Tallied(sb, a, z, i, first, Tally(t.turns + 1, t.added + 1, t.picked + p, t.table
              || first + t.turns >= NDIRECT))
  {
    var bn := first + t.turns;
    var t' := Tally(t.turns + 1, t.added + 1, t.picked + p, t.table || bn >= NDIRECT);
    PicksConcat(a.bits, y.bits, z.bits, t.picked, p);
    HaveMore(y, z, i, first, bn, b);
    LogsNew(sb, a.logged, y, z, i, first, t, t', b, p);
  }

  lemma LogsNew(sb: Super, logged: set<nat>, y: Snap, z: Snap, i: nat, first: nat, t: Tally, t': Tally, b: nat,
                p: seq<nat>)
    requires Shaped(y.nodes) && i < |y.nodes| && first + t.turns < MAXFILE && Shaped(z.nodes) && i < |z.nodes|
    requires Logs(sb, logged, y, i, first, t) && SlotsAfter(y, z, i, first, first + t.turns, b)
    requires TableKept(y, z, i, first + t.turns) && (t.table ==> y.nodes[i].addrs[NDIRECT] != 0)
    requires z.logged == y.logged + BBlocks(sb, p) + {b} + Table(z, i, first + t.turns >= NDIRECT) + {b}
    requires t'.turns == t.turns + 1 && t'.picked == t.picked + p && t'.table == (t.table || first + t.turns >= NDIRECT)
    ensures Logs(sb, logged, z, i, first, t')
  {
    DataBlocksStep(y, z, i, first, first + t.turns, first + t'.turns, b);
    TableUnion(y, z, i, t.table, first + t.turns >= NDIRECT);
    BBlocksConcat(sb, t.picked, p);
    LogsStep(sb, logged, y, z, i, first, t, t', b, BBlocks(sb, p), Table(z, i, first + t.turns >= NDIRECT));
  }

  /** The indirect block stays what it is once there, and is there for blocks beyond the direct ones. */
  predicate TableKept(y: Snap, z: Snap, i: nat, bn: nat)
    requires Shaped(y.nodes) && Shaped(z.nodes) && i < |y.nodes| && i < |z.nodes|
  {
    && (y.nodes[i].addrs[NDIRECT] != 0 ==> z.nodes[i].addrs[NDIRECT] == y.nodes[i].addrs[NDIRECT])
    && (bn >= NDIRECT ==> z.nodes[i].addrs[NDIRECT] != 0)
    && (bn < NDIRECT ==> z.nodes[i].addrs[NDIRECT] == y.nodes[i].addrs[NDIRECT])
  }

  lemma TallyMore(sb: Super, a: Snap, y: Snap, z: Snap, i: nat, first: nat, t: Tally, b: nat, p: seq<nat>, bytes: Bytes)
    requires Tallied(sb, a, y, i, first, t) && first + t.turns < MAXFILE
    requires a.nodes[i].addrs[NDIRECT] != 0 ==> y.nodes[i].addrs[NDIRECT] != 0
    requires BmapSlots(sb, y, z, i, first + t.turns, b, p) && Owned(z.nodes, z.blocks, z.owner) && b < |z.blocks|
    ensures Tallied(sb, a, z.(blocks := z.blocks[b := bytes], logged := z.logged + {b}), i, first,
              Count(y, i, first + t.turns, t, p))
  {
    if HasBlock(y.nodes, y.blocks, i, first + t.turns) {
      TallyMoreHad(sb, a, y, z, i, first, t, b, p, bytes);
      assert Count(y, i, first + t.turns, t, p) == t.(turns := t.turns + 1);
    } else {
      TallyMoreNew(sb, a, y, z, i, first, t, b, p, bytes);
      assert Count(y, i, first + t.turns, t, p) == Tally(t.turns + 1, t.added + 1, t.picked + p, t.table
               || first + t.turns >= NDIRECT);
    }
  }

  lemma TallyMoreHad(sb: Super, a: Snap, y: Snap, z: Snap, i: nat, first: nat, t: Tally, b: nat, p: seq<nat>,
                     bytes: Bytes)
    requires Tallied(sb, a, y, i, first, t) && first + t.turns < MAXFILE
    requires BmapSlots(sb, y, z, i, first + t.turns, b, p) && Owned(z.nodes, z.blocks, z.owner) && b < |z.blocks|
    requires HasBlock(y.nodes, y.blocks, i, first + t.turns)
    ensures Tallied(sb, a, z.(blocks := z.blocks[b := bytes], logged := z.logged + {b}), i, first,
              t.(turns := t.turns + 1))
  {
    TurnSlots(sb, y, z, i, first, first + t.turns, b, p, bytes);
    TallyHad(sb, a, y, z.(blocks := z.blocks[b := bytes], logged := z.logged + {b}), i, first, t, b);
  }

  lemma TallyMoreNew(sb: Super, a: Snap, y: Snap, z: Snap, i: nat, first: nat, t: Tally, b: nat, p: seq<nat>,
                     bytes: Bytes)
    requires Tallied(sb, a, y, i, first, t) && first + t.turns < MAXFILE
    requires a.nodes[i].addrs[NDIRECT] != 0 ==> y.nodes[i].addrs[NDIRECT] != 0
    requires BmapSlots(sb, y, z, i, first + t.turns, b, p) && Owned(z.nodes, z.blocks, z.owner) && b < |z.blocks|
    requires !HasBlock(y.nodes, y.blocks, i, first + t.turns)
    ensures Tallied(sb, a, z.(blocks := z.blocks[b := bytes], logged := z.logged + {b}), i, first,
                    Tally(t.turns + 1, t.added + 1, t.picked + p, t.table || first + t.turns >= NDIRECT))
  {
    TurnSlots(sb, y, z, i, first, first + t.turns, b, p, bytes);
    TallySize(sb, a, y, z, i, first + t.turns, t, b, p);
    TallyNew(sb, a, y, z.(blocks := z.blocks[b := bytes], logged := z.logged + {b}), i, first, t, b, p);
  }

  lemma TallySize(sb: Super, a: Snap, y: Snap, z: Snap, i: nat, bn: nat, t: Tally, b: nat, p: seq<nat>)
    requires BmapSlots(sb, y, z, i, bn, b, p) && !HasBlock(y.nodes, y.blocks, i, bn)
    requires Shaped(a.nodes) && i < |a.nodes| && (a.nodes[i].addrs[NDIRECT] != 0 ==> y.nodes[i].addrs[NDIRECT] != 0)
    requires |t.picked| <= t.added + (if a.nodes[i].addrs[NDIRECT] == 0 && y.nodes[i].addrs[NDIRECT] != 0 then 1 else 0)
    requires t.table ==> y.nodes[i].addrs[NDIRECT] != 0
    ensures |t.picked + p| <= t.added + 1 + (if a.nodes[i].addrs[NDIRECT] == 0
              && z.nodes[i].addrs[NDIRECT] != 0 then 1 else 0)
    ensures TableKept(y, z, i, bn)
  {
    assert KeepsAddr(y.nodes, y.blocks, z.nodes, z.blocks, i, NDIRECT);
  }

  // ---------------------------------------------------------------- the blocks a write takes

  /** Past the last block that n bytes from off on lie in. */
  function EndBlock(off: nat, n: nat): nat {
    if n == 0 then off / BSIZE else (off + n - 1) / BSIZE + 1
  }

  lemma EndInRange(off: nat, n: nat)
    requires off + n <= MAXBYTES
    ensures off / BSIZE <= EndBlock(off, n) <= MAXFILE
  {
  }

  /** The block of the next byte is one of the write's blocks. */
  lemma TurnInRange(off: nat, n: nat, tot: nat)
    requires tot < n && off + n <= MAXBYTES
    ensures off / BSIZE <= (off + tot) / BSIZE < EndBlock(off, n) <= MAXFILE
  {
  }

  /** The blocks that a write of n bytes at off has to allocate. */
  function WriteCost(nodes: seq<Dinode>, blocks: seq<Bytes>, i: nat, off: nat, n: nat): nat
    requires Shaped(nodes) && i < |nodes| && off + n <= MAXBYTES
  {
    EndInRange(off, n);
    Lack(nodes, blocks, i, off / BSIZE, EndBlock(off, n))
  }

  /** What would be left of the free blocks once inode i has blocks lo..hi; negative if they do not suffice. */
  function Balance(z: Snap, i: nat, lo: nat, hi: nat): int
    requires Shaped(z.nodes) && i < |z.nodes| && lo <= hi <= MAXFILE
  {
    FreeCount(z.bits) - Lack(z.nodes, z.blocks, i, lo, hi)
  }

  /** Giving inode i blocks first..end costs what they lacked: no wider range is better or worse off. */
  ghost predicate BalanceKept(a: Snap, z: Snap, i: nat, first: nat, end: nat) {
    && Shaped(a.nodes) && Shaped(z.nodes) && i < |a.nodes| && i < |z.nodes|
    && forall lo: nat, hi: nat {:trigger Balance(z, i, lo, hi)} ::
         lo <= first && end <= hi <= MAXFILE && lo <= hi ==> Balance(z, i, lo, hi) == Balance(a, i, lo, hi)
  }

  lemma BalanceTook(a: Snap, z: Snap, i: nat, bn: nat)
    requires Took(a, z, i, bn)
    ensures BalanceKept(a, z, i, bn, bn + 1)
  {
    forall lo: nat, hi: nat | lo <= bn && bn + 1 <= hi <= MAXFILE
      && lo <= hi ensures Balance(z, i, lo, hi) == Balance(a, i, lo, hi) {
      if HasBlock(a.nodes, a.blocks, i, bn) {
        MissingSame(a.nodes, a.blocks, z.nodes, z.blocks, i, lo, hi);
      } else {
        MissingLess(a.nodes, a.blocks, z.nodes, z.blocks, i, lo, hi, bn);
      }
    }
  }

  lemma BalanceAddrs(z: Snap, w: Snap, i: nat, lo: nat, hi: nat)
    requires Shaped(z.nodes) && Shaped(w.nodes) && i < |z.nodes| && i < |w.nodes| && lo <= hi <= MAXFILE
             && w.bits == z.bits
    requires w.nodes[i].addrs == z.nodes[i].addrs
             && forall u: nat :: u < MAXFILE ==> SameHas(z.nodes, z.blocks, w.nodes, w.blocks, i, u)
    ensures Balance(w, i, lo, hi) == Balance(z, i, lo, hi)
  {
    MissingSame(z.nodes, z.blocks, w.nodes, w.blocks, i, lo, hi);
  }

  /** Neither a write into a data block nor a new size takes or gives a block. */
  lemma BalanceSame(a: Snap, z: Snap, w: Snap, i: nat, first: nat, end: nat)
    requires BalanceKept(a, z, i, first, end) && Shaped(w.nodes) && i < |w.nodes| && w.bits == z.bits
    requires w.nodes[i].addrs == z.nodes[i].addrs
             && forall u: nat :: u < MAXFILE ==> SameHas(z.nodes, z.blocks, w.nodes, w.blocks, i, u)
    ensures BalanceKept(a, w, i, first, end)
  {
    forall lo: nat, hi: nat | lo <= first && end <= hi <= MAXFILE
      && lo <= hi ensures Balance(w, i, lo, hi) == Balance(a, i, lo, hi) {
      BalanceAddrs(z, w, i, lo, hi);
    }
  }

  lemma BalancePatched(a: Snap, z: Snap, i: nat, bn: nat, b: nat, bytes: Bytes)
    requires BalanceKept(a, z, i, bn, bn + 1) && Owned(z.nodes, z.blocks, z.owner)
    requires b in z.owner && z.owner[b].s != NDIRECT && b < |z.blocks|
    ensures BalanceKept(a, z.(blocks := z.blocks[b := bytes], logged := z.logged + {b}), i, bn, bn + 1)
  {
    var w := z.(blocks := z.blocks[b := bytes], logged := z.logged + {b});
    forall u: nat | u < MAXFILE ensures SameHas(z.nodes, z.blocks, w.nodes, w.blocks, i, u) {
      WriteAddr(z.nodes, z.blocks, z.owner, b, bytes, i, SlotOf(u));
    }
    BalanceSame(a, z, w, i, bn, bn + 1);
  }

  lemma BalanceTrans(a: Snap, y: Snap, z: Snap, i: nat, first: nat, end: nat, from: nat, stop: nat)
    requires BalanceKept(a, y, i, first, end) && BalanceKept(y, z, i, from, stop) && first <= from && stop <= end
    ensures BalanceKept(a, z, i, first, end)
  {
    forall lo: nat, hi: nat | lo <= first && end <= hi <= MAXFILE
      && lo <= hi ensures Balance(z, i, lo, hi) == Balance(a, i, lo, hi) {
      assert Balance(y, i, lo, hi) == Balance(a, i, lo, hi);
    }
  }

  lemma BalanceStart(a: Snap, i: nat, first: nat, end: nat)
    requires Shaped(a.nodes) && i < |a.nodes|
    ensures BalanceKept(a, a, i, first, end)
  {
  }

  lemma BalanceShort(y: Snap, i: nat, lo: nat, hi: nat, bn: nat)
    requires Shaped(y.nodes) && i < |y.nodes| && lo <= bn < hi <= MAXFILE
             && FreeCount(y.bits) < BmapCost(y.nodes, y.blocks, i, bn)
    ensures Balance(y, i, lo, hi) < 0
  {
    CostBelowLack(y.nodes, y.blocks, i, lo, hi, bn);
  }

  /** Once the bytes are written nothing is lacking. */
  lemma BalanceDone(a: Snap, z: Snap, i: nat, off: nat, src: seq<Byte>)
    requires WroteTo(a, z, i, off, src, |src|)
    ensures off / BSIZE <= EndBlock(off, |src|) <= MAXFILE && Balance(z, i, off / BSIZE, EndBlock(off, |src|)) >= 0
  {
    var lo, hi := off / BSIZE, EndBlock(off, |src|);
    EndInRange(off, |src|);
    forall u: nat | lo <= u < hi ensures HasBlock(z.nodes, z.blocks, i, u) {
      assert u * BSIZE < off + |src|;
    }
    LackNone(z.nodes, z.blocks, i, lo, hi);
  }

  // ---------------------------------------------------------------- writei

  lemma WriteFiles(nodes: seq<Dinode>, blocks: seq<Bytes>, owner: Owners, b: nat, bytes: Bytes)
    requires Owned(nodes, blocks, owner) && Files(nodes, blocks) && b in owner && owner[b].s != NDIRECT && b < |blocks|
    ensures Files(nodes, blocks[b := bytes])
  {
    var blocks' := blocks[b := bytes];
    forall j: nat | j < |nodes| ensures FileOk(nodes, blocks', j) {
      assert FileOk(nodes, blocks, j);
      forall bn: nat | bn < MAXFILE && bn * BSIZE < nodes[j].size ensures HasBlock(nodes, blocks', j, bn) {
        assert HasBlock(nodes, blocks, j, bn);
        WriteAddr(nodes, blocks, owner, b, bytes, j, SlotOf(bn));
      }
    }
  }

  /** tot bytes of src written into file i since state a, starting in block first. */
  ghost predicate Writing(fs: Fs, a: Snap, i: nat, off: nat, src: seq<Byte>, tot: nat, first: nat, t: Tally)
    reads fs
  {
    && fs.Valid() && i in fs.icache && fs.nodes[i].kind != 0
    && WroteTo(a, fs.Now(), i, off, src, tot) && Tallied(fs.sb, a, fs.Now(), i, first, t)
  }

  lemma WriteStep(sb: Super, a: Snap, y: Snap, z: Snap, i: nat, off: nat, src: seq<Byte>, tot: nat, now: nat, bn: nat,
                  at: nat, b: nat, p: seq<nat>, first: nat, t: Tally)
    requires WroteTo(a, y, i, off, src, tot) && tot < now <= |src| && off + now <= MAXBYTES
    requires off + tot == bn * BSIZE + at && at + (now - tot) <= BSIZE && bn < MAXFILE
    requires Tallied(sb, a, y, i, first, t) && bn == first + t.turns
    requires Bmapped(sb, y, z, i, bn, b, p) && Owned(z.nodes, z.blocks, z.owner) && b < |z.blocks|
    ensures var z' := z.(blocks := z.blocks[b := Patched(z.blocks[b], at, src[tot..now])], logged := z.logged + {b});
            WroteTo(a, z', i, off, src, now) && Tallied(sb, a, z', i, first, Count(y, i, bn, t, p))
  {
    WroteMore(sb, a, y, z, i, off, src, tot, now, bn, at, b, p);
    TableSame(a, y, i, off, src, tot);
    TallyMore(sb, a, y, z, i, first, t, b, p, Patched(z.blocks[b], at, src[tot..now]));
  }

  lemma TableSame(a: Snap, y: Snap, i: nat, off: nat, src: seq<Byte>, tot: nat)
    requires WroteTo(a, y, i, off, src, tot)
    ensures a.nodes[i].addrs[NDIRECT] != 0 ==> y.nodes[i].addrs[NDIRECT] != 0
  {
    assert KeepsAddr(a.nodes, a.blocks, y.nodes, y.blocks, i, NDIRECT);
  }

  /** Blocks that n bytes fill, rounded up. */
  function BlocksFor(n: nat): nat {
    (n + BSIZE - 1) / BSIZE
  }

  /** How turns, bytes and new blocks go together, for a file of the given size before the write. */
  predicate Paced(off: nat, n: nat, tot: nat, first: nat, size: nat, turns: nat, added: nat) {
    && first == off / BSIZE && tot <= n
    && (turns == 0 <==> tot == 0)
    && (tot < n ==> (off + tot) / BSIZE == first + turns)
    && (0 < tot < n ==> (off + tot) % BSIZE == 0)
    && (tot == n && n > 0 ==> (off + n - 1) / BSIZE + 1 == first + turns)
    && added <= turns && (off % BSIZE != 0 && turns > 0 ==> added < turns)
    && (off + n <= size ==> added == 0)
  }

  lemma PaceStep(off: nat, n: nat, tot: nat, first: nat, size: nat, turns: nat, added: nat, now: nat, had: bool,
                 turns': nat, added': nat)
    requires Paced(off, n, tot, first, size, turns, added) && tot < n && off <= size
    requires now == tot + Min(n - tot, BSIZE - (off + tot) % BSIZE)
    requires (off + tot) / BSIZE * BSIZE < size ==> had
    requires turns' == turns + 1 && added' == if had then added else added + 1
    ensures Paced(off, n, now, first, size, turns', added')
  {
    var o, m := off + tot, now - tot;
    assert o == o / BSIZE * BSIZE + o % BSIZE;
    if m == n - tot {
      assert (o + m - 1) / BSIZE == o / BSIZE by {
        InBlock(o, m - 1);
      }
    } else {
      assert o + m == (o / BSIZE + 1) * BSIZE;
    }
  }

  /** The most turns and new blocks a write of n bytes takes. */
  lemma PaceBound(off: nat, n: nat, first: nat, size: nat, turns: nat, added: nat)
    requires Paced(off, n, n, first, size, turns, added)
    ensures turns + added <= 2 * BlocksFor(n) + 1 && added <= BlocksFor(n)
  {
    if n > 0 {
      TurnsBound(off, n);
    }
  }

  lemma TurnsBound(off: nat, n: nat)
    requires n > 0
    ensures var turns := (off + n - 1) / BSIZE + 1 - off / BSIZE;
            turns <= BlocksFor(n) + (if off % BSIZE == 0 then 0 else 1)
  {
  }

  /** A write of src at off is under way since state a, with tally t. */
  ghost predicate GoingWith(fs: Fs, a: Snap, i: nat, off: nat, src: seq<Byte>, tot: nat, t: Tally)
    reads fs
  {
    && Writing(fs, a, i, off, src, tot, off / BSIZE, t)
    && Paced(off, |src|, tot, off / BSIZE, a.nodes[i].size, t.turns, t.added)
  }

  ghost predicate Going(fs: Fs, a: Snap, i: nat, off: nat, src: seq<Byte>, tot: nat)
    reads fs
  {
    exists t :: GoingWith(fs, a, i, off, src, tot, t)
  }

  lemma GoingStart(fs: Fs, i: nat, off: nat, src: seq<Byte>)
    requires fs.Valid() && i in fs.icache && fs.nodes[i].kind != 0 && off <= fs.nodes[i].size && off + |src| <= MAXBYTES
    ensures Going(fs, fs.Now(), i, off, src, 0)
  {
    WroteNone(fs.sb, fs.Now(), i, off, src, off / BSIZE);
    assert GoingWith(fs, fs.Now(), i, off, src, 0, Tally(0, 0, [], false));
  }

  /** At the end of the loop, before the size is updated. */
  lemma GoingEnd(fs: Fs, a: Snap, i: nat, off: nat, src: seq<Byte>, t: Tally)
    requires GoingWith(fs, a, i, off, src, |src|, t)
    ensures fs.Valid() && i in fs.icache && fs.nodes[i].kind != 0 && fs.nodes[i].size == a.nodes[i].size
    ensures forall bn: nat :: bn < MAXFILE && bn * BSIZE < off + |src| ==> HasBlock(fs.nodes, fs.blocks, i, bn)
    ensures off + |src| <= a.nodes[i].size || |src| == 0 ==> fs.nodes == a.nodes
    ensures WroteTo(a, fs.Now(), i, off, src, |src|) && Tallied(fs.sb, a, fs.Now(), i, off / BSIZE, t)
    ensures Paced(off, |src|, |src|, off / BSIZE, a.nodes[i].size, t.turns, t.added)
  {
  }

  lemma BlockInRange(o: nat)
    requires o < MAXBYTES
    ensures o / BSIZE < MAXFILE && o == o / BSIZE * BSIZE + o % BSIZE
  {
  }

  lemma WroteNone(sb: Super, a: Snap, i: nat, off: nat, src: seq<Byte>, first: nat)
    requires Owned(a.nodes, a.blocks, a.owner) && i < |a.nodes| && Files(a.nodes, a.blocks) && off <= a.nodes[i].size
             && off <= MAXBYTES && first <= MAXFILE
    ensures WroteTo(a, a, i, off, src, 0) && Tallied(sb, a, a, i, first, Tally(0, 0, [], false))
  {
    assert FileOk(a.nodes, a.blocks, i);
    forall bn: nat | bn < MAXFILE && bn * BSIZE < off + 0 ensures HasBlock(a.nodes, a.blocks, i, bn) {
    }
    assert a.logged == a.logged + {} + BBlocks(sb, []) + {};
  }

  /** A block below the old size is there at every turn. */
  lemma HadBlock(a: Snap, y: Snap, i: nat, off: nat, src: seq<Byte>, tot: nat, bn: nat)
    requires WroteTo(a, y, i, off, src, tot) && Files(a.nodes, a.blocks) && bn < MAXFILE
    ensures bn * BSIZE < a.nodes[i].size ==> HasBlock(y.nodes, y.blocks, i, bn)
  {
    assert FileOk(a.nodes, a.blocks, i);
    if bn * BSIZE < a.nodes[i].size {
      assert HasBlock(a.nodes, a.blocks, i, bn);
      assert KeepsAddr(a.nodes, a.blocks, y.nodes, y.blocks, i, SlotOf(bn));
    }
  }

  datatype Write = Wrote | TooFar | ToDevice | Panic

  /** A longer size is no hole when the blocks are there. */
  lemma GrowFiles(nodes: seq<Dinode>, blocks: seq<Bytes>, i: nat, size: nat)
    requires Shaped(nodes) && i < |nodes| && Files(nodes, blocks) && size <= MAXBYTES && nodes[i].kind != 0
    requires forall bn: nat :: bn < MAXFILE && bn * BSIZE < size ==> HasBlock(nodes, blocks, i, bn)
    ensures Shaped(nodes[i := nodes[i].(size := size)]) && Files(nodes[i := nodes[i].(size := size)], blocks)
  {
    var nodes' := nodes[i := nodes[i].(size := size)];
    forall j: nat | j < |nodes'| ensures FileOk(nodes', blocks, j) {
      assert FileOk(nodes, blocks, j);
      forall bn: nat | bn < MAXFILE && bn * BSIZE < nodes'[j].size ensures HasBlock(nodes', blocks, j, bn) {
        assert HasBlock(nodes, blocks, j, bn);
      }
    }
  }

  /** Sizes do not move blocks. */
  lemma SizeOwned(nodes: seq<Dinode>, nodes': seq<Dinode>, blocks: seq<Bytes>, owner: Owners, i: nat, size: nat)
    requires Owned(nodes, blocks, owner) && i < |nodes| && nodes' == nodes[i := nodes[i].(size := size)]
    ensures Owned(nodes', blocks, owner)
    ensures forall j: nat, k: nat :: j < |nodes| && k < MAXBYTES ==> SameByte(nodes, blocks, nodes', blocks, j, k)
  {
    forall j: nat, s: nat | j < |nodes| && s < SLOTS ensures SlotOk(nodes', blocks, owner, j, s) {
      assert SlotOk(nodes, blocks, owner, j, s);
    }
    forall b | b in owner ensures HomeOk(nodes', blocks, owner, b) {
      assert HomeOk(nodes, blocks, owner, b);
    }
  }

  /** What writei leaves: src spliced into file i, and every other file as it was. */
  ghost predicate Spliced(a: Snap, nodes: seq<Dinode>, blocks: seq<Bytes>, i: nat, off: nat, src: seq<Byte>) {
    && Shaped(a.nodes) && Shaped(nodes) && |nodes| == |a.nodes| && i < |nodes| && off <= a.nodes[i].size <= MAXBYTES
       && nodes[i].size <= MAXBYTES
    && Contents(nodes, blocks, i) == Splice(Contents(a.nodes, a.blocks, i), off, src)
    && nodes[i] == a.nodes[i].(addrs := nodes[i].addrs, size := nodes[i].size)
    && (forall j: nat :: j < |nodes| && j != i ==> nodes[j] == a.nodes[j])
    && (forall j: nat, k: nat :: j < |nodes| && j != i && k < MAXBYTES ==>
          SameByte(a.nodes, a.blocks, nodes, blocks, j, k))
  }

  lemma SplicedBytes(a: Snap, z: Snap, nodes: seq<Dinode>, i: nat, off: nat, src: seq<Byte>, size: nat)
    requires WroteTo(a, z, i, off, src, |src|) && off <= a.nodes[i].size <= MAXBYTES && size <= MAXBYTES
    requires size == if off + |src| > a.nodes[i].size then off + |src| else a.nodes[i].size
    requires nodes == z.nodes[i := z.nodes[i].(size := size)] && Shaped(nodes)
    requires forall j: nat, k: nat :: j < |nodes| && k < MAXBYTES ==> SameByte(z.nodes, z.blocks, nodes, z.blocks, j, k)
    ensures Spliced(a, nodes, z.blocks, i, off, src)
  {
    var c, c' := Contents(a.nodes, a.blocks, i), Contents(nodes, z.blocks, i);
    forall k | 0 <= k < size ensures c'[k] == Splice(c, off, src)[k] {
      assert ByteNow(a, z, i, off, src, |src|, i, k) && SameByte(z.nodes, z.blocks, nodes, z.blocks, i, k);
    }
    forall j: nat, k: nat | j < |nodes| && j != i
      && k < MAXBYTES ensures SameByte(a.nodes, a.blocks, nodes, z.blocks, j, k) {
      assert ByteNow(a, z, i, off, src, |src|, j, k) && SameByte(z.nodes, z.blocks, nodes, z.blocks, j, k);
    }
  }

  lemma {:induction false} BBlocksSize(sb: Super, picked: seq<nat>)
    ensures |BBlocks(sb, picked)| <= |picked|
  {
    if picked == [] {
      assert BBlocks(sb, picked) == {};
    } else {
      var last := |picked| - 1;
      BBlocksSize(sb, picked[..last]);
      BBlocksConcat(sb, picked[..last], [picked[last]]);
      assert picked == picked[..last] + [picked[last]];
      assert picked[last] in [picked[last]];
      assert BBlocks(sb, [picked[last]]) == {BBlock(sb, picked[last])};
    }
  }

  ghost function InodePart(sb: Super, i: nat, grew: bool): set<nat> {
    if grew then {IBlock(sb, i)} else {}
  }

  lemma SmallParts(sb: Super, z: Snap, i: nat, used: bool, grew: bool)
    requires Shaped(z.nodes) && i < |z.nodes|
    ensures |Table(z, i, used)| <= 1 && |InodePart(sb, i, grew)| <= 1
  {
  }

  /** What a write logs, the inode block included when the file grew. */
  ghost function WriteLog(sb: Super, z: Snap, i: nat, first: nat, t: Tally, grew: bool): set<nat>
    requires Shaped(z.nodes) && i < |z.nodes| && first + t.turns <= MAXFILE
  {
    DataBlocks(z.nodes, z.blocks, i, first, first + t.turns) + BBlocks(sb, t.picked) + Table(z, i, t.table)
        + InodePart(sb, i, grew)
  }

  lemma UnionSize(d: set<nat>, b: set<nat>, t: set<nat>, x: set<nat>)
    ensures |d + b + t + x| <= |d| + |b| + |t| + |x|
  {
  }

  lemma BudgetSum(d: set<nat>, b: set<nat>, t: set<nat>, x: set<nat>, turns: nat, added: nat, c: nat)
    requires |d| <= turns && |b| <= added + 1 && |t| <= 1 && |x| <= 1 && turns + added <= 2 * c + 1
    ensures |d + b + t + x| <= 2 * c + 4
  {
    UnionSize(d, b, t, x);
  }

  /** Data blocks, bitmap blocks, the indirect block and the inode block: at most 2 * BlocksFor(n) + 4 in all. */
  lemma LogBudget(sb: Super, z: Snap, i: nat, first: nat, t: Tally, grew: bool, c: nat)
    requires Shaped(z.nodes) && i < |z.nodes| && first + t.turns <= MAXFILE && |t.picked| <= t.added + 1
             && t.turns + t.added <= 2 * c + 1
    ensures |WriteLog(sb, z, i, first, t, grew)| <= 2 * c + 4
  {
    var d, b, x, y := DataBlocks(z.nodes, z.blocks, i, first, first + t.turns), BBlocks(sb, t.picked),
        Table(z, i, t.table), InodePart(sb, i, grew);
    assert |d| <= t.turns by {
      DataBlocksSize(z.nodes, z.blocks, i, first, first + t.turns);
    }
    assert |b| <= t.added + 1 by {
      BBlocksSize(sb, t.picked);
    }
    assert |x| <= 1 && |y| <= 1 by {
      SmallParts(sb, z, i, t.table, grew);
    }
    assert |d + b + x + y| <= 2 * c + 4 by {
      BudgetSum(d, b, x, y, t.turns, t.added, c);
    }
  }

  /** The size update logs the inode block and moves no other. */
  lemma LogEnd(sb: Super, logged: set<nat>, z: Snap, z': Snap, i: nat, first: nat, t: Tally, grew: bool)
    requires Shaped(z.nodes) && Shaped(z'.nodes) && i < |z.nodes| && i < |z'.nodes| && first + t.turns <= MAXFILE
    requires Logs(sb, logged, z, i, first, t) && z'.nodes[i].addrs == z.nodes[i].addrs && z'.blocks == z.blocks
    requires z'.logged == z.logged + InodePart(sb, i, grew)
    ensures WriteLog(sb, z', i, first, t, grew) == WriteLog(sb, z, i, first, t, grew)
    ensures z'.logged == logged + WriteLog(sb, z', i, first, t, grew)
  {
    assert Equals(z.logged, z.logged);
    DataBlocksSame(z.nodes, z.blocks, z'.nodes, z'.blocks, i, first, first + t.turns);
  }

  /** From a to z a write of src at off to file i has been done. */
  ghost predicate WriteDone(sb: Super, a: Snap, z: Snap, i: nat, off: nat, src: seq<Byte>, first: nat, t: Tally) {
    && Spliced(a, z.nodes, z.blocks, i, off, src)
    && Grown(a, z, i, first, t)
    && WriteLogged(sb, a, z, i, off, |src|, first, t)
  }

  /** Such a write has been done, whatever its tally. */
  ghost predicate Written(sb: Super, a: Snap, z: Snap, i: nat, off: nat, src: seq<Byte>) {
    exists t :: WriteDone(sb, a, z, i, off, src, off / BSIZE, t)
  }

  /** Slots keep their blocks and the blocks of the turns are there. */
  ghost predicate Grown(a: Snap, z: Snap, i: nat, first: nat, t: Tally) {
    && Shaped(a.nodes) && Shaped(z.nodes) && |z.nodes| == |a.nodes| && i < |z.nodes| && first + t.turns <= MAXFILE
    && (forall j: nat, s: nat :: j < |z.nodes| && s < SLOTS ==> KeepsAddr(a.nodes, a.blocks, z.nodes, z.blocks, j, s))
    && Have(z, i, first, first + t.turns)
    && (!t.table ==> z.nodes[i].addrs[NDIRECT] == a.nodes[i].addrs[NDIRECT])
  }

  /** The blocks allocated and the blocks logged by a write of n bytes. */
  ghost predicate WriteLogged(sb: Super, a: Snap, z: Snap, i: nat, off: nat, n: nat, first: nat, t: Tally) {
    && Shaped(a.nodes) && Shaped(z.nodes) && i < |a.nodes| && i < |z.nodes|
    && first + t.turns <= MAXFILE && Picks(a.bits, z.bits, t.picked)
    && (n > 0 ==> first + t.turns == (off + n - 1) / BSIZE + 1) && |t.picked| <= BlocksFor(n) + 1
    && z.logged == a.logged + WriteLog(sb, z, i, first, t, n > 0 && off + n > a.nodes[i].size)
    && |WriteLog(sb, z, i, first, t, n > 0 && off + n > a.nodes[i].size)| <= 2 * BlocksFor(n) + 4
  }

  /** The size of the file after a write. */
  function SizeAfter(size: nat, off: nat, n: nat): nat {
    if n > 0 && off + n > size then off + n else size
  }

  /** The inodes after a write that had its blocks already. */
  function NodesAfter(nodes: seq<Dinode>, i: nat, off: nat, n: nat): seq<Dinode>
    requires i < |nodes|
  {
    if n > 0 && off + n > nodes[i].size then nodes[i := nodes[i].(size := off + n)] else nodes
  }

  lemma WriteOutcome(sb: Super, a: Snap, z: Snap, z': Snap, i: nat, off: nat, src: seq<Byte>, first: nat, t: Tally)
    requires WroteTo(a, z, i, off, src, |src|) && Tallied(sb, a, z, i, first, t) && Owned(z.nodes, z.blocks, z.owner)
    requires Paced(off, |src|, |src|, first, a.nodes[i].size, t.turns, t.added)
    requires off <= a.nodes[i].size <= MAXBYTES && off + |src| <= MAXBYTES
    requires z'.nodes == NodesAfter(z.nodes, i, off, |src|) && z.nodes[i].size == a.nodes[i].size
             && z'.blocks == z.blocks && z'.bits == z.bits
    requires z'.logged == z.logged + InodePart(sb, i, |src| > 0 && off + |src| > a.nodes[i].size)
    ensures WriteDone(sb, a, z', i, off, src, first, t)
  {
    assert z'.nodes == z.nodes[i := z.nodes[i].(size := SizeAfter(a.nodes[i].size, off, |src|))];
    SizeOwned(z.nodes, z'.nodes, z.blocks, z.owner, i, SizeAfter(a.nodes[i].size, off, |src|));
    SplicedBytes(a, z, z'.nodes, i, off, src, SizeAfter(a.nodes[i].size, off, |src|));
    OutcomeGrown(a, z, z', i, off, src, first, t);
    OutcomeLogged(sb, a, z, z', i, off, |src|, first, t);
  }

  lemma OutcomeGrown(a: Snap, z: Snap, z': Snap, i: nat, off: nat, src: seq<Byte>, first: nat, t: Tally)
    requires WroteTo(a, z, i, off, src, |src|) && first + t.turns <= MAXFILE && Have(z, i, first, first + t.turns)
    requires !t.table ==> z.nodes[i].addrs[NDIRECT] == a.nodes[i].addrs[NDIRECT]
    requires Shaped(z'.nodes) && |z'.nodes| == |z.nodes| && z'.blocks == z.blocks
    requires forall j: nat :: j < |z.nodes| ==> z'.nodes[j].addrs == z.nodes[j].addrs
    ensures Grown(a, z', i, first, t)
  {
    HaveSame(z, z', i, first, first + t.turns);
    forall j: nat, s: nat | j < |z.nodes| && s < SLOTS ensures KeepsAddr(a.nodes, a.blocks, z'.nodes, z'.blocks, j, s) {
      assert KeepsAddr(a.nodes, a.blocks, z.nodes, z.blocks, j, s);
    }
  }

  lemma OutcomeLogged(sb: Super, a: Snap, z: Snap, z': Snap, i: nat, off: nat, n: nat, first: nat, t: Tally)
    requires Tallied(sb, a, z, i, first, t) && Paced(off, n, n, first, a.nodes[i].size, t.turns, t.added)
    requires Shaped(z'.nodes) && i < |z'.nodes| && z'.nodes[i].addrs == z.nodes[i].addrs && z'.blocks == z.blocks
             && z'.bits == z.bits
    requires z'.logged == z.logged + InodePart(sb, i, n > 0 && off + n > a.nodes[i].size)
    ensures WriteLogged(sb, a, z', i, off, n, first, t)
  {
    var grew := n > 0 && off + n > a.nodes[i].size;
    PaceBound(off, n, first, a.nodes[i].size, t.turns, t.added);
    LogBudget(sb, z, i, first, t, grew, BlocksFor(n));
    LogEnd(sb, a.logged, z, z', i, first, t, grew);
  }

  lemma HaveSame(z: Snap, z': Snap, i: nat, lo: nat, hi: nat)
    requires Shaped(z.nodes) && Shaped(z'.nodes) && i < |z.nodes| && i < |z'.nodes| && hi <= MAXFILE
    requires Have(z, i, lo, hi) && z'.nodes[i].addrs == z.nodes[i].addrs && z'.blocks == z.blocks
    ensures Have(z', i, lo, hi)
  {
    forall bn: nat | lo <= bn < hi ensures HasBlock(z'.nodes, z'.blocks, i, bn) {
      assert HasBlock(z.nodes, z.blocks, i, bn);
    }
  }
}
