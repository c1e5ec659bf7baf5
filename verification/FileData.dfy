/** fs.c's readi and writei: files as byte sequences, and how many blocks one write logs and takes. */
module FileData {
  import opened Params
  import opened Inodes
  import opened FreeBlocks
  import opened FileSystem
  import opened FileBytes

  /** One turn of readi, with left bytes to go: bmap finds the block and allocates nothing. */
  method ReadTurn(fs: Fs, i: nat, o: nat, left: nat) returns (part: seq<Byte>)
    requires fs.Valid() && i in fs.icache && fs.nodes[i].kind != 0 && o + left <= fs.nodes[i].size <= MAXBYTES
             && left > 0
    modifies fs
    ensures fs.dinodes == old(fs.dinodes) && Same(fs, old(fs.Now()), old(fs.icache))
    ensures 0 < |part| <= left && part == Contents(fs.nodes, fs.blocks, i)[o..o + |part|]
  {
    var m := Min(left, BSIZE - o % BSIZE);
    assert FileOk(fs.nodes, fs.blocks, i);
    ReadStretch(fs.nodes, fs.blocks, fs.owner, i, o, m);
    var b;
    ghost var picked;
    b, picked := fs.Bmap(i, o / BSIZE);
    part := fs.blocks[b.value][o % BSIZE..o % BSIZE + m];
  }

  method ReadLoop(fs: Fs, i: nat, off: nat, n: nat) returns (out: seq<Byte>)
    requires fs.Valid() && i in fs.icache && fs.nodes[i].kind != 0 && off + n <= fs.nodes[i].size <= MAXBYTES
    modifies fs
    ensures fs.dinodes == old(fs.dinodes) && Same(fs, old(fs.Now()), old(fs.icache))
    ensures out == Contents(fs.nodes, fs.blocks, i)[off..off + n]
  {
    ghost var a, ic, di, c := fs.Now(), fs.icache, fs.dinodes, Contents(fs.nodes, fs.blocks, i);
    out := [];
    while |out| < n
      invariant |out| <= n && fs.dinodes == di && Same(fs, a, ic)
      invariant out == c[off..off + |out|]
    {
      var part := ReadTurn(fs, i, off + |out|, n - |out|);
      assert out + part == c[off..off + |out| + |part|];
      out := out + part;
    }
  }

  /** readi: exactly the slice of the file, cut at its end; nothing changes. */
  method Readi(fs: Fs, i: nat, off: nat, n: nat) returns (r: Read)
    requires fs.Valid() && i in fs.icache && fs.icache[i].kind != 0 && off < TWO32 && n < TWO32
    modifies fs
    ensures fs.dinodes == old(fs.dinodes) && Same(fs, old(fs.Now()), old(fs.icache))
    ensures r.Device? <==> fs.icache[i].kind == T_DEV
    ensures r.Refused? <==> fs.icache[i].kind != T_DEV && (off > fs.icache[i].size || off + n >= TWO32)
    ensures r.Got? ==> fs.nodes[i].size <= MAXBYTES && off <= fs.nodes[i].size
                       && r.bytes == Contents(fs.nodes, fs.blocks, i)[off..Min(off + n, fs.nodes[i].size)]
  {
    ghost var a, ic, di := fs.Now(), fs.icache, fs.dinodes;
    assert NodeNow(fs.nodes, fs.dinodes, fs.icache, i) && FileOk(fs.nodes, fs.blocks, i);
    if fs.icache[i].kind == T_DEV {
      return Device;
    }
    if off > fs.icache[i].size || (off + n) % TWO32 < off {
      return Refused;
    }
    var n1 := if off + n > fs.icache[i].size then fs.icache[i].size - off else n;
    var out := ReadLoop(fs, i, off, n1);
    r := Got(out);
  }

  /** memmove into the bn-th block of file i, and log_write. */
  method PatchBlock(fs: Fs, i: nat, b: nat, ghost bn: nat, at: nat, part: seq<Byte>)
    requires fs.Valid() && i < |fs.nodes| && bn < MAXFILE && 0 < b < |fs.blocks|
             && b == Addr(fs.nodes, fs.blocks, i, SlotOf(bn))
    requires at + |part| <= BSIZE
    modifies fs`blocks, fs`logged
    ensures fs.Valid()
    ensures fs.blocks == old(fs.blocks)[b := Patched(old(fs.blocks)[b], at, part)] && fs.logged == old(fs.logged) + {b}
  {
    SlotBlock(fs.nodes, fs.blocks, fs.owner, i, SlotOf(bn));
    SlotOfInjective(bn, 0);
    WriteOwned(fs.nodes, fs.blocks, fs.owner, b, Patched(fs.blocks[b], at, part));
    WriteFiles(fs.nodes, fs.blocks, fs.owner, b, Patched(fs.blocks[b], at, part));
    fs.blocks := fs.blocks[b := Patched(fs.blocks[b], at, part)];
    fs.logged := fs.logged + {b};
  }

  /** bmap, then the patch; z is the state in between. */
  method BmapPatch(fs: Fs, i: nat, bn: nat, at: nat, part: seq<Byte>)
    returns (ok: bool, ghost b: nat, ghost p: seq<nat>, ghost z: Snap)
    requires fs.Valid() && i in fs.icache && fs.nodes[i].kind != 0 && bn < MAXFILE && at + |part| <= BSIZE
    modifies fs
    ensures ok ==> fs.Valid() && i in fs.icache && fs.nodes[i].kind == old(fs.nodes)[i].kind
                   && fs.icache.Keys == old(fs.icache).Keys && fs.dinodes == old(fs.dinodes)
                   && Bmapped(fs.sb, old(fs.Now()), z, i, bn, b, p) && Owned(z.nodes, z.blocks, z.owner)
                      && b < |z.blocks|
                   && fs.Now() == z.(blocks := z.blocks[b := Patched(z.blocks[b], at, part)], logged := z.logged + {b})
    ensures ok ==> BalanceKept(old(fs.Now()), fs.Now(), i, bn, bn + 1)
    ensures !ok ==> FreeCount(old(fs.bits)) < BmapCost(old(fs.nodes), old(fs.blocks), i, bn)
  {
    ghost var y := fs.Now();
    var r;
    r, p := fs.Bmap(i, bn);
    z := fs.Now();
    if r.None? {
      return false, 0, p, z;
    }
    b := r.value;
    BalanceTook(y, z, i, bn);
    SlotBlock(z.nodes, z.blocks, z.owner, i, SlotOf(bn));
    SlotOfInjective(bn, 0);
    BalancePatched(y, z, i, bn, b, Patched(z.blocks[b], at, part));
    PatchBlock(fs, i, r.value, bn, at, part);
    ok := true;
  }

  /** One turn of writei's loop: block bn, from offset at. */
  method WriteTurn(fs: Fs, i: nat, bn: nat, at: nat, off: nat, src: seq<Byte>, tot: nat, ghost a: Snap,
                   ghost first: nat, ghost t: Tally)
    returns (ok: bool, now: nat, ghost t': Tally)
    requires Writing(fs, a, i, off, src, tot, first, t) && tot < |src| && off + |src| <= MAXBYTES
    requires off + tot == bn * BSIZE + at && at < BSIZE && bn == first + t.turns < MAXFILE
    modifies fs
    ensures ok ==> now == tot + Min(|src| - tot, BSIZE - at)
                   && Writing(fs, a, i, off, src, now, first, t') && fs.icache.Keys == old(fs.icache).Keys
                      && fs.dinodes == old(fs.dinodes)
                   && t'.turns == t.turns + 1
                   && t'.added == t.added + (if HasBlock(old(fs.nodes), old(fs.blocks), i, bn) then 0 else 1)
    ensures ok ==> BalanceKept(old(fs.Now()), fs.Now(), i, bn, bn + 1)
    ensures !ok ==> FreeCount(old(fs.bits)) < BmapCost(old(fs.nodes), old(fs.blocks), i, bn)
  {
    ghost var y := fs.Now();
    now := tot + Min(|src| - tot, BSIZE - at);
    ghost var b, p, z;
    ok, b, p, z := BmapPatch(fs, i, bn, at, src[tot..now]);
    t' := t;
    if ok {
      WriteStep(fs.sb, a, y, z, i, off, src, tot, now, bn, at, b, p, first, t);
      t' := Count(y, i, bn, t, p);
    }
  }

  /** A turn with its block arithmetic. */
  method WritePaced(fs: Fs, i: nat, off: nat, src: seq<Byte>, tot: nat, ghost a: Snap, ghost t: Tally)
    returns (ok: bool, now: nat, ghost t': Tally)
    requires GoingWith(fs, a, i, off, src, tot, t) && i < |a.nodes| && tot < |src| && off + |src| <= MAXBYTES
    requires off <= a.nodes[i].size && Files(a.nodes, a.blocks)
    modifies fs
    ensures ok ==> tot < now <= |src| && GoingWith(fs, a, i, off, src, now, t')
                   && fs.icache.Keys == old(fs.icache).Keys && fs.dinodes == old(fs.dinodes)
    ensures var bn := (off + tot) / BSIZE;
            && (ok ==> BalanceKept(old(fs.Now()), fs.Now(), i, bn, bn + 1))
            && (!ok ==> FreeCount(old(fs.bits)) < BmapCost(old(fs.nodes), old(fs.blocks), i, bn))
  {
    ghost var y := fs.Now();
    var bn, at := (off + tot) / BSIZE, (off + tot) % BSIZE;
    BlockInRange(off + tot);
    HadBlock(a, y, i, off, src, tot, bn);
    ok, now, t' := WriteTurn(fs, i, bn, at, off, src, tot, a, off / BSIZE, t);
    if ok {
      PaceStep(off, |src|, tot, off / BSIZE, a.nodes[i].size, t.turns, t.added, now, HasBlock(y.nodes, y.blocks, i, bn),
          t'.turns, t'.added);
    }
  }

  /** A turn, and what is left to pay after it. */
  method WriteNext(fs: Fs, i: nat, off: nat, src: seq<Byte>, tot: nat, ghost a: Snap) returns (ok: bool, now: nat)
    requires Going(fs, a, i, off, src, tot) && i < |a.nodes| && tot < |src| && off + |src| <= MAXBYTES
    requires off <= a.nodes[i].size && Files(a.nodes, a.blocks)
    requires BalanceKept(a, fs.Now(), i, off / BSIZE, EndBlock(off, |src|))
    modifies fs
    ensures ok ==> tot < now <= |src| && Going(fs, a, i, off, src, now)
                   && fs.icache.Keys == old(fs.icache).Keys && fs.dinodes == old(fs.dinodes)
    ensures ok ==> BalanceKept(a, fs.Now(), i, off / BSIZE, EndBlock(off, |src|))
    ensures !ok ==> FreeCount(a.bits) < WriteCost(a.nodes, a.blocks, i, off, |src|)
  {
    ghost var y, bn := fs.Now(), (off + tot) / BSIZE;
    ghost var t :| GoingWith(fs, a, i, off, src, tot, t);
    TurnInRange(off, |src|, tot);
    ghost var t';
    ok, now, t' := WritePaced(fs, i, off, src, tot, a, t);
    if ok {
      BalanceTrans(a, y, fs.Now(), i, off / BSIZE, EndBlock(off, |src|), bn, bn + 1);
    } else {
      BalanceShort(y, i, off / BSIZE, EndBlock(off, |src|), bn);
    }
  }

  /** writei's loop; false is a panic in bmap. */
  method WriteLoop(fs: Fs, i: nat, off: nat, src: seq<Byte>) returns (ok: bool)
    requires fs.Valid() && i in fs.icache && fs.nodes[i].kind != 0 && off <= fs.nodes[i].size && off + |src| <= MAXBYTES
    modifies fs
    ensures ok ==>
              Going(fs, old(fs.Now()), i, off, src, |src|) && fs.icache.Keys == old(fs.icache).Keys
                  && fs.dinodes == old(fs.dinodes)
    ensures ok ==> BalanceKept(old(fs.Now()), fs.Now(), i, off / BSIZE, EndBlock(off, |src|))
    ensures ok <==> FreeCount(old(fs.bits)) >= WriteCost(old(fs.nodes), old(fs.blocks), i, off, |src|)
  {
    ghost var a, keys, di := fs.Now(), fs.icache.Keys, fs.dinodes;
    var tot: nat := 0;
    BalanceStart(a, i, off / BSIZE, EndBlock(off, |src|));
    GoingStart(fs, i, off, src);
    while tot < |src|
      invariant tot <= |src| && Going(fs, a, i, off, src, tot) && fs.icache.Keys == keys && fs.dinodes == di
      invariant BalanceKept(a, fs.Now(), i, off / BSIZE, EndBlock(off, |src|))
    {
      ok, tot := WriteNext(fs, i, off, src, tot, a);
      if !ok {
        return;
      }
    }
    BalanceDone(a, fs.Now(), i, off, src);
    ok := true;
  }

  /** The new size goes to the inode and, at once, to its disk copy. */
  method Grow(fs: Fs, i: nat, size: nat)
    requires fs.Valid() && i in fs.icache && fs.nodes[i].kind != 0 && size <= MAXBYTES
    requires forall bn: nat :: bn < MAXFILE && bn * BSIZE < size ==> HasBlock(fs.nodes, fs.blocks, i, bn)
    modifies fs`icache, fs`nodes, fs`dinodes, fs`logged
    ensures fs.Valid() && fs.icache.Keys == old(fs.icache).Keys
    ensures fs.nodes == old(fs.nodes)[i := old(fs.nodes)[i].(size := size)]
    ensures fs.dinodes == old(fs.dinodes)[i := fs.nodes[i]] && fs.icache[i] == fs.dinodes[i]
    ensures fs.logged == old(fs.logged) + {IBlock(fs.sb, i)}
    ensures forall j: nat, k: nat :: j < |fs.nodes| && k < MAXBYTES ==>
              SameByte(old(fs.nodes), fs.blocks, fs.nodes, fs.blocks, j, k)
  {
    ghost var nodes0, dinodes0, icache0 := fs.nodes, fs.dinodes, fs.icache;
    assert NodeNow(nodes0, dinodes0, icache0, i);
    GrowFiles(fs.nodes, fs.blocks, i, size);
    SizeOwned(fs.nodes, fs.nodes[i := fs.nodes[i].(size := size)], fs.blocks, fs.owner, i, size);
    fs.icache := fs.icache[i := fs.icache[i].(size := size)];
    fs.nodes := fs.nodes[i := fs.nodes[i].(size := size)];
    fs.Iupdate(i);
    forall j: nat | j < |fs.nodes| ensures NodeNow(fs.nodes, fs.dinodes, fs.icache, j) {
      assert NodeNow(nodes0, dinodes0, icache0, j);
    }
  }

  /** The size update: only a write that reaches past the end makes one. */
  method WriteEnd(fs: Fs, i: nat, n: nat, off: nat)
    requires fs.Valid() && i in fs.icache && fs.nodes[i].kind != 0 && off + n <= MAXBYTES
    requires forall bn: nat :: bn < MAXFILE && bn * BSIZE < off + n ==> HasBlock(fs.nodes, fs.blocks, i, bn)
    modifies fs`icache, fs`nodes, fs`dinodes, fs`logged
    ensures fs.Valid() && fs.icache.Keys == old(fs.icache).Keys
    ensures fs.nodes == NodesAfter(old(fs.nodes), i, off, n)
    ensures fs.dinodes == if n > 0 && off + n > old(fs.nodes)[i].size then old(fs.dinodes)[i := fs.nodes[i]]
              else old(fs.dinodes)
    ensures fs.logged == old(fs.logged) + InodePart(fs.sb, i, n > 0 && off + n > old(fs.nodes)[i].size)
  {
    assert NodeNow(fs.nodes, fs.dinodes, fs.icache, i);
    if n > 0 && off + n > fs.icache[i].size {
      Grow(fs, i, off + n);
    }
  }

  /** What comes after the loop. */
  method FinishWrite(fs: Fs, i: nat, off: nat, src: seq<Byte>, ghost a: Snap)
    requires Going(fs, a, i, off, src, |src|) && i < |a.nodes| && off <= a.nodes[i].size <= MAXBYTES
             && off + |src| <= MAXBYTES
    requires BalanceKept(a, fs.Now(), i, off / BSIZE, EndBlock(off, |src|))
    modifies fs`icache, fs`nodes, fs`dinodes, fs`logged
    ensures BalanceKept(a, fs.Now(), i, off / BSIZE, EndBlock(off, |src|))
    ensures fs.Valid() && fs.icache.Keys == old(fs.icache).Keys && Written(fs.sb, a, fs.Now(), i, off, src)
    ensures fs.dinodes == old(fs.dinodes)[i := fs.nodes[i]] || (fs.dinodes == old(fs.dinodes) && fs.nodes == a.nodes)
  {
    ghost var t :| GoingWith(fs, a, i, off, src, |src|, t);
    ghost var z := fs.Now();
    GoingEnd(fs, a, i, off, src, t);
    WriteEnd(fs, i, |src|, off);
    forall u: nat | u < MAXFILE ensures SameHas(z.nodes, z.blocks, fs.nodes, fs.blocks, i, u) {
    }
    BalanceSame(a, z, fs.Now(), i, off / BSIZE, EndBlock(off, |src|));
    WriteOutcome(fs.sb, a, z, fs.Now(), i, off, src, off / BSIZE, t);
    assert Written(fs.sb, a, fs.Now(), i, off, src);
  }

  /** The loop and the size update. */
  method WriteAll(fs: Fs, i: nat, off: nat, src: seq<Byte>) returns (ok: bool)
    requires fs.Valid() && i in fs.icache && fs.nodes[i].kind != 0 && off <= fs.nodes[i].size <= MAXBYTES
             && off + |src| <= MAXBYTES
    modifies fs
    ensures ok <==> FreeCount(old(fs.bits)) >= WriteCost(old(fs.nodes), old(fs.blocks), i, off, |src|)
    ensures ok ==> BalanceKept(old(fs.Now()), fs.Now(), i, off / BSIZE, EndBlock(off, |src|))
    ensures ok ==>
              fs.Valid() && fs.icache.Keys == old(fs.icache).Keys
                && Written(fs.sb, old(fs.Now()), fs.Now(), i, off, src)
    ensures ok ==>
              fs.dinodes == old(fs.dinodes)[i := fs.nodes[i]]
                || (fs.dinodes == old(fs.dinodes) && fs.nodes == old(fs.nodes))
  {
    ghost var a := fs.Now();
    ok := WriteLoop(fs, i, off, src);
    if ok {
      FinishWrite(fs, i, off, src, a);
    }
  }

  /** A write that passed writei's tests: the same, and what it does to cached and stored inodes. */
  method WriteThrough(fs: Fs, i: nat, off: nat, src: seq<Byte>) returns (ok: bool)
    requires fs.Valid() && i in fs.icache && fs.nodes[i].kind != 0 && off <= fs.nodes[i].size <= MAXBYTES
             && off + |src| <= MAXBYTES
    modifies fs
    ensures ok <==> FreeCount(old(fs.bits)) >= WriteCost(old(fs.nodes), old(fs.blocks), i, off, |src|)
    ensures ok ==> BalanceKept(old(fs.Now()), fs.Now(), i, off / BSIZE, EndBlock(off, |src|))
    ensures ok ==>
              fs.Valid() && fs.icache.Keys == old(fs.icache).Keys
                && Written(fs.sb, old(fs.Now()), fs.Now(), i, off, src)
    ensures ok ==>
              && |fs.dinodes| == |old(fs.dinodes)|
              && forall j: nat :: j < |fs.dinodes| && j != i ==> fs.dinodes[j] == old(fs.dinodes)[j]
    ensures ok ==> i < |fs.dinodes| && (old(fs.icache)[i] == old(fs.dinodes)[i] ==> fs.icache[i] == fs.dinodes[i])
    ensures ok && old(fs.Through()) ==> fs.Through()
  {
    ghost var a, di, ic := fs.Now(), fs.dinodes, fs.icache;
    assert NodeNow(fs.nodes, fs.dinodes, fs.icache, i);
    ok := WriteAll(fs, i, off, src);
    if ok {
      assert NodeNow(fs.nodes, fs.dinodes, fs.icache, i);
      StillThrough(fs, a, di, ic, i, off, src);
    }
  }

  /**
   writei: the file becomes its contents with src spliced in at off; every other file is
   as it was; a cached inode that equalled its disk copy still does. It panics exactly when
   the free blocks do not suffice for the blocks it has to allocate.
   */
  method Writei(fs: Fs, i: nat, src: seq<Byte>, off: nat) returns (r: Write)
    requires fs.Valid() && i in fs.icache && fs.icache[i].kind != 0 && off < TWO32 && |src| < TWO32
    modifies fs
    ensures r == ToDevice <==> old(fs.icache)[i].kind == T_DEV
    ensures r == TooFar <==> old(fs.icache)[i].kind != T_DEV
                             && (off > old(fs.icache)[i].size || off + |src| >= TWO32 || off + |src| > MAXBYTES)
    ensures r == ToDevice || r == TooFar ==> fs.dinodes == old(fs.dinodes) && Same(fs, old(fs.Now()), old(fs.icache))
    ensures r == Panic <==> old(fs.icache)[i].kind != T_DEV && off <= old(fs.icache)[i].size && off + |src| <= MAXBYTES
                            && FreeCount(old(fs.bits)) < WriteCost(old(fs.nodes), old(fs.blocks), i, off, |src|)
    ensures r == Wrote ==> BalanceKept(old(fs.Now()), fs.Now(), i, off / BSIZE, EndBlock(off, |src|))
    ensures r == Wrote ==>
              fs.Valid() && fs.icache.Keys == old(fs.icache).Keys
                && Written(fs.sb, old(fs.Now()), fs.Now(), i, off, src)
    ensures r == Wrote ==>
              && |fs.dinodes| == |old(fs.dinodes)|
              && forall j: nat :: j < |fs.dinodes| && j != i ==> fs.dinodes[j] == old(fs.dinodes)[j]
    ensures r == Wrote ==>
              i < |fs.dinodes| && (old(fs.icache)[i] == old(fs.dinodes)[i] ==> fs.icache[i] == fs.dinodes[i])
    ensures r == Wrote && old(fs.Through()) ==> fs.Through()
  {
    assert NodeNow(fs.nodes, fs.dinodes, fs.icache, i) && FileOk(fs.nodes, fs.blocks, i);
    if fs.icache[i].kind == T_DEV {
      return ToDevice;
    }
    if off > fs.icache[i].size || (off + |src|) % TWO32 < off || off + |src| > MAXBYTES {
      return TooFar;
    }
    var ok := WriteThrough(fs, i, off, src);
    r := if ok then Wrote else Panic;
  }

  /** Inodes other than i are cached and stored as before. */
  lemma StillThrough(fs: Fs, a: Snap, dinodes: seq<Dinode>, icache: map<nat, Dinode>, i: nat, off: nat, src: seq<Byte>)
    requires fs.Valid() && fs.icache.Keys == icache.Keys && i in icache && Current(a.nodes, dinodes, icache)
             && |a.nodes| == |fs.nodes|
    requires Spliced(a, fs.nodes, fs.blocks, i, off, src)
    requires fs.dinodes == dinodes[i := fs.nodes[i]] || (fs.dinodes == dinodes && fs.nodes == a.nodes)
    ensures (forall j :: j in icache ==> j < |dinodes| && icache[j] == dinodes[j] && icache[j].kind != 0)
              ==> fs.Through()
  {
    if forall j :: j in icache ==> j < |dinodes| && icache[j] == dinodes[j] && icache[j].kind != 0 {
      forall j: nat | j in fs.icache ensures j < |fs.dinodes| && fs.icache[j] == fs.dinodes[j]
        && fs.icache[j].kind != 0 {
        assert j in fs.icache.Keys && j in icache;
        assert NodeNow(fs.nodes, fs.dinodes, fs.icache, j) && NodeNow(a.nodes, dinodes, icache, j);
      }
    }
  }
}
