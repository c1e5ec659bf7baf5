/**
 The log budget of a file.c transaction cannot be lowered: a full chunk written half a
 block before the end of the direct blocks logs MAXOPBLOCKS blocks when the blocks it
 allocates come from four bitmap blocks.
 */
module WriteBound {
  import opened Params
  import opened Inodes
  import opened FreeBlocks
  import opened FileSystem
  import opened FileBytes
  import opened FileData
  import opened FileWrite

  lemma {:induction false} PicksCover(bits: seq<bool>, bits': seq<bool>, picked: seq<nat>, b: nat)
    requires Picks(bits, bits', picked) && b < |bits| && b < |bits'| && !bits[b] && bits'[b]
    ensures b in picked
    decreases |picked|
  {
    if picked != [] && picked[0] != b {
      PicksCover(bits[picked[0] := true], bits', picked[1..], b);
    }
  }

  /** Lowest-first allocation leaves no choice. */
  lemma {:induction false} PicksUnique(bits: seq<bool>, b1: seq<bool>, b2: seq<bool>, p: seq<nat>, q: seq<nat>)
    requires Picks(bits, b1, p) && Picks(bits, b2, q) && |p| == |q|
    ensures p == q
    decreases |p|
  {
    if p != [] {
      assert p[0] == q[0];
      PicksUnique(bits[p[0] := true], b1, b2, p[1..], q[1..]);
    }
  }

  lemma {:induction false} SeqHolds(s: seq<nat>, c: set<nat>)
    requires forall x :: x in c ==> x in s
    ensures |c| <= |s|
  {
    if s == [] {
      assert c == {};
    } else {
      SeqHolds(s[1..], c - {s[0]});
    }
  }

  /** The state before: 11 blocks and a half, no indirect block, the next four free blocks p in four bitmap blocks. */
  ghost predicate Edge(sb: Super, a: Snap, i: nat, off: nat, p: seq<nat>, after: seq<bool>) {
    && SuperOk(sb) && Bitmap(sb, a.bits, a.owner) && Owned(a.nodes, a.blocks, a.owner) && |a.nodes| == sb.ninodes
       && |a.blocks| == sb.size
    && i < |a.nodes| && a.nodes[i].size == off == (NDIRECT - 1) * BSIZE + BSIZE / 2 && a.nodes[i].addrs[NDIRECT] == 0
       && a.logged == {}
    && |p| == 4 && Picks(a.bits, after, p)
    && forall x: nat, y: nat :: x < y < 4 ==> Spread(sb, p, x, y)
  }

  predicate Spread(sb: Super, p: seq<nat>, x: nat, y: nat)
    requires x < |p| && y < |p|
  {
    BBlock(sb, p[x]) != BBlock(sb, p[y])
  }

  ghost predicate After(sb: Super, z: Snap) {
    Bitmap(sb, z.bits, z.owner) && Owned(z.nodes, z.blocks, z.owner) && |z.nodes| == sb.ninodes && |z.blocks| == sb.size
  }

  /** A slot filled by the write holds a block that was free. */
  lemma NewBlock(sb: Super, a: Snap, z: Snap, i: nat, s: nat, picked: seq<nat>)
    requires Bitmap(sb, a.bits, a.owner) && Owned(a.nodes, a.blocks, a.owner) && After(sb, z) && |a.nodes| == |z.nodes|
    requires forall j: nat, u: nat :: j < |z.nodes| && u < SLOTS ==>
               KeepsAddr(a.nodes, a.blocks, z.nodes, z.blocks, j, u)
    requires i < |z.nodes| && s < SLOTS && Addr(a.nodes, a.blocks, i, s) == 0 && Addr(z.nodes, z.blocks, i, s) != 0
    requires Picks(a.bits, z.bits, picked)
    ensures Addr(z.nodes, z.blocks, i, s) in picked
  {
    var b := Addr(z.nodes, z.blocks, i, s);
    SlotBlock(z.nodes, z.blocks, z.owner, i, s);
    assert BitOk(sb, z.bits, z.owner, b) && BitOk(sb, a.bits, a.owner, b);
    if b in a.owner {
      assert HomeOk(a.nodes, a.blocks, a.owner, b);
      assert KeepsAddr(a.nodes, a.blocks, z.nodes, z.blocks, a.owner[b].inum, a.owner[b].s);
      SlotBlock(z.nodes, z.blocks, z.owner, a.owner[b].inum, a.owner[b].s);
    }
    PicksCover(a.bits, z.bits, picked, b);
  }

  /** Blocks in different slots differ, and all lie in the data area. */
  lemma TwoSlots(sb: Super, z: Snap, i: nat, s: nat, u: nat)
    requires After(sb, z) && i < |z.nodes| && s < SLOTS && u < SLOTS && Addr(z.nodes, z.blocks, i, s) != 0
             && Addr(z.nodes, z.blocks, i, u) != 0
    ensures s != u ==> Addr(z.nodes, z.blocks, i, s) != Addr(z.nodes, z.blocks, i, u)
    ensures sb.datastart <= Addr(z.nodes, z.blocks, i, s) < sb.size
  {
    SlotBlock(z.nodes, z.blocks, z.owner, i, s);
    SlotBlock(z.nodes, z.blocks, z.owner, i, u);
  }

  /** The five blocks: the half-full one, the indirect block, and three new ones. */
  ghost predicate Five(z: Snap, i: nat, b11: nat, ind: nat, b12: nat, b13: nat, b14: nat)
    requires Shaped(z.nodes) && i < |z.nodes|
  {
    && b11 == Addr(z.nodes, z.blocks, i, 11) && ind == Addr(z.nodes, z.blocks, i, 12)
       && b12 == Addr(z.nodes, z.blocks, i, 13)
    && b13 == Addr(z.nodes, z.blocks, i, 14) && b14 == Addr(z.nodes, z.blocks, i, 15)
    && b11 != 0 && ind != 0 && b12 != 0 && b13 != 0 && b14 != 0
  }

  lemma FiveBlocks(sb: Super, a: Snap, z: Snap, i: nat, t: Tally)
    requires After(sb, z) && Grown(a, z, i, 11, t) && t.turns == 4
    ensures Five(z, i, Addr(z.nodes, z.blocks, i, 11), Addr(z.nodes, z.blocks, i, 12), Addr(z.nodes, z.blocks, i, 13),
              Addr(z.nodes, z.blocks, i, 14), Addr(z.nodes, z.blocks, i, 15))
  {
    assert HasBlock(z.nodes, z.blocks, i, 11) && HasBlock(z.nodes, z.blocks, i, 12);
    assert HasBlock(z.nodes, z.blocks, i, 13) && HasBlock(z.nodes, z.blocks, i, 14);
  }

  lemma FiveDiffer(sb: Super, z: Snap, i: nat, b11: nat, ind: nat, b12: nat, b13: nat, b14: nat, five: set<nat>)
    requires After(sb, z) && i < |z.nodes| && Five(z, i, b11, ind, b12, b13, b14) && five == {b11, ind, b12, b13, b14}
    ensures |five| == 5 && forall b :: b in five ==> b >= sb.datastart
  {
    TwoSlots(sb, z, i, 11, 12);
    TwoSlots(sb, z, i, 11, 13);
    TwoSlots(sb, z, i, 11, 14);
    TwoSlots(sb, z, i, 11, 15);
    TwoSlots(sb, z, i, 12, 13);
    TwoSlots(sb, z, i, 12, 14);
    TwoSlots(sb, z, i, 12, 15);
    TwoSlots(sb, z, i, 13, 14);
    TwoSlots(sb, z, i, 13, 15);
    TwoSlots(sb, z, i, 14, 15);
    TwoSlots(sb, z, i, 15, 15);
  }

  /** Four blocks are allocated: the indirect block and three data blocks. */
  lemma FourPicks(sb: Super, a: Snap, z: Snap, i: nat, off: nat, p: seq<nat>, after: seq<bool>, t: Tally, b11: nat,
                  ind: nat, b12: nat, b13: nat, b14: nat)
    requires Edge(sb, a, i, off, p, after) && After(sb, z) && Grown(a, z, i, 11, t) && Picks(a.bits, z.bits, t.picked)
             && |t.picked| <= 4
    requires Five(z, i, b11, ind, b12, b13, b14)
    ensures t.picked == p
  {
    NewBlock(sb, a, z, i, 12, t.picked);
    NewBlock(sb, a, z, i, 13, t.picked);
    NewBlock(sb, a, z, i, 14, t.picked);
    NewBlock(sb, a, z, i, 15, t.picked);
    var four := {ind, b12, b13, b14};
    assert {b11, ind, b12, b13, b14} == four + {b11};
    FiveDiffer(sb, z, i, b11, ind, b12, b13, b14, four + {b11});
    SeqHolds(t.picked, four);
    PicksUnique(a.bits, z.bits, after, t.picked, p);
  }

  lemma FourBitmapBlocks(sb: Super, p: seq<nat>)
    requires SuperOk(sb) && |p| == 4 && (forall b :: b in p ==> b < sb.size)
             && forall x: nat, y: nat :: x < y < 4 ==> Spread(sb, p, x, y)
    ensures |BBlocks(sb, p)| == 4 && forall b :: b in BBlocks(sb, p) ==> sb.bmapstart <= b < sb.datastart
  {
    var b0, b1, b2, b3 := BBlock(sb, p[0]), BBlock(sb, p[1]), BBlock(sb, p[2]), BBlock(sb, p[3]);
    assert Spread(sb, p, 0, 1) && Spread(sb, p, 0, 2) && Spread(sb, p, 0, 3) && Spread(sb, p, 1, 2)
           && Spread(sb, p, 1, 3) && Spread(sb, p, 2, 3);
    assert p[0] in p && p[1] in p && p[2] in p && p[3] in p;
    assert BBlocks(sb, p) == {b0, b1, b2, b3};
    forall b | b in p ensures sb.bmapstart <= BBlock(sb, b) < sb.datastart {
      BitmapBlock(sb, b);
    }
  }

  lemma BitmapBlock(sb: Super, b: nat)
    requires SuperOk(sb) && b < sb.size
    ensures sb.bmapstart <= BBlock(sb, b) < sb.datastart
  {
  }

  lemma InodeBlock(sb: Super, i: nat)
    requires SuperOk(sb) && i < sb.ninodes
    ensures IBlock(sb, i) < sb.bmapstart
  {
  }

  lemma {:induction false} PicksInRange(bits: seq<bool>, bits': seq<bool>, p: seq<nat>)
    requires Picks(bits, bits', p)
    ensures forall b :: b in p ==> b < |bits|
    decreases |p|
  {
    if p != [] {
      PicksInRange(bits[p[0] := true], bits', p[1..]);
      assert p == [p[0]] + p[1..];
    }
  }

  lemma TenOf(sb: Super, five: set<nat>, maps: set<nat>, inode: nat, all: set<nat>)
    requires |five| == 5 && |maps| == 4 && all == five + maps + {inode} && sb.bmapstart <= sb.datastart
    requires (forall b :: b in five ==> b >= sb.datastart)
             && (forall b :: b in maps ==> sb.bmapstart <= b < sb.datastart) && inode < sb.bmapstart
    ensures |all| == 10
  {
    assert five !! maps;
    assert inode !in five + maps;
  }

  /** What such a write did: four turns, at most four allocations, and its log. */
  lemma EdgeFacts(sb: Super, a: Snap, z: Snap, i: nat, off: nat, n: nat, t: Tally)
    requires WriteLogged(sb, a, z, i, off, n, 11, t) && n == CHUNK && a.logged == {}
    requires off == (NDIRECT - 1) * BSIZE + BSIZE / 2 == a.nodes[i].size
    ensures t.turns == 4 && |t.picked| <= 4 && z.logged == WriteLog(sb, z, i, 11, t, true)
  {
  }

  lemma EdgeLog(sb: Super, z: Snap, i: nat, t: Tally, b11: nat, ind: nat, b12: nat, b13: nat, b14: nat, five: set<nat>)
    requires Shaped(z.nodes) && i < |z.nodes| && t.turns == 4 && t.table && Five(z, i, b11, ind, b12, b13, b14)
             && five == {b11, ind, b12, b13, b14}
    ensures WriteLog(sb, z, i, 11, t, true) == five + BBlocks(sb, t.picked) + {IBlock(sb, i)}
  {
    TurnBlocks(z, i, b11, ind, b12, b13, b14);
  }

  /** The bound of MAXOPBLOCKS is reached. */
  lemma BudgetIsTight(sb: Super, a: Snap, z: Snap, i: nat, off: nat, src: seq<Byte>, p: seq<nat>, after: seq<bool>,
                      t: Tally)
    requires Edge(sb, a, i, off, p, after) && After(sb, z) && |src| == CHUNK
    requires WriteDone(sb, a, z, i, off, src, 11, t)
    ensures |z.logged| == MAXOPBLOCKS
  {
    EdgeFacts(sb, a, z, i, off, |src|, t);
    FiveBlocks(sb, a, z, i, t);
    var b11, ind, b12 := Addr(z.nodes, z.blocks, i, 11), Addr(z.nodes, z.blocks, i, 12), Addr(z.nodes, z.blocks, i, 13);
    var b13, b14 := Addr(z.nodes, z.blocks, i, 14), Addr(z.nodes, z.blocks, i, 15);
    FourPicks(sb, a, z, i, off, p, after, t, b11, ind, b12, b13, b14);
    EdgeCount(sb, a, z, i, off, p, after, t, b11, ind, b12, b13, b14);
  }

  lemma EdgeCount(sb: Super, a: Snap, z: Snap, i: nat, off: nat, p: seq<nat>, after: seq<bool>, t: Tally, b11: nat,
                  ind: nat, b12: nat, b13: nat, b14: nat)
    requires Edge(sb, a, i, off, p, after) && After(sb, z) && Five(z, i, b11, ind, b12, b13, b14)
    requires i < |z.nodes| && t.turns == 4 && t.table && t.picked == p && z.logged == WriteLog(sb, z, i, 11, t, true)
    ensures |z.logged| == MAXOPBLOCKS
  {
    var five := {b11, ind, b12, b13, b14};
    FiveDiffer(sb, z, i, b11, ind, b12, b13, b14, five);
    PicksInRange(a.bits, after, p);
    FourBitmapBlocks(sb, p);
    InodeBlock(sb, i);
    EdgeLog(sb, z, i, t, b11, ind, b12, b13, b14, five);
    TenOf(sb, five, BBlocks(sb, p), IBlock(sb, i), z.logged);
  }

  lemma TurnBlocks(z: Snap, i: nat, b11: nat, ind: nat, b12: nat, b13: nat, b14: nat)
    requires Shaped(z.nodes) && i < |z.nodes| && Five(z, i, b11, ind, b12, b13, b14)
    ensures DataBlocks(z.nodes, z.blocks, i, 11, 15) + Table(z, i, true) == {b11, ind, b12, b13, b14}
  {
    assert DataBlocks(z.nodes, z.blocks, i, 11, 12) == {b11};
    assert DataBlocks(z.nodes, z.blocks, i, 11, 13) == {b11, b12};
    assert DataBlocks(z.nodes, z.blocks, i, 11, 14) == {b11, b12, b13};
  }

  // ---------------------------------------------------------------- a disk on which it is reached

  /** The blocks left free, one in each of four bitmap blocks. */
  predicate Spare(b: nat) {
    b == 4095 || b == 4096 || b == 8192 || b == 12288
  }

  const TIGHT_DISK: Super := Super(12289, 12288, 2, 1538, 1542)

  /** Inode 1 has the first 12 data blocks; every other used block is the one block of the inode with its number. */
  function TightHolder(b: nat): Slot {
    if b < 1554 then Slot(1, if b < 1542 then 0 else b - 1542) else Slot(b, 0)
  }

  function TightNode(i: nat): Dinode {
    if i == 1 then Dinode(T_FILE, 0, 0, 1, 11 * BSIZE + BSIZE / 2,
      [1542, 1543, 1544, 1545, 1546, 1547, 1548, 1549, 1550, 1551, 1552, 1553, 0])
    else if 1554 <= i && !Spare(i) then Dinode(T_FILE, 0, 0, 1, BSIZE, [i, 0, 0, 0, 0, 0, 0, 0, 0, 0, 0, 0, 0])
    else FREE
  }

  ghost function TightSnap(): Snap {
    Snap(seq(12289, b requires b >= 0 => !Spare(b)), seq(12289, _ => Zeros()),
        seq(12288, i requires i >= 0 => TightNode(i)),
         map b: nat | 1542 <= b < 12289 && !Spare(b) :: TightHolder(b), {})
  }

  lemma TightAddr(a: Snap, i: nat, s: nat)
    requires a == TightSnap() && i < |a.nodes| && s < SLOTS
    ensures Shaped(a.nodes)
    ensures Addr(a.nodes, a.blocks, i, s) == if i == 1 && s < 12 then 1542 + s else if i >= 1554 && !Spare(i)
            && s == 0 then i else 0
  {
    assert a.nodes[i] == TightNode(i);
  }

  lemma TightOwned(a: Snap)
    requires a == TightSnap()
    ensures Owned(a.nodes, a.blocks, a.owner)
  {
    TightAddr(a, 0, 0);
    forall i: nat, s: nat | i < |a.nodes| && s < SLOTS ensures SlotOk(a.nodes, a.blocks, a.owner, i, s) {
      TightAddr(a, i, s);
    }
    forall b | b in a.owner ensures HomeOk(a.nodes, a.blocks, a.owner, b) {
      TightAddr(a, a.owner[b].inum, a.owner[b].s);
    }
  }

  lemma TightFiles(a: Snap)
    requires a == TightSnap()
    ensures Shaped(a.nodes) && Files(a.nodes, a.blocks)
  {
    TightAddr(a, 0, 0);
    forall i: nat | i < |a.nodes| ensures FileOk(a.nodes, a.blocks, i) {
      assert a.nodes[i] == TightNode(i);
      forall bn: nat | bn < MAXFILE && bn * BSIZE < a.nodes[i].size ensures HasBlock(a.nodes, a.blocks, i, bn) {
        TightAddr(a, i, SlotOf(bn));
      }
    }
  }

  lemma TightPicks(bits: seq<bool>)
    requires |bits| == 12289 && forall b: nat :: b < 12289 ==> bits[b] == !Spare(b)
    ensures Picks(bits, bits[4095 := true][4096 := true][8192 := true][12288 := true], [4095, 4096, 8192, 12288])
  {
    var b1 := bits[4095 := true];
    var b2 := b1[4096 := true];
    var b3 := b2[8192 := true];
    var b4 := b3[12288 := true];
    assert Picks(b4, b4, []);
    assert Lowest(b3, 12288) && Picks(b3, b4, [12288]);
    assert Lowest(b2, 8192) && [8192, 12288][1..] == [12288];
    assert Picks(b2, b4, [8192, 12288]);
    assert Lowest(b1, 4096) && [4096, 8192, 12288][1..] == [8192, 12288];
    assert Picks(b1, b4, [4096, 8192, 12288]);
    assert Lowest(bits, 4095) && [4095, 4096, 8192, 12288][1..] == [4096, 8192, 12288];
  }

  const TIGHT_OFF: nat := 11 * BSIZE + BSIZE / 2
  const SPARES: seq<nat> := [4095, 4096, 8192, 12288]

  /** There is a sound file system in the state that BudgetIsTight starts from. */
  lemma TightDiskExists(a: Snap) returns (after: seq<bool>)
    requires a == TightSnap()
    ensures Edge(TIGHT_DISK, a, 1, TIGHT_OFF, SPARES, after)
    ensures Files(a.nodes, a.blocks) && a.nodes[1].kind == T_FILE && FreeCount(a.bits) >= 4
  {
    after := a.bits[4095 := true][4096 := true][8192 := true][12288 := true];
    TightOwned(a);
    TightFiles(a);
    TightPicks(a.bits);
    FreePicks(a.bits, after, SPARES);
    forall b: nat | b < 12289 ensures BitOk(TIGHT_DISK, a.bits, a.owner, b) {
    }
    assert a.nodes[1] == TightNode(1);
    forall x: nat, y: nat | x < y < 4 ensures Spread(TIGHT_DISK, SPARES, x, y) {
    }
  }

  /** The write takes three data blocks and the indirect block. */
  lemma TightCost(a: Snap)
    requires a == TightSnap()
    ensures Shaped(a.nodes) && WriteCost(a.nodes, a.blocks, 1, TIGHT_OFF, CHUNK) == 4
  {
    TightAddr(a, 1, 11);
    TightAddr(a, 1, 12);
    TightAddr(a, 1, 13);
    TightAddr(a, 1, 14);
    TightAddr(a, 1, 15);
    assert TIGHT_OFF / BSIZE == 11 && EndBlock(TIGHT_OFF, CHUNK) == 15;
    assert HasBlock(a.nodes, a.blocks, 1, 11) && !HasBlock(a.nodes, a.blocks, 1, 12)
           && !HasBlock(a.nodes, a.blocks, 1, 13) && !HasBlock(a.nodes, a.blocks, 1, 14);
    assert Missing(a.nodes, a.blocks, 1, 11, 12) == 0 && Missing(a.nodes, a.blocks, 1, 11, 13) == 1
           && Missing(a.nodes, a.blocks, 1, 11, 14) == 2;
  }

  lemma WrittenIsTight(sb: Super, a: Snap, z: Snap, i: nat, off: nat, src: seq<Byte>, p: seq<nat>, after: seq<bool>,
                       first: nat)
    requires Edge(sb, a, i, off, p, after) && After(sb, z) && |src| == CHUNK && first == off / BSIZE == 11
    requires exists t :: WriteDone(sb, a, z, i, off, src, first, t)
    ensures |z.logged| == MAXOPBLOCKS
  {
    var t :| WriteDone(sb, a, z, i, off, src, first, t);
    BudgetIsTight(sb, a, z, i, off, src, p, after, t);
  }

  lemma TightStart()
    ensures TIGHT_OFF / BSIZE == 11
  {
  }

  /** A full chunk at the edge of the direct blocks, with enough free blocks: it is written and fills its budget. */
  method EdgeWrite(fs: Fs, i: nat, off: nat, src: seq<Byte>, ghost p: seq<nat>, ghost after: seq<bool>)
    returns (r: Write)
    requires fs.Valid() && i in fs.icache && fs.icache[i].kind == T_FILE && |src| == CHUNK
    requires Edge(fs.sb, fs.Now(), i, off, p, after) && off / BSIZE == 11 && off + CHUNK <= MAXBYTES
    requires FreeCount(fs.bits) >= WriteCost(fs.nodes, fs.blocks, i, off, CHUNK)
    modifies fs
    ensures r == Wrote && |fs.logged| == MAXOPBLOCKS
  {
    ghost var a := fs.Now();
    assert NodeNow(fs.nodes, fs.dinodes, fs.icache, i);
    r := Writei(fs, i, src, off);
    assert r == Wrote;
    WrittenIsTight(fs.sb, a, fs.Now(), i, off, src, p, after, off / BSIZE);
  }

  /** On that disk the write is done, and it logs MAXOPBLOCKS blocks. */
  method TightWrite(src: seq<Byte>) returns (r: Write, ghost log: set<nat>)
    requires |src| == CHUNK
    ensures r == Wrote && |log| == MAXOPBLOCKS
  {
    ghost var a := TightSnap();
    ghost var after := TightDiskExists(a);
    TightCost(a);
    TightStart();
    var used: seq<bool> := seq(12289, b requires b >= 0 => !Spare(b));
    var data: seq<Bytes> := seq(12289, _ => Zeros());
    var inodes: seq<Dinode> := seq(12288, i requires i >= 0 => TightNode(i));
    assert used == a.bits && data == a.blocks && inodes == a.nodes;
    var fs := new Fs.Mount(TIGHT_DISK, used, data, inodes, a.owner);
    var ok := fs.Ilock(1);
    assert fs.Now() == a && NodeNow(fs.nodes, fs.dinodes, fs.icache, 1);
    r := EdgeWrite(fs, 1, TIGHT_OFF, src, SPARES, after);
    log := fs.logged;
  }
}
