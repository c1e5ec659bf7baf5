/**
 fs.c: the block allocator, bmap, itrunc, iupdate and the life of an inode. The disk is the one
 the buffer cache shows: bitmap bits, inode records and data blocks, each found in the
 block that holds it (BBlock, IBlock). logged collects the blocks passed to log_write.
 */
module FileSystem {
  import opened Params
  import opened Inodes
  import opened FreeBlocks

  const T_DIR: nat := 1
  const T_FILE: nat := 2
  const T_DEV: nat := 3

  datatype Super = Super(size: nat, ninodes: nat, inodestart: nat, bmapstart: nat, datastart: nat)

  /** Inode blocks, bitmap blocks and data blocks follow each other. */
  predicate SuperOk(sb: Super) {
    && 0 < sb.inodestart && 0 < sb.ninodes
    && sb.inodestart + (sb.ninodes + IPB - 1) / IPB <= sb.bmapstart
    && sb.bmapstart + (sb.size + BPB - 1) / BPB <= sb.datastart <= sb.size <= 0x7FFF_F000
  }

  /** The bitmap block of block b, and the block of inode i. */
  function BBlock(sb: Super, b: nat): nat {
    b / BPB + sb.bmapstart
  }

  function IBlock(sb: Super, i: nat): nat {
    i / IPB + sb.inodestart
  }

  predicate BitOk(sb: Super, bits: seq<bool>, owner: Owners, b: nat)
    requires b < |bits|
  {
    bits[b] <==> b < sb.datastart || b in owner
  }

  /** A bit is set exactly for metadata and owned blocks. */
  ghost predicate Bitmap(sb: Super, bits: seq<bool>, owner: Owners) {
    && |bits| == sb.size
    && (forall b: nat :: b < sb.size ==> BitOk(sb, bits, owner, b))
    && (forall b :: b in owner ==> sb.datastart <= b < sb.size)
  }

  predicate NodeNow(nodes: seq<Dinode>, dinodes: seq<Dinode>, icache: map<nat, Dinode>, i: nat)
    requires i < |nodes| && i < |dinodes|
  {
    nodes[i] == if i in icache then icache[i] else dinodes[i]
  }

  /** nodes is the current value of every inode: cached if it is, else on disk. */
  ghost predicate Current(nodes: seq<Dinode>, dinodes: seq<Dinode>, icache: map<nat, Dinode>) {
    && |nodes| == |dinodes| && (forall i :: i in icache ==> i < |nodes|)
    && forall i: nat :: i < |nodes| ==> NodeNow(nodes, dinodes, icache, i)
  }

  /** A file has no holes; a free inode has no blocks. */
  ghost predicate FileOk(nodes: seq<Dinode>, blocks: seq<Bytes>, i: nat)
    requires Shaped(nodes) && i < |nodes|
  {
    NoHoles(nodes, blocks, i) && (nodes[i].kind == 0 ==> nodes[i] == Emptied(nodes[i]))
  }

  ghost predicate Files(nodes: seq<Dinode>, blocks: seq<Bytes>)
    requires Shaped(nodes)
  {
    forall i: nat :: i < |nodes| ==> FileOk(nodes, blocks, i)
  }

  /** The bitmap blocks of a list of blocks. */
  ghost function BBlocks(sb: Super, picked: seq<nat>): set<nat> {
    set b | b in picked :: BBlock(sb, b)
  }

  predicate SameByte(nodes0: seq<Dinode>, blocks0: seq<Bytes>, nodes: seq<Dinode>, blocks: seq<Bytes>, j: nat, k: nat)
    requires Shaped(nodes0) && Shaped(nodes) && j < |nodes0| && j < |nodes| && k < MAXBYTES
  {
    ByteAt(nodes, blocks, j, k) == ByteAt(nodes0, blocks0, j, k)
  }

  /** A slot in use keeps its block. */
  predicate KeepsAddr(nodes0: seq<Dinode>, blocks0: seq<Bytes>, nodes: seq<Dinode>, blocks: seq<Bytes>, j: nat, s: nat)
    requires Shaped(nodes0) && Shaped(nodes) && j < |nodes0| && j < |nodes| && s < SLOTS
  {
    Addr(nodes0, blocks0, j, s) != 0 ==> Addr(nodes, blocks, j, s) == Addr(nodes0, blocks0, j, s)
  }

  /** From (nodes0, blocks0) inode i has gained blocks; no byte of any file has changed. */
  ghost predicate Extends(nodes0: seq<Dinode>, blocks0: seq<Bytes>, nodes: seq<Dinode>, blocks: seq<Bytes>, i: nat) {
    && Shaped(nodes0) && Shaped(nodes) && |nodes| == |nodes0| && i < |nodes|
    && (forall j: nat :: j < |nodes| && j != i ==> nodes[j] == nodes0[j])
    && nodes[i] == nodes0[i].(addrs := nodes[i].addrs)
    && (forall j: nat, k: nat :: j < |nodes| && k < MAXBYTES ==> SameByte(nodes0, blocks0, nodes, blocks, j, k))
    && (forall j: nat, s: nat :: j < |nodes| && s < SLOTS ==> KeepsAddr(nodes0, blocks0, nodes, blocks, j, s))
  }

  lemma ExtendsTrans(nodes0: seq<Dinode>, blocks0: seq<Bytes>, nodes1: seq<Dinode>, blocks1: seq<Bytes>,
                     nodes2: seq<Dinode>, blocks2: seq<Bytes>, i: nat)
    requires Extends(nodes0, blocks0, nodes1, blocks1, i) && Extends(nodes1, blocks1, nodes2, blocks2, i)
    ensures Extends(nodes0, blocks0, nodes2, blocks2, i)
  {
    forall j: nat, k: nat | j < |nodes0| && k < MAXBYTES ensures SameByte(nodes0, blocks0, nodes2, blocks2, j, k) {
      assert SameByte(nodes0, blocks0, nodes1, blocks1, j, k) && SameByte(nodes1, blocks1, nodes2, blocks2, j, k);
    }
    forall j: nat, s: nat | j < |nodes0| && s < SLOTS ensures KeepsAddr(nodes0, blocks0, nodes2, blocks2, j, s) {
      assert KeepsAddr(nodes0, blocks0, nodes1, blocks1, j, s) && KeepsAddr(nodes1, blocks1, nodes2, blocks2, j, s);
    }
  }

  lemma ExtendsSelf(nodes: seq<Dinode>, blocks: seq<Bytes>, i: nat)
    requires Shaped(nodes) && i < |nodes|
    ensures Extends(nodes, blocks, nodes, blocks, i)
  {
  }

  lemma PlaceExtends(nodes: seq<Dinode>, blocks: seq<Bytes>, owner: Owners, i: nat, s: nat, b: nat)
    requires CanPlace(nodes, blocks, owner, i, s, b)
    ensures Extends(nodes, blocks, Placed(nodes, i, s, b), PlacedBlocks(nodes, blocks, i, s, b), i)
    ensures forall s2: nat :: s2 < SLOTS ==>
              Addr(Placed(nodes, i, s, b), PlacedBlocks(nodes, blocks, i, s, b), i, s2) == if s2 == s then b
                  else Addr(nodes, blocks, i, s2)
  {
    var nodes', blocks' := Placed(nodes, i, s, b), PlacedBlocks(nodes, blocks, i, s, b);
    PlaceAt(nodes, blocks, owner, i, s, b, i, s);
    forall j: nat, k: nat | j < |nodes'| && k < MAXBYTES ensures SameByte(nodes, blocks, nodes', blocks', j, k) {
      PlaceByte(nodes, blocks, owner, i, s, b, j, k);
    }
    forall j: nat, s2: nat | j < |nodes'| && s2 < SLOTS
      ensures KeepsAddr(nodes, blocks, nodes', blocks', j, s2)
      ensures Addr(nodes', blocks', j, s2) == if j == i && s2 == s then b else Addr(nodes, blocks, j, s2)
    {
      PlaceAt(nodes, blocks, owner, i, s, b, j, s2);
    }
  }

  /** The state a change is measured from. */
  datatype Snap = Snap(bits: seq<bool>, blocks: seq<Bytes>, nodes: seq<Dinode>, owner: Owners, logged: set<nat>)

  /** From a to z, slot s of inode i has block r: the one it had, or a new one and its log writes. */
  ghost predicate Filled(sb: Super, a: Snap, z: Snap, i: nat, s: nat, r: nat, picked: seq<nat>) {
    && Extends(a.nodes, a.blocks, z.nodes, z.blocks, i) && Picks(a.bits, z.bits, picked)
    && s < SLOTS && r == Addr(z.nodes, z.blocks, i, s) && r != 0
    && (s != NDIRECT ==> z.nodes[i].addrs[NDIRECT] == a.nodes[i].addrs[NDIRECT])
    && if Addr(a.nodes, a.blocks, i, s) != 0 then picked == [] && z == a
       else
         && picked == [r]
         && z.logged == a.logged + {BBlock(sb, r), r} + (if s > NDIRECT then {a.nodes[i].addrs[NDIRECT]} else {})
  }

  /** From a to z, the bn-th block of inode i is b; picked are the blocks allocated for it. */
  ghost predicate Bmapped(sb: Super, a: Snap, z: Snap, i: nat, bn: nat, b: nat, picked: seq<nat>) {
    Extends(a.nodes, a.blocks, z.nodes, z.blocks, i) && BmapSlots(sb, a, z, i, bn, b, picked)
  }

  /** The part of Bmapped that is about slots and the log. */
  ghost predicate BmapSlots(sb: Super, a: Snap, z: Snap, i: nat, bn: nat, b: nat, picked: seq<nat>) {
    && Shaped(a.nodes) && Shaped(z.nodes) && |z.nodes| == |a.nodes| && i < |a.nodes|
    && Picks(a.bits, z.bits, picked)
    && (forall s: nat :: s < SLOTS ==> KeepsAddr(a.nodes, a.blocks, z.nodes, z.blocks, i, s))
    && bn < MAXFILE && b == Addr(z.nodes, z.blocks, i, SlotOf(bn)) && b != 0
    && (bn < NDIRECT ==> z.nodes[i].addrs[NDIRECT] == a.nodes[i].addrs[NDIRECT])
    && (HasBlock(a.nodes, a.blocks, i, bn) ==> picked == [] && z == a)
    && (!HasBlock(a.nodes, a.blocks, i, bn) ==>
          && |picked| == (if bn >= NDIRECT && a.nodes[i].addrs[NDIRECT] == 0 then 2 else 1)
          && z.logged == a.logged + BBlocks(sb, picked) + {b}
             + (if bn >= NDIRECT then {z.nodes[i].addrs[NDIRECT]} else {}))
  }

  lemma DirectBmapped(sb: Super, a: Snap, z: Snap, i: nat, bn: nat, b: nat, picked: seq<nat>)
    requires bn < NDIRECT && Filled(sb, a, z, i, bn, b, picked)
    ensures Bmapped(sb, a, z, i, bn, b, picked)
  {
    if picked == [b] {
      assert b in picked;
      assert BBlocks(sb, picked) == {BBlock(sb, b)};
    }
  }

  lemma IndirectBmapped(sb: Super, a: Snap, y: Snap, z: Snap, i: nat, j: nat, ind: nat, b: nat, p: seq<nat>,
                        q: seq<nat>)
    requires j < NINDIRECT && |a.blocks| == |y.blocks| && Owned(a.nodes, a.blocks, a.owner)
    requires Filled(sb, a, y, i, NDIRECT, ind, p) && Filled(sb, y, z, i, NDIRECT + 1 + j, b, q)
    requires a.nodes[i].addrs[NDIRECT] == 0 ==> Addr(y.nodes, y.blocks, i, NDIRECT + 1 + j) == 0
    ensures Bmapped(sb, a, z, i, NDIRECT + j, b, p + q)
  {
    ExtendsTrans(a.nodes, a.blocks, y.nodes, y.blocks, z.nodes, z.blocks, i);
    PicksConcat(a.bits, y.bits, z.bits, p, q);
    assert Addr(y.nodes, y.blocks, i, NDIRECT) == ind;
    assert KeepsAddr(y.nodes, y.blocks, z.nodes, z.blocks, i, NDIRECT);
    assert z.nodes[i].addrs[NDIRECT] == Addr(z.nodes, z.blocks, i, NDIRECT) == ind;
    assert KeepsAddr(a.nodes, a.blocks, y.nodes, y.blocks, i, NDIRECT + 1 + j);
    if a.nodes[i].addrs[NDIRECT] == 0 {
      assert p + q == [ind, b] && (p + q)[0] == ind && (p + q)[1] == b;
      assert BBlocks(sb, p + q) == {BBlock(sb, ind), BBlock(sb, b)};
    } else {
      assert y == a && p + q == q;
      if q == [b] {
        assert b in q;
        assert BBlocks(sb, q) == {BBlock(sb, b)};
      }
    }
  }

  predicate SameAddr(nodes0: seq<Dinode>, blocks0: seq<Bytes>, nodes: seq<Dinode>, blocks: seq<Bytes>, i: nat, s: nat)
    requires Shaped(nodes0) && Shaped(nodes) && i < |nodes0| && i < |nodes| && s < SLOTS
  {
    Addr(nodes, blocks, i, s) == Addr(nodes0, blocks0, i, s)
  }

  /** Inode i's slots other than s are as they were. */
  ghost predicate OneSlot(a: Snap, z: Snap, i: nat, s: nat) {
    && Shaped(a.nodes) && Shaped(z.nodes) && i < |a.nodes| && i < |z.nodes|
    && forall u: nat :: u < SLOTS && u != s ==> SameAddr(a.nodes, a.blocks, z.nodes, z.blocks, i, u)
  }

  /** From a to z inode i has got its bn-th block and no other, at exactly the price of that block. */
  ghost predicate Took(a: Snap, z: Snap, i: nat, bn: nat) {
    && Shaped(a.nodes) && Shaped(z.nodes) && i < |a.nodes| && i < |z.nodes| && bn < MAXFILE
    && HasBlock(z.nodes, z.blocks, i, bn)
    && (forall u: nat :: u < MAXFILE && u != bn ==> SameHas(a.nodes, a.blocks, z.nodes, z.blocks, i, u))
    && (z.nodes[i].addrs[NDIRECT] == 0 <==> a.nodes[i].addrs[NDIRECT] == 0 && bn < NDIRECT)
    && FreeCount(a.bits) == FreeCount(z.bits) + BmapCost(a.nodes, a.blocks, i, bn)
  }

  lemma TookDirect(sb: Super, a: Snap, z: Snap, i: nat, bn: nat, b: nat, picked: seq<nat>)
    requires bn < NDIRECT && Filled(sb, a, z, i, bn, b, picked) && OneSlot(a, z, i, bn)
    ensures Took(a, z, i, bn)
  {
    FreePicks(a.bits, z.bits, picked);
    forall u: nat | u < MAXFILE && u != bn ensures SameHas(a.nodes, a.blocks, z.nodes, z.blocks, i, u) {
      SlotOfInjective(u, bn);
      assert SameAddr(a.nodes, a.blocks, z.nodes, z.blocks, i, SlotOf(u));
    }
  }

  lemma TookIndirect(sb: Super, a: Snap, y: Snap, z: Snap, i: nat, j: nat, ind: nat, b: nat, p: seq<nat>, q: seq<nat>)
    requires j < NINDIRECT && Filled(sb, a, y, i, NDIRECT, ind, p) && Filled(sb, y, z, i, NDIRECT + 1 + j, b, q)
    requires OneSlot(a, y, i, NDIRECT) && OneSlot(y, z, i, NDIRECT + 1 + j)
    ensures Took(a, z, i, NDIRECT + j)
  {
    FreePicks(a.bits, y.bits, p);
    FreePicks(y.bits, z.bits, q);
    assert SameAddr(y.nodes, y.blocks, z.nodes, z.blocks, i, NDIRECT);
    assert SameAddr(a.nodes, a.blocks, y.nodes, y.blocks, i, NDIRECT + 1 + j);
    forall u: nat | u < MAXFILE && u != NDIRECT + j ensures SameHas(a.nodes, a.blocks, z.nodes, z.blocks, i, u) {
      SlotOfInjective(u, NDIRECT + j);
      assert SameAddr(a.nodes, a.blocks, y.nodes, y.blocks, i, SlotOf(u))
             && SameAddr(y.nodes, y.blocks, z.nodes, z.blocks, i, SlotOf(u));
    }
  }

  lemma PlaceBitmap(sb: Super, bits: seq<bool>, owner: Owners, b: nat, slot: Slot)
    requires Bitmap(sb, bits, owner) && b < sb.size && !bits[b]
    ensures Bitmap(sb, bits[b := true], owner[b := slot]) && b !in owner && b >= sb.datastart
  {
    assert BitOk(sb, bits, owner, b);
    var bits', owner' := bits[b := true], owner[b := slot];
    forall c: nat | c < sb.size ensures BitOk(sb, bits', owner', c) {
      assert BitOk(sb, bits, owner, c);
    }
  }

  lemma PlaceFiles(nodes: seq<Dinode>, blocks: seq<Bytes>, owner: Owners, i: nat, s: nat, b: nat)
    requires CanPlace(nodes, blocks, owner, i, s, b) && Files(nodes, blocks) && nodes[i].kind != 0
    ensures Shaped(Placed(nodes, i, s, b)) && Files(Placed(nodes, i, s, b), PlacedBlocks(nodes, blocks, i, s, b))
  {
    var nodes', blocks' := Placed(nodes, i, s, b), PlacedBlocks(nodes, blocks, i, s, b);
    PlaceAt(nodes, blocks, owner, i, s, b, i, s);
    forall i2: nat | i2 < |nodes'| ensures FileOk(nodes', blocks', i2) {
      assert FileOk(nodes, blocks, i2);
      forall bn: nat | bn < MAXFILE && bn * BSIZE < nodes'[i2].size ensures HasBlock(nodes', blocks', i2, bn) {
        PlaceAt(nodes, blocks, owner, i, s, b, i2, SlotOf(bn));
        assert HasBlock(nodes, blocks, i2, bn);
      }
    }
  }

  // ---------------------------------------------------------------- freeing, on values

  /** The owners without the blocks in slots lo..hi of inode i. */
  function LessSlots(owner: Owners, i: nat, lo: nat, hi: nat): Owners {
    map b | b in owner && !(owner[b].inum == i && lo <= owner[b].s < hi) :: owner[b]
  }

  lemma LessOne(nodes: seq<Dinode>, blocks: seq<Bytes>, owner0: Owners, owner: Owners, i: nat, lo: nat, hi: nat)
    requires Owned(nodes, blocks, owner0) && i < |nodes| && lo <= hi < SLOTS
    requires forall b :: b in owner ==> b in owner0 && owner[b] == owner0[b]
    requires forall b :: b in owner0 && owner0[b].inum == i && lo <= owner0[b].s <= hi ==> b in owner
    ensures var b := Addr(nodes, blocks, i, hi);
            if b == 0 then LessSlots(owner, i, lo, hi + 1) == LessSlots(owner, i, lo, hi)
            else
              && b in LessSlots(owner, i, lo, hi)
              && LessSlots(owner, i, lo, hi + 1) == LessSlots(owner, i, lo, hi) - {b}
  {
    if Addr(nodes, blocks, i, hi) != 0 {
      SlotBlock(nodes, blocks, owner0, i, hi);
    }
    forall b | b in owner && owner[b] == Slot(i, hi) ensures b == Addr(nodes, blocks, i, hi) && b != 0 {
      assert HomeOk(nodes, blocks, owner0, b);
    }
  }

  lemma BitmapFree(sb: Super, bits: seq<bool>, owner: Owners, b: nat)
    requires Bitmap(sb, bits, owner) && b in owner
    ensures b < |bits| && bits[b] && Bitmap(sb, bits[b := false], owner - {b})
  {
    var bits', owner' := bits[b := false], owner - {b};
    assert BitOk(sb, bits, owner, b);
    forall c: nat | c < sb.size ensures BitOk(sb, bits', owner', c) {
      assert BitOk(sb, bits, owner, c);
    }
  }

  /** Freeing what slot hi holds, if anything. */
  lemma FreeSlot(sb: Super, bits: seq<bool>, nodes: seq<Dinode>, blocks: seq<Bytes>, owner0: Owners, owner: Owners,
                 i: nat, lo: nat, hi: nat)
    requires Owned(nodes, blocks, owner0) && i < |nodes| && lo <= hi < SLOTS
    requires forall b :: b in owner ==> b in owner0 && owner[b] == owner0[b]
    requires forall b :: b in owner0 && owner0[b].inum == i && lo <= owner0[b].s <= hi ==> b in owner
    requires Bitmap(sb, bits, LessSlots(owner, i, lo, hi))
    ensures var b := Addr(nodes, blocks, i, hi);
            if b == 0 then Bitmap(sb, bits, LessSlots(owner, i, lo, hi + 1))
            else b < |bits| && bits[b] && Bitmap(sb, bits[b := false], LessSlots(owner, i, lo, hi + 1))
  {
    LessOne(nodes, blocks, owner0, owner, i, lo, hi);
    if Addr(nodes, blocks, i, hi) != 0 {
      BitmapFree(sb, bits, LessSlots(owner, i, lo, hi), Addr(nodes, blocks, i, hi));
    }
  }

  /** The bitmap blocks of what slots lo..hi of inode i hold. */
  ghost function SlotBits(sb: Super, owner: Owners, i: nat, lo: nat, hi: nat): set<nat> {
    set b | b in owner && owner[b].inum == i && lo <= owner[b].s < hi :: BBlock(sb, b)
  }

  lemma SlotBitsStep(sb: Super, nodes: seq<Dinode>, blocks: seq<Bytes>, owner: Owners, i: nat, lo: nat, hi: nat)
    requires Owned(nodes, blocks, owner) && i < |nodes| && lo <= hi < SLOTS
    ensures var b := Addr(nodes, blocks, i, hi);
            SlotBits(sb, owner, i, lo, hi + 1) == SlotBits(sb, owner, i, lo, hi)
                + (if b == 0 then {} else {BBlock(sb, b)})
  {
    var b := Addr(nodes, blocks, i, hi);
    if b != 0 {
      SlotBlock(nodes, blocks, owner, i, hi);
    }
    forall c | c in owner && owner[c] == Slot(i, hi) ensures c == b {
      assert HomeOk(nodes, blocks, owner, c);
    }
  }

  /** What is left of owners while itrunc is in its first loop, or past it in its second. */
  ghost predicate OwnersLeft(owner: Owners, own: Owners, i: nat, lo: nat) {
    (own == owner && lo == 0) || (own == LessSlots(owner, i, 0, NDIRECT) && lo == NDIRECT + 1)
  }

  /** The blocks in slots lo..t of inode i are free again, and their bitmap blocks logged since logged0. */
  ghost predicate Cut(sb: Super, owner: Owners, own: Owners, i: nat, lo: nat, t: nat, bits: seq<bool>,
                      logged0: set<nat>, logged: set<nat>)
  {
    Bitmap(sb, bits, LessSlots(own, i, lo, t)) && logged == logged0 + SlotBits(sb, owner, i, lo, t)
  }

  lemma CutStart(sb: Super, owner: Owners, own: Owners, i: nat, lo: nat, bits: seq<bool>, logged: set<nat>)
    requires Bitmap(sb, bits, own)
    ensures Cut(sb, owner, own, i, lo, lo, bits, logged, logged)
  {
    assert LessSlots(own, i, lo, lo) == own;
    assert SlotBits(sb, owner, i, lo, lo) == {};
  }

  lemma CutStep(sb: Super, nodes: seq<Dinode>, blocks: seq<Bytes>, owner: Owners, own: Owners, i: nat, lo: nat, t: nat,
                bits: seq<bool>, logged0: set<nat>, logged: set<nat>)
    requires Owned(nodes, blocks, owner) && i < |nodes| && lo <= t < SLOTS && OwnersLeft(owner, own, i, lo)
    requires Cut(sb, owner, own, i, lo, t, bits, logged0, logged)
    ensures var b := Addr(nodes, blocks, i, t);
            if b == 0 then Cut(sb, owner, own, i, lo, t + 1, bits, logged0, logged)
            else b < |bits| && bits[b] && Cut(sb, owner, own, i, lo, t + 1, bits[b := false], logged0,
              logged + {BBlock(sb, b)})
  {
    FreeSlot(sb, bits, nodes, blocks, owner, own, i, lo, t);
    SlotBitsStep(sb, nodes, blocks, owner, i, lo, t);
  }

  /** Without an indirect block the first loop has freed everything. */
  lemma CutDirect(sb: Super, nodes: seq<Dinode>, blocks: seq<Bytes>, owner: Owners, i: nat, bits: seq<bool>,
                  logged0: set<nat>, logged: set<nat>)
    requires Owned(nodes, blocks, owner) && i < |nodes| && nodes[i].addrs[NDIRECT] == 0
    requires Cut(sb, owner, owner, i, 0, NDIRECT, bits, logged0, logged)
    ensures Bitmap(sb, bits, Without(owner, i)) && logged == logged0 + FileBits(sb, owner, i)
  {
    AllSlotsGone(nodes, blocks, owner, i);
    FileBitsParts(sb, nodes, blocks, owner, i);
  }

  /** With one, the second loop and the indirect block itself do the rest. */
  lemma CutIndirect(sb: Super, nodes: seq<Dinode>, blocks: seq<Bytes>, owner: Owners, i: nat, bits: seq<bool>,
                    logged0: set<nat>, logged1: set<nat>, logged: set<nat>)
    requires Owned(nodes, blocks, owner) && i < |nodes| && nodes[i].addrs[NDIRECT] != 0
    requires logged1 == logged0 + SlotBits(sb, owner, i, 0, NDIRECT)
    requires Cut(sb, owner, LessSlots(owner, i, 0, NDIRECT), i, NDIRECT + 1, SLOTS, bits, logged1, logged)
    ensures var ind := nodes[i].addrs[NDIRECT];
            && ind < |bits| && bits[ind] && Bitmap(sb, bits[ind := false], Without(owner, i))
            && logged + {BBlock(sb, ind)} == logged0 + FileBits(sb, owner, i)
  {
    var ind := nodes[i].addrs[NDIRECT];
    SlotBlock(nodes, blocks, owner, i, NDIRECT);
    AllSlotsGone(nodes, blocks, owner, i);
    FileBitsParts(sb, nodes, blocks, owner, i);
    BitmapFree(sb, bits, LessSlots(LessSlots(owner, i, 0, NDIRECT), i, NDIRECT + 1, SLOTS), ind);
  }

  /** The bitmap blocks of all the blocks of inode i. */
  ghost function FileBits(sb: Super, owner: Owners, i: nat): set<nat> {
    set b | b in owner && owner[b].inum == i :: BBlock(sb, b)
  }

  lemma FileBitsParts(sb: Super, nodes: seq<Dinode>, blocks: seq<Bytes>, owner: Owners, i: nat)
    requires Owned(nodes, blocks, owner) && i < |nodes|
    ensures var ind := nodes[i].addrs[NDIRECT];
            FileBits(sb, owner, i) == SlotBits(sb, owner, i, 0, NDIRECT)
                + (if ind == 0 then {} else SlotBits(sb, owner, i, NDIRECT + 1, SLOTS) + {BBlock(sb, ind)})
  {
    var ind := nodes[i].addrs[NDIRECT];
    if ind != 0 {
      SlotBlock(nodes, blocks, owner, i, NDIRECT);
    }
    forall b | b in owner && owner[b].inum == i
      ensures owner[b].s < SLOTS && (owner[b].s == NDIRECT ==> b == ind != 0) && (owner[b].s > NDIRECT ==> ind != 0)
    {
      assert HomeOk(nodes, blocks, owner, b);
    }
  }

  /** The inode with its first t addresses cleared. */
  function Zeroed(d: Dinode, t: nat): Dinode
    requires t <= |d.addrs|
  {
    d.(addrs := seq(t, _ => 0) + d.addrs[t..])
  }

  lemma ZeroedStep(d: Dinode, t: nat)
    requires t < |d.addrs|
    ensures Zeroed(d, t).addrs[t] == d.addrs[t]
    ensures Zeroed(d, t + 1) == Zeroed(d, t).(addrs := Zeroed(d, t).addrs[t := 0])
  {
    assert Zeroed(d, t + 1).addrs == Zeroed(d, t).addrs[t := 0];
  }

  /** With all slots of i gone, in itrunc's order, the owners are those of the other inodes. */
  lemma AllSlotsGone(nodes: seq<Dinode>, blocks: seq<Bytes>, owner: Owners, i: nat)
    requires Owned(nodes, blocks, owner) && i < |nodes|
    ensures var direct := LessSlots(owner, i, 0, NDIRECT);
            var ind := nodes[i].addrs[NDIRECT];
            Without(owner, i) == if ind == 0 then direct else LessSlots(direct, i, NDIRECT + 1, SLOTS) - {ind}
  {
    if nodes[i].addrs[NDIRECT] != 0 {
      SlotBlock(nodes, blocks, owner, i, NDIRECT);
    }
    forall b | b in owner && owner[b].inum == i
      ensures owner[b].s < SLOTS && (owner[b].s >= NDIRECT ==> nodes[i].addrs[NDIRECT] != 0)
      ensures owner[b].s == NDIRECT ==> b == nodes[i].addrs[NDIRECT]
    {
      assert HomeOk(nodes, blocks, owner, b);
    }
  }

  lemma EmptyFiles(nodes: seq<Dinode>, blocks: seq<Bytes>, i: nat, d: Dinode)
    requires Shaped(nodes) && i < |nodes| && Files(nodes, blocks) && d == Emptied(d)
    ensures Shaped(nodes[i := d]) && Files(nodes[i := d], blocks)
  {
    var nodes' := nodes[i := d];
    forall j: nat | j < |nodes'| ensures FileOk(nodes', blocks, j) {
      assert FileOk(nodes, blocks, j);
      if j != i {
        forall bn: nat | bn < MAXFILE && bn * BSIZE < nodes'[j].size ensures HasBlock(nodes', blocks, j, bn) {
          assert HasBlock(nodes, blocks, j, bn);
        }
      }
    }
  }

  const FREE: Dinode := Dinode(0, 0, 0, 0, 0, [0, 0, 0, 0, 0, 0, 0, 0, 0, 0, 0, 0, 0])

  lemma EmptyDisk(sb: Super, bits: seq<bool>, blocks: seq<Bytes>, nodes: seq<Dinode>)
    requires SuperOk(sb) && |bits| == |blocks| == sb.size && |nodes| == sb.ninodes
    requires (forall b: nat :: b < sb.size ==> bits[b] == (b < sb.datastart))
             && (forall i: nat :: i < |nodes| ==> nodes[i] == FREE)
    ensures Bitmap(sb, bits, map[]) && Owned(nodes, blocks, map[]) && Files(nodes, blocks)
  {
    forall i: nat, s: nat | i < |nodes| && s < SLOTS ensures SlotOk(nodes, blocks, map[], i, s) {
    }
    forall i: nat | i < |nodes| ensures FileOk(nodes, blocks, i) {
      assert Emptied(FREE) == FREE;
    }
  }

  /** An inode without blocks may change its other fields. */
  lemma FreeSame(nodes: seq<Dinode>, blocks: seq<Bytes>, owner: Owners, i: nat, d: Dinode)
    requires Owned(nodes, blocks, owner) && Files(nodes, blocks) && i < |nodes|
    requires nodes[i] == Emptied(nodes[i]) && d == Emptied(d)
    ensures Owned(nodes[i := d], blocks, owner) && Files(nodes[i := d], blocks)
  {
    var nodes' := nodes[i := d];
    EmptyFiles(nodes, blocks, i, d);
    forall j: nat, s: nat | j < |nodes'| && s < SLOTS ensures SlotOk(nodes', blocks, owner, j, s) {
      assert SlotOk(nodes, blocks, owner, j, s);
    }
    forall b | b in owner ensures HomeOk(nodes', blocks, owner, b) {
      assert HomeOk(nodes, blocks, owner, b);
    }
  }

  class Fs {
    const sb: Super
    var bits: seq<bool>
    var blocks: seq<Bytes>
    var dinodes: seq<Dinode>
    var icache: map<nat, Dinode>
    ghost var nodes: seq<Dinode>
    ghost var owner: Owners
    ghost var logged: set<nat>

    ghost predicate Valid()
      reads this
    {
      && SuperOk(sb) && |blocks| == sb.size && |nodes| == sb.ninodes
      && Bitmap(sb, bits, owner)
      && Current(nodes, dinodes, icache)
      && Owned(nodes, blocks, owner) && Files(nodes, blocks)
    }

    /** Every cached inode is allocated and equals its disk copy. */
    ghost predicate Through()
      reads this
    {
      forall i :: i in icache ==> i < |dinodes| && icache[i] == dinodes[i] && icache[i].kind != 0
    }

    /** An empty file system: only the metadata blocks are in use. */
    constructor (super: Super)
      requires SuperOk(super)
      ensures Valid() && Through() && sb == super && owner == map[] && icache == map[] && logged == {}
    {
      sb := super;
      bits := seq(super.size, b => b < super.datastart);
      blocks := seq(super.size, _ => Zeros());
      dinodes, nodes := seq(super.ninodes, _ => FREE), seq(super.ninodes, _ => FREE);
      icache, owner, logged := map[], map[], {};
      new;
      EmptyDisk(sb, bits, blocks, nodes);
    }

    /** A sound image, mounted: nothing is cached yet. */
    constructor Mount(super: Super, used: seq<bool>, data: seq<Bytes>, inodes: seq<Dinode>, ghost slots: Owners)
      requires SuperOk(super) && |data| == super.size && |inodes| == super.ninodes && Bitmap(super, used, slots)
      requires Owned(inodes, data, slots) && Files(inodes, data)
      ensures Valid() && Through() && sb == super && icache == map[] && Now() == Snap(used, data, inodes, slots, {})
    {
      sb, bits, blocks, dinodes, icache := super, used, data, inodes, map[];
      nodes, owner, logged := inodes, slots, {};
    }

    /** ilock: the inode is read from disk if it is not cached; false is the panic on a free one. */
    method Ilock(i: nat) returns (ok: bool)
      requires Valid() && i < sb.ninodes
      modifies `icache
      ensures Valid() && i in icache && ok == (nodes[i].kind != 0)
      ensures icache == if i in old(icache) then old(icache) else old(icache)[i := dinodes[i]]
      ensures old(Through()) && ok ==> Through()
    {
      ghost var icache0 := icache;
      assert NodeNow(nodes, dinodes, icache, i);
      if i !in icache {
        icache := icache[i := dinodes[i]];
        forall j: nat | j < |nodes| ensures NodeNow(nodes, dinodes, icache, j) {
          assert NodeNow(nodes, dinodes, icache0, j);
        }
      }
      ok := icache[i].kind != 0;
    }

    /** ialloc: the lowest free inode becomes an empty one of the given type; None is the panic. */
    method Ialloc(kind: nat) returns (r: Option<nat>)
      requires Valid() && Through() && kind != 0
      modifies `dinodes, `nodes, `logged
      ensures Valid() && Through()
      ensures r.None? ==> nodes == old(nodes)
      ensures r.Some? ==> && 1 <= r.value < sb.ninodes && old(nodes)[r.value].kind == 0 && r.value !in icache
                          && nodes == old(nodes)[r.value := FREE.(kind := kind)]
                             && logged == old(logged) + {IBlock(sb, r.value)}
      ensures forall i: nat :: 1 <= i < (if r.Some? then r.value else sb.ninodes) ==> old(dinodes)[i].kind != 0
    {
      var i := 1;
      while i < sb.ninodes
        invariant 1 <= i && nodes == old(nodes) && dinodes == old(dinodes) && logged == old(logged)
        invariant forall j: nat :: 1 <= j < i && j < sb.ninodes ==> dinodes[j].kind != 0
      {
        if dinodes[i].kind == 0 {
          ghost var nodes0, dinodes0 := nodes, dinodes;
          assert NodeNow(nodes, dinodes, icache, i) && FileOk(nodes, blocks, i);
          dinodes := dinodes[i := FREE.(kind := kind)];
          logged := logged + {IBlock(sb, i)};
          FreeSame(nodes0, blocks, owner, i, FREE.(kind := kind));
          nodes := nodes[i := FREE.(kind := kind)];
          forall j: nat | j < |nodes| ensures NodeNow(nodes, dinodes, icache, j) {
            assert NodeNow(nodes0, dinodes0, icache, j);
          }
          return Some(i);
        }
        i := i + 1;
      }
      return None;
    }

    /** iput of the last reference to an inode without links: its blocks and then the inode are freed. */
    method Idrop(i: nat) returns (ok: bool)
      requires Valid() && Through() && i in icache
      modifies `bits, `icache, `nodes, `owner, `dinodes, `logged
      ensures ok && Valid() && Through() && icache == old(icache) - {i} && owner == Without(old(owner), i)
      ensures nodes == old(nodes)[i := Emptied(old(nodes)[i]).(kind := 0)]
      ensures logged == old(logged) + FileBits(sb, old(owner), i) + {IBlock(sb, i)}
    {
      ghost var nodesA, dinodesA, icacheA := nodes, dinodes, icache;
      ok := Itrunc(i);
      ghost var nodes0, dinodes0, icache0 := nodes, dinodes, icache;
      icache := icache[i := icache[i].(kind := 0)];
      Iupdate(i);
      icache := icache - {i};
      FreeSame(nodes0, blocks, owner, i, nodes0[i].(kind := 0));
      nodes := nodes[i := nodes[i].(kind := 0)];
      forall j: nat | j < |nodes| ensures NodeNow(nodes, dinodes, icache, j) {
        assert NodeNow(nodes0, dinodes0, icache0, j);
      }
      forall j | j in icache ensures j < |dinodes| && icache[j] == dinodes[j] && icache[j].kind != 0 {
        assert NodeNow(nodes0, dinodes0, icache0, j) && NodeNow(nodesA, dinodesA, icacheA, j);
      }
    }

    /** balloc: the lowest free block, marked and zeroed; None is the panic. */
    method Balloc() returns (r: Option<nat>)
      requires SuperOk(sb) && |bits| == |blocks| == sb.size
      modifies `bits, `blocks, `logged
      ensures r.None? ==> bits == old(bits) && blocks == old(blocks) && logged == old(logged)
      ensures r.None? ==> forall b: nat :: b < sb.size ==> bits[b]
      ensures r.Some? ==> var b := r.value;
                          && Lowest(old(bits), b)
                          && bits == old(bits)[b := true] && blocks == old(blocks)[b := Zeros()]
                          && logged == old(logged) + {BBlock(sb, b), b}
    {
      var b := 0;
      while b < sb.size
        invariant b % BPB == 0
        invariant forall c: nat :: c < b && c < sb.size ==> bits[c]
        invariant bits == old(bits) && blocks == old(blocks) && logged == old(logged)
      {
        var bi := 0;
        while bi < BPB && b + bi < sb.size
          invariant 0 <= bi <= BPB
          invariant forall c: nat :: c < b + bi && c < sb.size ==> bits[c]
          invariant bits == old(bits) && blocks == old(blocks) && logged == old(logged)
        {
          if !bits[b + bi] {
            assert BBlock(sb, b + bi) == BBlock(sb, b);
            bits := bits[b + bi := true];
            logged := logged + {BBlock(sb, b)};
            Bzero(b + bi);
            return Some(b + bi);
          }
          bi := bi + 1;
        }
        b := b + BPB;
      }
      return None;
    }

    method Bzero(b: nat)
      requires b < |blocks|
      modifies `blocks, `logged
      ensures blocks == old(blocks)[b := Zeros()] && logged == old(logged) + {b}
    {
      blocks := blocks[b := Zeros()];
      logged := logged + {b};
    }

    /** A block for an empty slot of a locked inode: balloc, then the address is stored. */
    method Place(i: nat, s: nat) returns (r: Option<nat>)
      requires Valid() && i in icache && icache[i].kind != 0 && s < SLOTS && Addr(nodes, blocks, i, s) == 0
      requires s > NDIRECT ==> nodes[i].addrs[NDIRECT] != 0
      modifies `bits, `blocks, `icache, `nodes, `owner, `logged
      ensures r.None? ==> bits == old(bits) && forall b: nat :: b < sb.size ==> bits[b]
      ensures r.Some? ==> var b := r.value;
                          && Valid() && icache.Keys == old(icache).Keys
                          && CanPlace(old(nodes), old(blocks), old(owner), i, s, b)
                          && Lowest(old(bits), b) && bits == old(bits)[b := true]
                          && nodes == Placed(old(nodes), i, s, b)
                          && blocks == PlacedBlocks(old(nodes), old(blocks), i, s, b)
                          && owner == old(owner)[b := Slot(i, s)]
                          && logged == old(logged) + {BBlock(sb, b), b}
                             + (if s > NDIRECT then {old(nodes)[i].addrs[NDIRECT]} else {})
    {
      ghost var nodes0, blocks0, owner0, bits0 := nodes, blocks, owner, bits;
      r := Balloc();
      if r.None? {
        return;
      }
      var b := r.value;
      PlaceBitmap(sb, bits0, owner0, b, Slot(i, s));
      assert NodeNow(nodes, dinodes, icache, i);
      PlaceOwned(nodes0, blocks0, owner0, i, s, b);
      PlaceFiles(nodes0, blocks0, owner0, i, s, b);
      if s <= NDIRECT {
        icache := icache[i := icache[i].(addrs := icache[i].addrs[s := b])];
      } else {
        var ind := icache[i].addrs[NDIRECT];
        SlotBlock(nodes0, blocks0, owner0, i, NDIRECT);
        blocks := blocks[ind := SetWord(blocks[ind], s - NDIRECT - 1, b)];
        logged := logged + {ind};
      }
      nodes, owner := Placed(nodes, i, s, b), owner[b := Slot(i, s)];
      forall j: nat | j < |nodes| ensures NodeNow(nodes, dinodes, icache, j) {
        assert NodeNow(nodes0, dinodes, old(icache), j);
      }
    }

    ghost function Now(): Snap
      reads this
    {
      Snap(bits, blocks, nodes, owner, logged)
    }

    /** The block in a slot, allocated if the slot is empty. */
    method Fill(i: nat, s: nat) returns (r: Option<nat>, ghost picked: seq<nat>)
      requires Valid() && i in icache && nodes[i].kind != 0 && s < SLOTS
      requires s > NDIRECT ==> nodes[i].addrs[NDIRECT] != 0
      modifies `bits, `blocks, `icache, `nodes, `owner, `logged
      ensures r.None? ==> bits == old(bits) && Addr(old(nodes), old(blocks), i, s) == 0 && FreeCount(bits) == 0
      ensures r.Some? ==>
                Valid() && icache.Keys == old(icache).Keys && Filled(sb, old(Now()), Now(), i, s, r.value, picked)
      ensures r.Some? ==> OneSlot(old(Now()), Now(), i, s)
      ensures Addr(old(nodes), old(blocks), i, s) != 0 ==> r.Some? && icache == old(icache)
      ensures r.Some? && s == NDIRECT && old(nodes)[i].addrs[NDIRECT] == 0 ==>
                forall u: nat :: NDIRECT < u < SLOTS ==> Addr(nodes, blocks, i, u) == 0
    {
      ghost var nodes0, blocks0, owner0 := nodes, blocks, owner;
      assert NodeNow(nodes, dinodes, icache, i);
      var addr := if s <= NDIRECT then icache[i].addrs[s] else WordOf(i, s);
      if s > NDIRECT {
        SlotBlock(nodes, blocks, owner, i, NDIRECT);
      }
      if addr != 0 {
        ExtendsSelf(nodes, blocks, i);
        return Some(addr), [];
      }
      r := Place(i, s);
      picked := [];
      if r.Some? {
        picked := [r.value];
        PlaceExtends(nodes0, blocks0, owner0, i, s, r.value);
      } else {
        FreeNone(bits);
      }
    }

    /** a[bn], in the indirect block. */
    function WordOf(i: nat, s: nat): nat
      requires Valid() && i in icache && NDIRECT < s < SLOTS && nodes[i].addrs[NDIRECT] != 0
      reads this
    {
      assert NodeNow(nodes, dinodes, icache, i);
      SlotBlock(nodes, blocks, owner, i, NDIRECT);
      Word(blocks[icache[i].addrs[NDIRECT]], s - NDIRECT - 1)
    }

    /** bmap: the bn-th block of a locked inode, allocated if it is not there; None is a panic. */
    method Bmap(i: nat, bn: nat) returns (r: Option<nat>, ghost picked: seq<nat>)
      requires Valid() && i in icache && nodes[i].kind != 0
      modifies `bits, `blocks, `icache, `nodes, `owner, `logged
      ensures r.Some? <==> bn < MAXFILE && FreeCount(old(bits)) >= BmapCost(old(nodes), old(blocks), i, bn)
      ensures r.None? && bn < MAXFILE ==> FreeCount(bits) == 0
      ensures r.Some? ==> Took(old(Now()), Now(), i, bn)
      ensures bn < MAXFILE && HasBlock(old(nodes), old(blocks), i, bn) ==> r.Some? && icache == old(icache)
      ensures r.Some? ==>
                Valid() && icache.Keys == old(icache).Keys && Bmapped(sb, old(Now()), Now(), i, bn, r.value, picked)
    {
      ghost var a := Now();
      if bn < NDIRECT {
        r, picked := Fill(i, bn);
        if r.Some? {
          DirectBmapped(sb, a, Now(), i, bn, r.value, picked);
          TookDirect(sb, a, Now(), i, bn, r.value, picked);
        }
        return;
      }
      if bn - NDIRECT < NINDIRECT {
        r, picked := BmapIndirect(i, bn - NDIRECT);
        return;
      }
      return None, [];
    }

    /** The second half of bmap: the indirect block, then its j-th word. */
    method BmapIndirect(i: nat, j: nat) returns (r: Option<nat>, ghost picked: seq<nat>)
      requires Valid() && i in icache && nodes[i].kind != 0 && j < NINDIRECT
      modifies `bits, `blocks, `icache, `nodes, `owner, `logged
      ensures r.Some? <==> FreeCount(old(bits)) >= BmapCost(old(nodes), old(blocks), i, NDIRECT + j)
      ensures r.None? ==> FreeCount(bits) == 0
      ensures r.Some? ==> Took(old(Now()), Now(), i, NDIRECT + j)
      ensures HasBlock(old(nodes), old(blocks), i, NDIRECT + j) ==> r.Some? && icache == old(icache)
      ensures r.Some? ==>
                Valid() && icache.Keys == old(icache).Keys
                    && Bmapped(sb, old(Now()), Now(), i, NDIRECT + j, r.value, picked)
    {
      ghost var a := Now();
      var ind;
      ghost var p;
      ind, p := Fill(i, NDIRECT);
      if ind.None? {
        return None, [];
      }
      ghost var y := Now();
      assert Addr(y.nodes, y.blocks, i, NDIRECT) != 0;
      r, picked := Fill(i, NDIRECT + 1 + j);
      if r.Some? {
        IndirectBmapped(sb, a, y, Now(), i, j, ind.value, r.value, p, picked);
        TookIndirect(sb, a, y, Now(), i, j, ind.value, r.value, p, picked);
        picked := p + picked;
      } else {
        FreePicks(a.bits, y.bits, p);
        assert SameAddr(a.nodes, a.blocks, y.nodes, y.blocks, i, NDIRECT + 1 + j);
      }
    }

    /** bfree; false is the panic on a block already free. */
    method Bfree(b: nat) returns (ok: bool)
      requires b < |bits|
      modifies `bits, `logged
      ensures ok == old(bits)[b]
      ensures ok ==> bits == old(bits)[b := false] && logged == old(logged) + {BBlock(sb, b)}
    {
      if !bits[b] {
        return false;
      }
      bits := bits[b := false];
      logged := logged + {BBlock(sb, b)};
      ok := true;
    }

    /** iupdate: the disk copy becomes the cached one. */
    method Iupdate(i: nat)
      requires i in icache && i < |dinodes|
      modifies `dinodes, `logged
      ensures dinodes == old(dinodes)[i := icache[i]] && logged == old(logged) + {IBlock(sb, i)}
    {
      dinodes := dinodes[i := icache[i]];
      logged := logged + {IBlock(sb, i)};
    }

    /** One turn of itrunc's loops: what slot t of inode i holds, if anything, is freed. */
    method TruncSlot(i: nat, t: nat, b: nat, ghost own: Owners, ghost lo: nat, ghost logged0: set<nat>)
      requires Owned(nodes, blocks, owner) && i < |nodes| && lo <= t < SLOTS && b == Addr(nodes, blocks, i, t)
      requires OwnersLeft(owner, own, i, lo) && Cut(sb, owner, own, i, lo, t, bits, logged0, logged)
      modifies `bits, `logged
      ensures Cut(sb, owner, own, i, lo, t + 1, bits, logged0, logged)
    {
      CutStep(sb, nodes, blocks, owner, own, i, lo, t, bits, logged0, logged);
      if b != 0 {
        var ok := Bfree(b);
      }
    }

    /** The first t addresses of inode i are gone from the cached copy. */
    ghost predicate Clearing(i: nat, icache0: map<nat, Dinode>, t: nat)
      reads this
    {
      i < |nodes| && |nodes[i].addrs| == NDIRECT + 1 && t <= NDIRECT && icache == icache0[i := Zeroed(nodes[i], t)]
    }

    method ClearSlot(i: nat, t: nat, ghost icache0: map<nat, Dinode>) returns (b: nat)
      requires t < NDIRECT && Clearing(i, icache0, t)
      modifies `icache
      ensures Clearing(i, icache0, t + 1) && b == nodes[i].addrs[t]
    {
      ZeroedStep(nodes[i], t);
      b := icache[i].addrs[t];
      if b != 0 {
        icache := icache[i := icache[i].(addrs := icache[i].addrs[t := 0])];
      } else {
        assert Zeroed(nodes[i], t + 1) == Zeroed(nodes[i], t);
      }
    }

    /** itrunc's first loop. */
    method TruncDirect(i: nat)
      requires i in icache && i < |nodes| && Owned(nodes, blocks, owner) && Bitmap(sb, bits, owner)
               && icache[i] == nodes[i]
      modifies `bits, `icache, `logged
      ensures Cut(sb, owner, owner, i, 0, NDIRECT, bits, old(logged), logged)
      ensures icache == old(icache)[i := Zeroed(nodes[i], NDIRECT)]
    {
      ghost var icache0, logged0 := icache, logged;
      var t := 0;
      CutStart(sb, owner, owner, i, 0, bits, logged);
      assert Zeroed(nodes[i], 0) == nodes[i];
      while t < NDIRECT
        invariant 0 <= t <= NDIRECT && Cut(sb, owner, owner, i, 0, t, bits, logged0, logged) && Clearing(i, icache0, t)
      {
        var b := ClearSlot(i, t, icache0);
        TruncSlot(i, t, b, owner, 0, logged0);
        t := t + 1;
      }
    }

    /** itrunc's second loop: the blocks in the indirect block, which itself is only read. */
    method TruncIndirect(i: nat, ind: nat)
      requires Owned(nodes, blocks, owner) && i < |nodes| && 0 < ind < |blocks| && ind == nodes[i].addrs[NDIRECT]
      requires Bitmap(sb, bits, LessSlots(owner, i, 0, NDIRECT))
      modifies `bits, `logged
      ensures Cut(sb, owner, LessSlots(owner, i, 0, NDIRECT), i, NDIRECT + 1, SLOTS, bits, old(logged), logged)
    {
      ghost var direct, logged0 := LessSlots(owner, i, 0, NDIRECT), logged;
      var t := NDIRECT + 1;
      CutStart(sb, owner, direct, i, NDIRECT + 1, bits, logged);
      while t < SLOTS
        invariant NDIRECT + 1 <= t <= SLOTS && Cut(sb, owner, direct, i, NDIRECT + 1, t, bits, logged0, logged)
      {
        TruncSlot(i, t, Word(blocks[ind], t - NDIRECT - 1), direct, NDIRECT + 1, logged0);
        t := t + 1;
      }
    }

    /** Both loops and the indirect block itself: the cached inode has no block left, and no bfree has panicked. */
    method TruncBlocks(i: nat) returns (ok: bool)
      requires i in icache && i < |nodes| && Owned(nodes, blocks, owner) && Bitmap(sb, bits, owner)
               && icache[i] == nodes[i]
      modifies `bits, `icache, `logged
      ensures ok && Bitmap(sb, bits, Without(owner, i)) && logged == old(logged) + FileBits(sb, owner, i)
      ensures icache == old(icache)[i := nodes[i].(addrs := seq(NDIRECT + 1, _ => 0))]
    {
      ghost var logged0 := logged;
      TruncDirect(i);
      var ind := icache[i].addrs[NDIRECT];
      ok := true;
      if ind == 0 {
        CutDirect(sb, nodes, blocks, owner, i, bits, logged0, logged);
      } else {
        SlotBlock(nodes, blocks, owner, i, NDIRECT);
        ghost var logged1 := logged;
        TruncIndirect(i, ind);
        CutIndirect(sb, nodes, blocks, owner, i, bits, logged0, logged1, logged);
        ok := Bfree(ind);
        icache := icache[i := icache[i].(addrs := icache[i].addrs[NDIRECT := 0])];
      }
      assert icache[i].addrs == seq(NDIRECT + 1, _ => 0);
    }

    /** itrunc: exactly the inode's blocks are freed, no bfree panics, and no other file changes. */
    method Itrunc(i: nat) returns (ok: bool)
      requires Valid() && i in icache
      modifies `bits, `icache, `nodes, `owner, `dinodes, `logged
      ensures ok && Valid() && icache.Keys == old(icache).Keys
      ensures nodes == old(nodes)[i := Emptied(old(nodes)[i])] && owner == Without(old(owner), i)
      ensures icache[i] == dinodes[i] == nodes[i]
      ensures nodes[i].size == 0 && nodes[i].kind == old(nodes)[i].kind && nodes[i].nlink == old(nodes)[i].nlink
      ensures forall k: nat :: k <= NDIRECT ==> nodes[i].addrs[k] == 0
      ensures logged == old(logged) + FileBits(sb, old(owner), i) + {IBlock(sb, i)}
      ensures forall j: nat :: j < |dinodes| && j != i ==> dinodes[j] == old(dinodes)[j]
      ensures forall j: nat, k: nat :: j < |nodes| && j != i && k < MAXBYTES ==>
                ByteAt(nodes, blocks, j, k) == ByteAt(old(nodes), blocks, j, k)
    {
      ghost var nodes0, owner0, icache0, dinodes0 := nodes, owner, icache, dinodes;
      assert NodeNow(nodes, dinodes, icache, i);
      ok := TruncBlocks(i);
      icache := icache[i := icache[i].(size := 0)];
      EmptyOwned(nodes0, blocks, owner0, i);
      EmptyFiles(nodes0, blocks, i, Emptied(nodes0[i]));
      nodes, owner := nodes[i := Emptied(nodes[i])], Without(owner, i);
      Iupdate(i);
      forall j: nat | j < |nodes| ensures NodeNow(nodes, dinodes, icache, j) {
        assert NodeNow(nodes0, dinodes0, icache0, j);
      }
    }
  }
}
