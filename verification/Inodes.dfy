/**
 Inodes and the blocks they own (fs.h): 12 direct slots, the indirect block, and 128
 slots inside it. Owners says which slot of which inode a block serves; each change that
 fs.c makes keeps slots, owners and the free bitmap in step and moves no other byte.
 */
module Inodes {
  import opened Params

  type Byte = x: nat | x < 256

  type Bytes = s: seq<Byte> | |s| == BSIZE witness seq(BSIZE, _ => 0)

  function Zeros(): Bytes {
    seq(BSIZE, _ => 0)
  }

  // ---------------------------------------------------------------- words in a block

  /** The j-th 32-bit word of a block, least significant byte first. */
  function Word(b: Bytes, j: nat): nat
    requires j < NINDIRECT
  {
    var b0: nat, b1: nat, b2: nat, b3: nat := b[4 * j], b[4 * j + 1], b[4 * j + 2], b[4 * j + 3];
    b0 + 0x100 * b1 + 0x1_0000 * b2 + 0x100_0000 * b3
  }

  function SetWord(b: Bytes, j: nat, w: nat): Bytes
    requires j < NINDIRECT && w < TWO32
  {
    b[4 * j := w % 256][4 * j + 1 := w / 0x100 % 256][4 * j + 2 := w / 0x1_0000 % 256][4 * j + 3 := w / 0x100_0000]
  }

  lemma Digits(w: nat)
    requires w < TWO32
    ensures w % 256 + 0x100 * (w / 0x100 % 256) + 0x1_0000 * (w / 0x1_0000 % 256) + 0x100_0000 * (w / 0x100_0000) == w
  {
    assert w / 0x1_0000 == w / 0x100 / 0x100;
    assert w / 0x100_0000 == w / 0x1_0000 / 0x100;
  }

  lemma WordSet(b: Bytes, j: nat, w: nat, k: nat)
    requires j < NINDIRECT && w < TWO32 && k < NINDIRECT
    ensures Word(SetWord(b, j, w), k) == if k == j then w else Word(b, k)
  {
    Digits(w);
  }

  lemma WordZero(j: nat)
    requires j < NINDIRECT
    ensures Word(Zeros(), j) == 0
  {
  }

  // ---------------------------------------------------------------- inodes and slots

  /** An inode; addrs holds the direct blocks and, last, the indirect block. */
  datatype Dinode = Dinode(kind: nat, major: int, minor: int, nlink: int, size: nat, addrs: seq<nat>)

  /** Slots 0..11 are direct, 12 is the indirect block, 13 + j its j-th word. */
  datatype Slot = Slot(inum: nat, s: nat)

  const SLOTS: nat := NDIRECT + 1 + NINDIRECT

  type Owners = map<nat, Slot>

  /** The slot of the bn-th block of a file. */
  function SlotOf(bn: nat): nat {
    if bn < NDIRECT then bn else bn + 1
  }

  predicate Shaped(nodes: seq<Dinode>) {
    forall i :: 0 <= i < |nodes| ==> |nodes[i].addrs| == NDIRECT + 1
  }

  /** The block in slot s of inode i; 0 when there is none. */
  function Addr(nodes: seq<Dinode>, blocks: seq<Bytes>, i: nat, s: nat): nat
    requires Shaped(nodes) && i < |nodes| && s < SLOTS
  {
    if s <= NDIRECT then nodes[i].addrs[s]
    else
      var ind := nodes[i].addrs[NDIRECT];
      if 0 < ind < |blocks| then Word(blocks[ind], s - NDIRECT - 1) else 0
  }

  predicate SlotOk(nodes: seq<Dinode>, blocks: seq<Bytes>, owner: Owners, i: nat, s: nat)
    requires Shaped(nodes) && i < |nodes| && s < SLOTS
  {
    var b := Addr(nodes, blocks, i, s);
    b == 0 || (b in owner && owner[b] == Slot(i, s))
  }

  predicate HomeOk(nodes: seq<Dinode>, blocks: seq<Bytes>, owner: Owners, b: nat)
    requires Shaped(nodes) && b in owner
  {
    0 < b < |blocks| && owner[b].inum < |nodes| && owner[b].s < SLOTS
      && Addr(nodes, blocks, owner[b].inum, owner[b].s) == b
  }

  /** Every slot in use owns its block, and every owned block is in the slot that owns it. */
  ghost predicate Owned(nodes: seq<Dinode>, blocks: seq<Bytes>, owner: Owners) {
    && Shaped(nodes)
    && (forall i: nat, s: nat :: i < |nodes| && s < SLOTS ==> SlotOk(nodes, blocks, owner, i, s))
    && (forall b :: b in owner ==> HomeOk(nodes, blocks, owner, b))
  }

  lemma SlotBlock(nodes: seq<Dinode>, blocks: seq<Bytes>, owner: Owners, i: nat, s: nat)
    requires Owned(nodes, blocks, owner) && i < |nodes| && s < SLOTS && Addr(nodes, blocks, i, s) != 0
    ensures var b := Addr(nodes, blocks, i, s); 0 < b < |blocks| && b in owner && owner[b] == Slot(i, s)
  {
    assert SlotOk(nodes, blocks, owner, i, s);
    assert HomeOk(nodes, blocks, owner, Addr(nodes, blocks, i, s));
  }

  /** A slot sees only its inode and its inode's indirect block. */
  lemma AddrFrame(nodes: seq<Dinode>, nodes': seq<Dinode>, blocks: seq<Bytes>, blocks': seq<Bytes>, i: nat, s: nat)
    requires Shaped(nodes) && Shaped(nodes') && i < |nodes| && i < |nodes'| && s < SLOTS && |blocks| == |blocks'|
    requires nodes'[i].addrs == nodes[i].addrs
    requires var ind := nodes[i].addrs[NDIRECT]; 0 < ind < |blocks| ==> blocks'[ind] == blocks[ind]
    ensures Addr(nodes', blocks', i, s) == Addr(nodes, blocks, i, s)
  {
  }

  // ---------------------------------------------------------------- giving a slot a block

  function Placed(nodes: seq<Dinode>, i: nat, s: nat, b: nat): seq<Dinode>
    requires Shaped(nodes) && i < |nodes| && s < SLOTS
  {
    if s <= NDIRECT then nodes[i := nodes[i].(addrs := nodes[i].addrs[s := b])] else nodes
  }

  /** The new block zeroed and, for a slot of the indirect block, its word set. */
  function PlacedBlocks(nodes: seq<Dinode>, blocks: seq<Bytes>, i: nat, s: nat, b: nat): seq<Bytes>
    requires Shaped(nodes) && i < |nodes| && s < SLOTS && b < |blocks| && b < TWO32
  {
    var zeroed := blocks[b := Zeros()];
    var ind := nodes[i].addrs[NDIRECT];
    if s <= NDIRECT || !(0 < ind < |blocks|) then zeroed
    else zeroed[ind := SetWord(zeroed[ind], s - NDIRECT - 1, b)]
  }

  /** Slot s of inode i is empty, its table is there, and block b is nobody's. */
  ghost predicate CanPlace(nodes: seq<Dinode>, blocks: seq<Bytes>, owner: Owners, i: nat, s: nat, b: nat) {
    && Owned(nodes, blocks, owner) && i < |nodes| && s < SLOTS && 0 < b < |blocks| <= TWO32 && b !in owner
    && Addr(nodes, blocks, i, s) == 0
    && (s > NDIRECT ==> nodes[i].addrs[NDIRECT] != 0)
  }

  /** Only that slot changes. */
  lemma PlaceAt(nodes: seq<Dinode>, blocks: seq<Bytes>, owner: Owners, i: nat, s: nat, b: nat, i2: nat, s2: nat)
    requires CanPlace(nodes, blocks, owner, i, s, b) && i2 < |nodes| && s2 < SLOTS
    ensures Shaped(Placed(nodes, i, s, b))
    ensures Addr(Placed(nodes, i, s, b), PlacedBlocks(nodes, blocks, i, s, b), i2, s2)
            == if i2 == i && s2 == s then b else Addr(nodes, blocks, i2, s2)
  {
    var ind2 := nodes[i2].addrs[NDIRECT];
    if ind2 != 0 {
      SlotBlock(nodes, blocks, owner, i2, NDIRECT);
    }
    if s > NDIRECT {
      SlotBlock(nodes, blocks, owner, i, NDIRECT);
      if s2 > NDIRECT && i2 == i {
        WordSet(blocks[ind2], s - NDIRECT - 1, b, s2 - NDIRECT - 1);
      }
    } else if s == NDIRECT && s2 > NDIRECT && i2 == i {
      WordZero(s2 - NDIRECT - 1);
    }
  }

  lemma PlaceOwned(nodes: seq<Dinode>, blocks: seq<Bytes>, owner: Owners, i: nat, s: nat, b: nat)
    requires CanPlace(nodes, blocks, owner, i, s, b)
    ensures Owned(Placed(nodes, i, s, b), PlacedBlocks(nodes, blocks, i, s, b), owner[b := Slot(i, s)])
  {
    var nodes', blocks', owner' := Placed(nodes, i, s, b), PlacedBlocks(nodes, blocks, i, s, b), owner[b := Slot(i, s)];
    PlaceAt(nodes, blocks, owner, i, s, b, i, s);
    forall i2: nat, s2: nat | i2 < |nodes'| && s2 < SLOTS ensures SlotOk(nodes', blocks', owner', i2, s2) {
      PlaceAt(nodes, blocks, owner, i, s, b, i2, s2);
      assert SlotOk(nodes, blocks, owner, i2, s2);
    }
    forall c | c in owner' ensures HomeOk(nodes', blocks', owner', c) {
      if c != b {
        assert HomeOk(nodes, blocks, owner, c);
        PlaceAt(nodes, blocks, owner, i, s, b, owner[c].inum, owner[c].s);
      }
    }
  }

  // ---------------------------------------------------------------- the bytes of a file

  const MAXBYTES: nat := MAXFILE * BSIZE

  /** Byte k of inode i, as its blocks hold it; 0 where there is no block. */
  function ByteAt(nodes: seq<Dinode>, blocks: seq<Bytes>, i: nat, k: nat): Byte
    requires Shaped(nodes) && i < |nodes| && k < MAXBYTES
  {
    var b := Addr(nodes, blocks, i, SlotOf(k / BSIZE));
    if 0 < b < |blocks| then blocks[b][k % BSIZE] else 0
  }

  /** Every block below size is there. */
  ghost predicate NoHoles(nodes: seq<Dinode>, blocks: seq<Bytes>, i: nat)
    requires Shaped(nodes) && i < |nodes|
  {
    && nodes[i].size <= MAXBYTES
    && forall bn: nat :: bn < MAXFILE && bn * BSIZE < nodes[i].size ==> HasBlock(nodes, blocks, i, bn)
  }

  predicate HasBlock(nodes: seq<Dinode>, blocks: seq<Bytes>, i: nat, bn: nat)
    requires Shaped(nodes) && i < |nodes| && bn < MAXFILE
  {
    Addr(nodes, blocks, i, SlotOf(bn)) != 0
  }

  /** A file as a sequence of bytes. */
  function Contents(nodes: seq<Dinode>, blocks: seq<Bytes>, i: nat): seq<Byte>
    requires Shaped(nodes) && i < |nodes| && nodes[i].size <= MAXBYTES
  {
    seq(nodes[i].size, k requires 0 <= k < nodes[i].size => ByteAt(nodes, blocks, i, k))
  }

  /** A new block changes no byte of a block that was there, and reads as zeros. */
  lemma PlaceByte(nodes: seq<Dinode>, blocks: seq<Bytes>, owner: Owners, i: nat, s: nat, b: nat, i2: nat, k: nat)
    requires CanPlace(nodes, blocks, owner, i, s, b) && i2 < |nodes| && k < MAXBYTES
    ensures Shaped(Placed(nodes, i, s, b))
    ensures ByteAt(Placed(nodes, i, s, b), PlacedBlocks(nodes, blocks, i, s, b), i2, k) == ByteAt(nodes, blocks, i2, k)
  {
    var s2 := SlotOf(k / BSIZE);
    PlaceAt(nodes, blocks, owner, i, s, b, i2, s2);
    var c := Addr(nodes, blocks, i2, s2);
    if c != 0 {
      SlotBlock(nodes, blocks, owner, i2, s2);
    }
    if s > NDIRECT {
      SlotBlock(nodes, blocks, owner, i, NDIRECT);
    }
  }

  /** Writing a data block leaves every slot as it was. */
  lemma WriteAddr(nodes: seq<Dinode>, blocks: seq<Bytes>, owner: Owners, b: nat, bytes: Bytes, i: nat, s: nat)
    requires Owned(nodes, blocks, owner) && b in owner && owner[b].s != NDIRECT && b < |blocks| && i < |nodes|
             && s < SLOTS
    ensures Addr(nodes, blocks[b := bytes], i, s) == Addr(nodes, blocks, i, s)
  {
    if nodes[i].addrs[NDIRECT] != 0 {
      SlotBlock(nodes, blocks, owner, i, NDIRECT);
    }
    AddrFrame(nodes, nodes, blocks, blocks[b := bytes], i, s);
  }

  lemma WriteOwned(nodes: seq<Dinode>, blocks: seq<Bytes>, owner: Owners, b: nat, bytes: Bytes)
    requires Owned(nodes, blocks, owner) && b in owner && owner[b].s != NDIRECT && b < |blocks|
    ensures Owned(nodes, blocks[b := bytes], owner)
  {
    var blocks' := blocks[b := bytes];
    forall i: nat, s: nat | i < |nodes| && s < SLOTS ensures SlotOk(nodes, blocks', owner, i, s) {
      WriteAddr(nodes, blocks, owner, b, bytes, i, s);
      assert SlotOk(nodes, blocks, owner, i, s);
    }
    forall c | c in owner ensures HomeOk(nodes, blocks', owner, c) {
      assert HomeOk(nodes, blocks, owner, c);
      WriteAddr(nodes, blocks, owner, b, bytes, owner[c].inum, owner[c].s);
    }
  }

  lemma SlotOfInjective(x: nat, y: nat)
    ensures SlotOf(x) == SlotOf(y) ==> x == y
    ensures SlotOf(x) != NDIRECT && (x < MAXFILE ==> SlotOf(x) < SLOTS)
  {
  }

  /** Writing the bn-th block of a file changes those bytes of that file and no others. */
  lemma WriteByte(nodes: seq<Dinode>, blocks: seq<Bytes>, owner: Owners, i: nat, bn: nat, bytes: Bytes, i2: nat, k: nat)
    requires Owned(nodes, blocks, owner) && i < |nodes| && bn < MAXFILE && HasBlock(nodes, blocks, i, bn)
    requires i2 < |nodes| && k < MAXBYTES && Addr(nodes, blocks, i, SlotOf(bn)) < |blocks|
    ensures ByteAt(nodes, blocks[Addr(nodes, blocks, i, SlotOf(bn)) := bytes], i2, k)
            == if i2 == i && k / BSIZE == bn then bytes[k % BSIZE] else ByteAt(nodes, blocks, i2, k)
  {
    var b := Addr(nodes, blocks, i, SlotOf(bn));
    SlotBlock(nodes, blocks, owner, i, SlotOf(bn));
    SlotOfInjective(bn, k / BSIZE);
    WriteAddr(nodes, blocks, owner, b, bytes, i2, SlotOf(k / BSIZE));
    if Addr(nodes, blocks, i2, SlotOf(k / BSIZE)) != 0 {
      SlotBlock(nodes, blocks, owner, i2, SlotOf(k / BSIZE));
    }
  }

  // ---------------------------------------------------------------- taking an inode's blocks away

  function Emptied(d: Dinode): Dinode {
    d.(size := 0, addrs := seq(NDIRECT + 1, _ => 0))
  }

  /** The owners once inode i has no blocks. */
  function Without(owner: Owners, i: nat): Owners {
    map b | b in owner && owner[b].inum != i :: owner[b]
  }

  lemma EmptyOwned(nodes: seq<Dinode>, blocks: seq<Bytes>, owner: Owners, i: nat)
    requires Owned(nodes, blocks, owner) && i < |nodes|
    ensures Owned(nodes[i := Emptied(nodes[i])], blocks, Without(owner, i))
    ensures forall i2: nat, k: nat :: i2 < |nodes| && i2 != i && k < MAXBYTES ==>
              ByteAt(nodes[i := Emptied(nodes[i])], blocks, i2, k) == ByteAt(nodes, blocks, i2, k)
  {
    var nodes', owner' := nodes[i := Emptied(nodes[i])], Without(owner, i);
    forall i2: nat, s: nat | i2 < |nodes| && s < SLOTS
      ensures Addr(nodes', blocks, i2, s) == if i2 == i then 0 else Addr(nodes, blocks, i2, s)
    {
    }
    forall i2: nat, s: nat | i2 < |nodes| && s < SLOTS ensures SlotOk(nodes', blocks, owner', i2, s) {
      assert SlotOk(nodes, blocks, owner, i2, s);
    }
    forall b | b in owner' ensures HomeOk(nodes', blocks, owner', b) {
      assert HomeOk(nodes, blocks, owner, b);
    }
  }
}
