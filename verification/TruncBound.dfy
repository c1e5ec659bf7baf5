/**
 The log budget of freeing a file: itrunc, and iput of an unlinked inode, log one bitmap
 block for each that the file's blocks lie in, and the inode block.
 */
module TruncBound {
  import opened Params
  import opened Inodes
  import opened FileSystem
  import opened Sets

  /** The blocks that freeing all of inode i's blocks logs. */
  ghost function TruncLog(sb: Super, owner: Owners, i: nat): set<nat> {
    FileBits(sb, owner, i) + {IBlock(sb, i)}
  }

  /** The inode block is not a bitmap block. */
  lemma BitsApart(sb: Super, bits: seq<bool>, owner: Owners, i: nat)
    requires SuperOk(sb) && Bitmap(sb, bits, owner) && i < sb.ninodes
    ensures IBlock(sb, i) !in FileBits(sb, owner, i)
    ensures forall x :: x in FileBits(sb, owner, i) ==> sb.bmapstart <= x < sb.bmapstart + (sb.size + BPB - 1) / BPB
  {
    forall b | b in owner ensures sb.bmapstart <= BBlock(sb, b) < sb.bmapstart + (sb.size + BPB - 1) / BPB {
      BlockBelow(b, sb.size);
    }
    assert IBlock(sb, i) < sb.bmapstart by {
      InodeBelow(sb, i);
    }
  }

  lemma BlockBelow(b: nat, size: nat)
    requires b < size
    ensures b / BPB < (size + BPB - 1) / BPB
  {
  }

  lemma InodeBelow(sb: Super, i: nat)
    requires SuperOk(sb) && i < sb.ninodes
    ensures IBlock(sb, i) < sb.bmapstart
  {
  }

  /**
   Freeing a file fits one operation's budget if and only if its blocks lie in at most
   MAXOPBLOCKS - 1 bitmap blocks.
   */
  lemma TruncFitsIffFewBits(sb: Super, bits: seq<bool>, owner: Owners, i: nat)
    requires SuperOk(sb) && Bitmap(sb, bits, owner) && i < sb.ninodes
    ensures |TruncLog(sb, owner, i)| == |FileBits(sb, owner, i)| + 1
    ensures |TruncLog(sb, owner, i)| <= MAXOPBLOCKS <==> |FileBits(sb, owner, i)| <= MAXOPBLOCKS - 1
  {
    BitsApart(sb, bits, owner, i);
  }

  /** It fits for every file of a disk of at most MAXOPBLOCKS - 1 bitmap blocks. */
  lemma SmallDiskFits(sb: Super, bits: seq<bool>, owner: Owners, i: nat)
    requires SuperOk(sb) && Bitmap(sb, bits, owner) && i < sb.ninodes && sb.size <= (MAXOPBLOCKS - 1) * BPB
    ensures |TruncLog(sb, owner, i)| <= MAXOPBLOCKS
  {
    BitsApart(sb, bits, owner, i);
    IntervalSize(FileBits(sb, owner, i), sb.bmapstart, (sb.size + BPB - 1) / BPB);
  }

  // ---------------------------------------------------------------- a file that does not fit

  /** Twelve bitmap blocks, and one file with a block in each. */
  const WIDE_DISK: Super := Super(12 * BPB, 2, 2, 3, 15)

  function WideBlock(s: nat): nat {
    s * BPB + 4095
  }

  const WIDE_FILE: Dinode := Dinode(T_FILE, 0, 0, 0, 12 * BSIZE,
    [4095, 8191, 12287, 16383, 20479, 24575, 28671, 32767, 36863, 40959, 45055, 49151, 0])

  function WideOwner(): Owners {
    map s: nat | s < 12 :: WideBlock(s) := Slot(1, s)
  }

  lemma WideAddr(nodes: seq<Dinode>, blocks: seq<Bytes>, i: nat, s: nat)
    requires nodes == [FREE, WIDE_FILE] && i < 2 && s < SLOTS
    ensures Shaped(nodes) && Addr(nodes, blocks, i, s) == if i == 1 && s < 12 then WideBlock(s) else 0
  {
  }

  lemma WideOwned(nodes: seq<Dinode>, blocks: seq<Bytes>)
    requires nodes == [FREE, WIDE_FILE] && |blocks| == WIDE_DISK.size
    ensures Owned(nodes, blocks, WideOwner()) && Files(nodes, blocks)
  {
    WideAddr(nodes, blocks, 0, 0);
    forall i: nat, s: nat | i < |nodes| && s < SLOTS ensures SlotOk(nodes, blocks, WideOwner(), i, s) {
      WideAddr(nodes, blocks, i, s);
    }
    forall b | b in WideOwner() ensures HomeOk(nodes, blocks, WideOwner(), b) {
      WideAddr(nodes, blocks, WideOwner()[b].inum, WideOwner()[b].s);
    }
    assert Emptied(FREE) == FREE;
  }

  predicate Wide(b: nat) {
    b % BPB == 4095 && b < 12 * BPB
  }

  lemma WideBitmap(bits: seq<bool>)
    requires |bits| == WIDE_DISK.size && forall b: nat :: b < |bits| ==> bits[b] == (b < 15 || Wide(b))
    ensures SuperOk(WIDE_DISK) && Bitmap(WIDE_DISK, bits, WideOwner())
  {
    forall b: nat | b < WIDE_DISK.size ensures BitOk(WIDE_DISK, bits, WideOwner(), b) {
      if Wide(b) {
        assert b == WideBlock(b / BPB) && b / BPB < 12;
      }
    }
  }

  lemma WideBit(s: nat)
    requires s < 12
    ensures BBlock(WIDE_DISK, WideBlock(s)) == s + 3
  {
  }

  lemma WideMember(x: nat)
    ensures x in FileBits(WIDE_DISK, WideOwner(), 1) <==> 3 <= x < 15
  {
    if x in FileBits(WIDE_DISK, WideOwner(), 1) {
      var b :| b in WideOwner() && x == BBlock(WIDE_DISK, b);
      var s: nat :| s < 12 && b == WideBlock(s);
      WideBit(s);
    }
    if 3 <= x < 15 {
      WideBit(x - 3);
      assert WideBlock(x - 3) in WideOwner();
    }
  }

  lemma WideLog(bits: seq<bool>)
    requires SuperOk(WIDE_DISK) && Bitmap(WIDE_DISK, bits, WideOwner())
    ensures |TruncLog(WIDE_DISK, WideOwner(), 1)| == 13
  {
    forall x: nat ensures x in FileBits(WIDE_DISK, WideOwner(), 1) <==> 3 <= x < 15 {
      WideMember(x);
    }
    IntervalExact(FileBits(WIDE_DISK, WideOwner(), 1), 3, 12);
    TruncFitsIffFewBits(WIDE_DISK, bits, WideOwner(), 1);
  }

  /** The last close of that file, unlinked before: one operation logs 13 blocks. */
  method WideDrop() returns (ok: bool, ghost log: set<nat>)
    ensures ok && |log| == 13 && |log| > MAXOPBLOCKS
  {
    var bits: seq<bool> := seq(12 * BPB, b requires b >= 0 => b < 15 || Wide(b));
    var blocks: seq<Bytes> := seq(12 * BPB, _ => Zeros());
    var nodes := [FREE, WIDE_FILE];
    WideBitmap(bits);
    WideOwned(nodes, blocks);
    WideLog(bits);
    var fs := new Fs.Mount(WIDE_DISK, bits, blocks, nodes, WideOwner());
    var found := fs.Ilock(1);
    ok := fs.Idrop(1);
    log := fs.logged;
    assert log == TruncLog(WIDE_DISK, WideOwner(), 1);
  }
}
