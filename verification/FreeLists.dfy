/**
 The address-sorted free list of umalloc.c: what merging a block into it and carving a
 block out of it do to the list, to the bytes it covers and to the headers in memory.
 Addresses are bytes; a header is HDR bytes and sizes count headers, a block's own
 header included.
 */
module FreeLists {
  const HDR: int := 8

  datatype Header = Header(ptr: int, size: nat)

  datatype Block = Block(addr: int, size: nat)

  // ---------------------------------------------------------------- the free list as a sequence

  /** Block b covers byte x. */
  predicate Covers(b: Block, x: int) {
    b.addr <= x < b.addr + HDR * b.size
  }

  function End(b: Block): int {
    b.addr + HDR * b.size
  }

  predicate Apart(a: Block, b: Block) {
    End(a) <= b.addr || End(b) <= a.addr
  }

  predicate Ordered(free: seq<Block>, i: nat, j: nat)
    requires i < |free| && j < |free|
  {
    End(free[i]) < free[j].addr
  }

  /**
   The free list from base: addresses increase and no two free blocks abut. base is a
   header of size 0 in the data segment, below the heap.
   */
  ghost predicate FreeList(free: seq<Block>, base: int) {
    && |free| >= 1 && free[0] == Block(base, 0)
    && (forall i :: 0 < i < |free| ==> free[i].size >= 1 && free[i].addr >= base + HDR)
    && (forall i: nat, j: nat :: 0 < i < j < |free| ==> Ordered(free, i, j))
  }

  ghost predicate FreeByte(free: seq<Block>, x: int) {
    exists i :: 0 <= i < |free| && Covers(free[i], x)
  }

  ghost predicate UsedByte(used: map<int, nat>, x: int) {
    exists a :: a in used && Covers(Block(a, used[a]), x)
  }

  predicate UsedApart(used: map<int, nat>, a: int, b: int)
    requires a in used && b in used
  {
    Apart(Block(a, used[a]), Block(b, used[b]))
  }

  predicate Clear(free: seq<Block>, used: map<int, nat>, a: int, i: nat)
    requires a in used && i < |free|
  {
    Apart(Block(a, used[a]), free[i])
  }

  /** Allocated blocks overlap neither each other nor a free block. */
  ghost predicate Disjoint(free: seq<Block>, used: map<int, nat>, base: int) {
    && (forall a :: a in used ==> used[a] >= 1 && a >= base + HDR)
    && (forall a, b :: a in used && b in used && a != b ==> UsedApart(used, a, b))
    && (forall a, i: nat :: a in used && i < |free| ==> Clear(free, used, a, i))
  }

  /** Where free() puts a block: after the last free block below it. */
  ghost predicate Slot(free: seq<Block>, i: nat, bp: int) {
    i < |free| && free[i].addr < bp && (i + 1 < |free| ==> bp < free[i + 1].addr)
  }

  /** The block abuts the free block above it. */
  predicate Up(free: seq<Block>, i: nat, b: Block)
    requires i < |free|
  {
    i + 1 < |free| && End(b) == free[i + 1].addr
  }

  /** The block abuts the free block below it. */
  predicate Down(free: seq<Block>, i: nat, b: Block)
    requires i < |free|
  {
    End(free[i]) == b.addr
  }

  /** The block merged with whatever it abuts. */
  function Merged(free: seq<Block>, i: nat, b: Block): Block
    requires i < |free|
  {
    var mid := if Up(free, i, b) then Block(b.addr, b.size + free[i + 1].size) else b;
    if Down(free, i, b) then Block(free[i].addr, free[i].size + mid.size) else mid
  }

  /** The free list after free(): Merged stands between what was below and above it. */
  function Insert(free: seq<Block>, i: nat, b: Block): seq<Block>
    requires i < |free|
  {
    free[..At(free, i, b)] + [Merged(free, i, b)] + free[Above(free, i, b)..]
  }

  function At(free: seq<Block>, i: nat, b: Block): nat
    requires i < |free|
  {
    if Down(free, i, b) then i else i + 1
  }

  function Above(free: seq<Block>, i: nat, b: Block): (r: nat)
    requires i < |free|
    ensures r <= |free|
  {
    if Up(free, i, b) then i + 2 else i + 1
  }

  /** A block free() may be given: in place, above base, overlapping no free block. */
  ghost predicate Fits(free: seq<Block>, i: nat, b: Block, base: int) {
    && FreeList(free, base) && Slot(free, i, b.addr) && b.size >= 1 && b.addr >= base + HDR
    && Apart(b, free[i]) && (i + 1 < |free| ==> Apart(b, free[i + 1]))
  }

  /** The merged block covers the freed block and the neighbours it swallows, no more. */
  lemma MergedCovers(free: seq<Block>, i: nat, b: Block, base: int, x: int)
    requires Fits(free, i, b, base)
    ensures Covers(Merged(free, i, b), x) <==>
            Covers(b, x) || (Down(free, i, b) && Covers(free[i], x)) || (Up(free, i, b) && Covers(free[i + 1], x))
  {
  }

  lemma MergedPlace(free: seq<Block>, i: nat, b: Block, base: int)
    requires Fits(free, i, b, base)
    ensures var m := Merged(free, i, b);
            && m.size >= 1 && m.addr >= base + HDR && At(free, i, b) > 0
            && (forall k :: 0 < k < At(free, i, b) ==> End(free[k]) < m.addr)
            && (forall k :: Above(free, i, b) <= k < |free| ==> End(m) < free[k].addr)
  {
    var m := Merged(free, i, b);
    forall k | 0 < k < At(free, i, b) ensures End(free[k]) < m.addr {
      if k < i {
        assert Ordered(free, k, i);
      }
    }
    forall k | Above(free, i, b) <= k < |free| ensures End(m) < free[k].addr {
      assert k > i + 1 ==> Ordered(free, i + 1, k);
      assert i > 0 ==> Ordered(free, i, k);
    }
  }

  lemma InsertSorted(free: seq<Block>, i: nat, b: Block, base: int)
    requires Fits(free, i, b, base)
    ensures FreeList(Insert(free, i, b), base)
  {
    MergedPlace(free, i, b, base);
    Splice(free, At(free, i, b), Merged(free, i, b), Above(free, i, b), base);
  }

  /** Putting a block in the gap between two parts of a free list keeps it a free list. */
  lemma Splice(free: seq<Block>, lo: nat, m: Block, hi: nat, base: int)
    requires FreeList(free, base) && 0 < lo <= hi <= |free|
    requires m.size >= 1 && m.addr >= base + HDR
    requires forall k :: 0 < k < lo ==> End(free[k]) < m.addr
    requires forall k :: hi <= k < |free| ==> End(m) < free[k].addr
    ensures FreeList(free[..lo] + [m] + free[hi..], base)
  {
    var r := free[..lo] + [m] + free[hi..];
    forall j: nat, k: nat | 0 < j < k < |r| ensures Ordered(r, j, k) {
      var d := hi - lo - 1;
      assert j > lo ==> r[j] == free[j + d];
      assert k > lo ==> r[k] == free[k + d];
      assert Ordered(free, if j < lo then j else j + d, if k < lo then k else k + d) || j == lo || k == lo;
    }
  }

  lemma SpliceBytes(free: seq<Block>, lo: nat, m: Block, hi: nat, x: int)
    requires lo <= hi <= |free|
    ensures FreeByte(free[..lo] + [m] + free[hi..], x) <==>
            FreeByte(free[..lo], x) || Covers(m, x) || FreeByte(free[hi..], x)
  {
    BytesConcat(free[..lo], [m], x);
    BytesConcat(free[..lo] + [m], free[hi..], x);
    assert Covers([m][0], x) <==> Covers(m, x);
  }

  lemma BytesConcat(s: seq<Block>, t: seq<Block>, x: int)
    ensures FreeByte(s + t, x) <==> FreeByte(s, x) || FreeByte(t, x)
  {
    if FreeByte(s, x) {
      var k :| 0 <= k < |s| && Covers(s[k], x);
      assert Covers((s + t)[k], x);
    }
    if FreeByte(t, x) {
      var k :| 0 <= k < |t| && Covers(t[k], x);
      assert Covers((s + t)[|s| + k], x);
    }
    if FreeByte(s + t, x) {
      var k :| 0 <= k < |s + t| && Covers((s + t)[k], x);
      assert if k < |s| then Covers(s[k], x) else Covers(t[k - |s|], x);
    }
  }

  /** free() adds exactly the freed bytes to the free ones. */
  lemma InsertBytes(free: seq<Block>, i: nat, b: Block, base: int, x: int)
    requires Fits(free, i, b, base)
    ensures FreeByte(Insert(free, i, b), x) <==> FreeByte(free, x) || Covers(b, x)
  {
    var lo, hi := At(free, i, b), Above(free, i, b);
    SpliceBytes(free, lo, Merged(free, i, b), hi, x);
    MergedCovers(free, i, b, base, x);
    BytesConcat(free[..lo], free[lo..hi], x);
    assert free[..hi] == free[..lo] + free[lo..hi];
    BytesConcat(free[..hi], free[hi..], x);
    assert free == free[..hi] + free[hi..];
    Between(free, i, b, x);
  }

  lemma Between(free: seq<Block>, i: nat, b: Block, x: int)
    requires i < |free|
    ensures FreeByte(free[At(free, i, b)..Above(free, i, b)], x) <==>
            (Down(free, i, b) && Covers(free[i], x)) || (Up(free, i, b) && Covers(free[i + 1], x))
  {
    var s := free[At(free, i, b)..Above(free, i, b)];
    if Down(free, i, b) {
      assert s[0] == free[i];
      assert Up(free, i, b) ==> s[1] == free[i + 1];
    } else {
      assert Up(free, i, b) ==> s[0] == free[i + 1];
    }
  }

  /** malloc's result on the list: an exact fit leaves it, a larger block loses its tail. */
  function Take(free: seq<Block>, k: nat, n: nat): seq<Block>
    requires k < |free| && n <= free[k].size
  {
    if free[k].size == n then free[..k] + free[k + 1..]
    else free[k := Block(free[k].addr, free[k].size - n)]
  }

  function Taken(free: seq<Block>, k: nat, n: nat): Block
    requires k < |free| && n <= free[k].size
  {
    Block(free[k].addr + HDR * (free[k].size - n), n)
  }

  lemma TakeSorted(free: seq<Block>, k: nat, n: nat, base: int)
    requires FreeList(free, base) && 0 < k < |free| && 1 <= n <= free[k].size
    ensures FreeList(Take(free, k, n), base)
    ensures forall i :: 0 <= i < |Take(free, k, n)| ==> Apart(Taken(free, k, n), Take(free, k, n)[i])
    ensures Taken(free, k, n).addr >= base + HDR
  {
    var r := Take(free, k, n);
    var exact := free[k].size == n;
    assert exact ==> forall i :: 0 <= i < |r| ==> r[i] == free[if i < k then i else i + 1];
    forall i | 0 <= i < |r| ensures Apart(Taken(free, k, n), r[i]) {
      var m := if exact && i >= k then i + 1 else i;
      assert 0 < m < k ==> Ordered(free, m, k);
      assert m > k ==> Ordered(free, k, m);
    }
    forall i: nat, j: nat | 0 < i < j < |r| ensures Ordered(r, i, j) {
      assert Ordered(free, if exact && i >= k then i + 1 else i, if exact && j >= k then j + 1 else j);
    }
  }

  /** malloc removes exactly the bytes of the block it hands out. */
  lemma TakeBytes(free: seq<Block>, k: nat, n: nat, x: int)
    requires k < |free| && 1 <= n <= free[k].size
    ensures FreeByte(free, x) <==> FreeByte(Take(free, k, n), x) || Covers(Taken(free, k, n), x)
  {
    var left := Block(free[k].addr, free[k].size - n);
    assert free == free[..k] + [free[k]] + free[k + 1..];
    SpliceBytes(free, k, free[k], k + 1, x);
    if free[k].size == n {
      BytesConcat(free[..k], free[k + 1..], x);
    } else {
      assert Take(free, k, n) == free[..k] + [left] + free[k + 1..];
      SpliceBytes(free, k, left, k + 1, x);
    }
  }

  // ---------------------------------------------------------------- the list in memory

  function NextAddr(free: seq<Block>, i: nat): int
    requires i < |free|
  {
    if i + 1 < |free| then free[i + 1].addr else free[0].addr
  }

  ghost predicate LinkedAt(mem: map<int, Header>, free: seq<Block>, i: nat)
    requires i < |free|
  {
    free[i].addr in mem && mem[free[i].addr] == Header(NextAddr(free, i), free[i].size)
  }

  /** The headers in memory form the circular list that free describes. */
  ghost predicate Linked(mem: map<int, Header>, free: seq<Block>) {
    forall i: nat :: i < |free| ==> LinkedAt(mem, free, i)
  }

  /** Each allocated block's header still holds its size. */
  ghost predicate Kept(mem: map<int, Header>, used: map<int, nat>) {
    forall a :: a in used ==> a in mem && mem[a].size == used[a]
  }

  /** The bytes obtained from sbrk are exactly the bytes of free and allocated blocks. */
  ghost predicate Tiles(arena: seq<Block>, free: seq<Block>, used: map<int, nat>) {
    forall x :: FreeByte(arena, x) <==> FreeByte(free, x) || UsedByte(used, x)
  }

  /** No block ends above the program break. */
  ghost predicate Bounded(free: seq<Block>, used: map<int, nat>, brk: int) {
    && (forall i :: 0 <= i < |free| ==> End(free[i]) <= brk)
    && (forall a :: a in used ==> End(Block(a, used[a])) <= brk)
  }

  ghost predicate Good(mem: map<int, Header>, free: seq<Block>, used: map<int, nat>, arena: seq<Block>, brk: int,
                       base: int)
  {
    && base > 0 && brk >= base + HDR
    && FreeList(free, base) && Disjoint(free, used, base)
    && Linked(mem, free) && Kept(mem, used)
    && Tiles(arena, free, used) && Bounded(free, used, brk)
  }

  lemma Increasing(free: seq<Block>, base: int, j: nat, k: nat)
    requires FreeList(free, base) && j <= k < |free|
    ensures free[j].addr <= free[k].addr && (j < k ==> free[j].addr < free[k].addr)
  {
    assert 0 < j < k ==> Ordered(free, j, k);
  }

  /** free()'s search has exactly one place to stop. */
  lemma FindSlot(free: seq<Block>, base: int, bp: int) returns (i: nat)
    requires FreeList(free, base) && base < bp
    requires forall k :: 0 <= k < |free| ==> free[k].addr != bp
    ensures Slot(free, i, bp)
    ensures forall k: nat :: Slot(free, k, bp) ==> k == i
  {
    i := 0;
    while i + 1 < |free| && free[i + 1].addr < bp
      invariant i < |free| && free[i].addr < bp
    {
      i := i + 1;
    }
    forall k: nat | Slot(free, k, bp) ensures k == i {
      if k < i {
        Increasing(free, base, k + 1, i);
      } else if k > i {
        Increasing(free, base, i + 1, k);
      }
    }
  }

  // ---------------------------------------------------------------- free(), on values

  lemma UsedIsNotFree(free: seq<Block>, used: map<int, nat>, base: int, a: int, i: nat)
    requires FreeList(free, base) && Disjoint(free, used, base) && a in used && i < |free|
    ensures a != free[i].addr
  {
    assert Clear(free, used, a, i);
  }

  lemma ReleaseFits(free: seq<Block>, used: map<int, nat>, base: int, bp: int, i: nat)
    requires FreeList(free, base) && Disjoint(free, used, base) && bp in used && Slot(free, i, bp)
    ensures Fits(free, i, Block(bp, used[bp]), base)
  {
    assert Clear(free, used, bp, i);
    if i + 1 < |free| {
      assert Clear(free, used, bp, i + 1);
    }
  }

  lemma MergedApart(free: seq<Block>, i: nat, b: Block, base: int, c: Block)
    requires Fits(free, i, b, base) && c.size >= 1
    requires Apart(c, b) && Apart(c, free[i]) && (i + 1 < |free| ==> Apart(c, free[i + 1]))
    ensures Apart(c, Merged(free, i, b))
  {
  }

  lemma ReleaseDisjoint(free: seq<Block>, used: map<int, nat>, base: int, bp: int, i: nat)
    requires FreeList(free, base) && Disjoint(free, used, base) && bp in used && Slot(free, i, bp)
    ensures Disjoint(Insert(free, i, Block(bp, used[bp])), used - {bp}, base)
  {
    var b, rest := Block(bp, used[bp]), used - {bp};
    var r := Insert(free, i, b);
    ReleaseFits(free, used, base, bp, i);
    forall a, k: nat | a in rest && k < |r| ensures Clear(r, rest, a, k) {
      var lo, hi := At(free, i, b), Above(free, i, b);
      if k == lo {
        assert Clear(free, used, a, i) && UsedApart(used, a, bp);
        assert i + 1 < |free| ==> Clear(free, used, a, i + 1);
        MergedApart(free, i, b, base, Block(a, used[a]));
      } else {
        var m := if k < lo then k else k - lo - 1 + hi;
        assert r[k] == free[m];
        assert Clear(free, used, a, m);
      }
    }
  }

  lemma ReleaseTiles(arena: seq<Block>, free: seq<Block>, used: map<int, nat>, base: int, bp: int, i: nat)
    requires FreeList(free, base) && Disjoint(free, used, base) && bp in used && Slot(free, i, bp)
    requires Tiles(arena, free, used)
    ensures Tiles(arena, Insert(free, i, Block(bp, used[bp])), used - {bp})
  {
    var b, rest := Block(bp, used[bp]), used - {bp};
    ReleaseFits(free, used, base, bp, i);
    forall x ensures FreeByte(arena, x) <==> FreeByte(Insert(free, i, b), x) || UsedByte(rest, x) {
      InsertBytes(free, i, b, base, x);
      UsedSplit(used, bp, x);
    }
  }

  lemma UsedSplit(used: map<int, nat>, bp: int, x: int)
    requires bp in used
    ensures UsedByte(used, x) <==> UsedByte(used - {bp}, x) || Covers(Block(bp, used[bp]), x)
  {
    var rest := used - {bp};
    if UsedByte(used, x) {
      var a :| a in used && Covers(Block(a, used[a]), x);
      assert a != bp ==> a in rest && Covers(Block(a, rest[a]), x);
    }
    if UsedByte(rest, x) {
      var a :| a in rest && Covers(Block(a, rest[a]), x);
      assert Covers(Block(a, used[a]), x);
    }
  }

  lemma ReleaseBounded(free: seq<Block>, used: map<int, nat>, base: int, bp: int, i: nat, brk: int)
    requires FreeList(free, base) && Disjoint(free, used, base) && bp in used && Slot(free, i, bp)
    requires Bounded(free, used, brk)
    ensures Bounded(Insert(free, i, Block(bp, used[bp])), used - {bp}, brk)
  {
    var b := Block(bp, used[bp]);
    var r := Insert(free, i, b);
    assert End(free[i]) <= brk && End(b) <= brk;
    forall k | 0 <= k < |r| ensures End(r[k]) <= brk {
      var lo, hi := At(free, i, b), Above(free, i, b);
      if k != lo {
        assert r[k] == free[if k < lo then k else k - lo - 1 + hi];
      }
    }
  }

  /** What free() leaves in memory: the merged header, and the one below it relinked. */
  ghost predicate Relinked(mem: map<int, Header>, now: map<int, Header>, free: seq<Block>, i: nat, b: Block)
    requires i < |free|
  {
    var m := Merged(free, i, b);
    var below := free[i].addr;
    && mem.Keys <= now.Keys
    && (forall a :: a in mem && a != b.addr && a != below ==> now[a] == mem[a])
    && m.addr in now && now[m.addr] == Header(if Up(free, i, b) then NextAddr(free, i + 1)
       else NextAddr(free, i), m.size)
    && (!Down(free, i, b) ==> below in now && now[below] == Header(b.addr, free[i].size))
  }

  lemma LinkedBelow(mem: map<int, Header>, now: map<int, Header>, free: seq<Block>, i: nat, b: Block, base: int, k: nat)
    requires Fits(free, i, b, base) && Relinked(mem, now, free, i, b) && k < At(free, i, b) && LinkedAt(mem, free, k)
    ensures LinkedAt(now, Insert(free, i, b), k)
  {
    var r, lo := Insert(free, i, b), At(free, i, b);
    assert r[k] == free[k];
    Increasing(free, base, k, i);
    if k + 1 < lo {
      assert r[k + 1] == free[k + 1];
    } else {
      assert r[k + 1] == Merged(free, i, b);
    }
  }

  lemma LinkedAbove(mem: map<int, Header>, now: map<int, Header>, free: seq<Block>, i: nat, b: Block, base: int, k: nat)
    requires Fits(free, i, b, base) && Relinked(mem, now, free, i, b)
    requires Above(free, i, b) <= k < |free| && LinkedAt(mem, free, k) && At(free, i, b) > 0
    ensures At(free, i, b) + 1 + k - Above(free, i, b) < |Insert(free, i, b)|
    ensures LinkedAt(now, Insert(free, i, b), At(free, i, b) + 1 + k - Above(free, i, b))
  {
    var r, m := Insert(free, i, b), At(free, i, b) + 1 + k - Above(free, i, b);
    assert r[m] == free[k] && r[0] == free[0];
    Increasing(free, base, i + 1, k);
    Increasing(free, base, i, k);
    assert k + 1 < |free| ==> r[m + 1] == free[k + 1];
  }

  lemma LinkedMerged(mem: map<int, Header>, now: map<int, Header>, free: seq<Block>, i: nat, b: Block)
    requires i < |free| && Relinked(mem, now, free, i, b) && At(free, i, b) > 0
    ensures LinkedAt(now, Insert(free, i, b), At(free, i, b))
  {
    var r, lo, hi := Insert(free, i, b), At(free, i, b), Above(free, i, b);
    assert r[lo] == Merged(free, i, b) && r[0] == free[0];
    assert hi < |free| ==> r[lo + 1] == free[hi];
  }

  /** After free() the headers link up the merged list. */
  lemma ReleaseLinked(mem: map<int, Header>, now: map<int, Header>, free: seq<Block>, i: nat, b: Block, base: int)
    requires Fits(free, i, b, base) && Linked(mem, free) && Relinked(mem, now, free, i, b)
    ensures Linked(now, Insert(free, i, b))
  {
    var r, lo, hi := Insert(free, i, b), At(free, i, b), Above(free, i, b);
    MergedPlace(free, i, b, base);
    forall k: nat | k < |r| ensures LinkedAt(now, r, k) {
      if k < lo {
        assert LinkedAt(mem, free, k);
        LinkedBelow(mem, now, free, i, b, base, k);
      } else if k > lo {
        assert LinkedAt(mem, free, k - lo - 1 + hi);
        LinkedAbove(mem, now, free, i, b, base, k - lo - 1 + hi);
      } else {
        LinkedMerged(mem, now, free, i, b);
      }
    }
  }

  // ---------------------------------------------------------------- malloc's carving, on values

  ghost predicate Carvable(free: seq<Block>, used: map<int, nat>, base: int, k: nat, n: nat) {
    && FreeList(free, base) && Disjoint(free, used, base)
    && 0 < k < |free| && 1 <= n <= free[k].size
  }

  /** The block malloc hands out touches no allocated block. */
  lemma TakenApart(free: seq<Block>, used: map<int, nat>, base: int, k: nat, n: nat, a: int)
    requires Carvable(free, used, base, k, n) && a in used
    ensures Apart(Block(a, used[a]), Taken(free, k, n)) && a != Taken(free, k, n).addr
  {
    assert Clear(free, used, a, k);
  }

  lemma TakeDisjoint(free: seq<Block>, used: map<int, nat>, base: int, k: nat, n: nat)
    requires Carvable(free, used, base, k, n)
    ensures Disjoint(Take(free, k, n), used[Taken(free, k, n).addr := n], base)
  {
    var r, t := Take(free, k, n), Taken(free, k, n);
    var more := used[t.addr := n];
    TakeSorted(free, k, n, base);
    forall a | a in used ensures Apart(Block(a, used[a]), t) && a != t.addr {
      TakenApart(free, used, base, k, n, a);
    }
    forall a, i: nat | a in more && i < |r| ensures Clear(r, more, a, i) {
      if a in used {
        var j := if free[k].size == n && i >= k then i + 1 else i;
        assert Clear(free, used, a, j);
        assert i != k ==> r[i] == free[j];
      }
    }
  }

  lemma TakeTiles(arena: seq<Block>, free: seq<Block>, used: map<int, nat>, base: int, k: nat, n: nat)
    requires Carvable(free, used, base, k, n) && Tiles(arena, free, used)
    ensures Tiles(arena, Take(free, k, n), used[Taken(free, k, n).addr := n])
  {
    var t := Taken(free, k, n);
    var more := used[t.addr := n];
    forall a | a in used ensures a != t.addr {
      TakenApart(free, used, base, k, n, a);
    }
    assert more - {t.addr} == used;
    forall x ensures FreeByte(arena, x) <==> FreeByte(Take(free, k, n), x) || UsedByte(more, x) {
      TakeBytes(free, k, n, x);
      UsedSplit(more, t.addr, x);
    }
  }

  lemma TakeBounded(free: seq<Block>, used: map<int, nat>, base: int, k: nat, n: nat, brk: int)
    requires Carvable(free, used, base, k, n) && Bounded(free, used, brk)
    ensures Bounded(Take(free, k, n), used[Taken(free, k, n).addr := n], brk)
  {
    var r := Take(free, k, n);
    assert End(free[k]) <= brk;
    forall i | 0 <= i < |r| ensures End(r[i]) <= brk {
      assert i != k ==> r[i] == free[if free[k].size == n && i >= k then i + 1 else i];
      assert free[k].size == n && i == k ==> r[i] == free[k + 1];
    }
  }

  /** What malloc leaves in memory when it carves n units off block k. */
  ghost predicate Carved(mem: map<int, Header>, now: map<int, Header>, free: seq<Block>, k: nat, n: nat)
    requires 0 < k < |free| && n <= free[k].size
  {
    var p, t, prev := free[k].addr, Taken(free, k, n).addr, free[k - 1].addr;
    && mem.Keys <= now.Keys && t in now && now[t].size == n && p in now && prev in now
    && (forall a :: a in mem && a != p && a != t && a != prev ==> now[a] == mem[a])
    && (if free[k].size == n then now[prev] == Header(NextAddr(free, k), free[k - 1].size)
        else now[prev] == Header(p, free[k - 1].size) && now[p] == Header(NextAddr(free, k), free[k].size - n))
  }

  lemma TakenNotHead(free: seq<Block>, base: int, k: nat, n: nat, i: nat)
    requires FreeList(free, base) && 0 < k < |free| && 1 <= n <= free[k].size && i < |free|
    requires i != k || n < free[k].size
    ensures free[i].addr != Taken(free, k, n).addr
  {
    if i < k {
      Increasing(free, base, i, k);
    } else if i > k {
      assert Ordered(free, k, i);
    }
  }

  lemma CarvedLinked(mem: map<int, Header>, now: map<int, Header>, free: seq<Block>, k: nat, n: nat, base: int, i: nat)
    requires FreeList(free, base) && 0 < k < |free| && 1 <= n <= free[k].size
    requires Linked(mem, free) && Carved(mem, now, free, k, n) && i < |Take(free, k, n)|
    ensures LinkedAt(now, Take(free, k, n), i)
  {
    var r := Take(free, k, n);
    var j := if free[k].size == n && i >= k then i + 1 else i;
    assert LinkedAt(mem, free, j);
    TakenNotHead(free, base, k, n, j);
    if j < k - 1 {
      Increasing(free, base, j, k - 1);
    }
    Increasing(free, base, k - 1, k);
    if j > k {
      Increasing(free, base, k, j);
    }
    assert r[0].addr == free[0].addr;
    assert r[i].addr == free[j].addr;
    assert i + 1 < |r| ==> r[i + 1].addr == free[if free[k].size == n && i + 1 >= k then i + 2 else i + 1].addr;
  }

  lemma CarvedKept(mem: map<int, Header>, now: map<int, Header>, free: seq<Block>, used: map<int, nat>, base: int,
                   k: nat, n: nat)
    requires Carvable(free, used, base, k, n) && Kept(mem, used) && Carved(mem, now, free, k, n)
    ensures Kept(now, used[Taken(free, k, n).addr := n])
  {
    var more := used[Taken(free, k, n).addr := n];
    forall a | a in more ensures a in now && now[a].size == more[a] {
      if a in used {
        TakenApart(free, used, base, k, n, a);
        UsedIsNotFree(free, used, base, a, k);
        UsedIsNotFree(free, used, base, a, k - 1);
      }
    }
  }

  // ---------------------------------------------------------------- one operation on the whole heap

  lemma Released(mem: map<int, Header>, now: map<int, Header>, free: seq<Block>, used: map<int, nat>,
                 arena: seq<Block>, brk: int, base: int, bp: int, i: nat)
    requires Good(mem, free, used, arena, brk, base) && bp in used && Slot(free, i, bp)
    requires Relinked(mem, now, free, i, Block(bp, used[bp]))
    ensures Good(now, Insert(free, i, Block(bp, used[bp])), used - {bp}, arena, brk, base)
  {
    ReleaseFits(free, used, base, bp, i);
    InsertSorted(free, i, Block(bp, used[bp]), base);
    ReleaseDisjoint(free, used, base, bp, i);
    ReleaseTiles(arena, free, used, base, bp, i);
    ReleaseBounded(free, used, base, bp, i, brk);
    ReleaseLinked(mem, now, free, i, Block(bp, used[bp]), base);
    forall a | a in used && a != bp ensures a in now && now[a].size == used[a] {
      UsedIsNotFree(free, used, base, a, i);
    }
  }

  lemma CarvedGood(mem: map<int, Header>, now: map<int, Header>, free: seq<Block>, used: map<int, nat>,
                   arena: seq<Block>, brk: int, base: int, k: nat, n: nat)
    requires Good(mem, free, used, arena, brk, base) && 0 < k < |free| && 1 <= n <= free[k].size
    requires Carved(mem, now, free, k, n)
    ensures Good(now, Take(free, k, n), used[Taken(free, k, n).addr := n], arena, brk, base)
  {
    TakeSorted(free, k, n, base);
    TakeDisjoint(free, used, base, k, n);
    TakeTiles(arena, free, used, base, k, n);
    TakeBounded(free, used, base, k, n, brk);
    CarvedKept(mem, now, free, used, base, k, n);
    forall i: nat | i < |Take(free, k, n)| ensures LinkedAt(now, Take(free, k, n), i) {
      CarvedLinked(mem, now, free, k, n, base, i);
    }
  }

  /** A region above the break joins the heap as one more allocated block. */
  lemma Grown(mem: map<int, Header>, now: map<int, Header>, free: seq<Block>, used: map<int, nat>,
              arena: seq<Block>, brk: int, base: int, b: Block)
    requires Good(mem, free, used, arena, brk, base) && b.addr >= brk && b.size >= 1
    requires b.addr in now && now[b.addr].size == b.size && mem.Keys <= now.Keys
    requires forall a :: a in mem && a != b.addr ==> now[a] == mem[a]
    ensures Good(now, free, used[b.addr := b.size], arena + [b], End(b), base)
    ensures b.addr !in used
  {
    var more := used[b.addr := b.size];
    forall a | a in used ensures a < b.addr {
      assert End(Block(a, used[a])) <= brk;
    }
    forall i: nat | i < |free| ensures LinkedAt(now, free, i) {
      assert LinkedAt(mem, free, i) && End(free[i]) <= brk;
    }
    GrownDisjoint(free, used, base, brk, b);
    GrownTiles(arena, free, used, b);
  }

  lemma GrownDisjoint(free: seq<Block>, used: map<int, nat>, base: int, brk: int, b: Block)
    requires FreeList(free, base) && Disjoint(free, used, base) && Bounded(free, used, brk)
    requires b.addr >= brk >= base + HDR && b.size >= 1
    ensures Disjoint(free, used[b.addr := b.size], base)
    ensures Bounded(free, used[b.addr := b.size], End(b))
  {
    var more := used[b.addr := b.size];
    forall a, i: nat | a in more && i < |free| ensures Clear(free, more, a, i) {
      assert End(free[i]) <= brk;
      if a != b.addr {
        assert Clear(free, used, a, i);
      }
    }
    forall a | a in more ensures End(Block(a, more[a])) <= End(b) {
      assert a != b.addr ==> End(Block(a, used[a])) <= brk;
    }
  }

  lemma GrownTiles(arena: seq<Block>, free: seq<Block>, used: map<int, nat>, b: Block)
    requires Tiles(arena, free, used) && b.addr !in used
    ensures Tiles(arena + [b], free, used[b.addr := b.size])
  {
    var more := used[b.addr := b.size];
    assert more - {b.addr} == used;
    forall x ensures FreeByte(arena + [b], x) <==> FreeByte(free, x) || UsedByte(more, x) {
      BytesConcat(arena, [b], x);
      assert Covers([b][0], x) <==> Covers(b, x);
      UsedSplit(more, b.addr, x);
    }
  }

  /** Freeing a block just carved out gives back the very same free list. */
  lemma CarveThenRelease(free: seq<Block>, base: int, k: nat, n: nat, i: nat)
    requires FreeList(free, base) && 0 < k < |free| && 1 <= n <= free[k].size
    requires Slot(Take(free, k, n), i, Taken(free, k, n).addr)
    ensures Insert(Take(free, k, n), i, Taken(free, k, n)) == free
  {
    var r, t := Take(free, k, n), Taken(free, k, n);
    TakeSorted(free, k, n, base);
    var home := if free[k].size == n then k - 1 else k;
    Increasing(free, base, k - 1, k);
    if k + 1 < |free| {
      assert Ordered(free, k, k + 1);
    }
    if k > 1 {
      assert Ordered(free, k - 1, k);
    }
    assert Slot(r, home, t.addr);
    if i < home {
      Increasing(r, base, i + 1, home);
    } else if home < i {
      Increasing(r, base, home + 1, i);
    }
    if free[k].size == n {
      assert !Down(r, home, t) && !Up(r, home, t);
    } else {
      assert Down(r, home, t) && !Up(r, home, t);
      assert Merged(r, home, t) == free[k];
    }
  }
}
