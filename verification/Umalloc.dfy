/**
 umalloc.c: malloc and free. The answer of sbrk is a parameter: the address of a new
 region above everything handed out before, or nothing.
 */
module Umalloc {
  import opened Params
  import opened FreeLists

  const MINUNITS: nat := 4096

  /** Units for a request, header included; the addition is 32-bit. */
  function Units(nbytes: nat): nat {
    (nbytes + HDR - 1) % TWO32 / HDR + 1
  }

  /** The units morecore asks sbrk for. */
  function CoreUnits(n: nat): nat {
    if n < MINUNITS then MINUNITS else n
  }

  /** sbrk takes an int: the byte count as the kernel sees it. */
  function AsInt(bytes: nat): int {
    var w := bytes % TWO32;
    if w < TWO31 then w else w - TWO32
  }

  /** A block of that many units has room for the request. */
  predicate HasRoom(units: nat, nbytes: nat) {
    HDR * (units - 1) >= nbytes
  }

  /** What sbrk is asked for is the region that morecore then takes for granted. */
  predicate Backed(n: nat) {
    AsInt(HDR * CoreUnits(n)) == HDR * CoreUnits(n)
  }

  /** The rounding wraps for the last 7 sizes, and then the block has no room at all. */
  lemma RoomIffNoWrap(nbytes: nat)
    requires nbytes < TWO32
    ensures HasRoom(Units(nbytes), nbytes) <==> nbytes <= TWO32 - HDR
    ensures nbytes > TWO32 - HDR ==> Units(nbytes) == 1
  {
    if nbytes + HDR - 1 < TWO32 {
      assert HDR * (Units(nbytes) - 1) <= nbytes + HDR - 1 < HDR * Units(nbytes);
    }
  }

  /** sbrk's argument is an int: the request is taken as it is meant up to 2^31 - 16 bytes, or after a wrap. */
  lemma BackedIffSmall(nbytes: nat)
    requires nbytes < TWO32
    ensures Backed(Units(nbytes)) <==> nbytes <= TWO31 - 16 || nbytes > TWO32 - HDR
  {
    var n := Units(nbytes);
    if nbytes + HDR - 1 < TWO32 {
      assert HDR * (n - 1) <= nbytes + HDR - 1 < HDR * n;
    } else {
      assert n == 1;
    }
  }

  /** Steps from a to b going round a ring of n. */
  function Around(a: nat, b: nat, n: nat): nat
    requires a < n && b < n
  {
    if a <= b then b - a else n - a + b
  }

  function Next(k: nat, n: nat): nat
    requires k < n
  {
    if k + 1 < n then k + 1 else 0
  }

  lemma SlotOf(free: seq<Block>, used: map<int, nat>, base: int, bp: int) returns (i: nat)
    requires FreeList(free, base) && Disjoint(free, used, base) && bp in used
    ensures Slot(free, i, bp)
  {
    forall k: nat | k < |free| ensures free[k].addr != bp {
      UsedIsNotFree(free, used, base, bp, k);
    }
    i := FindSlot(free, base, bp);
  }

  /** One turn of free()'s search: it stops at the slot, by either test, and nowhere else. */
  lemma Walk(free: seq<Block>, base: int, bp: int, i: nat, k: nat)
    requires FreeList(free, base) && Slot(free, i, bp) && k < |free|
    ensures var p, next := free[k].addr, NextAddr(free, k);
            (bp > p && bp < next) || (p >= next && (bp > p || bp < next)) <==> k == i
    ensures k != i ==> Around(Next(k, |free|), i, |free|) < Around(k, i, |free|)
  {
    Increasing(free, base, 0, k);
    Increasing(free, base, 0, i);
    if k < i {
      Increasing(free, base, k + 1, i);
      Increasing(free, base, k, k + 1);
    } else if k > i {
      Increasing(free, base, i + 1, k);
      if k + 1 < |free| {
        Increasing(free, base, k, k + 1);
      }
    } else if k + 1 < |free| {
      Increasing(free, base, k, k + 1);
    }
  }

  class Heap {
    const base: int
    var mem: map<int, Header>
    var freep: int
    ghost var free: seq<Block>
    ghost var used: map<int, nat>
    ghost var arena: seq<Block>
    ghost var brk: int

    /** freep is null before the first malloc; afterwards it points at some free block. */
    ghost predicate Valid()
      reads this
    {
      if freep == 0 then base > 0 && brk >= base + HDR && free == [] && used == map[] && arena == []
      else Good(mem, free, used, arena, brk, base) && (exists f :: 0 <= f < |free| && free[f].addr == freep)
    }

    constructor (at: int, top: int)
      requires at > 0 && top >= at + HDR
      ensures Valid() && base == at && brk == top && free == [] && used == map[] && arena == []
    {
      base, mem, freep := at, map[], 0;
      free, used, arena, brk := [], map[], [], top;
    }

    /** The walk from freep stops at the block below bp, wherever it starts. */
    method Search(bp: int) returns (p: int, ghost i: nat)
      requires Valid() && freep != 0 && bp in used
      ensures Slot(free, i, bp) && p == free[i].addr
    {
      i := SlotOf(free, used, base, bp);
      p := freep;
      ghost var k: nat :| k < |free| && free[k].addr == p;
      assert LinkedAt(mem, free, k);
      while !(bp > p && bp < mem[p].ptr)
        invariant k < |free| && p == free[k].addr && LinkedAt(mem, free, k)
        decreases Around(k, i, |free|)
      {
        Walk(free, base, bp, i, k);
        if p >= mem[p].ptr && (bp > p || bp < mem[p].ptr) {
          break;
        }
        p := mem[p].ptr;
        k := Next(k, |free|);
        assert LinkedAt(mem, free, k);
      }
      Walk(free, base, bp, i, k);
    }

    /** free: the block joins the free list, merged with the neighbours it abuts. */
    method Free(ap: int) returns (ghost i: nat)
      requires Valid() && freep != 0 && ap - HDR in used
      modifies `mem, `freep, `free, `used
      ensures Valid() && freep != 0
      ensures Slot(old(free), i, ap - HDR)
      ensures free == Insert(old(free), i, Block(ap - HDR, old(used)[ap - HDR]))
      ensures used == old(used) - {ap - HDR}
    {
      var bp := ap - HDR;
      var p;
      p, i := Search(bp);
      ghost var b := Block(bp, used[bp]);
      JoinReady(mem, free, used, arena, brk, base, bp, i);
      var now := Join(mem, p, bp, free, i, b);
      Released(mem, now, free, used, arena, brk, base, bp, i);
      mem, freep, free, used := now, p, Insert(free, i, b), used - {bp};
      assert free[i].addr == freep;
    }

    /** The new region's header is written and the region counts as allocated. */
    method Extend(hp: int, nu: nat)
      requires Valid() && freep != 0 && nu >= 1 && hp >= brk
      modifies `mem, `used, `arena, `brk
      ensures Valid() && hp in used && used[hp] == nu && used - {hp} == old(used)
      ensures arena == old(arena) + [Block(hp, nu)] && brk == End(Block(hp, nu))
    {
      var now := mem[hp := Header(if hp in mem then mem[hp].ptr else 0, nu)];
      Grown(mem, now, free, used, arena, brk, base, Block(hp, nu));
      mem, used, arena, brk := now, used[hp := nu], arena + [Block(hp, nu)], End(Block(hp, nu));
      assert used - {hp} == old(used);
    }

    /** morecore: a new region of at least MINUNITS units is freed into the list. */
    method MoreCore(n: nat, sbrk: Option<int>) returns (p: int, request: int, ghost j: nat)
      requires Valid() && freep != 0 && n >= 1
      requires sbrk.Some? ==> sbrk.value >= brk
      modifies this
      ensures Valid() && freep != 0 && used == old(used)
      ensures request == AsInt(HDR * CoreUnits(n))
      ensures sbrk.None? ==> p == 0 && free == old(free) && arena == old(arena) && brk == old(brk)
      ensures sbrk.Some? ==> p == freep && j < |free| && free[j].size >= n
      ensures sbrk.Some? ==>
                arena == old(arena) + [Block(sbrk.value, CoreUnits(n))] && brk == End(Block(sbrk.value, CoreUnits(n)))
    {
      var nu := CoreUnits(n);
      request := AsInt(HDR * nu);
      if sbrk.None? {
        return 0, request, 0;
      }
      var hp := sbrk.value;
      Extend(hp, nu);
      ghost var free0 := free;
      ghost var i := Free(hp + HDR);
      p, j := freep, At(free0, i, Block(hp, nu));
    }

    /** The first malloc makes base the whole free list. */
    method Init()
      requires Valid()
      modifies `mem, `freep, `free
      ensures Valid() && freep != 0
      ensures old(freep) == 0 ==> free == [Block(base, 0)]
      ensures old(freep) != 0 ==> free == old(free) && freep == old(freep)
    {
      if freep == 0 {
        mem := mem[base := Header(base, 0)];
        freep := base;
        free := [Block(base, 0)];
        assert LinkedAt(mem, free, 0);
        assert free[0].addr == freep;
      }
    }

    /** The tail of block k, or the whole of it, leaves the free list. */
    method Carve(prevp: int, p: int, n: nat, ghost k: nat) returns (r: int)
      requires Valid() && freep != 0 && 0 < k < |free| && 1 <= n <= free[k].size
      requires p == free[k].addr && prevp == free[k - 1].addr
      modifies `mem, `freep, `free, `used
      ensures Valid() && freep != 0 && r > 0
      ensures r - HDR !in old(used) && used == old(used)[r - HDR := n]
      ensures free == Take(old(free), k, n) && r - HDR == Taken(old(free), k, n).addr
    {
      CarveReady(mem, free, used, arena, brk, base, k, n);
      var now, q := Cut(mem, prevp, p, n, free, k);
      CarvedGood(mem, now, free, used, arena, brk, base, k, n);
      mem, freep, free, used := now, prevp, Take(free, k, n), used[q := n];
      assert free[k - 1].addr == freep;
      r := q + HDR;
    }

    /**
     malloc's search, next fit: it stops at the first block after freep, going round, that
     has at least n units, or at null. sbrk is asked at most once, and only when no free
     block is large enough.
     */
    method Find(n: nat, sbrk: Option<int>)
      returns (prevp: int, p: int, asked: bool, request: int, ghost f: nat, ghost k: nat)
      requires Valid() && freep != 0 && n >= 1
      requires sbrk.Some? ==> sbrk.value >= brk
      modifies this
      ensures Valid() && freep != 0 && used == old(used)
      ensures asked <==> NoFit(old(free), n)
      ensures asked ==> request == AsInt(HDR * CoreUnits(n))
      ensures p == 0 <==> asked && sbrk.None?
      ensures p != 0 ==> f < |free| && freep == free[f].addr && NextFit(free, n, f, k)
      ensures p != 0 ==> 0 < k && p == free[k].addr && prevp == free[k - 1].addr
      ensures !asked ==> free == old(free) && freep == old(freep)
      ensures if p != 0 && asked then arena == old(arena) + [Block(sbrk.value, CoreUnits(n))]
              else arena == old(arena) && brk == old(brk)
    {
      ghost var j: nat := 0;
      f := FreepIndex();
      prevp := freep;
      p, k := Follow(prevp, f, f);
      SmallStart(free, n, f);
      asked, request := false, 0;
      ghost var free0, used0, arena0, brk0, freep0 := free, used, arena, brk, freep;
      while mem[p].size < n
        invariant Stands(prevp, p, k, f) && used == used0 && Small(free, n, k, f)
        invariant !asked ==> free == free0 && arena == arena0 && brk == brk0 && freep == freep0
        invariant asked ==> sbrk.Some? && Ahead(free, n, k, f, j) && request == AsInt(HDR * CoreUnits(n))
        invariant asked ==> NoFit(free0, n) && arena == arena0 + [Block(sbrk.value, CoreUnits(n))]
        decreases !asked, if asked then Around(k, j, |free|) else Around(k, f, |free|)
      {
        if asked {
          AheadStep(free, n, k, f, j);
        }
        if p != freep {
          SmallStep(free, n, k, f);
        } else {
          AllSmall(free, n, k);
        }
        if p == freep {
          asked := true;
          p, request, j := MoreCore(n, sbrk);
          if p == 0 {
            return;
          }
          f := FreepIndex();
          k := f;
          AheadStart(free, n, f, j);
          SmallStart(free, n, f);
        }
        prevp := p;
        p, k := Follow(prevp, k, f);
      }
      FirstOfAll(free, n, f, k);
      FreepHigh(free, base, p);
    }

    /** The search and the carving: n units from the next fit, or from what sbrk gave. */
    method Allot(n: nat, sbrk: Option<int>) returns (r: int, asked: bool, request: int)
      requires Valid() && freep != 0 && n >= 1
      requires sbrk.Some? ==> sbrk.value >= brk
      modifies this
      ensures Valid() && freep != 0
      ensures asked <==> NoFit(old(free), n)
      ensures asked ==> request == AsInt(HDR * CoreUnits(n))
      ensures r == 0 <==> asked && sbrk.None?
      ensures r == 0 ==> used == old(used)
      ensures r != 0 ==> r - HDR !in old(used) && used == old(used)[r - HDR := n]
      ensures !asked ==> TakesNextFit(old(free), free, old(freep), n, r)
      ensures if r != 0 && asked then arena == old(arena) + [Block(sbrk.value, CoreUnits(n))]
              else arena == old(arena) && brk == old(brk)
    {
      var prevp, p;
      ghost var f, k;
      prevp, p, asked, request, f, k := Find(n, sbrk);
      if p == 0 {
        r := 0;
      } else {
        r := Carve(prevp, p, n, k);
      }
    }

    /**
     malloc: a block of the rounded size, unless sbrk was needed and refused. It has room
     for the request exactly when the rounding did not wrap, and a region taken from sbrk
     is as large as the heap takes it to be exactly when its size is a positive int.
     */
    method Malloc(nbytes: nat, sbrk: Option<int>) returns (r: int, asked: bool, request: int)
      requires Valid() && nbytes < TWO32
      requires sbrk.Some? ==> sbrk.value >= brk
      modifies this
      ensures Valid() && freep != 0
      ensures asked <==> NoFit(old(free), Units(nbytes))
      ensures asked ==> request == AsInt(HDR * CoreUnits(Units(nbytes)))
      ensures asked ==> (request == HDR * CoreUnits(Units(nbytes)) <==> nbytes <= TWO31 - 16 || nbytes > TWO32 - HDR)
      ensures r == 0 <==> asked && sbrk.None?
      ensures r == 0 ==> used == old(used)
      ensures r != 0 ==> r - HDR !in old(used) && used == old(used)[r - HDR := Units(nbytes)]
      ensures r != 0 ==> (HasRoom(used[r - HDR], nbytes) <==> nbytes <= TWO32 - HDR)
      ensures !asked ==> TakesNextFit(old(free), free, old(freep), Units(nbytes), r)
      ensures if r != 0 && asked then arena == old(arena) + [Block(sbrk.value, CoreUnits(Units(nbytes)))]
              else arena == old(arena) && brk == old(brk)
    {
      var n := Units(nbytes);
      RoomIffNoWrap(nbytes);
      BackedIffSmall(nbytes);
      Init();
      assert old(freep) == 0 ==> free[0].size < n;
      r, asked, request := Allot(n, sbrk);
    }

    /** The walk stands at block k, having come from the block before it; freep is block f. */
    ghost predicate Stands(prevp: int, p: int, k: nat, f: nat)
      reads this
    {
      && Valid() && freep != 0
      && f < |free| && freep == free[f].addr && free[0].size == 0
      && k < |free| && p == free[k].addr && prevp == free[Before(k, |free|)].addr
      && p in mem && mem[p].size == free[k].size && (p == freep <==> k == f)
    }

    ghost function FreepIndex(): (f: nat)
      reads this
      requires Valid() && freep != 0
      ensures f < |free| && free[f].addr == freep
    {
      var f: nat :| f < |free| && free[f].addr == freep;
      f
    }

    /** One step along the list. */
    method Follow(p: int, ghost k: nat, ghost f: nat) returns (q: int, ghost m: nat)
      requires Valid() && freep != 0 && k < |free| && p == free[k].addr
      requires f < |free| && freep == free[f].addr
      ensures m == Next(k, |free|) && Stands(p, q, m, f)
    {
      m := Next(k, |free|);
      assert LinkedAt(mem, free, k) && LinkedAt(mem, free, m);
      if free[m].addr == free[f].addr {
        SameHead(free, base, m, f);
      }
      q := mem[p].ptr;
    }
  }

  function Before(k: nat, n: nat): nat
    requires k < n
  {
    if k == 0 then n - 1 else k - 1
  }

  /** No free block has n units. */
  ghost predicate NoFit(free: seq<Block>, n: nat) {
    forall i :: 0 <= i < |free| ==> free[i].size < n
  }

  predicate TooSmall(free: seq<Block>, n: nat, m: nat) {
    m < |free| ==> free[m].size < n
  }

  /** The blocks already passed, between f and k, are all too small. */
  ghost predicate Small(free: seq<Block>, n: nat, k: nat, f: nat)
    requires k < |free| && f < |free|
  {
    forall m: nat {:trigger TooSmall(free, n, m)} ::
      m < |free| && Around(k, m, |free|) > Around(k, f, |free|) ==> TooSmall(free, n, m)
  }

  /** Block j is large enough and the walk reaches it no later than it comes back to f. */
  ghost predicate Ahead(free: seq<Block>, n: nat, k: nat, f: nat, j: nat)
    requires k < |free| && f < |free|
  {
    j < |free| && free[j].size >= n && Around(k, j, |free|) <= Around(k, f, |free|)
  }

  /** The place of block m in the order in which malloc looks at the blocks, the one after freep first. */
  function Rank(f: nat, m: nat, n: nat): nat
    requires f < n && m < n
  {
    Around(Next(f, n), m, n)
  }

  /** Block k has n units, and none that comes before it in that order has. */
  ghost predicate NextFit(free: seq<Block>, n: nat, f: nat, k: nat)
    requires f < |free|
  {
    && k < |free| && free[k].size >= n
    && forall m: nat :: m < |free| && Rank(f, m, |free|) < Rank(f, k, |free|) ==> free[m].size < n
  }

  /** The block handed out is the tail of the next fit after freep. */
  ghost predicate TakesNextFit(free0: seq<Block>, free: seq<Block>, freep: int, n: nat, r: int) {
    exists f: nat, k: nat ::
      && f < |free0| && free0[f].addr == freep && NextFit(free0, n, f, k) && 0 < k && n >= 1
      && free == Take(free0, k, n) && r - HDR == Taken(free0, k, n).addr
  }

  lemma FirstOfAll(free: seq<Block>, n: nat, f: nat, k: nat)
    requires f < |free| && k < |free| && Small(free, n, k, f) && free[k].size >= n
    ensures NextFit(free, n, f, k)
  {
    forall m: nat | m < |free| && Rank(f, m, |free|) < Rank(f, k, |free|) ensures free[m].size < n {
      assert Around(k, m, |free|) > Around(k, f, |free|);
      assert TooSmall(free, n, m);
    }
  }

  lemma SmallStart(free: seq<Block>, n: nat, f: nat)
    requires f < |free|
    ensures Small(free, n, Next(f, |free|), f)
  {
  }

  lemma SmallStep(free: seq<Block>, n: nat, k: nat, f: nat)
    requires k < |free| && f < |free| && Small(free, n, k, f) && free[k].size < n && k != f
    ensures Small(free, n, Next(k, |free|), f)
    ensures Around(Next(k, |free|), f, |free|) < Around(k, f, |free|)
  {
    var k' := Next(k, |free|);
    forall m: nat | m < |free| && Around(k', m, |free|) > Around(k', f, |free|) ensures TooSmall(free, n, m) {
      assert m != k ==> Around(k, m, |free|) > Around(k, f, |free|);
    }
  }

  lemma AheadStart(free: seq<Block>, n: nat, f: nat, j: nat)
    requires f < |free| && j < |free| && free[j].size >= n
    ensures Ahead(free, n, Next(f, |free|), f, j)
  {
  }

  lemma AheadStep(free: seq<Block>, n: nat, k: nat, f: nat, j: nat)
    requires k < |free| && f < |free| && Ahead(free, n, k, f, j) && free[k].size < n
    ensures k != f && Ahead(free, n, Next(k, |free|), f, j)
    ensures Around(Next(k, |free|), j, |free|) < Around(k, j, |free|)
  {
  }

  lemma AllSmall(free: seq<Block>, n: nat, k: nat)
    requires k < |free| && Small(free, n, k, k) && free[k].size < n
    ensures NoFit(free, n)
  {
    forall i: nat | i < |free| ensures free[i].size < n {
      assert i != k ==> Around(k, i, |free|) > 0 && TooSmall(free, n, i);
    }
  }

  lemma SameHead(free: seq<Block>, base: int, k: nat, f: nat)
    requires FreeList(free, base) && k < |free| && f < |free| && free[k].addr == free[f].addr
    ensures k == f
  {
    if k < f {
      Increasing(free, base, k, f);
    } else if f < k {
      Increasing(free, base, f, k);
    }
  }

  lemma CarveReady(mem: map<int, Header>, free: seq<Block>, used: map<int, nat>, arena: seq<Block>, brk: int, base: int,
                   k: nat, n: nat)
    requires Good(mem, free, used, arena, brk, base) && 0 < k < |free| && 1 <= n <= free[k].size
    ensures LinkedAt(mem, free, k) && LinkedAt(mem, free, k - 1) && 0 < free[k - 1].addr < free[k].addr
    ensures Taken(free, k, n).addr !in used
  {
    Increasing(free, base, 0, k - 1);
    Increasing(free, base, k - 1, k);
    if Taken(free, k, n).addr in used {
      TakenApart(free, used, base, k, n, Taken(free, k, n).addr);
    }
  }

  /** malloc's split or unlink, in memory. */
  method Cut(mem: map<int, Header>, prevp: int, p: int, n: nat, ghost free: seq<Block>, ghost k: nat)
    returns (now: map<int, Header>, q: int)
    requires 0 < k < |free| && n <= free[k].size && p == free[k].addr && prevp == free[k - 1].addr < p
    requires LinkedAt(mem, free, k) && LinkedAt(mem, free, k - 1)
    ensures Carved(mem, now, free, k, n) && q == Taken(free, k, n).addr
  {
    if mem[p].size == n {
      now, q := mem[prevp := Header(mem[p].ptr, mem[prevp].size)], p;
    } else {
      now := mem[p := Header(mem[p].ptr, mem[p].size - n)];
      q := p + HDR * now[p].size;
      now := now[q := Header(if q in now then now[q].ptr else 0, n)];
    }
  }

  lemma FreepHigh(free: seq<Block>, base: int, p: int)
    requires FreeList(free, base) && base > 0 && exists f :: 0 <= f < |free| && free[f].addr == p
    ensures p > 0
  {
    var f: nat :| f < |free| && free[f].addr == p;
    Increasing(free, base, 0, f);
  }

  /** free()'s two merges, in memory. */
  method Join(mem: map<int, Header>, p: int, bp: int, ghost free: seq<Block>, ghost i: nat, ghost b: Block)
    returns (now: map<int, Header>)
    requires i < |free| && p == free[i].addr && LinkedAt(mem, free, i)
    requires i + 1 < |free| ==> LinkedAt(mem, free, i + 1) && free[i + 1].addr != bp
    requires i + 1 == |free| ==> End(b) > free[0].addr
    requires bp != p && bp == b.addr && bp in mem && mem[bp].size == b.size
    ensures Relinked(mem, now, free, i, b)
  {
    now := mem;
    if bp + HDR * now[bp].size == now[p].ptr {
      assert Up(free, i, b);
      now := now[bp := Header(now[now[p].ptr].ptr, now[bp].size + now[now[p].ptr].size)];
    } else {
      now := now[bp := Header(now[p].ptr, now[bp].size)];
    }
    if p + HDR * now[p].size == bp {
      now := now[p := Header(now[bp].ptr, now[p].size + now[bp].size)];
    } else {
      now := now[p := Header(bp, now[p].size)];
    }
  }

  lemma JoinReady(mem: map<int, Header>, free: seq<Block>, used: map<int, nat>, arena: seq<Block>, brk: int, base: int,
                  bp: int, i: nat)
    requires Good(mem, free, used, arena, brk, base) && bp in used && Slot(free, i, bp)
    ensures LinkedAt(mem, free, i) && bp != free[i].addr && bp in mem && mem[bp].size == used[bp]
    ensures i + 1 < |free| ==> LinkedAt(mem, free, i + 1) && free[i + 1].addr != bp
    ensures i + 1 == |free| ==> End(Block(bp, used[bp])) > free[0].addr
    ensures free[i].addr > 0
  {
    Increasing(free, base, 0, i);
  }

  /** The failing case made concrete: the largest request gets a block of one unit, its header and nothing more. */
  method LargestRequest(at: int, top: int, start: int) returns (r: int, units: nat)
    requires at > 0 && top >= at + HDR && start >= top
    ensures r != 0 && units == 1 && !HasRoom(units, TWO32 - 1)
  {
    var heap := new Heap(at, top);
    var asked, request;
    RoomIffNoWrap(TWO32 - 1);
    r, asked, request := heap.Malloc(TWO32 - 1, Some(start));
    units := heap.mem[r - HDR].size;
  }

  /** A request just above 2^31 - 16 bytes asks sbrk for a negative number of bytes. */
  method NegativeRequest(at: int, top: int, start: int) returns (r: int, request: int)
    requires at > 0 && top >= at + HDR && start >= top
    ensures r != 0 && request == -TWO31
  {
    var heap := new Heap(at, top);
    var asked;
    assert Units(TWO31 - 15) == 0x1000_0000;
    r, asked, request := heap.Malloc(TWO31 - 15, Some(start));
  }
}
