/**
 kalloc.c: the free list of physical pages, threaded through the first word of each
 free page. A page is its number; own records what each page handed out is used for.
 */
module Kalloc {

  const PGSIZE: nat := 4096
  const KERNBASE: nat := 0x8000_0000
  const PHYSTOP: nat := 0xE00_0000

  /** Number of physical pages. */
  const TOP: nat := PHYSTOP / PGSIZE

  /** 32-bit words in a page. */
  const PGWORDS: nat := 1024

  type Page = s: seq<nat> | |s| == PGWORDS witness seq(PGWORDS, _ => 0)

  /** Uses of an allocated page; User(d, v) backs page v of the address space of directory d. */
  datatype Role = Loose | Dir | Table(d: nat, i: nat) | User(d: nat, v: nat)

  type Owners = map<nat, Role>

  /** The kernel address of page p. */
  function P2V(p: nat): nat {
    KERNBASE + p * PGSIZE
  }

  function RoundUp(a: nat): nat {
    (a + PGSIZE - 1) / PGSIZE * PGSIZE
  }

  /** The first page wholly above the kernel image. */
  function First(end: nat): nat {
    if end <= KERNBASE then 0 else RoundUp(end - KERNBASE) / PGSIZE
  }

  /** memset(v, 1, PGSIZE), then the link. */
  function Junk(next: nat): Page {
    seq(PGWORDS, i => if i == 0 then next else 0x0101_0101)
  }

  /** The address of the k-th free page; null past the last. */
  function Link(free: seq<nat>, k: nat): nat {
    if k < |free| then P2V(free[k]) else 0
  }

  ghost predicate ChainAt(mem: seq<Page>, free: seq<nat>, k: nat)
    requires k < |free|
  {
    free[k] < |mem| && mem[free[k]][0] == Link(free, k + 1)
  }

  ghost predicate Chain(mem: seq<Page>, list: nat, free: seq<nat>) {
    list == Link(free, 0) && forall k: nat :: k < |free| ==> ChainAt(mem, free, k)
  }

  predicate Differ(free: seq<nat>, i: nat, j: nat)
    requires i < |free| && j < |free|
  {
    free[i] != free[j]
  }

  predicate Managed(first: nat, p: nat) {
    first <= p < TOP
  }

  /** p is free or in use, not both. */
  predicate Counted(free: seq<nat>, own: Owners, p: nat) {
    p in free <==> p !in own
  }

  /** Every managed page is free or in use, never both, and on the free list once. */
  ghost predicate Partition(first: nat, free: seq<nat>, own: Owners) {
    && (forall p: nat :: first <= p < TOP ==> Counted(free, own, p))
    && (forall i: nat :: i < |free| ==> first <= free[i] < TOP)
    && (forall p :: p in own ==> first <= p < TOP)
    && (forall i: nat, j: nat :: i < j < |free| ==> Differ(free, i, j))
  }

  lemma PartitionTake(first: nat, free: seq<nat>, own: Owners)
    requires Partition(first, free, own) && free != []
    ensures Partition(first, free[1..], own[free[0] := Loose]) && free[0] !in own && free[0] !in free[1..]
  {
    var rest, own' := free[1..], own[free[0] := Loose];
    assert Counted(free, own, free[0]);
    forall i: nat | i < |rest| ensures rest[i] != free[0] {
      assert Differ(free, 0, i + 1);
    }
    forall i: nat, j: nat | i < j < |rest| ensures Differ(rest, i, j) {
      assert Differ(free, i + 1, j + 1);
    }
    forall p: nat | first <= p < TOP ensures Counted(rest, own', p) {
      assert Counted(free, own, p);
      assert p in free <==> p == free[0] || p in rest;
    }
  }

  lemma PartitionGive(first: nat, free: seq<nat>, own: Owners, p: nat)
    requires Partition(first, free, own) && p in own
    ensures Partition(first, [p] + free, own - {p}) && p !in free
  {
    var more, own' := [p] + free, own - {p};
    assert Counted(free, own, p);
    forall i: nat, j: nat | i < j < |more| ensures Differ(more, i, j) {
      if i > 0 {
        assert Differ(free, i - 1, j - 1);
      } else {
        assert more[j] == free[j - 1];
      }
    }
    forall q: nat | first <= q < TOP ensures Counted(more, own', q) {
      assert Counted(free, own, q);
      assert q in more <==> q == p || q in free;
    }
  }

  /** Two partitions with the same pages in use have the same free pages. */
  lemma SameOwnersSameFree(first: nat, free: seq<nat>, free': seq<nat>, own: Owners, own': Owners, p: nat)
    requires Partition(first, free, own) && Partition(first, free', own') && own.Keys == own'.Keys
    ensures p in free <==> p in free'
  {
    if first <= p < TOP {
      assert Counted(free, own, p) && Counted(free', own', p);
      assert p in own.Keys <==> p in own'.Keys;
    }
  }

  class Kmem {
    const end: nat
    var mem: seq<Page>
    var freelist: nat
    ghost var free: seq<nat>
    ghost var own: Owners

    ghost predicate Valid()
      reads this
    {
      && end > KERNBASE && |mem| == TOP
      && Chain(mem, freelist, free)
      && Partition(First(end), free, own)
    }

    /** At boot no page is on the free list. */
    constructor (image: nat, contents: seq<Page>)
      requires image > KERNBASE && |contents| == TOP
      ensures Valid() && end == image && mem == contents && free == []
      ensures forall p :: p in own ==> own[p] == Loose
    {
      end, mem, freelist, free := image, contents, 0, [];
      own := map p: nat | p < TOP && Managed(First(image), p) :: Loose;
      new;
      forall p: nat | First(end) <= p < TOP ensures Counted(free, own, p) {
        assert Managed(First(end), p);
      }
    }

    /** kalloc: the head of the list, or null when there is none. */
    method KAlloc() returns (v: nat)
      requires Valid()
      modifies `freelist, `free, `own
      ensures Valid()
      ensures v == 0 <==> old(free) == []
      ensures v == 0 ==> free == old(free) && own == old(own)
      ensures v != 0 ==> free == old(free)[1..] && v == P2V(old(free)[0])
      ensures v != 0 ==> own == old(own)[old(free)[0] := Loose] && old(free)[0] !in old(own)
    {
      v := freelist;
      if v != 0 {
        ghost var was := free;
        assert ChainAt(mem, free, 0);
        freelist := mem[(v - KERNBASE) / PGSIZE][0];
        PartitionTake(First(end), free, own);
        free, own := free[1..], own[free[0] := Loose];
        forall k: nat | k < |free| ensures ChainAt(mem, free, k) {
          assert ChainAt(mem, was, k + 1);
        }
      }
    }

    /** kfree: the page goes to the head of the list; false is the panic. */
    method KFree(v: nat) returns (ok: bool)
      requires Valid()
      requires v % PGSIZE == 0 && end <= v < KERNBASE + PHYSTOP ==> (v - KERNBASE) / PGSIZE in own
      modifies `mem, `freelist, `free, `own
      ensures ok <==> v % PGSIZE == 0 && end <= v < KERNBASE + PHYSTOP
      ensures ok ==> Valid()
      ensures ok ==> var p := (v - KERNBASE) / PGSIZE;
                     && v == P2V(p) && own == old(own) - {p} && free == [p] + old(free)
                     && mem == old(mem)[p := Junk(old(freelist))]
    {
      if v % PGSIZE != 0 || v < end || v - KERNBASE >= PHYSTOP {
        return false;
      }
      ghost var was, mem0 := free, mem;
      var p := (v - KERNBASE) / PGSIZE;
      mem := mem[p := Junk(freelist)];
      freelist := v;
      PartitionGive(First(end), free, own, p);
      free, own := [p] + free, own - {p};
      forall k: nat | k < |free| ensures ChainAt(mem, free, k) {
        if k > 0 {
          assert ChainAt(mem0, was, k - 1);
          assert free[k] == was[k - 1];
        }
      }
      ok := true;
    }

    /** freerange: every whole page between the two addresses is freed, lowest first. */
    method FreeRange(vstart: nat, vend: nat) returns (ok: bool)
      requires Valid()
      requires end <= vstart <= vend <= KERNBASE + PHYSTOP
      requires forall p: nat :: RoundUp(vstart) <= P2V(p) && P2V(p) + PGSIZE <= vend ==> p in own
      modifies `mem, `freelist, `free, `own
      ensures ok && Valid()
      ensures forall p: nat :: p in free <==> p in old(free) || (RoundUp(vstart) <= P2V(p) && P2V(p) + PGSIZE <= vend)
    {
      var a := RoundUp(vstart);
      ghost var was := free;
      ok := true;
      while a + PGSIZE <= vend
        invariant ok && Valid() && a % PGSIZE == 0 && RoundUp(vstart) <= a
        invariant forall p: nat :: a <= P2V(p) && P2V(p) + PGSIZE <= vend ==> p in own
        invariant forall p: nat :: p in free <==> p in was || (RoundUp(vstart) <= P2V(p) < a && P2V(p) + PGSIZE <= vend)
        decreases vend - a
      {
        ghost var p0 := (a - KERNBASE) / PGSIZE;
        assert P2V(p0) == a;
        ok := KFree(a);
        a := a + PGSIZE;
      }
    }
  }
}
