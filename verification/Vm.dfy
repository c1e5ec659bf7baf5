/**
 vm.c: walkpgdir, mappages and deallocuvm. A directory is its page number; virtual
 addresses are 32-bit; an entry's address is its table's page.
 */
module Vm {
  import opened Params
  import opened Kalloc
  import opened PageTables
  import opened PageBudget

  const PTE_P: nat := 1
  const PTE_W: nat := 2
  const PTE_U: nat := 4

  /** The whole of physical memory is in order. */
  ghost predicate Ok(k: Kmem)
    reads k
  {
    k.Valid() && Trees(k.mem, k.own)
  }

  /** Every page in use keeps its use; new ones are tables of d. */
  ghost predicate OnlyTables(own0: Owners, own: Owners, d: nat) {
    && (forall p :: p in own0 ==> p in own && own[p] == own0[p])
    && (forall p :: p in own ==> p in own0 || (own[p].Table? && own[p].d == d))
  }

  predicate TableOf(own: Owners, d: nat, p: nat)
    requires p in own
  {
    p == d || (own[p].Table? && own[p].d == d)
  }

  /** Pages in use other than directory d and its tables hold what they held. */
  ghost predicate KeepsData(mem0: seq<Page>, mem: seq<Page>, own0: Owners, d: nat)
    requires |mem0| == |mem| == TOP && forall p :: p in own0 ==> p < TOP
  {
    forall p :: p in own0 && !TableOf(own0, d, p) ==> mem[p] == mem0[p]
  }

  ghost predicate SameEntries(mem0: seq<Page>, mem: seq<Page>, d: nat)
    requires d < |mem0| && d < |mem|
  {
    forall v: nat :: v < PAGES ==> Pte(mem, d, v) == Pte(mem0, d, v)
  }

  /** A page just allocated is filled with zeros. */
  method Zero(k: Kmem, p: nat)
    requires Ok(k) && p in k.own && k.own[p] == Loose
    modifies k`mem
    ensures Ok(k) && k.mem == old(k.mem)[p := ZeroPage()]
    ensures forall d, v: nat :: IsDir(k.own, d) && v < PAGES ==> Pte(k.mem, d, v) == Pte(old(k.mem), d, v)
  {
    ghost var mem0 := k.mem;
    k.mem := k.mem[p := ZeroPage()];
    TouchLoose(mem0, k.mem, k.own, k.own, p);
    KeepChain(mem0, k.mem, k.freelist, k.free, p);
    UsedNotFree(First(k.end), k.free, k.own, p);
  }

  lemma UsedNotFree(first: nat, free: seq<nat>, own: Owners, p: nat)
    requires Partition(first, free, own) && p in own
    ensures p !in free
  {
    assert Counted(free, own, p);
  }

  /** Writing a page that is not free leaves the free list threaded. */
  lemma KeepChain(mem0: seq<Page>, mem: seq<Page>, list: nat, free: seq<nat>, p: nat)
    requires Chain(mem0, list, free) && |mem| == |mem0|
    requires p < |mem| && forall q: nat :: q < |mem| && q != p ==> mem[q] == mem0[q]
    ensures p !in free ==> Chain(mem, list, free)
  {
    if p !in free {
      forall i: nat | i < |free| ensures ChainAt(mem, free, i) {
        assert ChainAt(mem0, free, i) && free[i] in free;
      }
    }
  }

  /** kalloc for a page whose use is not yet known. */
  method Grab(k: Kmem) returns (r: Option<nat>)
    requires Ok(k)
    modifies k`freelist, k`free, k`own
    ensures Ok(k)
    ensures r.None? <==> old(k.free) == []
    ensures r.None? ==> k.free == old(k.free) && k.own == old(k.own)
    ensures r.Some? ==> r.value < TOP && r.value !in old(k.own) && k.own == old(k.own)[r.value := Loose]
    ensures r.Some? ==> r.value == old(k.free)[0] && k.free == old(k.free)[1..]
  {
    ghost var own0 := k.own;
    var v := k.KAlloc();
    if v == 0 {
      return None;
    }
    r := Some((v - KERNBASE) / PGSIZE);
    AddLoose(k.mem, own0, r.value);
  }

  /** The entry for v in d is at index v % 1024 of the table returned, made if asked for. */
  method WalkPgDir(k: Kmem, d: nat, v: nat, alloc: bool) returns (r: Option<nat>)
    requires Ok(k) && IsDir(k.own, d) && v < PAGES
    modifies k
    ensures Ok(k) && OnlyTables(old(k.own), k.own, d)
    ensures r.None? <==> !Present(Pde(old(k.mem), d, v)) && (!alloc || old(k.free) == [])
    ensures r.None? || Present(Pde(old(k.mem), d, v)) ==>
              k.mem == old(k.mem) && k.own == old(k.own) && k.free == old(k.free) && k.freelist == old(k.freelist)
    ensures r.Some? ==> Present(Pde(k.mem, d, v)) && r.value == Frame(Pde(k.mem, d, v)) && r.value < TOP
    ensures SameEntries(old(k.mem), k.mem, d)
    ensures KeepsData(old(k.mem), k.mem, old(k.own), d)
    ensures r.Some? ==> Charged(old(k.mem)[d], k.mem[d], v, |old(k.free)|, |k.free|)
  {
    var e := k.mem[d][v / PGWORDS];
    if Present(e) {
      TableOwner(k.mem, k.own, d, v);
      BilledThere(k.mem[d], v / PGWORDS, |k.free|);
      return Some(Frame(e));
    }
    if !alloc {
      return None;
    }
    r := NewTable(k, d, v / PGWORDS);
  }

  /** The second half of walkpgdir: a zeroed page becomes table i of d. */
  method NewTable(k: Kmem, d: nat, i: nat) returns (r: Option<nat>)
    requires Ok(k) && IsDir(k.own, d) && i < PGWORDS && !Present(k.mem[d][i])
    modifies k
    ensures Ok(k) && OnlyTables(old(k.own), k.own, d)
    ensures r.None? <==> old(k.free) == []
    ensures r.None? ==>
              k.mem == old(k.mem) && k.own == old(k.own) && k.free == old(k.free) && k.freelist == old(k.freelist)
    ensures r.Some? ==> Present(k.mem[d][i]) && r.value == Frame(k.mem[d][i]) && r.value < TOP
    ensures SameEntries(old(k.mem), k.mem, d) && KeepsData(old(k.mem), k.mem, old(k.own), d)
    ensures r.Some? ==> Billed(old(k.mem)[d], k.mem[d], i, i + 1, |old(k.free)|, |k.free|)
  {
    ghost var mem0, own0, n0 := k.mem, k.own, |k.free|;
    r := Grab(k);
    if r.None? {
      return;
    }
    Zero(k, r.value);
    InstallTurn(k, d, i, r.value);
    assert SameEntries(mem0, k.mem, d);
    BilledNew(mem0[d], k.mem[d], i, k.mem[d][i], n0, |k.free|);
  }

  method InstallTurn(k: Kmem, d: nat, i: nat, p: nat)
    requires Ok(k) && IsDir(k.own, d) && i < PGWORDS && !Present(k.mem[d][i])
    requires p in k.own && k.own[p] == Loose && k.mem[p] == ZeroPage()
    modifies k`mem, k`own
    ensures Ok(k) && k.own == old(k.own)[p := Table(d, i)]
    ensures k.mem == WithPde(old(k.mem), d, i, Entry(p, PTE_P + PTE_W + PTE_U))
    ensures SameEntries(old(k.mem), k.mem, d)
  {
    ghost var mem0 := k.mem;
    var e := Entry(p, PTE_P + PTE_W + PTE_U);
    InstallTable(k.mem, k.own, d, i, p, PTE_P + PTE_W + PTE_U);
    forall v: nat | v < PAGES ensures Pte(WithPde(mem0, d, i, e), d, v) == Pte(mem0, d, v) {
      InstallAt(mem0, k.own, d, i, p, PTE_P + PTE_W + PTE_U, d, v);
    }
    k.mem := k.mem[d := k.mem[d][i := e]];
    KeepChain(mem0, k.mem, k.freelist, k.free, d);
    UsedNotFree(First(k.end), k.free, k.own, d);
    Reuse(First(k.end), k.free, k.own, p, Table(d, i));
    k.own := k.own[p := Table(d, i)];
  }

  /** Changing what a page is used for keeps the partition. */
  lemma Reuse(first: nat, free: seq<nat>, own: Owners, p: nat, role: Role)
    requires Partition(first, free, own) && p in own
    ensures Partition(first, free, own[p := role])
  {
    var own' := own[p := role];
    forall q: nat | first <= q < TOP ensures Counted(free, own', q) {
      assert Counted(free, own, q);
    }
  }

  // ---------------------------------------------------------------- mappages

  /** Pages first..stop of d now map the frames from p0 on; nothing else is mapped or unmapped. */
  ghost predicate EntriesTo(mem0: seq<Page>, mem: seq<Page>, d: nat, first: nat, stop: nat, p0: nat, perm: nat)
    requires d < |mem0| && d < |mem| && perm < PGSIZE
  {
    forall v: nat :: v < PAGES ==>
      Pte(mem, d, v) == if first <= v < stop then Entry(p0 + (v - first), perm) else Pte(mem0, d, v)
  }

  /** Frame p backs a user page of d once [first, stop) is mapped. */
  predicate Backs(first: nat, stop: nat, p0: nat, p: nat) {
    p0 <= p < p0 + stop - first && first + (p - p0) < USERPAGES
  }

  ghost predicate OwnersTo(own0: Owners, own: Owners, d: nat, first: nat, stop: nat, p0: nat) {
    && (forall p :: p in own0 ==>
          p in own && own[p] == if Backs(first, stop, p0, p) then User(d, first + (p - p0)) else own0[p])
    && (forall p :: p in own ==> p in own0 || (own[p].Table? && own[p].d == d))
  }

  /** The frames for the user pages among [first, stop) are at hand. */
  ghost predicate FramesReady(own: Owners, first: nat, stop: nat, p0: nat) {
    forall p: nat :: Backs(first, stop, p0, p) ==> p in own && own[p] == Loose
  }

  datatype Mapping = Mapped | NoMemory | Remap

  /** One turn of mappages. */
  method MapPage(k: Kmem, d: nat, v: nat, p: nat, perm: nat) returns (r: Mapping)
    requires Ok(k) && IsDir(k.own, d) && v < PAGES && perm < PGSIZE && FramesReady(k.own, v, v + 1, p)
    modifies k
    ensures r == Remap <==> Present(Pte(old(k.mem), d, v))
    ensures r == NoMemory ==> !Present(Pde(old(k.mem), d, v)) && old(k.free) == []
    ensures r != Remap ==> Ok(k) && KeepsData(old(k.mem), k.mem, old(k.own), d)
    ensures r == Mapped ==>
              EntriesTo(old(k.mem), k.mem, d, v, v + 1, p, perm) && OwnersTo(old(k.own), k.own, d, v, v + 1, p)
    ensures r == NoMemory ==> k.mem == old(k.mem) && k.own == old(k.own) && k.free == old(k.free)
    ensures r == Mapped ==> Charged(old(k.mem)[d], k.mem[d], v, |old(k.free)|, |k.free|)
  {
    ghost var mem0, own0 := k.mem, k.own;
    var tab := WalkPgDir(k, d, v, true);
    if tab.None? {
      return NoMemory;
    }
    if Present(k.mem[tab.value][v % PGWORDS]) {
      return Remap;
    }
    ghost var mem1, own1 := k.mem, k.own;
    assert FramesReady(own1, v, v + 1, p);
    SetTurn(k, d, v, tab.value, p, perm);
    KeepsTrans(mem0, mem1, k.mem, own0, own1, d);
    MapPageOwners(own0, own1, k.own, d, v, p);
    r := Mapped;
  }

  lemma KeepsTrans(mem0: seq<Page>, mem1: seq<Page>, mem2: seq<Page>, own0: Owners, own1: Owners, d: nat)
    requires |mem0| == |mem1| == |mem2| == TOP && (forall p :: p in own0 ==> p < TOP)
             && (forall p :: p in own1 ==> p < TOP)
    requires KeepsData(mem0, mem1, own0, d) && KeepsData(mem1, mem2, own1, d)
    requires forall p :: p in own0 && !TableOf(own0, d, p) ==> p in own1 && !TableOf(own1, d, p)
    ensures KeepsData(mem0, mem2, own0, d)
  {
  }

  lemma MapPageOwners(own0: Owners, own1: Owners, own2: Owners, d: nat, v: nat, p: nat)
    requires OnlyTables(own0, own1, d) && FramesReady(own0, v, v + 1, p)
    requires own2 == if v < USERPAGES then own1[p := User(d, v)] else own1
    ensures OwnersTo(own0, own2, d, v, v + 1, p)
  {
    assert v < USERPAGES ==> Backs(v, v + 1, p, p);
  }

  /** The entry of a mapped page is stored. */
  method SetTurn(k: Kmem, d: nat, v: nat, tab: nat, p: nat, perm: nat)
    requires Ok(k) && IsDir(k.own, d) && v < PAGES && perm < PGSIZE && FramesReady(k.own, v, v + 1, p)
    requires Present(Pde(k.mem, d, v)) && tab == Frame(Pde(k.mem, d, v)) && tab < TOP && !Present(Pte(k.mem, d, v))
    modifies k`mem, k`own
    ensures Ok(k) && EntriesTo(old(k.mem), k.mem, d, v, v + 1, p, perm)
    ensures k.own == if v < USERPAGES then old(k.own)[p := User(d, v)] else old(k.own)
    ensures KeepsData(old(k.mem), k.mem, old(k.own), d) && k.mem[d] == old(k.mem)[d]
  {
    ghost var mem0, own0, e := k.mem, k.own, Entry(p, perm);
    TableOwner(mem0, own0, d, v);
    forall u: nat | u < PAGES ensures Pte(WithPte(mem0, d, v, e), d, u) == if u == v then e else Pte(mem0, d, u) {
      WithPteAt(mem0, own0, d, v, e, d, u);
    }
    k.mem := k.mem[tab := k.mem[tab][v % PGWORDS := Entry(p, perm)]];
    UsedNotFree(First(k.end), k.free, k.own, tab);
    KeepChain(mem0, k.mem, k.freelist, k.free, tab);
    if v < USERPAGES {
      assert Backs(v, v + 1, p, p);
      MapUser(mem0, own0, d, v, p, perm);
      Reuse(First(k.end), k.free, k.own, p, User(d, v));
      k.own := k.own[p := User(d, v)];
    } else {
      MapKernel(mem0, own0, d, v, e);
    }
  }

  lemma EntriesMore(mem0: seq<Page>, mem1: seq<Page>, mem2: seq<Page>, d: nat, first: nat, m: nat, p0: nat, perm: nat)
    requires d < |mem0| && d < |mem1| && d < |mem2| && perm < PGSIZE && first <= m
    requires EntriesTo(mem0, mem1, d, first, m, p0, perm)
    requires EntriesTo(mem1, mem2, d, m, m + 1, p0 + (m - first), perm)
    ensures EntriesTo(mem0, mem2, d, first, m + 1, p0, perm)
  {
  }

  lemma OwnersMore(own0: Owners, own1: Owners, own2: Owners, d: nat, first: nat, m: nat, p0: nat)
    requires first <= m
    requires OwnersTo(own0, own1, d, first, m, p0)
    requires OwnersTo(own1, own2, d, m, m + 1, p0 + (m - first)) && FramesReady(own1, m, m + 1, p0 + (m - first))
    ensures OwnersTo(own0, own2, d, first, m + 1, p0)
  {
    forall p | p in own0
      ensures p in own2 && own2[p] == if Backs(first, m + 1, p0, p) then User(d, first + (p - p0)) else own0[p]
    {
      assert Backs(first, m + 1, p0, p) <==> Backs(first, m, p0, p) || Backs(m, m + 1, p0 + (m - first), p);
    }
  }

  /** Later frames are still loose after earlier pages are mapped. */
  lemma ReadyMore(own0: Owners, own1: Owners, d: nat, first: nat, m: nat, stop: nat, p0: nat)
    requires first <= m < stop && FramesReady(own0, first, stop, p0) && OwnersTo(own0, own1, d, first, m, p0)
    ensures FramesReady(own1, m, m + 1, p0 + (m - first))
  {
    forall p: nat | Backs(m, m + 1, p0 + (m - first), p) ensures p in own1 && own1[p] == Loose {
      assert Backs(first, stop, p0, p) && !Backs(first, m, p0, p);
    }
  }

  /** Pages [first, m) of d, none of them mapped before, map the frames from p0 on; the rest is as it was. */
  ghost predicate MapsTo(mem0: seq<Page>, mem: seq<Page>, own0: Owners, own: Owners, d: nat, first: nat, m: nat,
                         p0: nat, perm: nat)
  {
    && |mem0| == |mem| == TOP && (forall p :: p in own0 ==> p < TOP) && d < TOP && perm < PGSIZE && m <= PAGES
    && KeepsData(mem0, mem, own0, d)
    && EntriesTo(mem0, mem, d, first, m, p0, perm) && OwnersTo(own0, own, d, first, m, p0)
    && forall v: nat :: first <= v < m ==> !Present(Pte(mem0, d, v))
  }

  lemma MapsMore(mem0: seq<Page>, mem1: seq<Page>, mem2: seq<Page>, own0: Owners, own1: Owners, own2: Owners,
                 d: nat, first: nat, m: nat, p0: nat, perm: nat)
    requires (forall p :: p in own1 ==> p < TOP) && first <= m < PAGES
    requires MapsTo(mem0, mem1, own0, own1, d, first, m, p0, perm)
    requires FramesReady(own1, m, m + 1, p0 + (m - first)) && !Present(Pte(mem1, d, m))
    requires |mem2| == TOP && KeepsData(mem1, mem2, own1, d)
    requires EntriesTo(mem1, mem2, d, m, m + 1, p0 + (m - first), perm)
             && OwnersTo(own1, own2, d, m, m + 1, p0 + (m - first))
    ensures MapsTo(mem0, mem2, own0, own2, d, first, m + 1, p0, perm)
  {
    EntriesMore(mem0, mem1, mem2, d, first, m, p0, perm);
    OwnersMore(own0, own1, own2, d, first, m, p0);
    KeepsTrans(mem0, mem1, mem2, own0, own1, d);
    assert Pte(mem1, d, m) == Pte(mem0, d, m);
  }

  lemma MapsNone(mem: seq<Page>, own: Owners, d: nat, first: nat, p0: nat, perm: nat)
    requires Trees(mem, own) && IsDir(own, d) && first <= PAGES && perm < PGSIZE
    ensures MapsTo(mem, mem, own, own, d, first, first, p0, perm)
  {
  }

  /** Directories stay directories. */
  lemma MapsDir(mem0: seq<Page>, mem: seq<Page>, own0: Owners, own: Owners, d: nat, first: nat, m: nat, stop: nat,
                p0: nat, perm: nat, d2: nat)
    requires MapsTo(mem0, mem, own0, own, d, first, m, p0, perm) && first <= m <= stop
             && FramesReady(own0, first, stop, p0) && IsDir(own0, d2)
    ensures IsDir(own, d2)
  {
    if Backs(first, m, p0, d2) {
      assert Backs(first, stop, p0, d2);
    }
  }

  /** Plain equality; as a trigger it keeps MapsSoFar and its like folded in the loops that only pass them on. */
  predicate Upto(a: nat, b: nat) {
    a == b
  }

  /** Pages [first, a) are mapped and paid for, out of n0 pages. */
  ghost predicate MapsSoFar(k: Kmem, mem0: seq<Page>, own0: Owners, d: nat, first: nat, a: nat, p0: nat, perm: nat,
                            n0: nat)
    reads k
  {
    forall b: nat {:trigger Upto(a, b)} :: Upto(a, b) ==>
      Ok(k) && MapsTo(mem0, k.mem, own0, k.own, d, first, b, p0, perm)
          && Paid(mem0[d], k.mem[d], first, b, n0, |k.free|)
  }

  lemma SoFar(k: Kmem, mem0: seq<Page>, own0: Owners, d: nat, first: nat, a: nat, p0: nat, perm: nat, n0: nat)
    requires Ok(k) && MapsTo(mem0, k.mem, own0, k.own, d, first, a, p0, perm)
             && Paid(mem0[d], k.mem[d], first, a, n0, |k.free|)
    ensures MapsSoFar(k, mem0, own0, d, first, a, p0, perm, n0)
  {
  }

  /** One turn of mappages, after pages [first, a) are done. */
  method MapTurn(k: Kmem, d: nat, a: nat, p: nat, perm: nat, ghost mem0: seq<Page>, ghost own0: Owners,
                 ghost first: nat, ghost stop: nat, ghost p0: nat, ghost n0: nat)
    returns (r: Mapping)
    requires Ok(k) && first <= a < stop <= PAGES && p == p0 + (a - first)
    requires FramesReady(own0, first, stop, p0) && IsDir(own0, d)
    requires MapsTo(mem0, k.mem, own0, k.own, d, first, a, p0, perm) && Paid(mem0[d], k.mem[d], first, a, n0, |k.free|)
    modifies k
    ensures r == Mapped ==>
              Ok(k) && MapsTo(mem0, k.mem, own0, k.own, d, first, a + 1, p0, perm)
                  && Paid(mem0[d], k.mem[d], first, a + 1, n0, |k.free|)
    ensures r == NoMemory ==>
              k.mem == old(k.mem) && k.own == old(k.own) && k.free == old(k.free) == [] && Ok(k)
                && TooFew(mem0[d], first, stop, n0, 0)
    ensures r == Remap ==> Present(Pte(mem0, d, a))
  {
    ReadyMore(own0, k.own, d, first, a, stop, p0);
    MapsDir(mem0, k.mem, own0, k.own, d, first, a, stop, p0, perm, d);
    ghost var mem1, own1, n1 := k.mem, k.own, |k.free|;
    assert Pte(mem1, d, a) == Pte(mem0, d, a);
    r := MapPage(k, d, a, p, perm);
    if r == Mapped {
      MapsMore(mem0, mem1, k.mem, own0, own1, k.own, d, first, a, p0, perm);
      PaidPage(mem0[d], mem1[d], k.mem[d], first, a, n0, n1, |k.free|);
    } else if r == NoMemory {
      PaidShort(mem0[d], mem1[d], first, a, stop, n0, 0, 0);
    }
  }

  /** The same turn for the loop; m is where it leaves the mapping. */
  method MapNext(k: Kmem, d: nat, a: nat, p: nat, perm: nat, ghost mem0: seq<Page>, ghost own0: Owners,
                 ghost first: nat, ghost stop: nat, ghost p0: nat, ghost n0: nat)
    returns (r: Mapping, ghost m: nat)
    requires first <= a < stop <= PAGES && p == p0 + (a - first)
    requires FramesReady(own0, first, stop, p0) && IsDir(own0, d) && d < |mem0|
    requires MapsSoFar(k, mem0, own0, d, first, a, p0, perm, n0)
    modifies k
    ensures m == (if r == Mapped then a + 1 else a)
    ensures r != Remap ==> MapsSoFar(k, mem0, own0, d, first, m, p0, perm, n0)
    ensures r == NoMemory ==> k.free == [] && TooFew(mem0[d], first, stop, n0, 0)
    ensures r == Remap ==> Present(Pte(mem0, d, a))
  {
    assert Upto(a, a);
    r := MapTurn(k, d, a, p, perm, mem0, own0, first, stop, p0, n0);
    m := if r == Mapped then a + 1 else a;
    if r != Remap {
      SoFar(k, mem0, own0, d, first, m, p0, perm, n0);
    }
  }

  /** mappages' loop, in page numbers. */
  method MapRun(k: Kmem, d: nat, first: nat, last: nat, p0: nat, perm: nat) returns (r: Mapping, ghost m: nat)
    requires Ok(k) && IsDir(k.own, d) && perm < PGSIZE && first <= last < PAGES
    requires FramesReady(k.own, first, last + 1, p0)
    modifies k
    ensures first <= m <= last + 1 && (r == Mapped <==> m == last + 1)
    ensures r != Remap ==> MapsSoFar(k, old(k.mem), old(k.own), d, first, m, p0, perm, |old(k.free)|)
    ensures r == Remap ==> Present(Pte(old(k.mem), d, m))
    ensures r == NoMemory ==> k.free == [] && TooFew(old(k.mem)[d], first, last + 1, |old(k.free)|, 0)
  {
    var a, p := first, p0;
    ghost var mem0, own0, n0 := k.mem, k.own, |k.free|;
    m := a;
    MapsNone(k.mem, k.own, d, first, p0, perm);
    PaidNone(k.mem[d], first, n0);
    while true
      invariant first <= a <= last && m == a && p == p0 + (a - first)
      invariant MapsSoFar(k, mem0, own0, d, first, a, p0, perm, n0)
      decreases last - a
    {
      r, m := MapNext(k, d, a, p, perm, mem0, own0, first, last + 1, p0, n0);
      if r != Mapped || a == last {
        return;
      }
      a, p := a + 1, p + 1;
    }
  }

  /**
   mappages: maps every page that [va, va + size) touches, in order; running out of
   table pages leaves the first m of them mapped.
   */
  method MapPages(k: Kmem, d: nat, va: nat, size: nat, pa: nat, perm: nat) returns (r: Mapping, ghost m: nat)
    requires Ok(k) && IsDir(k.own, d) && perm < PGSIZE && pa % PGSIZE == 0
    requires size >= 1 && va + size <= TWO32
    requires FramesReady(k.own, va / PGSIZE, (va + size - 1) / PGSIZE + 1, pa / PGSIZE)
    modifies k
    ensures va / PGSIZE <= m <= (va + size - 1) / PGSIZE + 1
    ensures r == Mapped <==> m == (va + size - 1) / PGSIZE + 1
    ensures r != Remap ==> Ok(k) && MapsTo(old(k.mem), k.mem, old(k.own), k.own, d, va / PGSIZE, m, pa / PGSIZE, perm)
    ensures r == Remap ==> Present(Pte(old(k.mem), d, m))
    ensures r == Mapped ==> Paid(old(k.mem)[d], k.mem[d], va / PGSIZE, m, |old(k.free)|, |k.free|)
    ensures r == NoMemory ==> k.free == [] && TooFew(old(k.mem)[d], va / PGSIZE, (va + size - 1) / PGSIZE + 1,
              |old(k.free)|, 0)
  {
    var a, last := va / PGSIZE, (va + size - 1) % TWO32 / PGSIZE;
    r, m := MapRun(k, d, a, last, pa / PGSIZE, perm);
    assert Upto(m, m);
  }

  // ---------------------------------------------------------------- deallocuvm

  /** What is in use once user pages [from, stop) of d are gone. */
  function Trim(own: Owners, d: nat, from: nat, stop: nat): Owners {
    map p | p in own && !(own[p].User? && own[p].d == d && from <= own[p].v < stop) :: own[p]
  }

  /** Exactly the present pages among [from, stop) are unmapped, and no other page in use has changed. */
  ghost predicate Trimmed(mem0: seq<Page>, mem: seq<Page>, own0: Owners, own: Owners, d: nat, from: nat, stop: nat) {
    && |mem0| == |mem| == TOP && (forall p :: p in own0 ==> p < TOP) && d in own0 && stop <= USERPAGES
    && own == Trim(own0, d, from, stop)
    && mem[d] == mem0[d]
    && (forall v: nat :: v < PAGES ==>
          Pte(mem, d, v) == if from <= v < stop && Present(Pte(mem0, d, v)) then 0 else Pte(mem0, d, v))
    && (forall p :: p in own && !(own[p].Table? && own[p].d == d) ==> mem[p] == mem0[p])
  }

  lemma TrimNone(mem: seq<Page>, own: Owners, d: nat, from: nat)
    requires Trees(mem, own) && IsDir(own, d) && from <= USERPAGES
    ensures Trimmed(mem, mem, own, own, d, from, from)
  {
    assert own == Trim(own, d, from, from);
  }

  /** Pages that are not present make no difference. */
  lemma TrimSkip(mem0: seq<Page>, mem: seq<Page>, own0: Owners, own: Owners, d: nat, from: nat, mid: nat, stop: nat)
    requires Trees(mem0, own0) && Trimmed(mem0, mem, own0, own, d, from, mid) && from <= mid <= stop <= USERPAGES
    requires forall v: nat :: mid <= v < stop ==> !Present(Pte(mem0, d, v))
    ensures Trimmed(mem0, mem, own0, own, d, from, stop)
  {
    forall p | p in own0 && own0[p].User? && own0[p].d == d ensures !(mid <= own0[p].v < stop) {
      assert BackOk(mem0, own0, p);
    }
    assert Trim(own0, d, from, stop) == Trim(own0, d, from, mid);
  }

  lemma TrimMore(mem0: seq<Page>, mem1: seq<Page>, mem2: seq<Page>, own0: Owners, own1: Owners, own2: Owners, d: nat,
                 from: nat, v: nat, junk: Page)
    requires Trimmed(mem0, mem1, own0, own1, d, from, v) && from <= v < USERPAGES
    requires HasPage(mem1, own1, d, v) && Frame(Pte(mem1, d, v)) < TOP
    requires mem2 == Cleared(mem1, d, v, junk) && own2 == own1 - {Frame(Pte(mem1, d, v))}
    ensures Trimmed(mem0, mem2, own0, own2, d, from, v + 1)
  {
    var p := Frame(Pte(mem1, d, v));
    PageFrame(mem1, own1, d, v);
    TableOwner(mem1, own1, d, v);
    TrimOwners(mem1, own0, own1, d, from, v);
    forall u: nat | u < PAGES ensures Pte(mem2, d, u) == if u == v then 0 else Pte(mem1, d, u) {
      ClearedAt(mem1, own1, d, v, junk, d, u);
    }
    ClearedAt(mem1, own1, d, v, junk, d, v);
  }

  lemma TrimOwners(mem1: seq<Page>, own0: Owners, own1: Owners, d: nat, from: nat, v: nat)
    requires HasPage(mem1, own1, d, v) && own1 == Trim(own0, d, from, v) && from <= v
    ensures own1 - {Frame(Pte(mem1, d, v))} == Trim(own0, d, from, v + 1)
  {
    PageFrame(mem1, own1, d, v);
    forall q | q in own1 && own1[q] == User(d, v) ensures q == Frame(Pte(mem1, d, v)) {
      assert BackOk(mem1, own1, q);
    }
  }

  lemma ManagedAddress(end: nat, p: nat)
    requires end > KERNBASE && First(end) <= p < TOP
    ensures P2V(p) % PGSIZE == 0 && end <= P2V(p) < KERNBASE + PHYSTOP && (P2V(p) - KERNBASE) / PGSIZE == p
  {
    assert RoundUp(end - KERNBASE) >= end - KERNBASE;
    assert First(end) * PGSIZE == RoundUp(end - KERNBASE);
  }

  /** kfree of a page in use never panics. */
  method Release(k: Kmem, p: nat)
    requires k.Valid() && p in k.own
    modifies k`mem, k`freelist, k`free, k`own
    ensures k.Valid() && k.own == old(k.own) - {p} && k.free == [p] + old(k.free)
    ensures k.mem == old(k.mem)[p := Junk(old(k.freelist))]
  {
    ManagedAddress(k.end, p);
    var ok := k.KFree(P2V(p));
    assert ok;
  }

  /** One turn of deallocuvm's loop, at page v. */
  method DeallocTurn(k: Kmem, d: nat, v: nat, ghost mem0: seq<Page>, ghost own0: Owners, ghost free0: seq<nat>,
                     ghost from: nat)
    returns (absent: bool)
    requires from <= v < USERPAGES && Scanned(k, d, from, v, mem0, own0, free0)
    modifies k
    ensures absent == !Present(Pde(mem0, d, v))
    ensures absent ==> Scanned(k, d, from, v, mem0, own0, free0)
    ensures !absent ==> Scanned(k, d, from, v + 1, mem0, own0, free0)
  {
    var tab := WalkPgDir(k, d, v, false);
    if tab.None? {
      return true;
    }
    var e := k.mem[tab.value][v % PGWORDS];
    assert e == Pte(k.mem, d, v) == Pte(mem0, d, v);
    if Present(e) {
      ghost var mem1, own1, junk := k.mem, k.own, Junk(k.freelist);
      PageFrame(mem1, own1, d, v);
      TableOwner(mem1, own1, d, v);
      UnmapUser(mem1, own1, d, v, junk);
      ClearTurn(k, d, v, tab.value, Frame(e));
      TrimMore(mem0, mem1, k.mem, own0, own1, k.own, d, from, v, junk);
    } else {
      NotPresentHere(mem0, k.mem, own0, k.own, d, from, v);
    }
    absent := false;
  }

  lemma NotPresentHere(mem0: seq<Page>, mem: seq<Page>, own0: Owners, own: Owners, d: nat, from: nat, v: nat)
    requires Trees(mem, own) && IsDir(own, d) && from <= v < USERPAGES
    requires Trimmed(mem0, mem, own0, own, d, from, v) && !Present(Pte(mem0, d, v))
    ensures Trimmed(mem0, mem, own0, own, d, from, v + 1)
  {
    forall p | p in own ensures own[p] != User(d, v) {
      assert BackOk(mem, own, p);
    }
    assert Trim(own0, d, from, v + 1) == Trim(own0, d, from, v);
  }

  /** A present page is freed and its entry cleared. */
  method ClearTurn(k: Kmem, d: nat, v: nat, tab: nat, p: nat)
    requires k.Valid() && p in k.own && tab in k.own && tab != p && d < TOP && v < PAGES
    requires tab == Frame(Pde(k.mem, d, v)) && p == Frame(Pte(k.mem, d, v))
    modifies k`mem, k`freelist, k`free, k`own
    ensures k.Valid() && k.own == old(k.own) - {p} && k.free == [p] + old(k.free)
    ensures k.mem == Cleared(old(k.mem), d, v, Junk(old(k.freelist)))
  {
    Release(k, p);
    ghost var mem1 := k.mem;
    k.mem := k.mem[tab := k.mem[tab][v % PGWORDS := 0]];
    UsedNotFree(First(k.end), k.free, k.own, tab);
    KeepChain(mem1, k.mem, k.freelist, k.free, tab);
  }

  /** The pages below address a, counting a last part page. */
  function PagesBelow(a: nat): nat {
    (a + PGSIZE - 1) / PGSIZE
  }

  /** A missing table has no present page in it. */
  lemma NoTable(mem: seq<Page>, d: nat, v: nat, u: nat)
    requires d < |mem| && v < PAGES && !Present(Pde(mem, d, v)) && v <= u < (v / PGWORDS + 1) * PGWORDS && u < PAGES
    ensures !Present(Pte(mem, d, u))
  {
    assert u / PGWORDS == v / PGWORDS;
  }

  /** PGADDR(PDX(a) + 1, 0, 0) */
  function NextTable(a: nat): nat {
    (a / 0x40_0000 + 1) * 0x40_0000 % TWO32
  }

  function NextTablePage(v: nat): nat {
    (v / PGWORDS + 1) * PGWORDS
  }

  /** The skip lands on the first page of the next table, with no 32-bit wrap below KERNBASE. */
  lemma SkipAddress(v: nat)
    requires v < USERPAGES
    ensures v < NextTablePage(v) <= USERPAGES
    ensures NextTable(v * PGSIZE) == NextTablePage(v) * PGSIZE
  {
    assert v * PGSIZE / 0x40_0000 == v / PGWORDS;
  }

  /** Address comparisons of the loop, in page numbers. */
  lemma PageAddress(v: nat, oldsz: nat)
    requires v <= USERPAGES && oldsz <= KERNBASE
    ensures v * PGSIZE < oldsz <==> v < PagesBelow(oldsz)
    ensures v * PGSIZE / PGSIZE == v && PagesBelow(oldsz) <= USERPAGES
    ensures RoundUp(oldsz) % TWO32 == PagesBelow(oldsz) * PGSIZE
    ensures v < USERPAGES ==> (v * PGSIZE + PGSIZE) % TWO32 == (v + 1) * PGSIZE
  {
  }

  /** The scan of [from, v) of d is done, as from memory mem0. */
  ghost predicate Scanned(k: Kmem, d: nat, from: nat, v: nat, mem0: seq<Page>, own0: Owners, free0: seq<nat>)
    reads k
  {
    && Ok(k) && IsDir(k.own, d)
    && Trimmed(mem0, k.mem, own0, k.own, d, from, v) && k.free == Scan(mem0, d, from, v, free0)
  }

  /** Where the loop goes after address a, in 32 bits: over the rest of an absent table, then one page on. */
  function NextAddress(a: nat, absent: bool): nat {
    ((if absent then NextTable(a) - PGSIZE else a) + PGSIZE) % TWO32
  }

  function NextPage(v: nat, absent: bool): nat {
    if absent then NextTablePage(v) else v + 1
  }

  lemma NextAddressIs(v: nat)
    requires v < USERPAGES
    ensures v * PGSIZE / PGSIZE == v
    ensures forall absent ::
              NextAddress(v * PGSIZE, absent) == NextPage(v, absent) * PGSIZE && v < NextPage(v, absent) <= USERPAGES
  {
    SkipAddress(v);
    PageAddress(v, 0);
  }

  /** One turn of deallocuvm's loop with its address arithmetic; w is the page it goes on to. */
  method DeallocStep(k: Kmem, d: nat, a: nat, ghost v: nat, ghost from: nat, ghost stop: nat, ghost mem0: seq<Page>,
                     ghost own0: Owners, ghost free0: seq<nat>)
    returns (next: nat, ghost w: nat)
    requires a == v * PGSIZE && from <= v < stop <= USERPAGES && Trees(mem0, own0)
    requires Scanned(k, d, from, v, mem0, own0, free0)
    modifies k
    ensures next == w * PGSIZE && v < w <= USERPAGES
    ensures Scanned(k, d, from, Min(w, stop), mem0, own0, free0)
  {
    NextAddressIs(v);
    var absent := DeallocTurn(k, d, a / PGSIZE, mem0, own0, free0, from);
    next, w := NextAddress(a, absent), NextPage(v, absent);
    if absent {
      SkipTurn(mem0, k.mem, own0, k.own, d, from, v, stop, free0);
    } else {
      assert Min(w, stop) == v + 1;
    }
  }

  /**
   deallocuvm: whole tables are skipped, yet the pages freed, their order and the rest
   of memory are those of a page-by-page scan of [RoundUp(newsz), oldsz).
   */
  method DeallocUvm(k: Kmem, d: nat, oldsz: nat, newsz: nat) returns (r: nat)
    requires Ok(k) && IsDir(k.own, d) && oldsz <= KERNBASE
    modifies k
    ensures Ok(k) && IsDir(k.own, d)
    ensures newsz >= oldsz ==> r == oldsz && k.mem == old(k.mem) && k.own == old(k.own) && k.free == old(k.free)
    ensures newsz < oldsz ==> r == newsz
                              && Trimmed(old(k.mem), k.mem, old(k.own), k.own, d, PagesBelow(newsz), PagesBelow(oldsz))
                              && k.free == Scan(old(k.mem), d, PagesBelow(newsz), PagesBelow(oldsz), old(k.free))
  {
    if newsz >= oldsz {
      return oldsz;
    }
    RoundsMonotone(newsz, oldsz);
    PageAddress(0, newsz);
    PageAddress(0, oldsz);
    ghost var mem0, own0, free0, from, stop := k.mem, k.own, k.free, PagesBelow(newsz), PagesBelow(oldsz);
    var a := RoundUp(newsz) % TWO32;
    ghost var v := from;
    TrimNone(mem0, own0, d, from);
    PageAddress(v, oldsz);
    while a < oldsz
      invariant a == v * PGSIZE && from <= v <= USERPAGES && (a < oldsz <==> v < stop)
      invariant Scanned(k, d, from, Min(v, stop), mem0, own0, free0)
      decreases USERPAGES - v
    {
      a, v := DeallocStep(k, d, a, v, from, stop, mem0, own0, free0);
      PageAddress(v, oldsz);
    }
    r := newsz;
  }

  lemma RoundsMonotone(a: nat, b: nat)
    requires a <= b
    ensures PagesBelow(a) <= PagesBelow(b)
  {
  }

  lemma SkipTurn(mem0: seq<Page>, mem: seq<Page>, own0: Owners, own: Owners, d: nat, from: nat, v: nat, stop: nat,
                 free0: seq<nat>)
    requires Trees(mem0, own0) && Trimmed(mem0, mem, own0, own, d, from, v) && from <= v < stop <= USERPAGES
    requires !Present(Pde(mem0, d, v))
    ensures var w := Min(NextTablePage(v), stop);
            Trimmed(mem0, mem, own0, own, d, from, w) && Scan(mem0, d, from, w, free0) == Scan(mem0, d, from, v, free0)
  {
    var w := Min(NextTablePage(v), stop);
    forall u: nat | v <= u < w ensures !Present(Pte(mem0, d, u)) {
      NoTable(mem0, d, v, u);
    }
    TrimSkip(mem0, mem, own0, own, d, from, v, w);
    ScanSkip(mem0, d, from, v, w, free0);
  }
}
