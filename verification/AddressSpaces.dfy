/**
 vm.c continued: whole address spaces. Every operation either does all of its work or
 undoes it: setupkvm and copyuvm give back every page they took; allocuvm gives back all but
 the page tables it added, and more than it took if pages of the range were mapped before.
 */
module AddressSpaces {
  import opened Params
  import opened Kalloc
  import opened PageTables
  import opened Vm
  import opened PageBudget

  // ---------------------------------------------------------------- freevm

  /** What is in use once tables 0..i of d are gone. */
  function LessTables(own: Owners, d: nat, i: nat): Owners {
    map p | p in own && !(own[p].Table? && own[p].d == d && own[p].i < i) :: own[p]
  }

  lemma LessOne(mem: seq<Page>, own: Owners, d: nat, i: nat)
    requires Trees(mem, own) && IsDir(own, d) && i < PGWORDS
    ensures var e := mem[d][i];
            if Present(e) then Frame(e) in LessTables(own, d, i)
              && LessTables(own, d, i + 1) == LessTables(own, d, i) - {Frame(e)}
            else LessTables(own, d, i + 1) == LessTables(own, d, i)
  {
    assert PdeOk(mem, own, d, i);
    forall p | p in own && own[p] == Table(d, i) ensures Present(mem[d][i]) && p == Frame(mem[d][i]) {
      assert BackOk(mem, own, p);
    }
  }

  /** With its user pages, its tables and itself gone, nothing of d is left. */
  lemma AllGone(mem: seq<Page>, own: Owners, d: nat)
    requires Trees(mem, own) && IsDir(own, d)
    ensures LessTables(Trim(own, d, 0, USERPAGES), d, PGWORDS) - {d} == Without(own, d)
  {
    forall p | p in own
      ensures own[p].Table? && own[p].d == d ==> own[p].i < PGWORDS
      ensures own[p].User? && own[p].d == d ==> own[p].v < USERPAGES
    {
      assert BackOk(mem, own, p);
    }
  }

  /** freevm's second loop: every table page, once. */
  method FreeTables(k: Kmem, d: nat)
    requires Ok(k) && IsDir(k.own, d)
    modifies k
    ensures k.Valid() && d in k.own && k.own == LessTables(old(k.own), d, PGWORDS)
    ensures forall p :: p in k.own ==> k.mem[p] == old(k.mem)[p]
  {
    ghost var mem0, own0 := k.mem, k.own;
    var i := 0;
    assert k.own == LessTables(own0, d, 0);
    while i < PGWORDS
      invariant i <= PGWORDS && k.Valid() && d in k.own && k.own == LessTables(own0, d, i)
      invariant forall p :: p in k.own ==> k.mem[p] == mem0[p]
    {
      LessOne(mem0, own0, d, i);
      assert k.mem[d] == mem0[d];
      if Present(k.mem[d][i]) {
        assert PdeOk(mem0, own0, d, i);
        Release(k, Frame(k.mem[d][i]));
      }
      i := i + 1;
    }
  }

  /** freevm: every page of d goes back to the free list and every other page in use is as it was. */
  method FreeVm(k: Kmem, d: nat)
    requires Ok(k) && IsDir(k.own, d)
    modifies k
    ensures Ok(k) && k.own == Without(old(k.own), d)
    ensures forall p :: p in k.own ==> k.mem[p] == old(k.mem)[p]
  {
    ghost var mem0, own0 := k.mem, k.own;
    var r := DeallocUvm(k, d, KERNBASE, 0);
    ghost var mem1, own1 := k.mem, k.own;
    assert PagesBelow(0) == 0 && PagesBelow(KERNBASE) == USERPAGES;
    FreeTables(k, d);
    ghost var mem2 := k.mem;
    Release(k, d);
    AllGone(mem0, own0, d);
    KeptThrough(mem0, mem1, own0, own1, d);
    DropDir(mem0, k.mem, own0, d);
  }

  lemma KeptThrough(mem0: seq<Page>, mem1: seq<Page>, own0: Owners, own1: Owners, d: nat)
    requires Trimmed(mem0, mem1, own0, own1, d, 0, USERPAGES)
    ensures forall p :: p in Without(own0, d) ==> p in own1 && mem1[p] == mem0[p]
  {
  }

  // ---------------------------------------------------------------- allocuvm

  /** Page v of d is a zeroed page, not in use before, that the user may write. */
  predicate FreshPage(mem: seq<Page>, own0: Owners, d: nat, v: nat)
    requires d < |mem| && v < PAGES
  {
    && Present(Pte(mem, d, v)) && Flags(Pte(mem, d, v)) == PTE_P + PTE_W + PTE_U
    && Frame(Pte(mem, d, v)) !in own0 && Frame(Pte(mem, d, v)) < |mem| && mem[Frame(Pte(mem, d, v))] == ZeroPage()
  }

  /** Pages [from, m) of d are fresh; everything else is as it was, but for new tables of d. */
  ghost predicate Grew(mem0: seq<Page>, mem: seq<Page>, own0: Owners, own: Owners, d: nat, from: nat, m: nat) {
    && |mem0| == |mem| == TOP && (forall p :: p in own0 ==> p < TOP) && IsDir(own0, d) && m <= USERPAGES
    && KeepsData(mem0, mem, own0, d)
    && (forall v: nat :: v < PAGES && !(from <= v < m) ==> Pte(mem, d, v) == Pte(mem0, d, v))
    && (forall v: nat :: from <= v < m ==> FreshPage(mem, own0, d, v))
    && (forall p :: p in own0 ==> p in own && own[p] == own0[p])
    && (forall p :: p in own && p !in own0 ==> NewPage(own[p], d, from, m))
  }

  predicate NewPage(role: Role, d: nat, from: nat, m: nat) {
    (role.Table? && role.d == d) || (role.User? && role.d == d && from <= role.v < m)
  }

  /** No page of [from, stop) is mapped. */
  ghost predicate Vacant(mem: seq<Page>, d: nat, from: nat, stop: nat)
    requires d < |mem| && stop <= PAGES
  {
    forall v: nat :: from <= v < stop ==> !Present(Pte(mem, d, v))
  }

  lemma GrewMore(mem0: seq<Page>, mem1: seq<Page>, mem2: seq<Page>, mem3: seq<Page>, own0: Owners, own1: Owners,
                 own3: Owners, d: nat, from: nat, m: nat, p: nat)
    requires Trees(mem1, own1) && Grew(mem0, mem1, own0, own1, d, from, m) && from <= m < USERPAGES
    requires p !in own1 && p < TOP && mem2 == mem1[p := ZeroPage()]
    requires MapsTo(mem2, mem3, own1[p := Loose], own3, d, m, m + 1, p, PTE_W + PTE_U)
    ensures Grew(mem0, mem3, own0, own3, d, from, m + 1)
  {
    var own2 := own1[p := Loose];
    GrewPages(mem0, mem1, mem2, mem3, own0, own1, own3, d, from, m, p);
    forall q | q in own0 && !TableOf(own0, d, q) ensures mem3[q] == mem0[q] {
      assert !TableOf(own2, d, q);
    }
    forall q | q in own1 ensures own3[q] == own1[q] {
      assert !Backs(m, m + 1, p, q);
    }
    assert Backs(m, m + 1, p, p);
  }

  lemma GrewPages(mem0: seq<Page>, mem1: seq<Page>, mem2: seq<Page>, mem3: seq<Page>, own0: Owners, own1: Owners,
                  own3: Owners, d: nat, from: nat, m: nat, p: nat)
    requires Trees(mem1, own1) && Grew(mem0, mem1, own0, own1, d, from, m) && from <= m < USERPAGES
    requires p !in own1 && p < TOP && mem2 == mem1[p := ZeroPage()]
    requires MapsTo(mem2, mem3, own1[p := Loose], own3, d, m, m + 1, p, PTE_W + PTE_U)
    ensures forall v: nat :: v < PAGES && !(from <= v < m + 1) ==> Pte(mem3, d, v) == Pte(mem0, d, v)
    ensures forall v: nat :: from <= v < m + 1 ==> FreshPage(mem3, own0, d, v)
  {
    var own2 := own1[p := Loose];
    forall v: nat | v < PAGES ensures Pte(mem2, d, v) == Pte(mem1, d, v) {
      PteFrame(mem1, mem2, own1, d, v);
    }
    forall v: nat | from <= v < m + 1 ensures FreshPage(mem3, own0, d, v) {
      if v < m {
        assert FreshPage(mem1, own0, d, v) && PteOk(mem1, own1, d, v);
        assert !TableOf(own2, d, Frame(Pte(mem1, d, v)));
      } else {
        Parts(p, PTE_P + PTE_W + PTE_U);
        assert !TableOf(own2, d, p);
      }
    }
  }

  lemma GrewNone(mem: seq<Page>, own: Owners, d: nat, from: nat)
    requires Trees(mem, own) && IsDir(own, d) && from <= USERPAGES
    ensures Grew(mem, mem, own, own, d, from, from)
  {
  }

  /** A loose page and new tables on top of a grown space. */
  lemma GrewSpare(mem0: seq<Page>, mem1: seq<Page>, mem2: seq<Page>, mem3: seq<Page>, own0: Owners, own1: Owners,
                  own3: Owners, d: nat, from: nat, m: nat, p: nat)
    requires Trees(mem1, own1) && Grew(mem0, mem1, own0, own1, d, from, m) && from <= m < USERPAGES
    requires p !in own1 && p < TOP && mem2 == mem1[p := ZeroPage()]
    requires MapsTo(mem2, mem3, own1[p := Loose], own3, d, m, m, p, PTE_W + PTE_U)
    ensures Grew(mem0, mem3, own0, own3 - {p}, d, from, m) && p in own3 && own3[p] == Loose
  {
    var own2 := own1[p := Loose];
    forall v: nat | v < PAGES ensures Pte(mem2, d, v) == Pte(mem1, d, v) {
      PteFrame(mem1, mem2, own1, d, v);
    }
    forall v: nat | from <= v < m ensures FreshPage(mem3, own0, d, v) {
      assert FreshPage(mem1, own0, d, v) && PteOk(mem1, own1, d, v);
      assert !TableOf(own2, d, Frame(Pte(mem1, d, v)));
    }
    forall q | q in own0 && !TableOf(own0, d, q) ensures mem3[q] == mem0[q] {
      assert !TableOf(own2, d, q);
    }
    forall q | q in own2 ensures own3[q] == own2[q] {
      assert !Backs(m, m, p, q);
    }
  }

  lemma OnePage(v: nat)
    requires v < PAGES
    ensures v * PGSIZE / PGSIZE == v && (v * PGSIZE + PGSIZE - 1) / PGSIZE + 1 == v + 1
    ensures v * PGSIZE % PGSIZE == 0 && v * PGSIZE + PGSIZE <= TWO32
  {
  }

  /** mappages of a single page: mapped, or nothing but tables added, or a panic on one that is mapped already. */
  method MapOne(k: Kmem, d: nat, v: nat, p: nat, perm: nat) returns (r: Mapping)
    requires Ok(k) && IsDir(k.own, d) && v < PAGES && perm < PGSIZE && p < TOP && p in k.own && k.own[p] == Loose
    modifies k
    ensures r == Remap <==> Present(Pte(old(k.mem), d, v))
    ensures r != Remap ==>
              Ok(k) && MapsTo(old(k.mem), k.mem, old(k.own), k.own, d, v, if r == Mapped then v + 1 else v, p, perm)
    ensures r == Mapped ==> Charged(old(k.mem)[d], k.mem[d], v, |old(k.free)|, |k.free|)
    ensures r == NoMemory ==> old(k.free) == [] && !Present(Pde(old(k.mem), d, v))
  {
    ghost var dir0, n0 := k.mem[d], |k.free|;
    OnePage(v);
    OnePage(p);
    assert FramesReady(k.own, v, v + 1, p);
    ghost var m;
    r, m := MapPages(k, d, v * PGSIZE, PGSIZE, p * PGSIZE, perm);
    if r == Mapped {
      PaidOne(dir0, k.mem[d], v, n0, |k.free|);
    } else if r == NoMemory {
      TooFewOne(dir0, v, n0);
    }
  }

  /** kalloc and memset to 0. */
  method GrabZero(k: Kmem) returns (r: Option<nat>)
    requires Ok(k)
    modifies k
    ensures Ok(k)
    ensures r.None? <==> old(k.free) == []
    ensures r.None? ==> k.mem == old(k.mem) && k.own == old(k.own) && k.free == old(k.free)
    ensures r.Some? ==> r.value < TOP && r.value !in old(k.own) && k.own == old(k.own)[r.value := Loose]
    ensures r.Some? ==> k.mem == old(k.mem)[r.value := ZeroPage()] && k.free == old(k.free)[1..]
  {
    r := Grab(k);
    if r.Some? {
      Zero(k, r.value);
    }
  }

  /** Pages [from, v) have been added. Like the loops of Vm this stays folded until Upto(v, v) is asserted. */
  ghost predicate Growing(k: Kmem, mem0: seq<Page>, own0: Owners, d: nat, from: nat, v: nat)
    reads k
  {
    && |k.mem| == |mem0| == TOP && d < TOP
    && forall b: nat {:trigger Upto(v, b)} :: Upto(v, b) ==> Ok(k) && Grew(mem0, k.mem, own0, k.own, d, from, b)
  }

  /** The loop has stopped short of page v; spare is the page that could not be mapped. */
  ghost predicate Halted(k: Kmem, mem0: seq<Page>, own0: Owners, d: nat, from: nat, v: nat, spare: Option<nat>)
    reads k
  {
    forall b: nat {:trigger Upto(v, b)} :: Upto(v, b) ==>
      && Ok(k) && Grew(mem0, k.mem, own0, k.own - Set(spare), d, from, b)
      && (spare.Some? ==> spare.value in k.own && k.own[spare.value] == Loose && spare.value !in own0)
  }

  lemma GrowingNone(k: Kmem, d: nat, from: nat)
    requires Ok(k) && IsDir(k.own, d) && from <= USERPAGES
    ensures Growing(k, k.mem, k.own, d, from, from) && Paid(k.mem[d], k.mem[d], from, from, |k.free|, |k.free|)
  {
    GrewNone(k.mem, k.own, d, from);
    PaidNone(k.mem[d], from, |k.free|);
  }

  /** How a turn of a loop over pages ends. */
  datatype Turned = More | Out | Panic

  /** One turn of allocuvm's loop. */
  method AllocTurn(k: Kmem, d: nat, v: nat, ghost mem0: seq<Page>, ghost own0: Owners, ghost from: nat)
    returns (r: Turned, spare: Option<nat>)
    requires from <= v < USERPAGES && Growing(k, mem0, own0, d, from, v)
    modifies k
    ensures r == Panic <==> Present(Pte(mem0, d, v)) && old(k.free) != []
    ensures r == More ==> !Present(Pte(mem0, d, v)) && Growing(k, mem0, own0, d, from, v + 1)
    ensures r == More ==> Charged(old(k.mem)[d], k.mem[d], v, |old(k.free)|, |k.free| + 1)
    ensures r == Out ==> NoneLeft(old(k.mem)[d], v, |old(k.free)|) && Halted(k, mem0, own0, d, from, v, spare)
  {
    assert Upto(v, v);
    ghost var mem1, own1, n1 := k.mem, k.own, |k.free|;
    spare := GrabZero(k);
    if spare.None? {
      assert k.own - Set(spare) == k.own;
      return Out, None;
    }
    ghost var mem2, n2 := k.mem, |k.free|;
    PteFrame(mem1, mem2, own1, d, v);
    var t := MapOne(k, d, v, spare.value, PTE_W + PTE_U);
    if t == Mapped {
      GrewMore(mem0, mem1, mem2, k.mem, own0, own1, k.own, d, from, v, spare.value);
      ChargedPlus(mem1[d], k.mem[d], v, n2, |k.free|, 1);
      r := More;
    } else if t == NoMemory {
      GrewSpare(mem0, mem1, mem2, k.mem, own0, own1, k.own, d, from, v, spare.value);
      r := Out;
    } else {
      r := Panic;
    }
  }

  /** A turn, and what it pays; it fails only if n0 pages could not do for all of [from, stop). */
  method AllocNext(k: Kmem, d: nat, v: nat, ghost mem0: seq<Page>, ghost own0: Owners, ghost from: nat, ghost stop: nat,
                   ghost n0: nat)
    returns (r: Turned, spare: Option<nat>)
    requires from <= v < stop <= USERPAGES && Growing(k, mem0, own0, d, from, v)
             && Paid(mem0[d], k.mem[d], from, v, n0, |k.free| + (v - from))
    modifies k
    ensures r == Panic <==> Present(Pte(mem0, d, v)) && old(k.free) != []
    ensures r == More ==> !Present(Pte(mem0, d, v)) && Growing(k, mem0, own0, d, from, v + 1)
                          && Paid(mem0[d], k.mem[d], from, v + 1, n0, |k.free| + (v + 1 - from))
    ensures r == Out ==> n0 < (stop - from) + Lacking(mem0[d], from, stop) && Halted(k, mem0, own0, d, from, v, spare)
    ensures n0 == |old(k.free)| + (v - from) + Lacking(mem0[d], from, v)
  {
    ghost var dir1, n1 := k.mem[d], |k.free|;
    PaidPrice(mem0[d], dir1, from, v, n0, n1 + (v - from));
    r, spare := AllocTurn(k, d, v, mem0, own0, from);
    if r == More {
      PaidMore(mem0[d], dir1, k.mem[d], from, v, n0, n1, |k.free|);
    } else if r == Out {
      PaidOut(mem0[d], dir1, from, v, stop, n0, n1);
      TooFewPrice(mem0[d], from, stop, n0, stop - from);
    }
  }

  /** The user mapping is exactly what it was, and no page is gone but to new tables of d. */
  ghost predicate RolledBack(mem0: seq<Page>, mem: seq<Page>, own0: Owners, own: Owners, d: nat) {
    && |mem0| == |mem| == TOP && (forall p :: p in own0 ==> p < TOP) && IsDir(own0, d)
    && OnlyTables(own0, own, d) && KeepsData(mem0, mem, own0, d)
    && forall v: nat :: v < PAGES ==> SameMapping(Pte(mem0, d, v), Pte(mem, d, v))
  }

  predicate SameMapping(e: nat, e': nat) {
    e == e' || (!Present(e) && !Present(e'))
  }

  /** As before but for pages [from, stop), of which none is mapped any more, and for new tables of d. */
  ghost predicate Cleared(mem0: seq<Page>, mem: seq<Page>, own0: Owners, own: Owners, d: nat, from: nat, stop: nat) {
    && |mem0| == |mem| == TOP && (forall p :: p in own0 ==> p < TOP) && IsDir(own0, d)
    && OnlyTables(Trim(own0, d, from, stop), own, d) && KeepsData(mem0, mem, Trim(own0, d, from, stop), d)
    && forall v: nat :: v < PAGES ==> if from <= v < stop then !Present(Pte(mem, d, v))
       else Pte(mem, d, v) == Pte(mem0, d, v)
  }

  /** deallocuvm takes away what allocuvm's loop added, wherever it stopped, and what was mapped in the range before. */
  lemma Undone(mem0: seq<Page>, mem1: seq<Page>, mem2: seq<Page>, own0: Owners, own1: Owners, own2: Owners, d: nat,
               from: nat, m: nat, stop: nat, spare: set<nat>)
    requires Grew(mem0, mem1, own0, own1 - spare, d, from, m) && from <= m <= stop <= PAGES
    requires Trimmed(mem1, mem2, own1, own2, d, from, stop)
    requires forall p :: p in spare ==> p in own1 && own1[p] == Loose && p !in own0
    ensures Cleared(mem0, mem2, own0, own2 - spare, d, from, stop)
  {
    var kept := Trim(own0, d, from, stop);
    forall p | p in kept ensures p in own2 - spare && (own2 - spare)[p] == kept[p] {
      assert p in own1 - spare;
    }
    forall p | p in own2 - spare ensures p in kept || ((own2 - spare)[p].Table? && (own2 - spare)[p].d == d) {
      assert p in own1 - spare;
      assert p !in own0 ==> NewPage((own1 - spare)[p], d, from, m);
    }
  }

  /** A failed allocuvm leaves the user mapping as it was, exactly if no page that it was to add was mapped before. */
  lemma UndoneIffVacant(mem0: seq<Page>, mem: seq<Page>, own0: Owners, own: Owners, d: nat, from: nat, stop: nat)
    requires Trees(mem0, own0) && stop <= PAGES && Cleared(mem0, mem, own0, own, d, from, stop)
    ensures RolledBack(mem0, mem, own0, own, d) <==> Vacant(mem0, d, from, stop)
  {
    if Vacant(mem0, d, from, stop) {
      VacantOwners(mem0, own0, d, from, stop);
      assert Trim(own0, d, from, stop) == own0;
    } else {
      var v: nat :| from <= v < stop && Present(Pte(mem0, d, v));
      assert !SameMapping(Pte(mem0, d, v), Pte(mem, d, v));
    }
  }

  lemma VacantOwners(mem: seq<Page>, own: Owners, d: nat, from: nat, stop: nat)
    requires Trees(mem, own) && IsDir(own, d) && stop <= PAGES && Vacant(mem, d, from, stop)
    ensures forall p :: p in own && own[p].User? && own[p].d == d ==> !(from <= own[p].v < stop)
  {
    forall p | p in own && own[p].User? && own[p].d == d ensures !(from <= own[p].v < stop) {
      assert BackOk(mem, own, p);
    }
  }

  /** allocuvm's failure path. */
  method Undo(k: Kmem, d: nat, oldsz: nat, newsz: nat, spare: Option<nat>, ghost mem0: seq<Page>, ghost own0: Owners,
              ghost m: nat)
    requires Ok(k) && Trees(mem0, own0) && oldsz < newsz < KERNBASE && PagesBelow(oldsz) <= m <= PagesBelow(newsz)
    requires spare.Some? ==> spare.value in k.own && k.own[spare.value] == Loose && spare.value !in own0
    requires Grew(mem0, k.mem, own0, k.own - Set(spare), d, PagesBelow(oldsz), m)
    requires PagesBelow(newsz) <= USERPAGES
    modifies k
    ensures Ok(k) && Cleared(mem0, k.mem, own0, k.own, d, PagesBelow(oldsz), PagesBelow(newsz))
  {
    ghost var mem1, own1 := k.mem, k.own;
    assert IsDir(own1 - Set(spare), d);
    var r := DeallocUvm(k, d, newsz, oldsz);
    Undone(mem0, mem1, k.mem, own0, own1, k.own, d, PagesBelow(oldsz), m, PagesBelow(newsz), Set(spare));
    if spare.Some? {
      DropSpare(k, d, spare.value, mem0, own0, PagesBelow(oldsz), PagesBelow(newsz));
    }
  }

  function Set(spare: Option<nat>): set<nat> {
    if spare.Some? then {spare.value} else {}
  }

  /** The page that could not be mapped goes back. */
  method DropSpare(k: Kmem, d: nat, p: nat, ghost mem0: seq<Page>, ghost own0: Owners, ghost from: nat, ghost stop: nat)
    requires Ok(k) && p in k.own && k.own[p] == Loose && p !in own0
    requires Cleared(mem0, k.mem, own0, k.own - {p}, d, from, stop)
    modifies k
    ensures Ok(k) && Cleared(mem0, k.mem, own0, k.own, d, from, stop)
  {
    ghost var mem1, own1 := k.mem, k.own;
    assert IsDir(own1 - {p}, d);
    Release(k, p);
    TouchLoose(mem1, k.mem, own1, k.own, p);
  }

  /** The first page from v on that is mapped, or n if there is none below n. */
  ghost function FirstPresent(mem: seq<Page>, d: nat, v: nat, n: nat): (u: nat)
    requires d < |mem| && v <= n <= PAGES
    ensures v <= u <= n && (u < n ==> Present(Pte(mem, d, u))) && Vacant(mem, d, v, u)
    decreases n - v
  {
    if v == n || Present(Pte(mem, d, v)) then v else FirstPresent(mem, d, v + 1, n)
  }

  /**
   The pages that growing over [from, stop) takes: new user pages and the tables they lack,
   up to the first page that is mapped already, and one more to get to the panic on that one.
   */
  ghost function GrowthCost(mem: seq<Page>, d: nat, from: nat, stop: nat): nat
    requires d < |mem| && from <= stop <= PAGES
  {
    var end := FirstPresent(mem, d, from, stop);
    (end - from) + Lacking(mem[d], from, end) + (if end < stop then 1 else 0)
  }

  /** allocuvm's loop over [from, stop), in page numbers; v is where it ends. */
  method AllocLoop(k: Kmem, d: nat, from: nat, stop: nat) returns (r: Turned, spare: Option<nat>, ghost v: nat)
    requires Ok(k) && IsDir(k.own, d) && from <= stop <= USERPAGES
    modifies k
    ensures from <= v <= stop
    ensures r == More ==> v == stop && Growing(k, old(k.mem), old(k.own), d, from, v)
    ensures r == Out ==> v < stop && Halted(k, old(k.mem), old(k.own), d, from, v, spare)
    ensures r == Out <==> |old(k.free)| < GrowthCost(old(k.mem), d, from, stop)
    ensures r == More ==> Vacant(old(k.mem), d, from, stop)
    ensures r == Panic ==> !Vacant(old(k.mem), d, from, stop)
  {
    ghost var mem0, own0, n0 := k.mem, k.own, |k.free|;
    ghost var end := FirstPresent(mem0, d, from, stop);
    var a := from;
    GrowingNone(k, d, from);
    while a < stop
      invariant from <= a <= end <= stop && Growing(k, mem0, own0, d, from, a)
      invariant Paid(mem0[d], k.mem[d], from, a, n0, |k.free| + (a - from))
    {
      v := a;
      r, spare := AllocNext(k, d, a, mem0, own0, from, if a < end then end else stop, n0);
      if r != More {
        return;
      }
      a := a + 1;
    }
    PaidPrice(mem0[d], k.mem[d], from, stop, n0, |k.free| + (stop - from));
    r, spare, v := More, None, stop;
  }

  /**
   allocuvm: zeroed writable pages up to newsz; or 0, and then the user mapping is as it was
   exactly if none of the pages to add was mapped; or, on the first of those that is, the
   panic of mappages (None), unless the free pages run out before.
   */
  method AllocUvm(k: Kmem, d: nat, oldsz: nat, newsz: nat) returns (r: Option<nat>)
    requires Ok(k) && IsDir(k.own, d)
    modifies k
    ensures r.Some? ==> Ok(k)
    ensures newsz >= KERNBASE ==> r == Some(0)
    ensures newsz < KERNBASE && newsz < oldsz ==> r == Some(oldsz)
    ensures newsz >= KERNBASE || newsz < oldsz ==> k.mem == old(k.mem) && k.own == old(k.own) && k.free == old(k.free)
    ensures oldsz <= newsz < KERNBASE ==>
              var from, stop := PagesBelow(oldsz), PagesBelow(newsz);
              && from <= stop <= USERPAGES
              && (r == Some(newsz) <==>
                    |old(k.free)| >= GrowthCost(old(k.mem), d, from, stop) && Vacant(old(k.mem), d, from, stop))
              && (r == None <==>
                    |old(k.free)| >= GrowthCost(old(k.mem), d, from, stop) && !Vacant(old(k.mem), d, from, stop))
              && (r == Some(newsz) ==> Grew(old(k.mem), k.mem, old(k.own), k.own, d, from, stop))
              && (r.Some? && r != Some(newsz) ==>
                    && r == Some(0) && Cleared(old(k.mem), k.mem, old(k.own), k.own, d, from, stop)
                    && (RolledBack(old(k.mem), k.mem, old(k.own), k.own, d) <==> Vacant(old(k.mem), d, from, stop)))
  {
    if newsz >= KERNBASE {
      return Some(0);
    }
    if newsz < oldsz {
      return Some(oldsz);
    }
    ghost var mem0, own0 := k.mem, k.own;
    RoundsMonotone(oldsz, newsz);
    PageAddress(0, newsz);
    var t, spare;
    ghost var v;
    t, spare, v := AllocLoop(k, d, PagesBelow(oldsz), PagesBelow(newsz));
    assert Upto(v, v);
    if t == Panic {
      return None;
    }
    if t == More {
      return Some(newsz);
    }
    assert oldsz != newsz;
    Undo(k, d, oldsz, newsz, spare, mem0, own0, v);
    UndoneIffVacant(mem0, k.mem, own0, k.own, d, PagesBelow(oldsz), PagesBelow(newsz));
    r := Some(0);
  }

  // ---------------------------------------------------------------- setupkvm

  const EXTMEM: nat := 0x10_0000
  const DEVSPACE: nat := 0xFE00_0000

  /** A row of kmap, in bytes. */
  datatype Row = Row(virt: nat, start: nat, stop: nat, perm: nat)

  /** kmap, where data is the physical address of the kernel's data segment. */
  function Kmap(data: nat): seq<Row> {
    [Row(KERNBASE, 0, EXTMEM, PTE_W),
     Row(KERNBASE + EXTMEM, EXTMEM, data, 0),
     Row(KERNBASE + data, data, PHYSTOP, PTE_W),
     Row(DEVSPACE, DEVSPACE, 0, PTE_W)]
  }

  /** phys_end - phys_start, in 32 bits. */
  function Size(row: Row): nat
    requires row.start < TWO32
  {
    (row.stop + TWO32 - row.start) % TWO32
  }

  predicate DataOk(data: nat) {
    data % PGSIZE == 0 && EXTMEM < data < PHYSTOP
  }

  /** The kernel's mapping, page by page. */
  function KernelPte(data: nat, v: nat): nat {
    if USERPAGES <= v < USERPAGES + TOP then
      Entry(v - USERPAGES, if EXTMEM / PGSIZE <= v - USERPAGES < data / PGSIZE then 0 else PTE_W)
    else if DEVSPACE / PGSIZE <= v < PAGES then Entry(v, PTE_W)
    else 0
  }

  /** The pages of row i. */
  function RowFirst(data: nat, i: nat): nat
    requires i < 4
  {
    Kmap(data)[i].virt / PGSIZE
  }

  function RowStop(data: nat, i: nat): nat
    requires i < 4
  {
    if i == 0 then USERPAGES + EXTMEM / PGSIZE else if i == 1 then USERPAGES + data / PGSIZE
    else if i == 2 then USERPAGES + TOP else PAGES
  }

  lemma RowShape(data: nat, i: nat)
    requires DataOk(data) && i < 4
    ensures var row := Kmap(data)[i];
            && row.virt % PGSIZE == 0 && row.start % PGSIZE == 0 && row.start < TWO32 && Size(row) >= 1
               && row.virt + Size(row) <= TWO32
            && (row.virt + Size(row) - 1) / PGSIZE + 1 == RowStop(data, i)
            && USERPAGES <= RowFirst(data, i) < RowStop(data, i) <= PAGES && row.perm < PGSIZE
            && row.start / PGSIZE == if i < 3 then RowFirst(data, i) - USERPAGES else RowFirst(data, i)
  {
  }

  /** Page v is in one of the first i rows. */
  predicate InRows(data: nat, i: nat, v: nat)
    requires i <= 4
  {
    exists r: nat :: r < i && RowFirst(data, r) <= v < RowStop(data, r)
  }

  /** No page is in two rows. */
  lemma RowsDisjoint(data: nat, i: nat, v: nat)
    requires DataOk(data) && i < 4 && RowFirst(data, i) <= v < RowStop(data, i)
    ensures !InRows(data, i, v)
    ensures v < PAGES ==> KernelPte(data, v) == Entry(Kmap(data)[i].start / PGSIZE + (v - RowFirst(data, i)),
              Kmap(data)[i].perm)
  {
    assert data / PGSIZE * PGSIZE == data;
  }

  lemma AllRows(data: nat, v: nat)
    requires DataOk(data) && v < PAGES
    ensures !InRows(data, 4, v) ==> KernelPte(data, v) == 0
  {
    assert data / PGSIZE * PGSIZE == data;
    if USERPAGES <= v < USERPAGES + EXTMEM / PGSIZE {
      assert RowFirst(data, 0) <= v < RowStop(data, 0);
    } else if USERPAGES <= v < USERPAGES + data / PGSIZE {
      assert RowFirst(data, 1) <= v < RowStop(data, 1);
    } else if USERPAGES <= v < USERPAGES + TOP {
      assert RowFirst(data, 2) <= v < RowStop(data, 2);
    } else if DEVSPACE / PGSIZE <= v {
      assert RowFirst(data, 3) <= v < RowStop(data, 3);
    }
  }

  /** Directory d is new and all that is new belongs to it; what was in use is as it was. */
  ghost predicate Built(mem0: seq<Page>, mem: seq<Page>, own0: Owners, own: Owners, d: nat) {
    && |mem0| == |mem| == TOP && (forall p :: p in own0 ==> p < TOP)
    && d !in own0 && IsDir(own, d)
    && (forall p :: p in own0 ==> p in own && own[p] == own0[p] && mem[p] == mem0[p])
    && (forall p :: p in own ==> p in own0 || Belongs(own, d, p))
  }

  /** The first i rows of kmap are mapped and nothing else is. */
  ghost predicate KernelRows(mem: seq<Page>, d: nat, data: nat, i: nat)
    requires d < |mem| && i <= 4
  {
    forall v: nat :: v < PAGES ==> Pte(mem, d, v) == if InRows(data, i, v) then KernelPte(data, v) else 0
  }

  lemma BuiltMore(mem0: seq<Page>, mem1: seq<Page>, mem2: seq<Page>, own0: Owners, own1: Owners, own2: Owners, d: nat,
                  first: nat, m: nat, p0: nat, perm: nat)
    requires Trees(mem0, own0) && Built(mem0, mem1, own0, own1, d)
             && MapsTo(mem1, mem2, own1, own2, d, first, m, p0, perm)
    requires forall p: nat :: !Backs(first, m, p0, p)
    ensures Built(mem0, mem2, own0, own2, d)
  {
    forall p | p in own0 ensures p in own2 && own2[p] == own0[p] && mem2[p] == mem0[p] {
      assert p in own1 && !Backs(first, m, p0, p);
      assert BackOk(mem0, own0, p);
      assert !TableOf(own1, d, p);
    }
    assert !Backs(first, m, p0, d);
    forall p | p in own2 && p !in own0 ensures Belongs(own2, d, p) {
      assert p in own1 ==> Belongs(own1, d, p);
    }
  }

  lemma RowsMore(mem1: seq<Page>, mem2: seq<Page>, d: nat, data: nat, i: nat)
    requires DataOk(data) && i < 4 && d < |mem1| && d < |mem2| && KernelRows(mem1, d, data, i)
    requires Kmap(data)[i].perm < PGSIZE
    requires EntriesTo(mem1, mem2, d, RowFirst(data, i), RowStop(data, i), Kmap(data)[i].start / PGSIZE,
               Kmap(data)[i].perm)
    ensures KernelRows(mem2, d, data, i + 1)
  {
    forall v: nat | v < PAGES ensures Pte(mem2, d, v) == if InRows(data, i + 1, v) then KernelPte(data, v) else 0 {
      if RowFirst(data, i) <= v < RowStop(data, i) {
        RowsDisjoint(data, i, v);
        assert InRows(data, i + 1, v);
      } else {
        assert InRows(data, i + 1, v) <==> InRows(data, i, v);
      }
    }
  }

  /** The tables that kmap's rows lie in: 56 for physical memory and 8 for the devices. */
  predicate KernelTable(j: nat) {
    512 <= j < 568 || 1016 <= j < 1024
  }

  const KERNEL_TABLES: nat := 64

  /** Past the last table of the first i rows of physical memory. */
  function RowEnd(data: nat, i: nat): nat
    requires i < 4
  {
    if i == 0 then 512 else TableEnd(RowFirst(data, i - 1), RowStop(data, i - 1))
  }

  /** The first i rows have their tables in a directory that had none, at the price of n0 - n pages. */
  ghost predicate RowsPaid(dir: Page, data: nat, i: nat, n0: nat, n: nat)
    requires i <= 4
  {
    if i < 4 then Billed(ZeroPage(), dir, 512, RowEnd(data, i), n0, n)
    else n0 == n + KERNEL_TABLES && forall j: nat :: j < PGWORDS ==> (Present(dir[j]) <==> KernelTable(j))
  }

  lemma RowEdges(data: nat, i: nat)
    requires DataOk(data) && i < 4
    ensures var lo, hi := RowFirst(data, i) / PGWORDS, TableEnd(RowFirst(data, i), RowStop(data, i));
            if i < 3 then 512 <= lo <= RowEnd(data, i) <= hi <= 568
            else lo == 1016 && hi == 1024 && RowEnd(data, 3) == 568
  {
    assert data / PGSIZE * PGSIZE == data;
  }

  /** The devices' row has tables of its own. */
  lemma DevicesPaid(dir: Page, dir': Page, n0: nat, n1: nat, n2: nat)
    requires Billed(ZeroPage(), dir, 512, 568, n0, n1)
    ensures n0 == n1 + 56 && Absent(dir, 1016, 1024) == 8
    ensures Billed(dir, dir', 1016, 1024, n1, n2) ==>
              forall j: nat :: j < PGWORDS ==> (Present(dir'[j]) <==> KernelTable(j))
  {
    forall j: nat | j < PGWORDS ensures Present(dir[j]) <==> 512 <= j < 568 {
      assert TableNow(ZeroPage(), dir, 512, 568, j);
    }
    AbsentAll(ZeroPage(), 512, 568);
    AbsentAll(dir, 1016, 1024);
    if Billed(dir, dir', 1016, 1024, n1, n2) {
      forall j: nat | j < PGWORDS ensures Present(dir'[j]) <==> KernelTable(j) {
        assert TableNow(dir, dir', 1016, 1024, j);
      }
    }
  }

  lemma RowPaid(dir: Page, dir': Page, data: nat, i: nat, n0: nat, n1: nat, n2: nat)
    requires DataOk(data) && i < 4 && RowsPaid(dir, data, i, n0, n1)
             && Paid(dir, dir', RowFirst(data, i), RowStop(data, i), n1, n2)
    ensures RowsPaid(dir', data, i + 1, n0, n2)
  {
    var lo, hi := RowFirst(data, i) / PGWORDS, TableEnd(RowFirst(data, i), RowStop(data, i));
    RowEdges(data, i);
    assert Spans(RowFirst(data, i), RowStop(data, i), lo, hi);
    if i < 3 {
      BilledJoin(ZeroPage(), dir, dir', 512, RowEnd(data, i), lo, hi, n0, n1, n2);
    } else {
      DevicesPaid(dir, dir', n0, n1, n2);
    }
  }

  lemma RowShort(dir: Page, data: nat, i: nat, n0: nat, n1: nat)
    requires DataOk(data) && i < 4 && RowsPaid(dir, data, i, n0, n1)
             && TooFew(dir, RowFirst(data, i), RowStop(data, i), n1, 0)
    ensures n0 < KERNEL_TABLES
  {
    var lo, hi := RowFirst(data, i) / PGWORDS, TableEnd(RowFirst(data, i), RowStop(data, i));
    RowEdges(data, i);
    assert Spans(RowFirst(data, i), RowStop(data, i), lo, hi);
    if i < 3 {
      AbsentAfter(ZeroPage(), dir, 512, RowEnd(data, i), lo, hi, n0, n1);
      AbsentAll(ZeroPage(), 512, hi);
    } else {
      DevicesPaid(dir, dir, n0, n1, n1);
    }
  }

  /** One row of kmap. */
  method RowTurn(k: Kmem, d: nat, data: nat, i: nat, ghost mem0: seq<Page>, ghost own0: Owners) returns (ok: bool)
    requires Ok(k) && DataOk(data) && i < 4 && Trees(mem0, own0)
    requires Built(mem0, k.mem, own0, k.own, d) && KernelRows(k.mem, d, data, i)
    modifies k
    ensures Ok(k) && Built(mem0, k.mem, own0, k.own, d)
    ensures ok ==> KernelRows(k.mem, d, data, i + 1)
    ensures ok ==> Paid(old(k.mem)[d], k.mem[d], RowFirst(data, i), RowStop(data, i), |old(k.free)|, |k.free|)
    ensures !ok ==> TooFew(old(k.mem)[d], RowFirst(data, i), RowStop(data, i), |old(k.free)|, 0)
  {
    ghost var mem1, own1 := k.mem, k.own;
    ghost var m;
    ok, m := MapRow(k, d, data, i);
    BuiltMore(mem0, mem1, k.mem, own0, own1, k.own, d, RowFirst(data, i), m, Kmap(data)[i].start / PGSIZE,
        Kmap(data)[i].perm);
    if ok {
      RowsMore(mem1, k.mem, d, data, i);
    }
  }

  /** mappages of a row, in page numbers; no page of it can be mapped before. */
  method MapRow(k: Kmem, d: nat, data: nat, i: nat) returns (ok: bool, ghost m: nat)
    requires Ok(k) && IsDir(k.own, d) && DataOk(data) && i < 4 && KernelRows(k.mem, d, data, i)
    modifies k
    ensures Ok(k) && RowFirst(data, i) <= m <= RowStop(data, i) && (ok <==> m == RowStop(data, i))
    ensures Kmap(data)[i].perm < PGSIZE && forall p: nat ::
              !Backs(RowFirst(data, i), m, Kmap(data)[i].start / PGSIZE, p)
    ensures MapsTo(old(k.mem), k.mem, old(k.own), k.own, d, RowFirst(data, i), m, Kmap(data)[i].start / PGSIZE,
              Kmap(data)[i].perm)
    ensures ok ==> Paid(old(k.mem)[d], k.mem[d], RowFirst(data, i), RowStop(data, i), |old(k.free)|, |k.free|)
    ensures !ok ==> TooFew(old(k.mem)[d], RowFirst(data, i), RowStop(data, i), |old(k.free)|, 0)
  {
    RowShape(data, i);
    var row := Kmap(data)[i];
    var r;
    r, m := MapPages(k, d, row.virt, Size(row), row.start, row.perm);
    if r == Remap {
      RowsDisjoint(data, i, m);
      assert false;
    }
    ok := r == Mapped;
  }

  /** d maps the kernel and nothing below it. */
  ghost predicate KernelSpace(mem: seq<Page>, d: nat, data: nat)
    requires d < |mem|
  {
    forall v: nat :: v < PAGES ==> Pte(mem, d, v) == KernelPte(data, v)
  }

  /** Taking all of d away again gives back the owners there were. */
  lemma BuiltUndone(mem0: seq<Page>, mem: seq<Page>, own0: Owners, own: Owners, d: nat)
    requires Trees(mem0, own0) && Built(mem0, mem, own0, own, d)
    ensures Without(own, d) == own0
  {
    forall p | p in own0 ensures !Belongs(own, d, p) {
      assert BackOk(mem0, own0, p);
    }
  }

  lemma BuiltDir(mem0: seq<Page>, mem: seq<Page>, own0: Owners, p: nat)
    requires Trees(mem0, own0) && p !in own0 && p < TOP && mem == mem0[p := ZeroPage()]
    requires Trees(mem, own0[p := Loose])
    ensures var own := own0[p := Dir]; Trees(mem, own) && Built(mem0, mem, own0, own, p)
    ensures forall v: nat :: v < PAGES ==> Pte(mem, p, v) == 0
  {
    NewDir(mem, own0[p := Loose], p);
    assert own0[p := Loose][p := Dir] == own0[p := Dir];
  }

  /** freevm of a space under construction: nothing in use has changed, and every page it took is free. */
  method Scrap(k: Kmem, d: nat, ghost mem0: seq<Page>, ghost own0: Owners)
    requires Ok(k) && Trees(mem0, own0) && Built(mem0, k.mem, own0, k.own, d)
    modifies k
    ensures Ok(k) && k.own == own0 && forall p :: p in own0 ==> k.mem[p] == mem0[p]
  {
    BuiltUndone(mem0, k.mem, own0, k.own, d);
    FreeVm(k, d);
  }

  /** setupkvm: a new space mapping the kernel, or no page taken. */
  method SetupKvm(k: Kmem, data: nat) returns (r: Option<nat>)
    requires Ok(k) && DataOk(data)
    modifies k
    ensures Ok(k)
    ensures r.Some? ==> Built(old(k.mem), k.mem, old(k.own), k.own, r.value) && KernelSpace(k.mem, r.value, data)
    ensures r.None? ==> k.own == old(k.own) && forall p :: p in k.own ==> k.mem[p] == old(k.mem)[p]
    ensures r.Some? <==> |old(k.free)| >= 1 + KERNEL_TABLES
    ensures r.Some? ==> RowsPaid(k.mem[r.value], data, 4, |old(k.free)| - 1, |k.free|)
  {
    ghost var mem0, own0 := k.mem, k.own;
    r := GrabZero(k);
    if r.None? {
      return;
    }
    var d := r.value;
    BuiltDir(mem0, k.mem, own0, d);
    Reuse(First(k.end), k.free, k.own, d, Dir);
    k.own := k.own[d := Dir];
    assert k.own == own0[d := Dir];
    ghost var n0 := |k.free|;
    var i := 0;
    while i < 4
      invariant i <= 4 && Ok(k) && Built(mem0, k.mem, own0, k.own, d) && KernelRows(k.mem, d, data, i)
      invariant RowsPaid(k.mem[d], data, i, n0, |k.free|)
    {
      ghost var dir, n := k.mem[d], |k.free|;
      var ok := RowTurn(k, d, data, i, mem0, own0);
      if ok {
        RowPaid(dir, k.mem[d], data, i, n0, n, |k.free|);
      } else {
        RowShort(dir, data, i, n0, n);
        Scrap(k, d, mem0, own0);
        return None;
      }
      i := i + 1;
    }
    forall v: nat | v < PAGES ensures Pte(k.mem, d, v) == KernelPte(data, v) {
      AllRows(data, v);
    }
  }

  // ---------------------------------------------------------------- copyuvm

  /** Page v of d has the contents and permissions of page v of d0, on a page not in use before. */
  ghost predicate CopyOf(mem0: seq<Page>, mem: seq<Page>, own0: Owners, d0: nat, d: nat, v: nat)
    requires d0 < |mem0| && d < |mem| && v < PAGES
  {
    && Present(Pte(mem0, d0, v)) && Present(Pte(mem, d, v)) && Flags(Pte(mem, d, v)) == Flags(Pte(mem0, d0, v))
    && Frame(Pte(mem0, d0, v)) < |mem0| && Frame(Pte(mem, d, v)) < |mem| && Frame(Pte(mem, d, v)) !in own0
    && mem[Frame(Pte(mem, d, v))] == mem0[Frame(Pte(mem0, d0, v))]
  }

  /** d is a copy of the first m pages of d0, with the kernel above; all else in use is as it was. */
  ghost predicate Copied(mem0: seq<Page>, mem: seq<Page>, own0: Owners, own: Owners, d0: nat, d: nat, data: nat,
                         m: nat)
  {
    && Built(mem0, mem, own0, own, d) && IsDir(own0, d0) && m <= USERPAGES && d < TOP
    && (forall v: nat :: v < m ==> CopyOf(mem0, mem, own0, d0, d, v))
    && (forall v: nat :: m <= v < PAGES ==> Pte(mem, d, v) == KernelPte(data, v))
  }

  /** The page is copied and mapped: one more page of the copy. */
  lemma CopiedMore(mem0: seq<Page>, mem1: seq<Page>, mem2: seq<Page>, mem3: seq<Page>, own0: Owners, own1: Owners,
                   own3: Owners,
                   d0: nat, d: nat, data: nat, v: nat, p: nat)
    requires Trees(mem0, own0) && Trees(mem1, own1) && Copied(mem0, mem1, own0, own1, d0, d, data, v) && v < USERPAGES
    requires HasPage(mem0, own0, d0, v) && Frame(Pte(mem0, d0, v)) < TOP
    requires p !in own1 && p < TOP && mem2 == mem1[p := mem0[Frame(Pte(mem0, d0, v))]]
    requires MapsTo(mem2, mem3, own1[p := Loose], own3, d, v, v + 1, p, Flags(Pte(mem0, d0, v)))
    ensures Copied(mem0, mem3, own0, own3, d0, d, data, v + 1)
  {
    var own2 := own1[p := Loose];
    CopiedBuilt(mem0, mem1, mem2, mem3, own0, own1, own3, d, v, v + 1, p, Flags(Pte(mem0, d0, v)));
    CopiedPages(mem0, mem1, mem2, mem3, own0, own1, own3, d0, d, data, v, p);
    assert Backs(v, v + 1, p, p);
  }

  lemma CopiedBuilt(mem0: seq<Page>, mem1: seq<Page>, mem2: seq<Page>, mem3: seq<Page>, own0: Owners, own1: Owners,
                    own3: Owners,
                    d: nat, v: nat, m: nat, p: nat, perm: nat)
    requires Trees(mem0, own0) && Built(mem0, mem1, own0, own1, d) && v < USERPAGES && v <= m <= v + 1
    requires p !in own1 && p < TOP && |mem2| == TOP && forall q: nat :: q < TOP && q != p ==> mem2[q] == mem1[q]
    requires MapsTo(mem2, mem3, own1[p := Loose], own3, d, v, m, p, perm)
    ensures Built(mem0, mem3, own0, if m == v then own3 - {p} else own3, d)
    ensures m == v ==> p in own3 && own3[p] == Loose
    ensures p !in own0
  {
    CopiedOwners(own0, own1, own3, d, v, m, p);
    CopiedData(mem0, mem1, mem2, mem3, own0, own1, own1[p := Loose], d, p);
  }

  lemma CopiedData(mem0: seq<Page>, mem1: seq<Page>, mem2: seq<Page>, mem3: seq<Page>, own0: Owners, own1: Owners,
                   own2: Owners, d: nat, p: nat)
    requires Trees(mem0, own0) && Built(mem0, mem1, own0, own1, d) && own2 == own1[p := Loose] && p !in own1 && p < TOP
             && |mem2| == |mem3| == TOP
    requires forall q: nat :: q < TOP && q != p ==> mem2[q] == mem1[q]
    requires (forall q :: q in own2 ==> q < TOP) && KeepsData(mem2, mem3, own2, d)
    ensures forall q :: q in own0 ==> mem3[q] == mem0[q]
  {
    forall q | q in own0 ensures mem3[q] == mem0[q] {
      assert BackOk(mem0, own0, q);
      assert !TableOf(own2, d, q);
    }
  }

  lemma CopiedOwners(own0: Owners, own1: Owners, own3: Owners, d: nat, v: nat, m: nat, p: nat)
    requires v < USERPAGES && v <= m <= v + 1 && p !in own1 && IsDir(own1, d)
    requires forall q :: q in own1 ==> q in own0 || Belongs(own1, d, q)
    requires OwnersTo(own1[p := Loose], own3, d, v, m, p)
    ensures forall q :: q in own1 ==> q in own3 && own3[q] == own1[q]
    ensures m == v ==> p in own3 && own3[p] == Loose
    ensures forall q :: q in own3 && !(m == v && q == p) ==> q in own0 || Belongs(own3, d, q)
  {
    forall q | q in own1 ensures q in own3 && own3[q] == own1[q] {
      assert !Backs(v, m, p, q);
    }
    assert Backs(v, m, p, p) <==> m == v + 1;
    forall q | q in own3 && q !in own0 && !(m == v && q == p) ensures Belongs(own3, d, q) {
      assert q in own1 ==> Belongs(own1, d, q);
    }
  }

  lemma CopiedPages(mem0: seq<Page>, mem1: seq<Page>, mem2: seq<Page>, mem3: seq<Page>, own0: Owners, own1: Owners,
                    own3: Owners,
                    d0: nat, d: nat, data: nat, v: nat, p: nat)
    requires Trees(mem1, own1) && Copied(mem0, mem1, own0, own1, d0, d, data, v) && v < USERPAGES
    requires Present(Pte(mem0, d0, v)) && Frame(Pte(mem0, d0, v)) < TOP
    requires p !in own1 && p < TOP && mem2 == mem1[p := mem0[Frame(Pte(mem0, d0, v))]]
    requires MapsTo(mem2, mem3, own1[p := Loose], own3, d, v, v + 1, p, Flags(Pte(mem0, d0, v)))
    ensures forall u: nat :: u < v + 1 ==> CopyOf(mem0, mem3, own0, d0, d, u)
    ensures forall u: nat :: v + 1 <= u < PAGES ==> Pte(mem3, d, u) == KernelPte(data, u)
  {
    forall u: nat | u < PAGES ensures Pte(mem2, d, u) == Pte(mem1, d, u) {
      PteFrame(mem1, mem2, own1, d, u);
    }
    forall u: nat | u < v + 1 ensures CopyOf(mem0, mem3, own0, d0, d, u) {
      if u < v {
        assert CopyOf(mem0, mem1, own0, d0, d, u);
        CopyStays(mem0, mem1, mem2, mem3, own0, own1, d0, d, u, p);
      } else {
        CopyComes(mem0, mem1, mem2, mem3, own0, own1, d0, d, v, p);
      }
    }
  }

  /** A page copied before. */
  lemma CopyStays(mem0: seq<Page>, mem1: seq<Page>, mem2: seq<Page>, mem3: seq<Page>, own0: Owners, own1: Owners,
                  d0: nat, d: nat, u: nat, p: nat)
    requires Trees(mem1, own1) && IsDir(own1, d) && |mem0| == |mem2| == |mem3| == TOP && p !in own1 && p < TOP
    requires u < USERPAGES && d0 < TOP && CopyOf(mem0, mem1, own0, d0, d, u) && Pte(mem3, d, u) == Pte(mem1, d, u)
    requires KeepsData(mem2, mem3, own1[p := Loose], d) && forall q: nat :: q < TOP && q != p ==> mem2[q] == mem1[q]
    ensures CopyOf(mem0, mem3, own0, d0, d, u)
  {
    assert PteOk(mem1, own1, d, u);
    assert !TableOf(own1[p := Loose], d, Frame(Pte(mem1, d, u)));
  }

  /** The page copied now. */
  lemma CopyComes(mem0: seq<Page>, mem1: seq<Page>, mem2: seq<Page>, mem3: seq<Page>, own0: Owners, own1: Owners,
                  d0: nat, d: nat, v: nat, p: nat)
    requires Trees(mem1, own1) && IsDir(own1, d) && |mem0| == |mem3| == TOP && p !in own1 && p !in own0 && p < TOP
    requires v < USERPAGES && d0 < TOP && Present(Pte(mem0, d0, v)) && Frame(Pte(mem0, d0, v)) < TOP
    requires mem2 == mem1[p := mem0[Frame(Pte(mem0, d0, v))]] && Pte(mem3, d, v) == Entry(p, Flags(Pte(mem0, d0, v)))
    requires KeepsData(mem2, mem3, own1[p := Loose], d)
    ensures CopyOf(mem0, mem3, own0, d0, d, v)
  {
    CopyFlags(Pte(mem0, d0, v), p);
    assert !TableOf(own1[p := Loose], d, p);
  }

  lemma CopyFlags(e: nat, p: nat)
    requires Present(e)
    ensures Flags(Entry(p, Flags(e))) == Flags(e)
  {
    assert e == 2 * (PGSIZE / 2 * (e / PGSIZE)) + e % PGSIZE;
  }

  datatype Fork = Child(d: nat) | Failed | Stopped

  /** The parent's entry for v is still there while the copy is built. */
  lemma ParentEntry(mem0: seq<Page>, mem: seq<Page>, own0: Owners, own: Owners, d0: nat, d: nat, v: nat)
    requires Trees(mem0, own0) && Built(mem0, mem, own0, own, d) && IsDir(own0, d0) && v < PAGES
    ensures Pte(mem, d0, v) == Pte(mem0, d0, v) && Pde(mem, d0, v) == Pde(mem0, d0, v) && IsDir(own, d0)
  {
    PteFrame(mem0, mem, own0, d0, v);
  }

  /** The parent's page is copied into a page just allocated. */
  method CopyPage(k: Kmem, p: nat, q: nat)
    requires Ok(k) && p in k.own && k.own[p] == Loose && q < TOP
    modifies k`mem
    ensures Ok(k) && k.mem == old(k.mem)[p := old(k.mem)[q]]
  {
    ghost var mem0 := k.mem;
    k.mem := k.mem[p := k.mem[q]];
    TouchLoose(mem0, k.mem, k.own, k.own, p);
    KeepChain(mem0, k.mem, k.freelist, k.free, p);
    UsedNotFree(First(k.end), k.free, k.own, p);
  }

  /** Page p, not in use before, holds what frame q holds and is mapped as page v of d. */
  ghost predicate CopiedAt(mem1: seq<Page>, mem: seq<Page>, own1: Owners, own: Owners, d: nat, v: nat, page: Page,
                           perm: nat, p: nat)
  {
    p !in own1 && p < |mem1| && MapsTo(mem1[p := page], mem, own1[p := Loose], own, d, v, v + 1, p, perm)
  }

  ghost predicate PageCopied(mem1: seq<Page>, mem: seq<Page>, own1: Owners, own: Owners, d: nat, v: nat, page: Page,
                             perm: nat)
  {
    exists p: nat :: CopiedAt(mem1, mem, own1, own, d, v, page, perm, p)
  }

  /** The page just taken is filled and mapped as page v of d, or goes back. */
  method PlaceCopy(k: Kmem, d: nat, v: nat, p: nat, q: nat, perm: nat, ghost mem0: seq<Page>, ghost own0: Owners,
                   ghost own1: Owners) returns (ok: bool)
    requires Ok(k) && Trees(mem0, own0) && Trees(k.mem, own1) && p !in own1 && p < TOP && k.own == own1[p := Loose]
             && Built(mem0, k.mem, own0, own1, d)
    requires v < USERPAGES && perm < PGSIZE && q in own0 && !Present(Pte(k.mem, d, v))
    modifies k
    ensures Ok(k)
    ensures !ok ==> Built(mem0, k.mem, own0, k.own, d) && NoneLeft(old(k.mem)[d], v, |old(k.free)| + 1)
    ensures ok ==> PageCopied(old(k.mem), k.mem, own1, k.own, d, v, mem0[q], perm)
    ensures ok ==> Charged(old(k.mem)[d], k.mem[d], v, |old(k.free)| + 1, |k.free| + 1)
  {
    ghost var mem1, n1 := k.mem, |k.free|;
    CopyPage(k, p, q);
    ghost var mem2 := k.mem;
    PteFrame(mem1, mem2, own1, d, v);
    var t := MapOne(k, d, v, p, perm);
    ok := t == Mapped;
    if ok {
      ChargedPlus(mem1[d], k.mem[d], v, n1, |k.free|, 1);
      assert CopiedAt(mem1, k.mem, own1, k.own, d, v, mem0[q], perm, p);
    } else {
      CopiedBuilt(mem0, mem1, mem2, k.mem, own0, own1, k.own, d, v, v, p, perm);
      GiveUp(k, p, d, mem0, own0);
    }
  }

  /** copyuvm's loop body from kalloc on: frame q is copied and mapped as page v of d. */
  method CopyFrame(k: Kmem, d: nat, v: nat, q: nat, perm: nat, ghost mem0: seq<Page>, ghost own0: Owners)
    returns (ok: bool)
    requires Ok(k) && Trees(mem0, own0) && Built(mem0, k.mem, own0, k.own, d) && v < USERPAGES && perm < PGSIZE
    requires q in own0 && !Present(Pte(k.mem, d, v))
    modifies k
    ensures Ok(k)
    ensures !ok ==> Built(mem0, k.mem, own0, k.own, d) && NoneLeft(old(k.mem)[d], v, |old(k.free)|)
    ensures ok ==> Charged(old(k.mem)[d], k.mem[d], v, |old(k.free)|, |k.free| + 1)
    ensures ok ==> PageCopied(old(k.mem), k.mem, old(k.own), k.own, d, v, mem0[q], perm)
  {
    ghost var own1, n1 := k.own, |k.free|;
    var page := Grab(k);
    if page.None? {
      return false;
    }
    assert n1 == |k.free| + 1;
    ok := PlaceCopy(k, d, v, page.value, q, perm, mem0, own0, own1);
  }

  /** kfree of the page that could not be mapped. */
  method GiveUp(k: Kmem, p: nat, d: nat, ghost mem0: seq<Page>, ghost own0: Owners)
    requires Ok(k) && p in k.own && k.own[p] == Loose && p !in own0 && Built(mem0, k.mem, own0, k.own - {p}, d)
    modifies k
    ensures Ok(k) && Built(mem0, k.mem, own0, k.own, d)
  {
    ghost var mem1, own1 := k.mem, k.own;
    Release(k, p);
    TouchLoose(mem1, k.mem, own1, k.own, p);
  }

  /** One turn of copyuvm's loop. */
  method CopyTurn(k: Kmem, d0: nat, d: nat, data: nat, v: nat, ghost mem0: seq<Page>, ghost own0: Owners)
    returns (r: Turned)
    requires Ok(k) && Trees(mem0, own0) && v < USERPAGES && Copied(mem0, k.mem, own0, k.own, d0, d, data, v)
    modifies k
    ensures r == More ==> Ok(k) && Copied(mem0, k.mem, own0, k.own, d0, d, data, v + 1)
    ensures r == Out ==> Ok(k) && Built(mem0, k.mem, own0, k.own, d) && NoneLeft(old(k.mem)[d], v, |old(k.free)|)
    ensures r == More ==> Charged(old(k.mem)[d], k.mem[d], v, |old(k.free)|, |k.free| + 1)
    ensures r == Panic <==> !Present(Pte(mem0, d0, v))
  {
    ghost var mem1, own1 := k.mem, k.own;
    ParentEntry(mem0, k.mem, own0, k.own, d0, d, v);
    var tab := WalkPgDir(k, d0, v, false);
    if tab.None? {
      return Panic;
    }
    var e := k.mem[tab.value][v % PGWORDS];
    if !Present(e) {
      return Panic;
    }
    PageFrame(mem0, own0, d0, v);
    var ok := CopyFrame(k, d, v, Frame(e), Flags(e), mem0, own0);
    if ok {
      ghost var p: nat :| CopiedAt(mem1, k.mem, own1, k.own, d, v, mem0[Frame(e)], Flags(e), p);
      CopiedMore(mem0, mem1, mem1[p := mem0[Frame(e)]], k.mem, own0, own1, k.own, d0, d, data, v, p);
      return More;
    }
    return Out;
  }

  /** The first v pages are copied. */
  ghost predicate Copying(k: Kmem, mem0: seq<Page>, own0: Owners, d0: nat, d: nat, data: nat, v: nat)
    reads k
  {
    && |k.mem| == |mem0| == TOP && d < TOP && d0 < TOP
    && forall b: nat {:trigger Upto(v, b)} :: Upto(v, b) ==> Ok(k) && Copied(mem0, k.mem, own0, k.own, d0, d, data, b)
  }

  lemma CopyingIs(k: Kmem, mem0: seq<Page>, own0: Owners, d0: nat, d: nat, data: nat, v: nat)
    requires Ok(k) && Copied(mem0, k.mem, own0, k.own, d0, d, data, v)
    ensures Copying(k, mem0, own0, d0, d, data, v)
  {
  }

  /** The same turn, folded. */
  method CopyStep(k: Kmem, d0: nat, d: nat, data: nat, v: nat, ghost mem0: seq<Page>, ghost own0: Owners)
    returns (r: Turned)
    requires Trees(mem0, own0) && v < USERPAGES && Copying(k, mem0, own0, d0, d, data, v)
    modifies k
    ensures r == More ==>
              Copying(k, mem0, own0, d0, d, data, v + 1)
                  && Charged(old(k.mem)[d], k.mem[d], v, |old(k.free)|, |k.free| + 1)
    ensures r == Out ==> Ok(k) && Built(mem0, k.mem, own0, k.own, d) && NoneLeft(old(k.mem)[d], v, |old(k.free)|)
    ensures r == Panic <==> !Present(Pte(mem0, d0, v))
  {
    assert Upto(v, v);
    r := CopyTurn(k, d0, d, data, v, mem0, own0);
    if r == More {
      CopyingIs(k, mem0, own0, d0, d, data, v + 1);
    }
  }

  /** A turn, and what it pays out of n0 pages; it fails only if they could not do for all of [0, stop). */
  method CopyNext(k: Kmem, d0: nat, d: nat, data: nat, v: nat, ghost mem0: seq<Page>, ghost own0: Owners,
                  ghost stop: nat, ghost dir: Page, ghost n0: nat) returns (r: Turned)
    requires v < stop <= USERPAGES && Trees(mem0, own0) && Copying(k, mem0, own0, d0, d, data, v)
             && Paid(dir, k.mem[d], 0, v, n0, |k.free| + v)
    modifies k
    ensures r == More ==>
              Copying(k, mem0, own0, d0, d, data, v + 1) && Paid(dir, k.mem[d], 0, v + 1, n0, |k.free| + (v + 1))
    ensures r == Out ==> Ok(k) && Built(mem0, k.mem, own0, k.own, d) && n0 < stop + Lacking(dir, 0, stop)
    ensures r == Panic <==> !Present(Pte(mem0, d0, v))
    ensures n0 >= v + Lacking(dir, 0, v)
  {
    ghost var dir1, n1 := k.mem[d], |k.free|;
    PaidPrice(dir, dir1, 0, v, n0, n1 + v);
    r := CopyStep(k, d0, d, data, v, mem0, own0);
    if r == More {
      PaidMore(dir, dir1, k.mem[d], 0, v, n0, n1, |k.free|);
    } else if r == Out {
      PaidOut(dir, dir1, 0, v, stop, n0, n1);
      TooFewPrice(dir, 0, stop, n0, stop);
    }
  }

  /** The pages that copying the first n user pages takes: directory, kernel tables, user pages and their tables. */
  function CopyCost(n: nat): nat {
    1 + KERNEL_TABLES + n + (n + PGWORDS - 1) / PGWORDS
  }

  /** The first page from v on that is not present, or n if there is none below n. */
  ghost function FirstAbsent(mem: seq<Page>, d: nat, v: nat, n: nat): (u: nat)
    requires d < |mem| && v <= n <= PAGES
    ensures v <= u <= n && (u < n ==> !Present(Pte(mem, d, u)))
            && forall w: nat :: v <= w < u ==> Present(Pte(mem, d, w))
    decreases n - v
  {
    if v == n || !Present(Pte(mem, d, v)) then v else FirstAbsent(mem, d, v + 1, n)
  }

  /** No user table is there before the first page is copied. */
  lemma CopyPrice(dir: Page, data: nat, stop: nat, n0: nat, n: nat)
    requires stop <= USERPAGES && RowsPaid(dir, data, 4, n0, n)
    ensures Lacking(dir, 0, stop) == (stop + PGWORDS - 1) / PGWORDS
  {
    AbsentAll(dir, 0, TableEnd(0, stop));
  }

  /** copyuvm's loop, into the new directory d: n0 pages do, or not, for what comes before the first absent page. */
  method CopyPages(k: Kmem, d0: nat, d: nat, data: nat, stop: nat, ghost mem0: seq<Page>, ghost own0: Owners)
    returns (r: Turned)
    requires stop <= USERPAGES && Trees(mem0, own0) && Copying(k, mem0, own0, d0, d, data, 0)
    modifies k
    ensures var end, dir := FirstAbsent(mem0, d0, 0, stop), old(k.mem)[d];
            && (r == Out <==> |old(k.free)| < end + Lacking(dir, 0, end))
            && (r == Out ==> Ok(k) && Built(mem0, k.mem, own0, k.own, d))
            && (r == Panic ==> end < stop)
            && (r == More ==> end == stop && Copying(k, mem0, own0, d0, d, data, stop))
  {
    var v := 0;
    ghost var end, dir, n0 := FirstAbsent(mem0, d0, 0, stop), k.mem[d], |k.free|;
    PaidNone(dir, 0, n0);
    while v < stop
      invariant v <= end <= stop && Copying(k, mem0, own0, d0, d, data, v)
                && Paid(dir, k.mem[d], 0, v, n0, |k.free| + v)
    {
      r := CopyNext(k, d0, d, data, v, mem0, own0, if v < end then end else stop, dir, n0);
      if r != More {
        return;
      }
      v := v + 1;
    }
    PaidPrice(dir, k.mem[d], 0, v, n0, |k.free| + v);
    r := More;
  }

  /**
   copyuvm: a space with equal contents on pages of its own, or no page taken. The first
   page below sz that is not there stops it, unless it runs out of free pages before.
   */
  method CopyUvm(k: Kmem, d0: nat, sz: nat, data: nat) returns (r: Fork)
    requires Ok(k) && IsDir(k.own, d0) && sz <= KERNBASE && DataOk(data)
    modifies k
    ensures PagesBelow(sz) <= USERPAGES
    ensures r.Child? ==> Ok(k) && Copied(old(k.mem), k.mem, old(k.own), k.own, d0, r.d, data, PagesBelow(sz))
    ensures r.Failed? ==> Ok(k) && k.own == old(k.own) && forall p :: p in k.own ==> k.mem[p] == old(k.mem)[p]
    ensures r.Failed? <==> |old(k.free)| < CopyCost(FirstAbsent(old(k.mem), d0, 0, PagesBelow(sz)))
    ensures !r.Failed? ==> (r.Stopped? <==> FirstAbsent(old(k.mem), d0, 0, PagesBelow(sz)) < PagesBelow(sz))
  {
    ghost var mem0, own0, free0 := k.mem, k.own, |k.free|;
    PageAddress(0, sz);
    var stop := PagesBelow(sz);
    ghost var end := FirstAbsent(mem0, d0, 0, stop);
    var space := SetupKvm(k, data);
    if space.None? {
      return Failed;
    }
    var d := space.value;
    ghost var dir, n0 := k.mem[d], |k.free|;
    CopyPrice(dir, data, end, free0 - 1, n0);
    CopyingIs(k, mem0, own0, d0, d, data, 0);
    var t := CopyPages(k, d0, d, data, stop, mem0, own0);
    if t == Panic {
      return Stopped;
    }
    if t == Out {
      Scrap(k, d, mem0, own0);
      return Failed;
    }
    CopiedAll(k, mem0, own0, d0, d, data, stop);
    r := Child(d);
  }

  lemma CopiedAll(k: Kmem, mem0: seq<Page>, own0: Owners, d0: nat, d: nat, data: nat, v: nat)
    requires Copying(k, mem0, own0, d0, d, data, v)
    ensures Ok(k) && Copied(mem0, k.mem, own0, k.own, d0, d, data, v)
  {
    assert Upto(v, v);
  }

  /** Parent and child share no page. */
  lemma CopyIsDisjoint(mem0: seq<Page>, mem: seq<Page>, own0: Owners, own: Owners, d0: nat, d: nat, data: nat, m: nat,
                       v: nat, u: nat)
    requires Trees(mem, own) && Copied(mem0, mem, own0, own, d0, d, data, m) && u < USERPAGES && v < m
             && Present(Pte(mem, d0, u))
    ensures Frame(Pte(mem, d, v)) != Frame(Pte(mem, d0, u))
  {
    assert CopyOf(mem0, mem, own0, d0, d, v);
    assert PteOk(mem, own, d, v) && PteOk(mem, own, d0, u);
  }
}
