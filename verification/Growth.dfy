/**
 growproc of proc.c, on top of allocuvm and deallocuvm, and what fork makes of its result.
 copyuvm panics on a page below the size that is not present, so the size and the page table
 have to agree.
 */
module Growth {
  import opened Params
  import opened Kalloc
  import opened PageTables
  import opened Vm
  import opened AddressSpaces

  /** The user pages that are present are exactly those below sz. */
  ghost predicate Snug(mem: seq<Page>, d: nat, sz: nat)
    requires d < |mem|
  {
    forall v: nat :: v < USERPAGES ==> (Present(Pte(mem, d, v)) <==> v < PagesBelow(sz))
  }

  /** Page v of d is mapped as it was, and holds what it held. */
  predicate SamePage(mem0: seq<Page>, mem: seq<Page>, d: nat, v: nat)
    requires d < |mem0| && d < |mem| && v < PAGES
  {
    && Pte(mem, d, v) == Pte(mem0, d, v)
    && (Present(Pte(mem, d, v)) && v < USERPAGES ==>
          var p := Frame(Pte(mem, d, v)); p < |mem0| && p < |mem| && mem[p] == mem0[p])
  }

  /** Page p belongs to address space d. */
  predicate Of(own: Owners, d: nat, p: nat)
    requires p in own
  {
    p == d || ((own[p].Table? || own[p].User?) && own[p].d == d)
  }

  /** Only pages [from, stop) of d can differ: all else that is in use is used as it was and holds what it held. */
  ghost predicate Confined(mem0: seq<Page>, mem: seq<Page>, own0: Owners, own: Owners, d: nat, from: nat, stop: nat) {
    && |mem0| == |mem| == TOP && (forall p :: p in own0 ==> p < TOP) && d < TOP
    && (forall p :: p in own0 && !Of(own0, d, p) ==> p in own && own[p] == own0[p] && mem[p] == mem0[p])
    && (forall v: nat :: v < PAGES && !(from <= v < stop) ==> SamePage(mem0, mem, d, v))
  }

  /** In particular every other address space has its pages, tables and entries. */
  lemma OthersKept(mem0: seq<Page>, mem: seq<Page>, own0: Owners, own: Owners, d: nat, from: nat, stop: nat,
                   e: nat, v: nat)
    requires Trees(mem0, own0) && Confined(mem0, mem, own0, own, d, from, stop) && IsDir(own0, d)
    requires IsDir(own0, e) && e != d && v < PAGES
    ensures IsDir(own, e) && SamePage(mem0, mem, e, v)
  {
    assert !Of(own0, d, e);
    forall p | p in own0 && own0[p] == Table(e, v / PGWORDS) ensures mem[p] == mem0[p] {
      assert !Of(own0, d, p);
    }
    PteFrame(mem0, mem, own0, e, v);
    if v < USERPAGES && Present(Pte(mem0, e, v)) {
      assert PteOk(mem0, own0, e, v);
      assert !Of(own0, d, Frame(Pte(mem0, e, v)));
    }
  }

  lemma SameConfined(mem: seq<Page>, own: Owners, d: nat, from: nat, stop: nat)
    requires Trees(mem, own) && IsDir(own, d)
    ensures Confined(mem, mem, own, own, d, from, stop)
  {
    forall v: nat | v < PAGES ensures SamePage(mem, mem, d, v) {
      assert v < USERPAGES ==> PteOk(mem, own, d, v);
    }
  }

  lemma GrewConfined(mem0: seq<Page>, mem: seq<Page>, own0: Owners, own: Owners, d: nat, from: nat, stop: nat)
    requires Trees(mem0, own0) && Grew(mem0, mem, own0, own, d, from, stop)
    ensures Confined(mem0, mem, own0, own, d, from, stop)
  {
    forall v: nat | v < PAGES && !(from <= v < stop) ensures SamePage(mem0, mem, d, v) {
      assert v < USERPAGES ==> PteOk(mem0, own0, d, v);
    }
  }

  lemma ClearedConfined(mem0: seq<Page>, mem: seq<Page>, own0: Owners, own: Owners, d: nat, from: nat, stop: nat)
    requires Trees(mem0, own0) && AddressSpaces.Cleared(mem0, mem, own0, own, d, from, stop)
    ensures Confined(mem0, mem, own0, own, d, from, stop)
  {
    var kept := Trim(own0, d, from, stop);
    forall p | p in own0 && !Of(own0, d, p) ensures p in own && own[p] == own0[p] && mem[p] == mem0[p] {
      assert p in kept && !TableOf(kept, d, p);
    }
    forall v: nat | v < PAGES && !(from <= v < stop) ensures SamePage(mem0, mem, d, v) {
      if v < USERPAGES && Present(Pte(mem0, d, v)) {
        assert PteOk(mem0, own0, d, v);
        assert Frame(Pte(mem0, d, v)) in kept && !TableOf(kept, d, Frame(Pte(mem0, d, v)));
      }
    }
  }

  lemma TrimmedConfined(mem0: seq<Page>, mem: seq<Page>, own0: Owners, own: Owners, d: nat, from: nat, stop: nat)
    requires Trees(mem0, own0) && IsDir(own0, d) && Trimmed(mem0, mem, own0, own, d, from, stop)
    ensures Confined(mem0, mem, own0, own, d, from, stop)
  {
    forall v: nat | v < PAGES && !(from <= v < stop) ensures SamePage(mem0, mem, d, v) {
      assert v < USERPAGES ==> PteOk(mem0, own0, d, v);
    }
  }

  /** sz + n in 32 bits, as the C code adds an int to a uint. */
  function Plus(sz: nat, n: int): nat {
    (sz + n) % TWO32
  }

  lemma PlusIs(sz: nat, n: int)
    requires sz < KERNBASE && -TWO31 <= n < TWO31
    ensures Plus(sz, n) == if sz + n >= 0 then sz + n else sz + n + TWO32
  {
  }

  lemma SnugVacant(mem: seq<Page>, d: nat, sz: nat, stop: nat)
    requires d < |mem| && Snug(mem, d, sz) && stop <= USERPAGES
    ensures Vacant(mem, d, PagesBelow(sz), stop)
  {
  }

  lemma SnugGrew(mem0: seq<Page>, mem: seq<Page>, own0: Owners, own: Owners, d: nat, sz: nat, size: nat)
    requires Grew(mem0, mem, own0, own, d, PagesBelow(sz), PagesBelow(size)) && sz <= size && d < TOP
             && Snug(mem0, d, sz)
    ensures Snug(mem, d, size)
  {
    RoundsMonotone(sz, size);
    forall v: nat | v < USERPAGES ensures Present(Pte(mem, d, v)) <==> v < PagesBelow(size) {
      assert PagesBelow(sz) <= v < PagesBelow(size) ==> FreshPage(mem, own0, d, v);
    }
  }

  lemma SnugRolledBack(mem0: seq<Page>, mem: seq<Page>, own0: Owners, own: Owners, d: nat, sz: nat)
    requires RolledBack(mem0, mem, own0, own, d) && Snug(mem0, d, sz)
    ensures d < |mem| && Snug(mem, d, sz)
  {
    forall v: nat | v < USERPAGES ensures Present(Pte(mem, d, v)) <==> v < PagesBelow(sz) {
      assert SameMapping(Pte(mem0, d, v), Pte(mem, d, v));
    }
  }

  lemma SnugTrimmed(mem0: seq<Page>, mem: seq<Page>, own0: Owners, own: Owners, d: nat, sz: nat, size: nat)
    requires Trimmed(mem0, mem, own0, own, d, PagesBelow(size), PagesBelow(sz)) && size < sz < KERNBASE && d < TOP
             && Snug(mem0, d, sz)
    ensures Snug(mem, d, size) && (size == 0 ==> !Snug(mem, d, sz))
  {
    RoundsMonotone(size, sz);
    if size == 0 {
      assert 0 < PagesBelow(sz) && !Present(Pte(mem, d, 0));
    }
  }

  /** Freeing pages that are all present gives back as many. */
  lemma {:induction false} ScanAll(mem: seq<Page>, d: nat, from: nat, stop: nat, free: seq<nat>)
    requires d < |mem| && from <= stop <= PAGES && forall v: nat :: from <= v < stop ==> Present(Pte(mem, d, v))
    ensures |Scan(mem, d, from, stop, free)| == |free| + (stop - from)
    decreases stop
  {
    if from < stop {
      ScanAll(mem, d, from, stop - 1, free);
      var e, f := Pte(mem, d, stop - 1), Scan(mem, d, from, stop - 1, free);
      assert Scan(mem, d, from, stop, free) == [Frame(e)] + f;
    }
  }

  lemma SnugScan(mem: seq<Page>, d: nat, sz: nat, size: nat, free: seq<nat>)
    requires d < |mem| && size <= sz < KERNBASE && Snug(mem, d, sz)
    ensures PagesBelow(size) <= PagesBelow(sz) <= USERPAGES
    ensures |Scan(mem, d, PagesBelow(size), PagesBelow(sz), free)| == |free| + (PagesBelow(sz) - PagesBelow(size))
  {
    RoundsMonotone(size, sz);
    PageAddress(0, sz);
    ScanAll(mem, d, PagesBelow(size), PagesBelow(sz), free);
  }

  /** Pages [from, stop) of d are zeroed pages, not in use before, that the user may write. */
  ghost predicate FreshPages(mem: seq<Page>, own0: Owners, d: nat, from: nat, stop: nat) {
    d < |mem| && stop <= PAGES && forall v: nat :: from <= v < stop ==> FreshPage(mem, own0, d, v)
  }

  /** The addresses that growproc may map or unmap; a size below zero changes nothing. */
  function Bounds(sz: nat, n: int): (nat, nat) {
    if n >= 0 then (sz, sz + n) else if sz + n >= 0 then (sz + n, sz) else (sz, sz)
  }

  class Proc {
    const pgdir: nat
    var sz: nat

    constructor (d: nat, size: nat)
      ensures pgdir == d && sz == size
    {
      pgdir, sz := d, size;
    }

    /** There is memory to grow to size, or to get to a page on the way that is mapped already. */
    ghost predicate Affords(mem: seq<Page>, free: nat, size: nat)
      requires pgdir < |mem|
      reads `sz
    {
      && size < KERNBASE && PagesBelow(sz) <= PagesBelow(size) <= USERPAGES
      && free >= GrowthCost(mem, pgdir, PagesBelow(sz), PagesBelow(size))
    }

    /** No page from the current size up to size is mapped. */
    ghost predicate Unmapped(mem: seq<Page>, size: nat)
      requires pgdir < |mem|
      reads `sz
    {
      PagesBelow(size) <= PAGES && Vacant(mem, pgdir, PagesBelow(sz), PagesBelow(size))
    }

    /** growproc with n > 0, up to size. */
    method Enlarge(k: Kmem, size: nat) returns (r: Option<bool>)
      requires Ok(k) && IsDir(k.own, pgdir) && sz < KERNBASE && sz < size
      modifies k, `sz
      ensures r.Some? ==> Ok(k) && IsDir(k.own, pgdir)
      ensures r == Some(true) <==> old(Affords(k.mem, |k.free|, size)) && old(Unmapped(k.mem, size))
      ensures r == None <==> old(Affords(k.mem, |k.free|, size)) && !old(Unmapped(k.mem, size))
      ensures sz == if r == Some(true) then size else old(sz)
      ensures Snug(old(k.mem), pgdir, old(sz)) ==> r.Some? && Snug(k.mem, pgdir, sz)
      ensures r.Some? ==> Confined(old(k.mem), k.mem, old(k.own), k.own, pgdir, PagesBelow(old(sz)), PagesBelow(size))
      ensures r == Some(true) ==> FreshPages(k.mem, old(k.own), pgdir, PagesBelow(old(sz)), PagesBelow(size))
    {
      ghost var mem0, own0, snug := k.mem, k.own, Snug(k.mem, pgdir, sz);
      if size < KERNBASE && snug {
        PageAddress(0, size);
        SnugVacant(mem0, pgdir, sz, PagesBelow(size));
      }
      var t := AllocUvm(k, pgdir, sz, size);
      if t.None? {
        return None;
      }
      if t.value == 0 {
        if size >= KERNBASE {
          SameConfined(mem0, own0, pgdir, PagesBelow(sz), PagesBelow(size));
        } else {
          ClearedConfined(mem0, k.mem, own0, k.own, pgdir, PagesBelow(sz), PagesBelow(size));
          if snug {
            SnugRolledBack(mem0, k.mem, own0, k.own, pgdir, sz);
          }
        }
        return Some(false);
      }
      GrewConfined(mem0, k.mem, own0, k.own, pgdir, PagesBelow(sz), PagesBelow(size));
      if snug {
        SnugGrew(mem0, k.mem, own0, k.own, pgdir, sz, size);
      }
      sz := t.value;
      r := Some(true);
    }

    /** growproc with n < 0, down to size; a size that has wrapped is above the current one. */
    method Reduce(k: Kmem, size: nat) returns (r: bool)
      requires Ok(k) && IsDir(k.own, pgdir) && sz < KERNBASE
      modifies k, `sz
      ensures Ok(k) && IsDir(k.own, pgdir)
      ensures r <==> old(sz) != 0 && size != 0
      ensures sz == if 0 < size < old(sz) then size else old(sz)
      ensures Snug(old(k.mem), pgdir, old(sz)) ==>
                && (Snug(k.mem, pgdir, sz) <==> !(size == 0 < old(sz))) && (size == 0 ==> Snug(k.mem, pgdir, 0))
                && (size < old(sz) ==> |k.free| == |old(k.free)| + (PagesBelow(old(sz)) - PagesBelow(size)))
      ensures Confined(old(k.mem), k.mem, old(k.own), k.own, pgdir, PagesBelow(size), PagesBelow(old(sz)))
    {
      ghost var mem0, own0, free0, snug := k.mem, k.own, k.free, Snug(k.mem, pgdir, sz);
      var now := DeallocUvm(k, pgdir, sz, size);
      if size < sz {
        TrimmedConfined(mem0, k.mem, own0, k.own, pgdir, PagesBelow(size), PagesBelow(sz));
        if snug {
          SnugTrimmed(mem0, k.mem, own0, k.own, pgdir, sz, size);
          SnugScan(mem0, pgdir, sz, size, free0);
        }
      } else {
        SameConfined(mem0, own0, pgdir, PagesBelow(size), PagesBelow(sz));
      }
      if now == 0 {
        return false;
      }
      sz := now;
      r := true;
    }

    /**
     growproc: None is the panic of mappages, false is -1. With a size that fits the page
     table there is no panic, and the two fit again afterwards, unless all of the memory is
     given back: that unmaps every page but returns -1 and leaves the size as it was.
     */
    method GrowProc(k: Kmem, n: int) returns (r: Option<bool>)
      requires Ok(k) && IsDir(k.own, pgdir) && sz < KERNBASE && -TWO31 <= n < TWO31
      modifies k, `sz
      ensures r.Some? ==> Ok(k) && IsDir(k.own, pgdir) && sz < KERNBASE
      ensures Snug(old(k.mem), pgdir, old(sz)) ==>
                && r.Some? && (Snug(k.mem, pgdir, sz) <==> n == 0 || old(sz) + n != 0)
                && (old(sz) + n == 0 ==> Snug(k.mem, pgdir, 0) && |k.free| == |old(k.free)| + PagesBelow(old(sz)))
      ensures r == Some(true) <==>
                if n > 0 then old(Affords(k.mem, |k.free|, sz + n)) && old(Unmapped(k.mem, sz + n))
                else n == 0 || (old(sz) != 0 && old(sz) + n != 0)
      ensures r == None <==> n > 0 && old(Affords(k.mem, |k.free|, sz + n)) && !old(Unmapped(k.mem, sz + n))
      ensures sz == if r == Some(true) && old(sz) + n > 0 then old(sz) + n else old(sz)
      ensures r.Some? ==>
                var (a, b) := Bounds(old(sz), n);
                Confined(old(k.mem), k.mem, old(k.own), k.own, pgdir, PagesBelow(a), PagesBelow(b))
      ensures r == Some(true) && n > 0 ==> FreshPages(k.mem, old(k.own), pgdir, PagesBelow(old(sz)), PagesBelow(sz))
    {
      var size := Plus(sz, n);
      PlusIs(sz, n);
      if n > 0 {
        r := Enlarge(k, size);
      } else if n < 0 {
        var ok := Reduce(k, size);
        r := Some(ok);
      } else {
        SameConfined(k.mem, k.own, pgdir, PagesBelow(sz), PagesBelow(sz));
        r := Some(true);
      }
    }
  }

  /** With a size that fits the page table copyuvm meets no absent page; with none mapped it meets one at once. */
  lemma CopyMeets(mem: seq<Page>, d: nat, sz: nat)
    requires d < |mem| && PagesBelow(sz) <= USERPAGES
    ensures Snug(mem, d, sz) ==> FirstAbsent(mem, d, 0, PagesBelow(sz)) == PagesBelow(sz)
    ensures Snug(mem, d, 0) && sz > 0 ==> FirstAbsent(mem, d, 0, PagesBelow(sz)) == 0 < PagesBelow(sz)
  {
  }

  /** fork's use of copyuvm: it never panics on a process whose size fits its page table. */
  method ForkSpace(k: Kmem, p: Proc, data: nat) returns (r: Fork)
    requires Ok(k) && IsDir(k.own, p.pgdir) && p.sz < KERNBASE && DataOk(data) && Snug(k.mem, p.pgdir, p.sz)
    modifies k
    ensures r.Child? <==> |old(k.free)| >= CopyCost(PagesBelow(p.sz))
    ensures r.Failed? <==> |old(k.free)| < CopyCost(PagesBelow(p.sz))
    ensures Ok(k)
    ensures r.Child? ==> Copied(old(k.mem), k.mem, old(k.own), k.own, p.pgdir, r.d, data, PagesBelow(p.sz))
    ensures r.Failed? ==> k.own == old(k.own) && forall q :: q in k.own ==> k.mem[q] == old(k.mem)[q]
  {
    PageAddress(0, p.sz);
    CopyMeets(k.mem, p.pgdir, p.sz);
    r := CopyUvm(k, p.pgdir, p.sz, data);
  }

  /** A process that gives back all of its memory and forks: the fork panics, or fails for want of memory. */
  method GiveBackAndFork(k: Kmem, p: Proc, data: nat) returns (r: Fork)
    requires Ok(k) && IsDir(k.own, p.pgdir) && 0 < p.sz < KERNBASE && DataOk(data) && Snug(k.mem, p.pgdir, p.sz)
    modifies k, p
    ensures r == if |old(k.free)| + PagesBelow(old(p.sz)) >= CopyCost(0) then Stopped else Failed
  {
    var n: int := p.sz;
    var g := p.GrowProc(k, -n);
    PageAddress(0, p.sz);
    CopyMeets(k.mem, p.pgdir, p.sz);
    r := CopyUvm(k, p.pgdir, p.sz, data);
  }
}
