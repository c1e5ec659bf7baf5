/**
 Two-level page tables (mmu.h) in physical memory, as a map from page numbers to
 entries, and which page backs what: each change vm.c makes to a table keeps the tie
 between entries and the owners of pages.
 */
module PageTables {
  import opened Kalloc

  /** Pages in an address space, and those below KERNBASE. */
  const PAGES: nat := 0x10_0000
  const USERPAGES: nat := KERNBASE / PGSIZE

  predicate Present(e: nat) {
    e % 2 == 1
  }

  function Frame(e: nat): nat {
    e / PGSIZE
  }

  function Flags(e: nat): nat {
    e % PGSIZE
  }

  lemma Parts(p: nat, f: nat)
    requires f < PGSIZE
    ensures Frame(p * PGSIZE + f) == p && Flags(p * PGSIZE + f) == f
    ensures Present(p * PGSIZE + f) <==> f % 2 == 1
  {
    assert p * PGSIZE + f == 2 * (p * (PGSIZE / 2)) + f;
  }

  /** A present entry: the frame's address with the permission bits. */
  function Entry(p: nat, perm: nat): (e: nat)
    requires perm < PGSIZE
    ensures Present(e) && Frame(e) == p && (perm % 2 == 1 ==> Flags(e) == perm)
  {
    var f := if perm % 2 == 1 then perm else perm + 1;
    Parts(p, f);
    p * PGSIZE + f
  }

  function ZeroPage(): Page {
    seq(PGWORDS, _ => 0)
  }

  function Pde(mem: seq<Page>, d: nat, v: nat): nat
    requires d < |mem| && v < PAGES
  {
    mem[d][v / PGWORDS]
  }

  /** The entry that maps page v under directory d; 0 when there is no table for it. */
  function Pte(mem: seq<Page>, d: nat, v: nat): nat
    requires d < |mem| && v < PAGES
  {
    var e := Pde(mem, d, v);
    if Present(e) && Frame(e) < |mem| then mem[Frame(e)][v % PGWORDS] else 0
  }

  predicate IsDir(own: Owners, d: nat) {
    d in own && own[d] == Dir
  }

  /** A present directory entry points at the table that is its own. */
  predicate PdeOk(mem: seq<Page>, own: Owners, d: nat, i: nat)
    requires d < |mem| && i < PGWORDS
  {
    Present(mem[d][i]) ==> Frame(mem[d][i]) in own && own[Frame(mem[d][i])] == Table(d, i)
  }

  /** A present user entry points at the page that is its own. */
  predicate PteOk(mem: seq<Page>, own: Owners, d: nat, v: nat)
    requires d < |mem| && v < USERPAGES
  {
    Present(Pte(mem, d, v)) ==> Frame(Pte(mem, d, v)) in own && own[Frame(Pte(mem, d, v))] == User(d, v)
  }

  /** A page in use as a table or for a user is where its owner says it is. */
  predicate BackOk(mem: seq<Page>, own: Owners, p: nat)
    requires p in own && |mem| == TOP && forall q :: q in own ==> q < TOP
  {
    match own[p]
    case Table(d, i) => i < PGWORDS && IsDir(own, d) && Present(mem[d][i]) && Frame(mem[d][i]) == p
    case User(d, v) => v < USERPAGES && IsDir(own, d) && Present(Pte(mem, d, v)) && Frame(Pte(mem, d, v)) == p
    case _ => true
  }

  /** Every page in use backs exactly one thing, and every address space is built of its own pages. */
  ghost predicate Trees(mem: seq<Page>, own: Owners) {
    && |mem| == TOP && (forall p :: p in own ==> p < TOP)
    && (forall d, i: nat :: IsDir(own, d) && i < PGWORDS ==> PdeOk(mem, own, d, i))
    && (forall d, v: nat :: IsDir(own, d) && v < USERPAGES ==> PteOk(mem, own, d, v))
    && (forall p :: p in own ==> BackOk(mem, own, p))
  }

  /** The table page of v, when there is one. */
  lemma TableOwner(mem: seq<Page>, own: Owners, d: nat, v: nat)
    requires Trees(mem, own) && IsDir(own, d) && v < PAGES && Present(Pde(mem, d, v))
    ensures Frame(Pde(mem, d, v)) in own && own[Frame(Pde(mem, d, v))] == Table(d, v / PGWORDS)
    ensures Frame(Pde(mem, d, v)) < TOP
  {
    assert PdeOk(mem, own, d, v / PGWORDS);
  }

  /** Entries of d do not see a change to a page that is neither d nor one of its tables. */
  lemma PteFrame(mem: seq<Page>, mem': seq<Page>, own: Owners, d: nat, v: nat)
    requires Trees(mem, own) && IsDir(own, d) && v < PAGES && |mem'| == TOP && mem'[d] == mem[d]
    requires forall p :: p in own && own[p] == Table(d, v / PGWORDS) ==> mem'[p] == mem[p]
    ensures Pte(mem', d, v) == Pte(mem, d, v)
  {
    if Present(Pde(mem, d, v)) {
      TableOwner(mem, own, d, v);
    }
  }

  // ---------------------------------------------------------------- pages outside any tree

  lemma AddLoose(mem: seq<Page>, own: Owners, p: nat)
    requires Trees(mem, own) && p !in own && p < TOP
    ensures Trees(mem, own[p := Loose])
  {
    var own' := own[p := Loose];
    forall d, i: nat | IsDir(own', d) && i < PGWORDS ensures PdeOk(mem, own', d, i) {
      assert PdeOk(mem, own, d, i);
    }
    forall d, v: nat | IsDir(own', d) && v < USERPAGES ensures PteOk(mem, own', d, v) {
      assert PteOk(mem, own, d, v);
    }
    forall q | q in own' ensures BackOk(mem, own', q) {
      assert q != p ==> BackOk(mem, own, q);
    }
  }

  /** Writing a loose page, or giving it back, touches no address space. */
  lemma TouchLoose(mem: seq<Page>, mem': seq<Page>, own: Owners, own': Owners, p: nat)
    requires Trees(mem, own) && p in own && own[p] == Loose && own' in {own, own - {p}}
    requires |mem'| == TOP && forall q: nat :: q < TOP && q != p ==> mem'[q] == mem[q]
    ensures Trees(mem', own')
    ensures forall d, v: nat :: IsDir(own, d) && v < PAGES ==> Pte(mem', d, v) == Pte(mem, d, v)
  {
    forall d, v: nat | IsDir(own, d) && v < PAGES ensures Pte(mem', d, v) == Pte(mem, d, v) {
      PteFrame(mem, mem', own, d, v);
    }
    forall d, i: nat | IsDir(own', d) && i < PGWORDS ensures PdeOk(mem', own', d, i) {
      assert IsDir(own, d) && PdeOk(mem, own, d, i);
    }
    forall d, v: nat | IsDir(own', d) && v < USERPAGES ensures PteOk(mem', own', d, v) {
      assert IsDir(own, d) && PteOk(mem, own, d, v);
    }
    forall q | q in own' ensures BackOk(mem', own', q) {
      assert BackOk(mem, own, q);
    }
  }

  /** A zeroed page becomes a directory that maps nothing. */
  lemma NewDir(mem: seq<Page>, own: Owners, p: nat)
    requires Trees(mem, own) && p in own && own[p] == Loose && mem[p] == ZeroPage()
    ensures Trees(mem, own[p := Dir])
    ensures forall v: nat :: v < PAGES ==> Pte(mem, p, v) == 0
  {
    var own' := own[p := Dir];
    forall v: nat | v < PAGES ensures Pte(mem, p, v) == 0 {
      assert ZeroPage()[v / PGWORDS] == 0;
    }
    forall d, i: nat | IsDir(own', d) && i < PGWORDS ensures PdeOk(mem, own', d, i) {
      assert d == p || PdeOk(mem, own, d, i);
    }
    forall d, v: nat | IsDir(own', d) && v < USERPAGES ensures PteOk(mem, own', d, v) {
      assert d == p || PteOk(mem, own, d, v);
    }
    forall q | q in own' ensures BackOk(mem, own', q) {
      assert BackOk(mem, own, q);
    }
  }

  // ---------------------------------------------------------------- changing one entry

  /** Memory with the entry for v, in the table it has, set to e. */
  function WithPte(mem: seq<Page>, d: nat, v: nat, e: nat): seq<Page>
    requires d < |mem| && v < PAGES && Frame(Pde(mem, d, v)) < |mem|
  {
    var tab := Frame(Pde(mem, d, v));
    mem[tab := mem[tab][v % PGWORDS := e]]
  }

  /** A write through the two levels changes that one entry of that one directory. */
  lemma WithPteAt(mem: seq<Page>, own: Owners, d: nat, v: nat, e: nat, d2: nat, v2: nat)
    requires Trees(mem, own) && IsDir(own, d) && v < PAGES && Present(Pde(mem, d, v)) && Frame(Pde(mem, d, v)) < TOP
    requires IsDir(own, d2) && v2 < PAGES
    ensures Pte(WithPte(mem, d, v, e), d2, v2) == if d2 == d && v2 == v then e else Pte(mem, d2, v2)
    ensures WithPte(mem, d, v, e)[d2] == mem[d2]
  {
    TableOwner(mem, own, d, v);
    if Present(Pde(mem, d2, v2)) {
      TableOwner(mem, own, d2, v2);
      assert v / PGWORDS == v2 / PGWORDS && v % PGWORDS == v2 % PGWORDS ==> v == v2;
    }
  }

  /** A loose page becomes page v of the address space. */
  lemma MapUser(mem: seq<Page>, own: Owners, d: nat, v: nat, p: nat, perm: nat)
    requires Trees(mem, own) && IsDir(own, d) && v < USERPAGES && Present(Pde(mem, d, v)) && Frame(Pde(mem, d, v)) < TOP
    requires p in own && own[p] == Loose && !Present(Pte(mem, d, v)) && perm < PGSIZE
    ensures Trees(WithPte(mem, d, v, Entry(p, perm)), own[p := User(d, v)])
  {
    var mem', own' := WithPte(mem, d, v, Entry(p, perm)), own[p := User(d, v)];
    forall d2: nat, v2: nat | IsDir(own, d2) && v2 < PAGES
      ensures Pte(mem', d2, v2) == if d2 == d && v2 == v then Entry(p, perm) else Pte(mem, d2, v2)
      ensures mem'[d2] == mem[d2]
    {
      WithPteAt(mem, own, d, v, Entry(p, perm), d2, v2);
    }
    forall d2, i: nat | IsDir(own', d2) && i < PGWORDS ensures PdeOk(mem', own', d2, i) {
      WithPteAt(mem, own, d, v, Entry(p, perm), d2, 0);
      assert PdeOk(mem, own, d2, i);
    }
    forall d2, v2: nat | IsDir(own', d2) && v2 < USERPAGES ensures PteOk(mem', own', d2, v2) {
      assert PteOk(mem, own, d2, v2);
    }
    forall q | q in own' ensures BackOk(mem', own', q) {
      MapUserBack(mem, own, d, v, p, perm, q);
    }
  }

  lemma MapUserBack(mem: seq<Page>, own: Owners, d: nat, v: nat, p: nat, perm: nat, q: nat)
    requires Trees(mem, own) && IsDir(own, d) && v < USERPAGES && Present(Pde(mem, d, v)) && Frame(Pde(mem, d, v)) < TOP
    requires p in own && own[p] == Loose && !Present(Pte(mem, d, v)) && perm < PGSIZE && q in own
    ensures BackOk(WithPte(mem, d, v, Entry(p, perm)), own[p := User(d, v)], q)
  {
    assert BackOk(mem, own, q);
    if q == p {
      WithPteAt(mem, own, d, v, Entry(p, perm), d, v);
    } else {
      match own[q]
      case Table(d2, i) => WithPteAt(mem, own, d, v, Entry(p, perm), d2, 0);
      case User(d2, v2) => WithPteAt(mem, own, d, v, Entry(p, perm), d2, v2);
      case _ =>
    }
  }

  /** Entries above KERNBASE own nothing. */
  lemma MapKernel(mem: seq<Page>, own: Owners, d: nat, v: nat, e: nat)
    requires Trees(mem, own) && IsDir(own, d) && USERPAGES <= v < PAGES && Present(Pde(mem, d, v))
             && Frame(Pde(mem, d, v)) < TOP
    ensures Trees(WithPte(mem, d, v, e), own)
  {
    var mem' := WithPte(mem, d, v, e);
    forall d2, i: nat | IsDir(own, d2) && i < PGWORDS ensures PdeOk(mem', own, d2, i) {
      WithPteAt(mem, own, d, v, e, d2, 0);
      assert PdeOk(mem, own, d2, i);
    }
    forall d2, v2: nat | IsDir(own, d2) && v2 < USERPAGES ensures PteOk(mem', own, d2, v2) {
      WithPteAt(mem, own, d, v, e, d2, v2);
      assert PteOk(mem, own, d2, v2);
    }
    forall q | q in own ensures BackOk(mem', own, q) {
      assert BackOk(mem, own, q);
      match own[q]
      case Table(d2, i) => WithPteAt(mem, own, d, v, e, d2, 0);
      case User(d2, v2) => WithPteAt(mem, own, d, v, e, d2, v2);
      case _ =>
    }
  }

  // ---------------------------------------------------------------- adding a table

  function WithPde(mem: seq<Page>, d: nat, i: nat, e: nat): seq<Page>
    requires d < |mem| && i < PGWORDS
  {
    mem[d := mem[d][i := e]]
  }

  /** A zeroed table adds no entry and hides none. */
  lemma InstallAt(mem: seq<Page>, own: Owners, d: nat, i: nat, p: nat, perm: nat, d2: nat, v: nat)
    requires Trees(mem, own) && IsDir(own, d) && i < PGWORDS && !Present(mem[d][i]) && perm < PGSIZE
    requires p in own && own[p] == Loose && mem[p] == ZeroPage() && IsDir(own, d2) && v < PAGES
    ensures Pte(WithPde(mem, d, i, Entry(p, perm)), d2, v) == Pte(mem, d2, v)
  {
    if Present(Pde(mem, d2, v)) {
      TableOwner(mem, own, d2, v);
    } else if d2 == d && v / PGWORDS == i {
      assert ZeroPage()[v % PGWORDS] == 0;
    }
  }

  lemma InstallTable(mem: seq<Page>, own: Owners, d: nat, i: nat, p: nat, perm: nat)
    requires Trees(mem, own) && IsDir(own, d) && i < PGWORDS && !Present(mem[d][i]) && perm < PGSIZE
    requires p in own && own[p] == Loose && mem[p] == ZeroPage()
    ensures Trees(WithPde(mem, d, i, Entry(p, perm)), own[p := Table(d, i)])
  {
    var mem', own' := WithPde(mem, d, i, Entry(p, perm)), own[p := Table(d, i)];
    forall d2, j: nat | IsDir(own', d2) && j < PGWORDS ensures PdeOk(mem', own', d2, j) {
      assert PdeOk(mem, own, d2, j);
    }
    forall d2, v: nat | IsDir(own', d2) && v < USERPAGES ensures PteOk(mem', own', d2, v) {
      InstallAt(mem, own, d, i, p, perm, d2, v);
      assert PteOk(mem, own, d2, v);
    }
    forall q | q in own' ensures BackOk(mem', own', q) {
      assert BackOk(mem, own, q);
      if q != p && own[q].User? {
        InstallAt(mem, own, d, i, p, perm, own[q].d, own[q].v);
      }
    }
  }

  // ---------------------------------------------------------------- taking pages away

  /** Page v gone: its frame overwritten by kfree, then its entry cleared. */
  function Cleared(mem: seq<Page>, d: nat, v: nat, junk: Page): seq<Page>
    requires d < |mem| && v < PAGES && Frame(Pte(mem, d, v)) < |mem|
  {
    var mem1 := mem[Frame(Pte(mem, d, v)) := junk];
    if Frame(Pde(mem, d, v)) < |mem| then mem1[Frame(Pde(mem, d, v)) := mem1[Frame(Pde(mem, d, v))][v % PGWORDS := 0]]
      else mem1
  }

  ghost predicate HasPage(mem: seq<Page>, own: Owners, d: nat, v: nat) {
    Trees(mem, own) && IsDir(own, d) && v < USERPAGES && Present(Pte(mem, d, v))
  }

  lemma PageFrame(mem: seq<Page>, own: Owners, d: nat, v: nat)
    requires HasPage(mem, own, d, v)
    ensures Present(Pde(mem, d, v)) && Frame(Pde(mem, d, v)) < TOP
    ensures Frame(Pte(mem, d, v)) in own && own[Frame(Pte(mem, d, v))] == User(d, v) && Frame(Pte(mem, d, v)) < TOP
  {
    assert PteOk(mem, own, d, v);
  }

  lemma ClearedAt(mem: seq<Page>, own: Owners, d: nat, v: nat, junk: Page, d2: nat, v2: nat)
    requires HasPage(mem, own, d, v) && Frame(Pte(mem, d, v)) < TOP && IsDir(own, d2) && v2 < PAGES
    ensures Cleared(mem, d, v, junk)[d2] == mem[d2]
    ensures Pte(Cleared(mem, d, v, junk), d2, v2) == if d2 == d && v2 == v then 0 else Pte(mem, d2, v2)
  {
    PageFrame(mem, own, d, v);
    TableOwner(mem, own, d, v);
    if Present(Pde(mem, d2, v2)) {
      TableOwner(mem, own, d2, v2);
      assert v / PGWORDS == v2 / PGWORDS && v % PGWORDS == v2 % PGWORDS ==> v == v2;
    }
  }

  lemma UnmapUser(mem: seq<Page>, own: Owners, d: nat, v: nat, junk: Page)
    requires HasPage(mem, own, d, v) && Frame(Pte(mem, d, v)) < TOP
    ensures Trees(Cleared(mem, d, v, junk), own - {Frame(Pte(mem, d, v))})
  {
    var p := Frame(Pte(mem, d, v));
    var mem', own' := Cleared(mem, d, v, junk), own - {p};
    PageFrame(mem, own, d, v);
    forall d2: nat, i: nat | IsDir(own', d2) && i < PGWORDS ensures PdeOk(mem', own', d2, i) {
      ClearedAt(mem, own, d, v, junk, d2, 0);
      assert PdeOk(mem, own, d2, i);
    }
    forall d2: nat, v2: nat | IsDir(own', d2) && v2 < USERPAGES ensures PteOk(mem', own', d2, v2) {
      ClearedAt(mem, own, d, v, junk, d2, v2);
      assert PteOk(mem, own, d2, v2);
    }
    forall q: nat | q in own' ensures BackOk(mem', own', q) {
      UnmapBack(mem, own, d, v, junk, q);
    }
  }

  lemma UnmapBack(mem: seq<Page>, own: Owners, d: nat, v: nat, junk: Page, q: nat)
    requires HasPage(mem, own, d, v) && Frame(Pte(mem, d, v)) < TOP && q in own - {Frame(Pte(mem, d, v))}
    ensures BackOk(Cleared(mem, d, v, junk), own - {Frame(Pte(mem, d, v))}, q)
  {
    PageFrame(mem, own, d, v);
    assert BackOk(mem, own, q);
    match own[q]
    case Table(d2, i) => ClearedAt(mem, own, d, v, junk, d2, 0);
    case User(d2, v2) => ClearedAt(mem, own, d, v, junk, d2, v2);
    case _ =>
  }

  /** Page p is directory d or belongs to it. */
  predicate Belongs(own: Owners, d: nat, p: nat)
    requires p in own
  {
    p == d || (own[p].Table? && own[p].d == d) || (own[p].User? && own[p].d == d)
  }

  /** What is in use when the whole of d is gone. */
  function Without(own: Owners, d: nat): Owners {
    map p | p in own && !Belongs(own, d, p) :: own[p]
  }

  /** Giving back all of d leaves every other address space as it was. */
  lemma DropDir(mem: seq<Page>, mem': seq<Page>, own: Owners, d: nat)
    requires Trees(mem, own) && IsDir(own, d) && |mem'| == TOP
    requires forall p :: p in Without(own, d) ==> mem'[p] == mem[p]
    ensures Trees(mem', Without(own, d))
    ensures forall d2: nat, v: nat :: d2 != d && IsDir(own, d2) && v < PAGES ==> Pte(mem', d2, v) == Pte(mem, d2, v)
  {
    var own' := Without(own, d);
    forall d2: nat, v: nat | d2 != d && IsDir(own, d2) && v < PAGES ensures Pte(mem', d2, v) == Pte(mem, d2, v) {
      assert d2 in own';
      PteFrame(mem, mem', own, d2, v);
    }
    forall d2: nat, i: nat | IsDir(own', d2) && i < PGWORDS ensures PdeOk(mem', own', d2, i) {
      assert IsDir(own, d2) && PdeOk(mem, own, d2, i);
    }
    forall d2: nat, v: nat | IsDir(own', d2) && v < USERPAGES ensures PteOk(mem', own', d2, v) {
      assert IsDir(own, d2) && PteOk(mem, own, d2, v);
    }
    forall q: nat | q in own' ensures BackOk(mem', own', q) {
      assert BackOk(mem, own, q);
    }
  }

  // ---------------------------------------------------------------- the page-by-page scan

  /** The free list after freeing, lowest first, every present page in [from, stop). */
  ghost function Scan(mem: seq<Page>, d: nat, from: nat, stop: nat, free: seq<nat>): seq<nat>
    requires d < |mem| && stop <= PAGES
    decreases stop
  {
    if stop <= from then free
    else
      var f := Scan(mem, d, from, stop - 1, free);
      if Present(Pte(mem, d, stop - 1)) then [Frame(Pte(mem, d, stop - 1))] + f else f
  }

  /** Skipping pages without a table frees nothing. */
  lemma {:induction false} ScanSkip(mem: seq<Page>, d: nat, from: nat, mid: nat, stop: nat, free: seq<nat>)
    requires d < |mem| && from <= mid <= stop <= PAGES
    requires forall v: nat :: mid <= v < stop ==> !Present(Pte(mem, d, v))
    ensures Scan(mem, d, from, stop, free) == Scan(mem, d, from, mid, free)
    decreases stop
  {
    if mid < stop {
      ScanSkip(mem, d, from, mid, stop - 1, free);
    }
  }
}
