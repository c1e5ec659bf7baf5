/**
 What mapping pages costs: the page tables that a range of pages needs and a directory
 does not have yet. It decides exactly when vm.c runs out of memory.
 */
module PageBudget {
  import opened Kalloc
  import opened PageTables

  /** How many of the tables lo..hi a directory lacks. */
  function Absent(dir: Page, lo: nat, hi: nat): nat
    requires lo <= hi <= PGWORDS
    decreases hi
  {
    if hi == lo then 0 else Absent(dir, lo, hi - 1) + (if Present(dir[hi - 1]) then 0 else 1)
  }

  /** Past the last table that pages [first, stop) lie in. */
  function TableEnd(first: nat, stop: nat): nat {
    if stop <= first then first / PGWORDS else (stop - 1) / PGWORDS + 1
  }

  predicate TableNow(dir0: Page, dir: Page, lo: nat, hi: nat, j: nat)
    requires j < PGWORDS
  {
    Present(dir[j]) <==> Present(dir0[j]) || lo <= j < hi
  }

  /** Tables lo..hi are now there, no others have come or gone, and n0 - n pages were spent on those that lacked. */
  ghost predicate Billed(dir0: Page, dir: Page, lo: nat, hi: nat, n0: nat, n: nat) {
    && lo <= hi <= PGWORDS
    && (forall j: nat :: j < PGWORDS ==> TableNow(dir0, dir, lo, hi, j))
    && n0 == n + Absent(dir0, lo, hi)
  }

  lemma {:induction false} AbsentSplit(dir: Page, lo: nat, mid: nat, hi: nat)
    requires lo <= mid <= hi <= PGWORDS
    ensures Absent(dir, lo, hi) == Absent(dir, lo, mid) + Absent(dir, mid, hi)
    decreases hi
  {
    if hi > mid {
      AbsentSplit(dir, lo, mid, hi - 1);
    }
  }

  lemma {:induction false} AbsentSame(dir: Page, dir': Page, lo: nat, hi: nat)
    requires lo <= hi <= PGWORDS && forall j: nat :: lo <= j < hi ==> (Present(dir[j]) <==> Present(dir'[j]))
    ensures Absent(dir, lo, hi) == Absent(dir', lo, hi)
    decreases hi
  {
    if hi > lo {
      AbsentSame(dir, dir', lo, hi - 1);
    }
  }

  lemma {:induction false} AbsentNone(dir: Page, lo: nat, hi: nat)
    requires lo <= hi <= PGWORDS && forall j: nat :: lo <= j < hi ==> Present(dir[j])
    ensures Absent(dir, lo, hi) == 0
    decreases hi
  {
    if hi > lo {
      AbsentNone(dir, lo, hi - 1);
    }
  }

  lemma {:induction false} AbsentAll(dir: Page, lo: nat, hi: nat)
    requires lo <= hi <= PGWORDS && forall j: nat :: lo <= j < hi ==> !Present(dir[j])
    ensures Absent(dir, lo, hi) == hi - lo
    decreases hi
  {
    if hi > lo {
      AbsentAll(dir, lo, hi - 1);
    }
  }

  /** A table that is there costs nothing. */
  lemma BilledThere(dir: Page, i: nat, n: nat)
    requires i < PGWORDS && Present(dir[i])
    ensures Billed(dir, dir, i, i + 1, n, n)
  {
    AbsentNone(dir, i, i + 1);
  }

  /** A table that was not there costs one page. */
  lemma BilledNew(dir0: Page, dir: Page, i: nat, e: nat, n0: nat, n: nat)
    requires i < PGWORDS && !Present(dir0[i]) && Present(e) && dir == dir0[i := e] && n0 == n + 1
    ensures Billed(dir0, dir, i, i + 1, n0, n)
  {
    AbsentAll(dir0, i, i + 1);
  }

  /** The table of page v. As a trigger it keeps bills folded in the methods that only pass them on. */
  predicate TableIs(v: nat, i: nat) {
    i == v / PGWORDS
  }

  /** The table of page v is now there, at the price of n0 - n pages. */
  ghost predicate Charged(dir0: Page, dir: Page, v: nat, n0: nat, n: nat) {
    forall i: nat {:trigger TableIs(v, i)} :: TableIs(v, i) ==> Billed(dir0, dir, i, i + 1, n0, n)
  }

  lemma ChargedPlus(dir0: Page, dir: Page, v: nat, n0: nat, n: nat, more: nat)
    requires Charged(dir0, dir, v, n0, n)
    ensures Charged(dir0, dir, v, n0 + more, n + more)
  {
  }

  lemma BilledNone(dir: Page, first: nat, n: nat)
    requires first / PGWORDS <= PGWORDS
    ensures Billed(dir, dir, first / PGWORDS, TableEnd(first, first), n, n)
  {
  }

  /** What is still lacking of lo2..hi once lo..mid are there. */
  lemma AbsentAfter(dir0: Page, dir: Page, lo: nat, mid: nat, lo2: nat, hi: nat, n0: nat, n: nat)
    requires Billed(dir0, dir, lo, mid, n0, n) && lo <= lo2 <= mid <= hi <= PGWORDS
    ensures Absent(dir0, lo, hi) == Absent(dir0, lo, mid) + Absent(dir, lo2, hi)
  {
    forall j: nat | lo2 <= j < hi ensures Present(dir[j]) <==> j < mid || Present(dir0[j]) {
      assert TableNow(dir0, dir, lo, mid, j);
    }
    AbsentSplit(dir0, lo, mid, hi);
    AbsentSplit(dir, lo2, mid, hi);
    AbsentNone(dir, lo2, mid);
    AbsentSame(dir0, dir, mid, hi);
  }

  /** Two bills for ranges that meet are one bill. */
  lemma BilledJoin(dir0: Page, dir1: Page, dir2: Page, lo: nat, mid: nat, lo2: nat, hi: nat, n0: nat, n1: nat, n2: nat)
    requires Billed(dir0, dir1, lo, mid, n0, n1) && Billed(dir1, dir2, lo2, hi, n1, n2) && lo <= lo2 <= mid <= hi
    ensures Billed(dir0, dir2, lo, hi, n0, n2)
  {
    AbsentAfter(dir0, dir1, lo, mid, lo2, hi, n0, n1);
    forall j: nat | j < PGWORDS ensures TableNow(dir0, dir2, lo, hi, j) {
      assert TableNow(dir0, dir1, lo, mid, j) && TableNow(dir1, dir2, lo2, hi, j);
    }
  }

  /** One page more. */
  lemma EndStep(first: nat, a: nat)
    requires first <= a < PAGES
    ensures first / PGWORDS <= a / PGWORDS <= TableEnd(first, a) <= TableEnd(first, a + 1) == a / PGWORDS + 1 <= PGWORDS
  {
  }

  lemma EndMonotone(first: nat, a: nat, stop: nat)
    requires first <= a <= stop <= PAGES
    ensures first / PGWORDS <= TableEnd(first, a) <= TableEnd(first, stop)
  {
  }

  /** The bill of a run of pages with one page more. */
  lemma BilledPage(dir0: Page, dir1: Page, dir2: Page, first: nat, a: nat, n0: nat, n1: nat, n2: nat)
    requires first <= a < PAGES && Billed(dir0, dir1, first / PGWORDS, TableEnd(first, a), n0, n1)
    requires Billed(dir1, dir2, a / PGWORDS, a / PGWORDS + 1, n1, n2)
    ensures Billed(dir0, dir2, first / PGWORDS, TableEnd(first, a + 1), n0, n2)
  {
    EndStep(first, a);
    BilledJoin(dir0, dir1, dir2, first / PGWORDS, TableEnd(first, a), a / PGWORDS, a / PGWORDS + 1, n0, n1, n2);
  }

  /** No page is left for the table of page a: the whole run up to stop could not be paid for. */
  lemma BillShort(dir0: Page, dir1: Page, first: nat, a: nat, stop: nat, n0: nat, n1: nat)
    requires first <= a < stop <= PAGES && Billed(dir0, dir1, first / PGWORDS, TableEnd(first, a), n0, n1)
    requires !Present(dir1[a / PGWORDS])
    ensures TableEnd(first, stop) <= PGWORDS && n0 < n1 + Absent(dir0, first / PGWORDS, TableEnd(first, stop))
  {
    EndStep(first, a);
    EndMonotone(first, a + 1, stop);
    assert TableNow(dir0, dir1, first / PGWORDS, TableEnd(first, a), a / PGWORDS);
    AbsentSplit(dir0, first / PGWORDS, TableEnd(first, a + 1), TableEnd(first, stop));
  }

  // ---------------------------------------------------------------- runs of pages

  /** Pages [first, stop) lie in tables lo..hi. As a trigger it keeps the division out of proofs that do not need it. */
  predicate Spans(first: nat, stop: nat, lo: nat, hi: nat) {
    lo == first / PGWORDS && hi == TableEnd(first, stop)
  }

  /** The tables of pages [first, stop) are now there, at the price of n0 - n pages. */
  ghost predicate Paid(dir0: Page, dir: Page, first: nat, stop: nat, n0: nat, n: nat) {
    forall lo: nat, hi: nat {:trigger Spans(first, stop, lo, hi)} :: Spans(first, stop, lo, hi)
      ==> Billed(dir0, dir, lo, hi, n0, n)
  }

  /** n0 pages are not enough for the tables that pages [first, stop) lack and as many other pages. */
  ghost predicate TooFew(dir: Page, first: nat, stop: nat, n0: nat, pages: nat) {
    forall lo: nat, hi: nat {:trigger Spans(first, stop, lo, hi)} ::
      Spans(first, stop, lo, hi) ==> lo <= hi <= PGWORDS && n0 < pages + Absent(dir, lo, hi)
  }

  lemma PaidNone(dir: Page, first: nat, n: nat)
    requires first <= PAGES
    ensures Paid(dir, dir, first, first, n, n)
  {
    BilledNone(dir, first, n);
  }

  lemma PaidPage(dir0: Page, dir1: Page, dir2: Page, first: nat, a: nat, n0: nat, n1: nat, n2: nat)
    requires first <= a < PAGES && Paid(dir0, dir1, first, a, n0, n1) && Charged(dir1, dir2, a, n1, n2)
    ensures Paid(dir0, dir2, first, a + 1, n0, n2)
  {
    assert TableIs(a, a / PGWORDS);
    assert Spans(first, a, first / PGWORDS, TableEnd(first, a));
    BilledPage(dir0, dir1, dir2, first, a, n0, n1, n2);
  }

  /** No page is left for the table of page a. */
  lemma PaidShort(dir0: Page, dir1: Page, first: nat, a: nat, stop: nat, n0: nat, n1: nat, pages: nat)
    requires first <= a < stop <= PAGES && Paid(dir0, dir1, first, a, n0, n1) && n1 <= pages
    requires !Present(dir1[a / PGWORDS])
    ensures TooFew(dir0, first, stop, n0, pages)
  {
    assert Spans(first, a, first / PGWORDS, TableEnd(first, a));
    EndMonotone(first, a, stop);
    BillShort(dir0, dir1, first, a, stop, n0, n1);
  }

  /** No page is left for page a itself. */
  lemma PaidBroke(dir0: Page, dir1: Page, first: nat, a: nat, stop: nat, n0: nat, n1: nat, pages: nat)
    requires first <= a <= stop <= PAGES && Paid(dir0, dir1, first, a, n0, n1) && n1 < pages
    ensures TooFew(dir0, first, stop, n0, pages)
  {
    assert Spans(first, a, first / PGWORDS, TableEnd(first, a));
    EndMonotone(first, a, stop);
    EndMonotone(first, stop, PAGES);
    AbsentSplit(dir0, first / PGWORDS, TableEnd(first, a), TableEnd(first, stop));
  }

  /** One user page more, and its table. */
  lemma PaidMore(dir0: Page, dir1: Page, dir2: Page, first: nat, a: nat, n0: nat, n1: nat, n2: nat)
    requires first <= a < PAGES && Paid(dir0, dir1, first, a, n0, n1 + (a - first))
             && Charged(dir1, dir2, a, n1, n2 + 1)
    ensures Paid(dir0, dir2, first, a + 1, n0, n2 + (a + 1 - first))
  {
    ChargedPlus(dir1, dir2, a, n1, n2 + 1, a - first);
    PaidPage(dir0, dir1, dir2, first, a, n0, n1 + (a - first), n2 + (a + 1 - first));
  }

  /** n pages do not do for page v and its table. */
  ghost predicate NoneLeft(dir: Page, v: nat, n: nat) {
    n == 0 || (n == 1 && forall i: nat {:trigger TableIs(v, i)} :: TableIs(v, i) && i < PGWORDS ==> !Present(dir[i]))
  }

  /** Then there were too few for all of [first, stop). */
  lemma PaidOut(dir0: Page, dir1: Page, first: nat, a: nat, stop: nat, n0: nat, n1: nat)
    requires first <= a < stop <= PAGES && Paid(dir0, dir1, first, a, n0, n1 + (a - first)) && NoneLeft(dir1, a, n1)
    ensures TooFew(dir0, first, stop, n0, stop - first)
  {
    assert TableIs(a, a / PGWORDS);
    if n1 == 0 {
      PaidBroke(dir0, dir1, first, a, stop, n0, a - first, stop - first);
    } else {
      PaidShort(dir0, dir1, first, a, stop, n0, n1 + (a - first), stop - first);
    }
  }

  lemma PaidOne(dir0: Page, dir: Page, v: nat, n0: nat, n: nat)
    requires v < PAGES && Paid(dir0, dir, v, v + 1, n0, n)
    ensures Charged(dir0, dir, v, n0, n)
  {
    assert Spans(v, v + 1, v / PGWORDS, TableEnd(v, v + 1));
  }

  lemma TooFewOne(dir: Page, v: nat, n: nat)
    requires v < PAGES && TooFew(dir, v, v + 1, n, 0)
    ensures n == 0 && !Present(dir[v / PGWORDS])
  {
    assert Spans(v, v + 1, v / PGWORDS, v / PGWORDS + 1);
    assert Absent(dir, v / PGWORDS, v / PGWORDS) == 0;
  }

  // ---------------------------------------------------------------- the price of a run of pages

  /** The tables that pages [first, stop) lack. */
  function Lacking(dir: Page, first: nat, stop: nat): nat
    requires first <= stop <= PAGES
  {
    EndMonotone(first, first, stop);
    EndMonotone(first, stop, PAGES);
    Absent(dir, first / PGWORDS, TableEnd(first, stop))
  }

  lemma PaidPrice(dir0: Page, dir: Page, first: nat, stop: nat, n0: nat, n: nat)
    requires first <= stop <= PAGES && Paid(dir0, dir, first, stop, n0, n)
    ensures n0 == n + Lacking(dir0, first, stop)
  {
    assert Spans(first, stop, first / PGWORDS, TableEnd(first, stop));
  }

  lemma TooFewPrice(dir: Page, first: nat, stop: nat, n0: nat, pages: nat)
    requires first <= stop <= PAGES && TooFew(dir, first, stop, n0, pages)
    ensures n0 < pages + Lacking(dir, first, stop)
  {
    assert Spans(first, stop, first / PGWORDS, TableEnd(first, stop));
  }
}
