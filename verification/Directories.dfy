/**
 fs.c's dirlookup and dirlink, and sysfile.c's isdirempty, create, sys_link and
 sys_unlink. Path lookups have been done: the inodes they found are parameters. held are
 the inodes that open files and current directories keep in memory.
 */
module Directories {
  import opened Params
  import opened DirNames
  import opened Links

  /** Some slot in use has the name. */
  predicate Named(entries: seq<Entry>, name: Stored) {
    exists j: nat :: j < |entries| && entries[j].inum != 0 && entries[j].name == name
  }

  /** Slot j is the first in use with the name: the one that dirlookup finds. */
  predicate Finds(entries: seq<Entry>, name: Stored, j: nat) {
    && j < |entries| && entries[j].inum != 0 && entries[j].name == name
    && forall k: nat :: k < j && entries[k].inum != 0 ==> entries[k].name != name
  }

  /** A directory of the largest size with every slot in use. */
  predicate SlotsFull(entries: seq<Entry>) {
    |entries| >= MAXSLOTS && forall j: nat :: j < MAXSLOTS ==> entries[j].inum != 0
  }

  datatype Result = Ok | Fail | Panic

  datatype Made = New(inum: nat) | Found(inum: nat) | Refused | Halt

  lemma FindsOne(entries: seq<Entry>, name: Stored, j: nat)
    requires Finds(entries, name, j)
    ensures Named(entries, name) && forall k: nat :: Finds(entries, name, k) ==> k == j
  {
  }

  /** A new directory has neither dot entry, and room for both. */
  lemma DotsFresh(i: nat)
    ensures Cut(DOT) == DOT && Cut(DOTDOT) == DOTDOT && DOT != DOTDOT
    ensures !Named([], DOT) && !SlotsFull([]) && !Named([Entry(i, DOT)], DOTDOT) && !SlotsFull([Entry(i, DOT)])
  {
    assert |DOT| == 1 && |DOTDOT| == 2;
  }

  // ---------------------------------------------------------------- what a name leads to

  /** The slot is in use under the name, byte by byte. */
  ghost predicate Matches(e: Entry, name: Name) {
    e.inum != 0 && SameName(name, e.name)
  }

  /** The inode that the first matching slot names. */
  ghost function Resolve(entries: seq<Entry>, name: Name): Option<nat> {
    if entries == [] then None
    else if Matches(entries[0], name) then Some(entries[0].inum)
    else Resolve(entries[1..], name)
  }

  lemma {:induction false} ResolveAt(entries: seq<Entry>, name: Name, j: nat)
    requires j <= |entries| && forall i: nat :: i < j ==> !Matches(entries[i], name)
    requires j < |entries| ==> Matches(entries[j], name)
    ensures Resolve(entries, name) == if j < |entries| then Some(entries[j].inum) else None
    decreases j
  {
    if j > 0 {
      assert forall i: nat :: i < j - 1 ==> entries[1..][i] == entries[i + 1];
      ResolveAt(entries[1..], name, j - 1);
    }
  }

  /** The first slot that matches, or the number of slots. */
  lemma {:induction false} FirstMatch(entries: seq<Entry>, name: Name, from: nat) returns (j: nat)
    requires from <= |entries| && forall i: nat :: i < from ==> !Matches(entries[i], name)
    ensures j <= |entries| && (forall i: nat :: i < j ==> !Matches(entries[i], name))
    ensures j < |entries| ==> Matches(entries[j], name)
    decreases |entries| - from
  {
    if from < |entries| && !Matches(entries[from], name) {
      j := FirstMatch(entries, name, from + 1);
    } else {
      j := from;
    }
  }

  /** From entries0 to entries the name has come to lead to r, and every other leads where it did. */
  ghost predicate Bound(entries0: seq<Entry>, entries: seq<Entry>, name: Name, r: Option<nat>) {
    forall other: Name :: Resolve(entries, other) == if SameName(other, name) then r else Resolve(entries0, other)
  }

  lemma OtherMatches(other: Name, name: Name, e: Entry)
    requires SameName(other, name)
    ensures Matches(e, other) <==> Matches(e, name)
  {
    SameNameTrans(other, name, e.name);
  }

  /** Slots 0..n but k are the same, and k matches `other` before or after not at all. */
  lemma SlotElsewhere(entries0: seq<Entry>, entries: seq<Entry>, k: nat, other: Name)
    requires k < |entries| && (|entries| == |entries0| || (|entries| == |entries0| + 1 && k == |entries0|))
    requires forall i: nat :: i < |entries0| && i != k ==> entries[i] == entries0[i]
    requires !Matches(entries[k], other) && (k < |entries0| ==> !Matches(entries0[k], other))
    ensures Resolve(entries, other) == Resolve(entries0, other)
  {
    var j := FirstMatch(entries0, other, 0);
    ResolveAt(entries0, other, j);
    ResolveAt(entries, other, if j < |entries0| then j else |entries|);
  }

  lemma SlotHere(entries: seq<Entry>, k: nat, other: Name)
    requires k < |entries| && Matches(entries[k], other)
    requires forall i: nat :: i < |entries| && i != k ==> !Matches(entries[i], other)
    ensures Resolve(entries, other) == Some(entries[k].inum)
  {
    ResolveAt(entries, other, k);
  }

  /** A new entry under a name that was not there. */
  lemma PutBinds(entries: seq<Entry>, k: nat, x: nat, name: Name)
    requires k <= |entries| && (k < |entries| ==> entries[k].inum == 0) && x != 0 && !Named(entries, Cut(name))
    ensures Bound(entries, PutSlot(entries, k, Entry(x, Cut(name))), name, Some(x))
  {
    var e := Entry(x, Cut(name));
    var now := PutSlot(entries, k, e);
    forall other: Name
      ensures Resolve(now, other) == if SameName(other, name) then Some(x) else Resolve(entries, other)
    {
      SameNameIffCut(name, Cut(name));
      if SameName(other, name) {
        OtherMatches(other, name, e);
        forall i: nat | i < |entries| ensures !Matches(entries[i], other) {
          OtherMatches(other, name, entries[i]);
          SameNameIffCut(name, entries[i].name);
        }
        SlotHere(now, k, other);
      } else {
        SameNameTrans(name, Cut(name), other);
        SameNameBack(other, name);
        SameNameBack(other, Cut(name));
        SlotElsewhere(entries, now, k, other);
      }
    }
  }

  /** The only entry under a name is cleared. */
  lemma ClearUnbinds(entries: seq<Entry>, k: nat, name: Name)
    requires k < |entries| && UniqueNames(entries) && entries[k].inum != 0 && entries[k].name == Cut(name)
    ensures Bound(entries, PutSlot(entries, k, GONE), name, None)
  {
    var now := PutSlot(entries, k, GONE);
    forall other: Name
      ensures Resolve(now, other) == if SameName(other, name) then None else Resolve(entries, other)
    {
      SameNameIffCut(name, Cut(name));
      if SameName(other, name) {
        forall i: nat | i < |now| ensures !Matches(now[i], other) {
          OtherMatches(other, name, now[i]);
          SameNameIffCut(name, now[i].name);
          assert i < k ==> !Clash(entries, i, k);
          assert k < i ==> !Clash(entries, k, i);
        }
        ResolveAt(now, other, |now|);
      } else {
        SameNameTrans(name, Cut(name), other);
        SameNameBack(other, name);
        SameNameBack(other, Cut(name));
        SlotElsewhere(entries, now, k, other);
      }
    }
  }

  /** create when the name is there: its inode must exist, and only a file asked for as a file will do. */
  function OnFound(nodes: Nodes, x: nat, kind: nat): Made {
    if x !in nodes then Halt else if kind == T_FILE && nodes[x].kind == T_FILE then Found(x) else Refused
  }

  /** unlink's reasons to refuse: a dot entry, no such name, or a directory with entries. */
  ghost predicate CannotUnlink(nodes: Nodes, d: nat, name: Stored)
    requires d in nodes
  {
    || name == DOT || name == DOTDOT || !Named(nodes[d].entries, name)
    || exists j: nat ::
         && Finds(nodes[d].entries, name, j) && IsDir(nodes, nodes[d].entries[j].inum)
         && !Empty(nodes[nodes[d].entries[j].inum].entries)
  }

  class Tree {
    const ninodes: nat
    var nodes: Nodes
    ghost var home: Homes
    var held: set<nat>

    /** The invariant of links, and no inode without links is kept for nothing. */
    ghost predicate Valid()
      reads this
    {
      && Inv(nodes, home)
      && (forall x :: x in nodes ==> x < ninodes && (nodes[x].nlink == 0 ==> x in held))
    }

    /** dirlookup: the first slot whose name agrees with it byte by byte. */
    method Dirlookup(d: nat, name: Name) returns (r: Option<nat>)
      requires IsDir(nodes, d)
      ensures r.Some? ==> r.value < |nodes[d].entries| && Matches(nodes[d].entries[r.value], name)
      ensures forall j: nat :: j < (if r.Some? then r.value else |nodes[d].entries|) && j < |nodes[d].entries| ==>
                !Matches(nodes[d].entries[j], name)
      ensures r.Some? ==> Finds(nodes[d].entries, Cut(name), r.value)
      ensures r.None? <==> !Named(nodes[d].entries, Cut(name))
    {
      var k := 0;
      while k < |nodes[d].entries|
        invariant 0 <= k <= |nodes[d].entries|
        invariant forall j: nat :: j < k ==> !Matches(nodes[d].entries[j], name)
        invariant forall j: nat :: j < k && nodes[d].entries[j].inum != 0 ==> nodes[d].entries[j].name != Cut(name)
      {
        SameNameIffCut(name, nodes[d].entries[k].name);
        if nodes[d].entries[k].inum != 0 {
          var differ := Namecmp(name, nodes[d].entries[k].name);
          if differ == 0 {
            return Some(k);
          }
        }
        k := k + 1;
      }
      return None;
    }

    /** dirlink: the first empty slot, or a new one at the end; it panics when the directory is full. */
    method Dirlink(d: nat, name: Name, inum: nat) returns (r: Result, ghost k: nat)
      requires IsDir(nodes, d)
      modifies `nodes
      ensures r != Ok ==> nodes == old(nodes)
      ensures r == Fail <==> Named(old(nodes)[d].entries, Cut(name))
      ensures r == Panic <==> !Named(old(nodes)[d].entries, Cut(name)) && SlotsFull(old(nodes)[d].entries)
      ensures r == Ok ==>
                k <= |old(nodes)[d].entries| && (k < |old(nodes)[d].entries| ==> old(nodes)[d].entries[k].inum == 0)
                          && (forall j: nat :: j < k ==> old(nodes)[d].entries[j].inum != 0)
                          && nodes == Put(old(nodes), d, k, Entry(inum, Cut(name)))
      ensures r == Ok && inum != 0 ==> Bound(old(nodes)[d].entries, nodes[d].entries, name, Some(inum))
    {
      k := 0;
      var there := Dirlookup(d, name);
      if there.Some? {
        return Fail, k;
      }
      var off := 0;
      while off < |nodes[d].entries| && nodes[d].entries[off].inum != 0
        invariant 0 <= off <= |nodes[d].entries|
        invariant forall j: nat :: j < off ==> nodes[d].entries[j].inum != 0
      {
        off := off + 1;
      }
      if off >= MAXSLOTS {
        return Panic, k;
      }
      k := off;
      if inum != 0 {
        PutBinds(nodes[d].entries, k, inum, name);
      }
      nodes := nodes[d := nodes[d].(entries := PutSlot(nodes[d].entries, off, Entry(inum, Cut(name))))];
      r := Ok;
    }

    /** isdirempty */
    method IsDirEmpty(d: nat) returns (empty: bool)
      requires IsDir(nodes, d)
      ensures empty <==> forall k: nat :: 2 <= k < |nodes[d].entries| ==> nodes[d].entries[k].inum == 0
      ensures empty <==> Empty(nodes[d].entries)
    {
      var k := 2;
      while k < |nodes[d].entries|
        invariant k >= 2 && forall j: nat :: 2 <= j < k && j < |nodes[d].entries| ==> nodes[d].entries[j].inum == 0
      {
        if nodes[d].entries[k].inum != 0 {
          return false;
        }
        k := k + 1;
      }
      return true;
    }

    /** iput of the last reference this operation has. */
    method Iput(x: nat)
      requires Inv(nodes, home) && x in nodes
      requires forall y :: y in nodes ==> y < ninodes && (nodes[y].nlink == 0 && y != x ==> y in held)
      modifies `nodes
      ensures Valid()
      ensures nodes == Released(old(nodes), x, held)
      ensures nodes == if old(nodes)[x].nlink == 0 && x !in held then old(nodes) - {x} else old(nodes)
    {
      if nodes[x].nlink == 0 && x !in held {
        DropInv(nodes, home, x);
        nodes := nodes - {x};
      }
    }

    /**
     sys_link, on the file and the parent that the two lookups found. A failure leaves
     everything as it was; a success keeps the counts exactly when the parent is live.
     */
    method Link(ip: Option<nat>, dp: Option<nat>, name: Name) returns (r: Result)
      requires Valid()
      requires ip.Some? ==> ip.value in nodes
      requires dp.Some? ==> IsDir(nodes, dp.value)
      modifies `nodes
      ensures r == Fail <==>
                ip.None? || old(nodes)[ip.value].kind == T_DIR || dp.None?
                  || Named(old(nodes)[dp.value].entries, Cut(name))
      ensures r == Fail ==> nodes == old(nodes)
      ensures r == Ok ==> ip.Some? && dp.Some? && old(nodes)[ip.value].kind != T_DIR
                          && exists k: nat ::
                               && Fresh(old(nodes)[dp.value].entries, k, Cut(name))
                               && nodes == Linked(old(nodes), ip.value, dp.value, k, Cut(name))
      ensures r == Ok ==> (Valid() <==> old(nodes)[dp.value].nlink > 0)
      ensures r == Ok ==>
                Bound(old(nodes)[dp.value].entries, nodes[dp.value].entries, name, Some(ip.value))
      ensures r == Panic <==> ip.Some? && old(nodes)[ip.value].kind != T_DIR && dp.Some?
                              && !Named(old(nodes)[dp.value].entries, Cut(name))
                                 && SlotsFull(old(nodes)[dp.value].entries)
    {
      if ip.None? {
        return Fail;
      }
      var x := ip.value;
      if nodes[x].kind == T_DIR {
        return Fail;
      }
      ghost var nodes0 := nodes;
      nodes := nodes[x := nodes[x].(nlink := nodes[x].nlink + 1)];
      var done := Fail;
      if dp.Some? {
        ghost var k;
        done, k := Dirlink(dp.value, name, x);
        if done == Ok {
          LinkDone(nodes0, x, dp.value, k, name);
          assert NodeOk(nodes0, x);
          return Ok;
        }
        if done == Panic {
          return Panic;
        }
      }
      nodes := nodes[x := nodes[x].(nlink := nodes[x].nlink - 1)];
      assert nodes == nodes0;
      return Fail;
    }

    lemma LinkDone(nodes0: Nodes, x: nat, d: nat, k: nat, name: Name)
      requires Inv(nodes0, home) && (forall y :: y in nodes0 ==> y < ninodes && (nodes0[y].nlink == 0 ==> y in held))
      requires x in nodes0 && nodes0[x].kind != T_DIR && IsDir(nodes0, d)
      requires k <= |nodes0[d].entries| && (k < |nodes0[d].entries| ==> nodes0[d].entries[k].inum == 0)
      requires forall j: nat :: j < |nodes0[d].entries| && nodes0[d].entries[j].inum != 0 ==>
                 nodes0[d].entries[j].name != Cut(name)
      requires nodes == Linked(nodes0, x, d, k, Cut(name))
      ensures Fresh(nodes0[d].entries, k, Cut(name))
      ensures Valid() <==> nodes0[d].nlink > 0
    {
      assert NodeOk(nodes0, d) && NodeOk(nodes0, x);
      LinkCounts(nodes0, home, x, d, k, Cut(name));
      if nodes0[d].nlink > 0 {
        LinkShape(nodes0, home, x, d, k, Cut(name));
      }
    }

    /** sys_unlink up to the point where it changes something: the slot to clear, unless it refuses or panics. */
    method UnlinkSlot(d: nat, name: Name) returns (r: Result, k: nat)
      requires Valid() && IsDir(nodes, d)
      ensures r != Panic && (r == Fail <==> CannotUnlink(nodes, d, Cut(name)))
      ensures r == Ok ==> Finds(nodes[d].entries, Cut(name), k) && CanUnlink(nodes, nodes[d].entries[k].inum, d, k)
    {
      k := 0;
      SameNameIffCut(name, DOT);
      SameNameIffCut(name, DOTDOT);
      var dot := Namecmp(name, DOT);
      var dotdot := Namecmp(name, DOTDOT);
      if dot == 0 || dotdot == 0 {
        return Fail, k;
      }
      var slot := Dirlookup(d, name);
      if slot.None? {
        return Fail, k;
      }
      k := slot.value;
      FindsOne(nodes[d].entries, Cut(name), k);
      var x := nodes[d].entries[k].inum;
      FoundSlot(d, k);
      if nodes[x].nlink < 1 {
        return Panic, k;
      }
      if nodes[x].kind == T_DIR {
        var empty := IsDirEmpty(x);
        if !empty {
          return Fail, k;
        }
      }
      assert CanUnlink(nodes, x, d, k);
      r := Ok;
    }

    /**
     sys_unlink in the directory that the lookup found. It fails without effect, or
     clears the slot and adjusts the counts; its panic on a count below 1 cannot happen.
     */
    method Unlink(dp: Option<nat>, name: Name) returns (r: Result)
      requires Valid()
      requires dp.Some? ==> IsDir(nodes, dp.value)
      modifies `nodes
      ensures r != Panic && Valid()
      ensures r == Fail ==> nodes == old(nodes)
      ensures r == Ok ==> dp.Some? && exists k: nat, x: nat ::
                CanUnlink(old(nodes), x, dp.value, k) && Finds(old(nodes)[dp.value].entries, Cut(name), k)
                    && x != dp.value
                && nodes == Released(Unlinked(old(nodes), x, dp.value, k), x, held)
      ensures r == Fail <==> dp.None? || CannotUnlink(old(nodes), dp.value, Cut(name))
      ensures r == Ok ==>
                dp.value in nodes && Bound(old(nodes)[dp.value].entries, nodes[dp.value].entries, name, None)
    {
      if dp.None? {
        return Fail;
      }
      var d := dp.value;
      var k;
      r, k := UnlinkSlot(d, name);
      if r != Ok {
        return;
      }
      var x := nodes[d].entries[k].inum;
      ghost var nodes0 := nodes;
      UnlinkInv(nodes0, home, x, d, k);
      UnlinkReady(nodes0, home, x, d, k);
      assert NodeOk(nodes0, d);
      ClearUnbinds(nodes0[d].entries, k, name);
      var isDir := nodes[x].kind == T_DIR;
      nodes := nodes[d := nodes[d].(entries := PutSlot(nodes[d].entries, k, GONE))];
      if isDir {
        nodes := nodes[d := nodes[d].(nlink := nodes[d].nlink - 1)];
      }
      nodes := nodes[x := nodes[x].(nlink := nodes[x].nlink - 1)];
      assert nodes == Unlinked(nodes0, x, d, k);
      Iput(x);
    }

    /** A slot found under a name other than "." and ".." is in a live directory and names a linked inode. */
    lemma FoundSlot(d: nat, k: nat)
      requires Inv(nodes, home) && IsDir(nodes, d) && k < |nodes[d].entries| && nodes[d].entries[k].inum != 0
      requires nodes[d].entries[k].name != DOT && nodes[d].entries[k].name != DOTDOT
      ensures 2 <= k && Live(nodes, d) && nodes[d].entries[k].inum in nodes
              && nodes[nodes[d].entries[k].inum].nlink >= 1
    {
      assert NodeOk(nodes, d);
      if Live(nodes, d) {
        assert EntryOk(nodes, home, d, k);
        assert CountOk(nodes, nodes[d].entries[k].inum);
        NamedIsLinked(nodes, nodes[d].entries[k].inum, d, k);
      }
    }

    /** The tree mkfs starts from: the root alone, its own parent. */
    constructor (n: nat)
      requires n > ROOT
      ensures Valid() && held == {} && ninodes == n
      ensures nodes == map[ROOT := Node(T_DIR, 1, [Entry(ROOT, DOT), Entry(ROOT, DOTDOT)])]
    {
      ninodes, held, home := n, {}, map[];
      nodes := map[ROOT := Node(T_DIR, 1, [Entry(ROOT, DOT), Entry(ROOT, DOTDOT)])];
      new;
      RootAlone(nodes, home);
    }

    /** The last close of an inode that was held, or a process leaving a directory. */
    method Leave(x: nat)
      requires Valid() && x in nodes
      modifies `nodes, `held
      ensures Valid() && held == old(held) - {x} && nodes == Released(old(nodes), x, held)
    {
      held := held - {x};
      Iput(x);
    }

    /** ialloc: the lowest free inode number; None is the panic. */
    method Ialloc() returns (r: Option<nat>)
      ensures r.Some? ==> 1 <= r.value < ninodes && r.value !in nodes
      ensures forall i :: 1 <= i < (if r.Some? then r.value else ninodes) ==> i in nodes
    {
      var i := 1;
      while i < ninodes
        invariant 1 <= i && forall j :: 1 <= j < i && j < ninodes ==> j in nodes
      {
        if i !in nodes {
          return Some(i);
        }
        i := i + 1;
      }
      return None;
    }

    /**
     create in the directory that the lookup found. A new inode keeps the invariant exactly
     when that directory is live.
     */
    method Create(dp: Option<nat>, name: Name, kind: nat) returns (r: Made)
      requires Valid() && kind != 0
      requires dp.Some? ==> IsDir(nodes, dp.value)
      modifies `nodes, `home
      ensures r.Refused? || r.Found? ==> nodes == old(nodes) && home == old(home)
      ensures dp.None? ==> r == Refused
      ensures dp.Some? ==> forall j: nat :: Finds(old(nodes)[dp.value].entries, Cut(name), j) ==>
                r == OnFound(old(nodes), old(nodes)[dp.value].entries[j].inum, kind)
      ensures r.Found? ==> dp.Some? && kind == T_FILE && r.inum in nodes && nodes[r.inum].kind == T_FILE
                           && Resolve(nodes[dp.value].entries, name) == Some(r.inum)
      ensures dp.Some? && !Named(old(nodes)[dp.value].entries, Cut(name)) ==>
                if (forall i :: 1 <= i < ninodes ==> i in old(nodes))
                  || SlotsFull(old(nodes)[dp.value].entries) then r.Halt? else r.New?
      ensures r.New? ==> dp.Some? && r.inum !in old(nodes)
                         && exists k: nat :: Fresh(old(nodes)[dp.value].entries, k, Cut(name)) && r.inum != dp.value
                                             && nodes == Created(old(nodes), r.inum, kind, dp.value, k, Cut(name))
      ensures r.New? ==> (Valid() <==> old(nodes)[dp.value].nlink > 0)
      ensures r.New? ==> dp.value in nodes && r.inum in nodes && nodes[r.inum].kind == kind && nodes[r.inum].nlink == 1
                         && Bound(old(nodes)[dp.value].entries, nodes[dp.value].entries, name, Some(r.inum))
    {
      if dp.None? {
        return Refused;
      }
      var d := dp.value;
      var slot := Dirlookup(d, name);
      if slot.Some? {
        var x := nodes[d].entries[slot.value].inum;
        FindsOne(nodes[d].entries, Cut(name), slot.value);
        ResolveAt(nodes[d].entries, name, slot.value);
        if x !in nodes {
          return Halt;
        }
        if kind == T_FILE && nodes[x].kind == T_FILE {
          return Found(x);
        }
        return Refused;
      }
      r := Make(d, name, kind);
    }

    /** The part of create that makes the inode: the name is not in the directory. */
    method Make(d: nat, name: Name, kind: nat) returns (r: Made)
      requires Valid() && kind != 0 && IsDir(nodes, d) && !Named(nodes[d].entries, Cut(name))
      modifies `nodes, `home
      ensures if (forall i :: 1 <= i < ninodes ==> i in old(nodes)) || SlotsFull(old(nodes)[d].entries)
              then r.Halt? else r.New?
      ensures r.New? ==> r.inum !in old(nodes)
                         && exists k: nat :: Fresh(old(nodes)[d].entries, k, Cut(name)) && r.inum != d
                                             && nodes == Created(old(nodes), r.inum, kind, d, k, Cut(name))
      ensures r.New? ==> (Valid() <==> old(nodes)[d].nlink > 0)
      ensures r.New? ==> d in nodes && r.inum in nodes && nodes[r.inum].kind == kind && nodes[r.inum].nlink == 1
                         && Bound(old(nodes)[d].entries, nodes[d].entries, name, Some(r.inum))
    {
      var free := Ialloc();
      if free.None? {
        return Halt;
      }
      var i := free.value;
      ghost var nodes0, home0 := nodes, home;
      nodes := nodes[i := Node(kind, 1, [])];
      if kind == T_DIR {
        nodes := nodes[d := nodes[d].(nlink := nodes[d].nlink + 1)];
        Dots(i, d);
      }
      var linked;
      ghost var k;
      linked, k := Dirlink(d, name, i);
      if linked == Panic {
        return Halt;
      }
      CreateDone(nodes0, i, kind, d, k, Cut(name));
      home := CreatedHome(home, i, kind, d, k);
      CreatedValid(nodes0, home0, i, kind, d, k, Cut(name));
      return New(i);
    }

    /** The two dot entries go into a directory that has none. */
    method Dots(i: nat, d: nat)
      requires IsDir(nodes, i) && nodes[i].entries == [] && i != 0
      modifies `nodes
      ensures nodes == old(nodes)[i := old(nodes)[i].(entries := [Entry(i, DOT), Entry(d, DOTDOT)])]
    {
      ghost var nodes0 := nodes;
      var r;
      ghost var k;
      DotsFresh(i);
      r, k := Dirlink(i, DOT, i);
      assert r == Ok && k == 0 && nodes[i].entries == [Entry(i, DOT)];
      r, k := Dirlink(i, DOTDOT, d);
      assert r == Ok && k == 1 && nodes[i].entries == [Entry(i, DOT), Entry(d, DOTDOT)];
    }

    /** The steps of create add up. */
    lemma CreateDone(nodes0: Nodes, i: nat, kind: nat, d: nat, k: nat, name: Stored)
      requires IsDir(nodes0, d) && i !in nodes0 && k <= |nodes0[d].entries|
      requires var up := if kind == T_DIR then 1 else 0;
               var entries := if kind == T_DIR then [Entry(i, DOT), Entry(d, DOTDOT)] else [];
               nodes == Put(nodes0[i := Node(kind, 1, entries)][d := nodes0[d].(nlink := nodes0[d].nlink + up)], d, k,
                 Entry(i, name))
      ensures nodes == Created(nodes0, i, kind, d, k, name)
    {
    }

    lemma CreatedValid(nodes0: Nodes, home0: Homes, i: nat, kind: nat, d: nat, k: nat, name: Stored)
      requires Inv(nodes0, home0) && (forall y :: y in nodes0 ==> y < ninodes && (nodes0[y].nlink == 0 ==> y in held))
      requires i !in nodes0 && 1 <= i < ninodes && kind != 0 && IsDir(nodes0, d)
      requires k <= |nodes0[d].entries| && (k < |nodes0[d].entries| ==> nodes0[d].entries[k].inum == 0)
      requires forall j: nat :: j < |nodes0[d].entries| && nodes0[d].entries[j].inum != 0 ==>
                 nodes0[d].entries[j].name != name
      requires nodes == Created(nodes0, i, kind, d, k, name) && home == CreatedHome(home0, i, kind, d, k)
      ensures Fresh(nodes0[d].entries, k, name)
      ensures Valid() <==> nodes0[d].nlink > 0
    {
      assert NodeOk(nodes0, d);
      CreateInv(nodes0, home0, i, kind, d, k, name);
    }
  }

  /** After the last reference: an inode without links is freed unless it is held. */
  function Released(nodes: Nodes, x: nat, held: set<nat>): Nodes
    requires x in nodes
  {
    if nodes[x].nlink == 0 && x !in held then nodes - {x} else nodes
  }

  lemma RootAlone(nodes: Nodes, home: Homes)
    requires nodes == map[ROOT := Node(T_DIR, 1, [Entry(ROOT, DOT), Entry(ROOT, DOTDOT)])]
    ensures Inv(nodes, home)
  {
    assert UniqueNames(nodes[ROOT].entries);
    forall d: nat, k: nat ensures (d, k) in Refs(nodes, ROOT) <==> d == ROOT && k == 1 {
      RefsMember(nodes, ROOT, d, k);
    }
    assert Refs(nodes, ROOT) == {(ROOT, 1)};
  }
}
