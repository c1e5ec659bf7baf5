/**
 Directories and link counts (sysfile.c, fs.c), on values. A directory is its slots; an
 entry with inum 0 is an empty slot. home records, for each directory but the root, the
 one slot that names it.
 */
module Links {
  import opened Params
  import opened DirNames

  const ROOT: nat := 1
  const T_DIR: nat := 1
  const T_FILE: nat := 2

  /** Slots of the largest directory: MAXFILE blocks of 16-byte entries. */
  const MAXSLOTS: nat := MAXFILE * BSIZE / 16

  datatype Entry = Entry(inum: nat, name: Stored)

  datatype Node = Node(kind: nat, nlink: int, entries: seq<Entry>)

  type Nodes = map<nat, Node>

  type Homes = map<nat, (nat, nat)>

  predicate IsDir(nodes: Nodes, d: nat) {
    d in nodes && nodes[d].kind == T_DIR
  }

  /** A directory that some live directory still leads to. */
  predicate Live(nodes: Nodes, d: nat) {
    IsDir(nodes, d) && nodes[d].nlink > 0
  }

  /** Slot k of live directory d, other than its ".", names x. */
  predicate Names(nodes: Nodes, d: nat, k: nat, x: nat) {
    Live(nodes, d) && 1 <= k < |nodes[d].entries| && nodes[d].entries[k].inum == x
  }

  /** All the slots that count as links to x. */
  ghost function Refs(nodes: Nodes, x: nat): set<(nat, nat)> {
    set d: nat, k: nat | d in nodes && k < |nodes[d].entries| && Names(nodes, d, k, x) :: (d, k)
  }

  predicate Clash(entries: seq<Entry>, i: nat, j: nat)
    requires i < |entries| && j < |entries|
  {
    entries[i].inum != 0 && entries[j].inum != 0 && entries[i].name == entries[j].name
  }

  ghost predicate UniqueNames(entries: seq<Entry>) {
    forall i: nat, j: nat :: i < j < |entries| ==> !Clash(entries, i, j)
  }

  /** "." and ".." lead, names are unique, and only a directory has entries. */
  ghost predicate NodeOk(nodes: Nodes, d: nat)
    requires d in nodes
  {
    && d != 0 && nodes[d].nlink >= 0
    && (nodes[d].kind != T_DIR ==> nodes[d].entries == [])
    && (nodes[d].kind == T_DIR ==>
          && |nodes[d].entries| >= 2 && nodes[d].entries[0] == Entry(d, DOT) && nodes[d].entries[1].name == DOTDOT
          && nodes[d].entries[1].inum != 0 && UniqueNames(nodes[d].entries)
          && (nodes[d].nlink > 0 ==> Live(nodes, nodes[d].entries[1].inum))
          && (nodes[d].nlink == 0 ==> Empty(nodes[d].entries)))
  }

  /** Nothing beyond "." and "..". */
  ghost predicate Empty(entries: seq<Entry>) {
    forall k: nat :: 2 <= k < |entries| ==> entries[k].inum == 0
  }

  /** What a live directory names exists; a directory it names has it for parent and no other name. */
  predicate EntryOk(nodes: Nodes, home: Homes, d: nat, k: nat)
    requires Live(nodes, d) && k < |nodes[d].entries|
  {
    k < 2 || nodes[d].entries[k].inum == 0 ||
    (&& nodes[d].entries[k].inum in nodes
     && (IsDir(nodes, nodes[d].entries[k].inum) ==>
           && nodes[d].entries[k].inum in home && home[nodes[d].entries[k].inum] == (d, k)
           && |nodes[nodes[d].entries[k].inum].entries| >= 2 && nodes[nodes[d].entries[k].inum].entries[1].inum == d
           && nodes[d].entries[k].inum != ROOT))
  }

  /** A live directory other than the root is named in the directory its ".." names. */
  predicate HomeOk(nodes: Nodes, home: Homes, c: nat)
    requires Live(nodes, c)
  {
    c == ROOT ||
    (&& c in home && home[c].1 >= 2 && Names(nodes, home[c].0, home[c].1, c)
     && |nodes[c].entries| >= 2 && nodes[c].entries[1].inum == home[c].0)
  }

  /** The link count is the number of slots that name the inode. */
  ghost predicate CountOk(nodes: Nodes, x: nat)
    requires x in nodes
  {
    nodes[x].nlink == |Refs(nodes, x)|
  }

  ghost predicate Counts(nodes: Nodes) {
    forall x {:trigger CountOk(nodes, x)} :: x in nodes ==> CountOk(nodes, x)
  }

  ghost predicate Shape(nodes: Nodes, home: Homes) {
    && Live(nodes, ROOT) && |nodes[ROOT].entries| >= 2 && nodes[ROOT].entries[1].inum == ROOT
    && (forall d {:trigger NodeOk(nodes, d)} :: d in nodes ==> NodeOk(nodes, d))
    && (forall d, k: nat {:trigger EntryOk(nodes, home, d, k)} ::
          Live(nodes, d) && k < |nodes[d].entries| ==> EntryOk(nodes, home, d, k))
    && (forall c {:trigger HomeOk(nodes, home, c)} :: Live(nodes, c) ==> HomeOk(nodes, home, c))
  }

  /** What holds at every operation boundary. */
  ghost predicate Inv(nodes: Nodes, home: Homes) {
    Shape(nodes, home) && Counts(nodes)
  }

  lemma RefsMember(nodes: Nodes, x: nat, d: nat, k: nat)
    ensures (d, k) in Refs(nodes, x) <==> Names(nodes, d, k, x)
  {
  }

  /** An inode that a live slot names has a positive count. */
  lemma NamedIsLinked(nodes: Nodes, x: nat, d: nat, k: nat)
    requires x in nodes && CountOk(nodes, x) && Names(nodes, d, k, x)
    ensures nodes[x].nlink > 0
  {
    RefsMember(nodes, x, d, k);
    assert (d, k) in Refs(nodes, x);
  }

  /** An unused number is named nowhere. */
  lemma FreeIsUnnamed(nodes: Nodes, home: Homes, x: nat)
    requires Shape(nodes, home) && x !in nodes && x != 0
    ensures Refs(nodes, x) == {}
  {
    forall d: nat, k: nat | Live(nodes, d) && 1 <= k < |nodes[d].entries| ensures nodes[d].entries[k].inum != x {
      assert NodeOk(nodes, d) && EntryOk(nodes, home, d, k);
    }
  }

  // ---------------------------------------------------------------- one slot, one count

  /** An entry written at slot k, the slot after the last one included. */
  function PutSlot(entries: seq<Entry>, k: nat, e: Entry): seq<Entry>
    requires k <= |entries|
  {
    if k < |entries| then entries[k := e] else entries + [e]
  }

  function Put(nodes: Nodes, d: nat, k: nat, e: Entry): Nodes
    requires d in nodes && k <= |nodes[d].entries|
  {
    nodes[d := nodes[d].(entries := PutSlot(nodes[d].entries, k, e))]
  }

  function Bump(nodes: Nodes, x: nat, inc: int): Nodes
    requires x in nodes
  {
    nodes[x := nodes[x].(nlink := nodes[x].nlink + inc)]
  }

  /** A name that is not there goes into an empty slot. */
  ghost predicate Fresh(entries: seq<Entry>, k: nat, name: Stored) {
    && 2 <= k <= |entries| && (k < |entries| ==> entries[k].inum == 0)
    && forall j: nat :: j < |entries| && entries[j].inum != 0 ==> entries[j].name != name
  }

  lemma PutUnique(entries: seq<Entry>, k: nat, e: Entry)
    requires UniqueNames(entries) && k <= |entries| && (e.inum != 0 ==> Fresh(entries, k, e.name))
    ensures UniqueNames(PutSlot(entries, k, e))
  {
    var es := PutSlot(entries, k, e);
    forall i: nat, j: nat | i < j < |es| ensures !Clash(es, i, j) {
      if i != k && j != k {
        assert !Clash(entries, i, j);
      }
    }
  }

  // ---------------------------------------------------------------- link

  /** sys_link's success: one more name for a file. */
  function Linked(nodes: Nodes, x: nat, d: nat, k: nat, name: Stored): Nodes
    requires x in nodes && d in nodes && k <= |nodes[d].entries|
  {
    Put(Bump(nodes, x, 1), d, k, Entry(x, name))
  }

  ghost predicate CanLink(nodes: Nodes, x: nat, d: nat, k: nat, name: Stored) {
    x in nodes && nodes[x].kind != T_DIR && IsDir(nodes, d) && Fresh(nodes[d].entries, k, name)
  }

  lemma LinkNames(nodes: Nodes, x: nat, d: nat, k: nat, name: Stored, d2: nat, k2: nat, y: nat)
    requires CanLink(nodes, x, d, k, name) && y != 0
    ensures Names(Linked(nodes, x, d, k, name), d2, k2, y) <==>
            if d2 == d && k2 == k && Live(nodes, d) then y == x else Names(nodes, d2, k2, y)
  {
  }

  lemma LinkRefs(nodes: Nodes, x: nat, d: nat, k: nat, name: Stored, y: nat)
    requires CanLink(nodes, x, d, k, name) && y != 0
    ensures Refs(Linked(nodes, x, d, k, name), y) == if y == x
            && Live(nodes, d) then Refs(nodes, y) + {(d, k)} else Refs(nodes, y)
    ensures (d, k) !in Refs(nodes, y)
  {
    var nodes' := Linked(nodes, x, d, k, name);
    forall d2: nat, k2: nat
      ensures (d2, k2) in Refs(nodes', y) <==>
                if d2 == d && k2 == k && Live(nodes, d) then y == x else (d2, k2) in Refs(nodes, y)
    {
      LinkNames(nodes, x, d, k, name, d2, k2, y);
      RefsMember(nodes, y, d2, k2);
      RefsMember(nodes', y, d2, k2);
    }
  }

  lemma LinkNode(nodes: Nodes, x: nat, d: nat, k: nat, name: Stored, y: nat)
    requires CanLink(nodes, x, d, k, name) && Live(nodes, d) && x != 0 && y in nodes && NodeOk(nodes, y)
    ensures NodeOk(Linked(nodes, x, d, k, name), y)
  {
    if y == d {
      PutUnique(nodes[d].entries, k, Entry(x, name));
    }
  }

  lemma LinkEntry(nodes: Nodes, home: Homes, x: nat, d: nat, k: nat, name: Stored, d2: nat, k2: nat)
    requires CanLink(nodes, x, d, k, name) && Live(nodes, d)
    requires var nodes' := Linked(nodes, x, d, k, name); Live(nodes', d2) && k2 < |nodes'[d2].entries|
    requires d2 != d || k2 != k ==> Live(nodes, d2) && k2 < |nodes[d2].entries| && EntryOk(nodes, home, d2, k2)
    ensures EntryOk(Linked(nodes, x, d, k, name), home, d2, k2)
  {
  }

  lemma LinkNodes(nodes: Nodes, home: Homes, x: nat, d: nat, k: nat, name: Stored)
    requires Shape(nodes, home) && CanLink(nodes, x, d, k, name) && Live(nodes, d)
    ensures var nodes' := Linked(nodes, x, d, k, name);
            forall y {:trigger NodeOk(nodes', y)} :: y in nodes' ==> NodeOk(nodes', y)
  {
    var nodes' := Linked(nodes, x, d, k, name);
    assert NodeOk(nodes, x);
    forall y | y in nodes' ensures NodeOk(nodes', y) {
      assert NodeOk(nodes, y);
      LinkNode(nodes, x, d, k, name, y);
    }
  }

  lemma LinkEntries(nodes: Nodes, home: Homes, x: nat, d: nat, k: nat, name: Stored)
    requires Shape(nodes, home) && CanLink(nodes, x, d, k, name) && Live(nodes, d)
    ensures var nodes' := Linked(nodes, x, d, k, name);
            forall d2, k2: nat {:trigger EntryOk(nodes', home, d2, k2)} ::
              Live(nodes', d2) && k2 < |nodes'[d2].entries| ==> EntryOk(nodes', home, d2, k2)
  {
    var nodes' := Linked(nodes, x, d, k, name);
    forall d2, k2: nat | Live(nodes', d2) && k2 < |nodes'[d2].entries| ensures EntryOk(nodes', home, d2, k2) {
      assert d2 != d || k2 != k ==> EntryOk(nodes, home, d2, k2);
      LinkEntry(nodes, home, x, d, k, name, d2, k2);
    }
  }

  lemma LinkHome(nodes: Nodes, home: Homes, x: nat, d: nat, k: nat, name: Stored, c: nat)
    requires CanLink(nodes, x, d, k, name) && Live(nodes, d) && Live(nodes, c) && c != 0 && HomeOk(nodes, home, c)
    ensures HomeOk(Linked(nodes, x, d, k, name), home, c)
  {
    if c != ROOT {
      LinkNames(nodes, x, d, k, name, home[c].0, home[c].1, c);
    }
  }

  lemma LinkShape(nodes: Nodes, home: Homes, x: nat, d: nat, k: nat, name: Stored)
    requires Shape(nodes, home) && CanLink(nodes, x, d, k, name) && Live(nodes, d)
    ensures Shape(Linked(nodes, x, d, k, name), home)
  {
    var nodes' := Linked(nodes, x, d, k, name);
    LinkNodes(nodes, home, x, d, k, name);
    LinkEntries(nodes, home, x, d, k, name);
    forall c | Live(nodes', c) ensures HomeOk(nodes', home, c) {
      assert HomeOk(nodes, home, c) && NodeOk(nodes, c);
      LinkHome(nodes, home, x, d, k, name, c);
    }
  }

  lemma LinkCountAt(nodes: Nodes, x: nat, d: nat, k: nat, name: Stored, y: nat)
    requires CanLink(nodes, x, d, k, name) && y in nodes && y != 0 && CountOk(nodes, y)
    ensures CountOk(Linked(nodes, x, d, k, name), y) <==> y != x || Live(nodes, d)
  {
    LinkRefs(nodes, x, d, k, name, y);
  }

  /** Linking keeps every count right exactly when the directory is live. */
  lemma LinkCounts(nodes: Nodes, home: Homes, x: nat, d: nat, k: nat, name: Stored)
    requires Inv(nodes, home) && CanLink(nodes, x, d, k, name)
    ensures Counts(Linked(nodes, x, d, k, name)) <==> nodes[d].nlink > 0
  {
    var nodes' := Linked(nodes, x, d, k, name);
    forall y | y in nodes ensures CountOk(nodes', y) <==> y != x || Live(nodes, d) {
      assert NodeOk(nodes, y) && CountOk(nodes, y);
      LinkCountAt(nodes, x, d, k, name, y);
    }
    assert CountOk(nodes', x) <==> Live(nodes, d);
  }

  // ---------------------------------------------------------------- create

  /** create's success: inode i is new; a directory brings its own "." and "..". */
  function Created(nodes: Nodes, i: nat, kind: nat, d: nat, k: nat, name: Stored): Nodes
    requires d in nodes && k <= |nodes[d].entries| && i != d
  {
    var entries := if kind == T_DIR then [Entry(i, DOT), Entry(d, DOTDOT)] else [];
    var up := if kind == T_DIR then 1 else 0;
    Put(Bump(nodes, d, up)[i := Node(kind, 1, entries)], d, k, Entry(i, name))
  }

  ghost predicate CanCreate(nodes: Nodes, i: nat, kind: nat, d: nat, k: nat, name: Stored) {
    i !in nodes && i != 0 && kind != 0 && IsDir(nodes, d) && Fresh(nodes[d].entries, k, name)
  }

  function CreatedHome(home: Homes, i: nat, kind: nat, d: nat, k: nat): Homes {
    if kind == T_DIR then home[i := (d, k)] else home
  }

  lemma CreateNames(nodes: Nodes, i: nat, kind: nat, d: nat, k: nat, name: Stored, d2: nat, k2: nat, y: nat)
    requires CanCreate(nodes, i, kind, d, k, name) && y != 0 && nodes[d].nlink > 0
    ensures Names(Created(nodes, i, kind, d, k, name), d2, k2, y) <==>
            if d2 == d && k2 == k then y == i
            else if d2 == i then kind == T_DIR && k2 == 1 && y == d
            else Names(nodes, d2, k2, y)
  {
  }

  lemma CreateRefs(nodes: Nodes, i: nat, kind: nat, d: nat, k: nat, name: Stored, y: nat)
    requires CanCreate(nodes, i, kind, d, k, name) && y != 0 && nodes[d].nlink > 0 && (y == i ==> Refs(nodes, y) == {})
    ensures Refs(Created(nodes, i, kind, d, k, name), y) ==
            if y == i then {(d, k)} else if y == d && kind == T_DIR then Refs(nodes, y) + {(i, 1)} else Refs(nodes, y)
    ensures (i, 1) !in Refs(nodes, y)
  {
    var nodes' := Created(nodes, i, kind, d, k, name);
    forall d2: nat, k2: nat
      ensures (d2, k2) in Refs(nodes', y) <==>
              if d2 == d && k2 == k then y == i
              else if d2 == i then kind == T_DIR && k2 == 1 && y == d
              else (d2, k2) in Refs(nodes, y)
    {
      CreateNames(nodes, i, kind, d, k, name, d2, k2, y);
      RefsMember(nodes, y, d2, k2);
      RefsMember(nodes', y, d2, k2);
    }
    RefsMember(nodes, y, i, 1);
    RefsMember(nodes, y, d, k);
  }

  lemma CreateCountAt(nodes: Nodes, i: nat, kind: nat, d: nat, k: nat, name: Stored, y: nat)
    requires CanCreate(nodes, i, kind, d, k, name) && nodes[d].nlink > 0 && y != 0
    requires (y in nodes && CountOk(nodes, y)) || (y == i && Refs(nodes, i) == {})
    ensures CountOk(Created(nodes, i, kind, d, k, name), y)
  {
    CreateRefs(nodes, i, kind, d, k, name, y);
  }

  /** In a dead directory the new inode's link is not one that counts. */
  lemma CreateDead(nodes: Nodes, home: Homes, i: nat, kind: nat, d: nat, k: nat, name: Stored)
    requires Shape(nodes, home) && CanCreate(nodes, i, kind, d, k, name) && nodes[d].nlink == 0 && kind != T_DIR
    ensures !CountOk(Created(nodes, i, kind, d, k, name), i)
  {
    var nodes' := Created(nodes, i, kind, d, k, name);
    FreeIsUnnamed(nodes, home, i);
    forall d2: nat, k2: nat ensures (d2, k2) !in Refs(nodes', i) {
      RefsMember(nodes, i, d2, k2);
      RefsMember(nodes', i, d2, k2);
      assert Names(nodes', d2, k2, i) ==> Names(nodes, d2, k2, i);
    }
    assert Refs(nodes', i) == {};
  }

  /** A directory made in a dead one brings that one's ".." back into the count. */
  lemma DeadDirNames(nodes: Nodes, i: nat, d: nat, k: nat, name: Stored, d2: nat, k2: nat, y: nat)
    requires CanCreate(nodes, i, T_DIR, d, k, name) && y != 0 && nodes[d].nlink == 0 && NodeOk(nodes, d)
    ensures Names(Created(nodes, i, T_DIR, d, k, name), d2, k2, y) <==>
            if d2 == d then (k2 == 1 && y == nodes[d].entries[1].inum) || (k2 == k && y == i)
            else if d2 == i then k2 == 1 && y == d
            else Names(nodes, d2, k2, y)
  {
  }

  lemma CreateDeadDir(nodes: Nodes, home: Homes, i: nat, d: nat, k: nat, name: Stored, any: Homes)
    requires Inv(nodes, home) && CanCreate(nodes, i, T_DIR, d, k, name) && nodes[d].nlink == 0
    ensures !Inv(Created(nodes, i, T_DIR, d, k, name), any)
  {
    var nodes' := Created(nodes, i, T_DIR, d, k, name);
    assert NodeOk(nodes, d);
    var p := nodes[d].entries[1].inum;
    if Live(nodes', p) {
      DeadDirParent(nodes, home, i, d, k, name);
    } else {
      assert !NodeOk(nodes', d);
    }
  }

  lemma DeadDirParent(nodes: Nodes, home: Homes, i: nat, d: nat, k: nat, name: Stored)
    requires Inv(nodes, home) && CanCreate(nodes, i, T_DIR, d, k, name) && nodes[d].nlink == 0 && NodeOk(nodes, d)
    requires Live(Created(nodes, i, T_DIR, d, k, name), nodes[d].entries[1].inum)
    ensures !CountOk(Created(nodes, i, T_DIR, d, k, name), nodes[d].entries[1].inum)
  {
    var nodes', p := Created(nodes, i, T_DIR, d, k, name), nodes[d].entries[1].inum;
    forall d2: nat, k2: nat ensures (d2, k2) in Refs(nodes', p) <==> Names(nodes', d2, k2, p) {
      RefsMember(nodes', p, d2, k2);
    }
    DeadDirNames(nodes, i, d, k, name, d, 1, p);
    DeadDirNames(nodes, i, d, k, name, d, k, p);
    DeadDirNames(nodes, i, d, k, name, i, 1, p);
    assert (d, 1) in Refs(nodes', p);
    if p == i {
      TwoIn(Refs(nodes', p), (d, 1), (d, k));
    } else if p == d {
      TwoIn(Refs(nodes', p), (d, 1), (i, 1));
    } else {
      assert CountOk(nodes, p);
      forall d2: nat, k2: nat
        ensures (d2, k2) in Refs(nodes', p) <==> (d2, k2) == (d, 1) || (d2, k2) in Refs(nodes, p)
      {
        DeadDirNames(nodes, i, d, k, name, d2, k2, p);
        RefsMember(nodes, p, d2, k2);
      }
      RefsMember(nodes, p, d, 1);
      assert Refs(nodes', p) == Refs(nodes, p) + {(d, 1)};
    }
  }

  lemma TwoIn(s: set<(nat, nat)>, a: (nat, nat), b: (nat, nat))
    requires a in s && b in s && a != b
    ensures |s| >= 2
  {
    assert s == {a, b} + (s - {a, b});
  }

  lemma CreateNode(nodes: Nodes, i: nat, kind: nat, d: nat, k: nat, name: Stored, y: nat)
    requires CanCreate(nodes, i, kind, d, k, name) && Live(nodes, d) && d != 0
             && (y == i || (y in nodes && NodeOk(nodes, y)))
    ensures NodeOk(Created(nodes, i, kind, d, k, name), y)
  {
    var nodes' := Created(nodes, i, kind, d, k, name);
    if y == d {
      PutUnique(nodes[d].entries, k, Entry(i, name));
    } else if y == i && kind == T_DIR {
      assert UniqueNames(nodes'[i].entries);
    }
  }

  lemma CreateEntry(nodes: Nodes, home: Homes, i: nat, kind: nat, d: nat, k: nat, name: Stored, d2: nat, k2: nat)
    requires CanCreate(nodes, i, kind, d, k, name) && Live(nodes, d) && Live(nodes, ROOT)
    requires var nodes' := Created(nodes, i, kind, d, k, name); Live(nodes', d2) && k2 < |nodes'[d2].entries|
    requires d2 != i && !(d2 == d && k2 == k) ==>
               Live(nodes, d2) && k2 < |nodes[d2].entries| && EntryOk(nodes, home, d2, k2)
    ensures EntryOk(Created(nodes, i, kind, d, k, name), CreatedHome(home, i, kind, d, k), d2, k2)
  {
  }

  lemma CreateHome(nodes: Nodes, home: Homes, i: nat, kind: nat, d: nat, k: nat, name: Stored, c: nat)
    requires CanCreate(nodes, i, kind, d, k, name) && Live(nodes, d) && Live(nodes, ROOT)
    requires Live(Created(nodes, i, kind, d, k, name), c) && (c != i ==> Live(nodes, c) && HomeOk(nodes, home, c))
             && c != 0
    ensures HomeOk(Created(nodes, i, kind, d, k, name), CreatedHome(home, i, kind, d, k), c)
  {
    if c != i && c != ROOT {
      CreateNames(nodes, i, kind, d, k, name, home[c].0, home[c].1, c);
    } else if c == i {
      CreateNames(nodes, i, kind, d, k, name, d, k, c);
    }
  }

  lemma CreateShape(nodes: Nodes, home: Homes, i: nat, kind: nat, d: nat, k: nat, name: Stored)
    requires Shape(nodes, home) && CanCreate(nodes, i, kind, d, k, name) && Live(nodes, d)
    ensures Shape(Created(nodes, i, kind, d, k, name), CreatedHome(home, i, kind, d, k))
  {
    var nodes', home' := Created(nodes, i, kind, d, k, name), CreatedHome(home, i, kind, d, k);
    assert NodeOk(nodes, d);
    forall y | y in nodes' ensures NodeOk(nodes', y) {
      assert y != i ==> NodeOk(nodes, y);
      CreateNode(nodes, i, kind, d, k, name, y);
    }
    forall d2, k2: nat | Live(nodes', d2) && k2 < |nodes'[d2].entries| ensures EntryOk(nodes', home', d2, k2) {
      assert d2 != i && !(d2 == d && k2 == k) ==> EntryOk(nodes, home, d2, k2);
      CreateEntry(nodes, home, i, kind, d, k, name, d2, k2);
    }
    forall c | Live(nodes', c) ensures HomeOk(nodes', home', c) {
      assert NodeOk(nodes', c);
      assert c != i ==> HomeOk(nodes, home, c);
      CreateHome(nodes, home, i, kind, d, k, name, c);
    }
  }

  /** Creating keeps the invariant exactly when the parent is live. */
  lemma CreateInv(nodes: Nodes, home: Homes, i: nat, kind: nat, d: nat, k: nat, name: Stored)
    requires Inv(nodes, home) && CanCreate(nodes, i, kind, d, k, name)
    ensures Inv(Created(nodes, i, kind, d, k, name), CreatedHome(home, i, kind, d, k)) <==> nodes[d].nlink > 0
  {
    assert NodeOk(nodes, d);
    if nodes[d].nlink > 0 {
      CreateShape(nodes, home, i, kind, d, k, name);
      FreeIsUnnamed(nodes, home, i);
      forall y | y in Created(nodes, i, kind, d, k, name) ensures CountOk(Created(nodes, i, kind, d, k, name), y) {
        assert y != i ==> NodeOk(nodes, y) && CountOk(nodes, y);
        CreateCountAt(nodes, i, kind, d, k, name, y);
      }
    } else if kind == T_DIR {
      CreateDeadDir(nodes, home, i, d, k, name, CreatedHome(home, i, kind, d, k));
    } else {
      CreateDead(nodes, home, i, kind, d, k, name);
    }
  }

  // ---------------------------------------------------------------- unlink

  const GONE: Entry := Entry(0, "")

  /** sys_unlink's writes: the slot cleared, the parent's count for a "..", the inode's count. */
  function Unlinked(nodes: Nodes, x: nat, d: nat, k: nat): Nodes
    requires x in nodes && d in nodes && k <= |nodes[d].entries| && x != d
  {
    var up := if nodes[x].kind == T_DIR then -1 else 0;
    Bump(Bump(Put(nodes, d, k, GONE), d, up), x, -1)
  }

  ghost predicate CanUnlink(nodes: Nodes, x: nat, d: nat, k: nat) {
    && Live(nodes, d) && 2 <= k < |nodes[d].entries| && nodes[d].entries[k].inum == x && x != 0 && x in nodes
    && (nodes[x].kind == T_DIR ==> Empty(nodes[x].entries))
  }

  /** An empty directory is named by its one slot and by nothing else. */
  lemma EmptyDirRefs(nodes: Nodes, home: Homes, x: nat, d: nat, k: nat)
    requires Shape(nodes, home) && CanUnlink(nodes, x, d, k) && nodes[x].kind == T_DIR
    ensures Refs(nodes, x) == {(d, k)} && x != ROOT && x != d
  {
    assert EntryOk(nodes, home, d, k) && NodeOk(nodes, x);
    forall d2: nat, k2: nat ensures (d2, k2) in Refs(nodes, x) <==> d2 == d && k2 == k {
      RefsMember(nodes, x, d2, k2);
      if Live(nodes, d2) && 2 <= k2 < |nodes[d2].entries| {
        assert EntryOk(nodes, home, d2, k2);
      }
      if Live(nodes, d2) && k2 == 1 {
        assert NodeOk(nodes, d2) && HomeOk(nodes, home, d2);
      }
    }
  }

  /** The parent of a directory has a name of its own besides that directory's "..". */
  lemma ParentTwice(nodes: Nodes, home: Homes, x: nat, d: nat, k: nat)
    requires Inv(nodes, home) && CanUnlink(nodes, x, d, k) && nodes[x].kind == T_DIR
    ensures nodes[d].nlink >= 2 && nodes[x].nlink == 1 && nodes[x].entries != [] && Names(nodes, x, 1, d)
  {
    EmptyDirRefs(nodes, home, x, d, k);
    assert CountOk(nodes, x) && CountOk(nodes, d) && EntryOk(nodes, home, d, k) && NodeOk(nodes, x)
           && HomeOk(nodes, home, d) && NodeOk(nodes, d);
    RefsMember(nodes, d, x, 1);
    if d == ROOT {
      RefsMember(nodes, d, ROOT, 1);
      TwoIn(Refs(nodes, d), (x, 1), (ROOT, 1));
    } else {
      RefsMember(nodes, d, home[d].0, home[d].1);
      TwoIn(Refs(nodes, d), (x, 1), home[d]);
    }
  }

  /** The directory part of the effect: x has gone dead and d is still live. */
  predicate Settled(nodes: Nodes, x: nat, d: nat)
    requires x in nodes && d in nodes
  {
    nodes[x].kind == T_DIR ==>
      nodes[d].nlink >= 2 && nodes[x].nlink == 1 && |nodes[x].entries| >= 2 && nodes[x].entries[1].inum == d
  }

  lemma UnlinkNames(nodes: Nodes, x: nat, d: nat, k: nat, d2: nat, k2: nat, y: nat)
    requires CanUnlink(nodes, x, d, k) && x != d && Settled(nodes, x, d) && y != 0
    ensures Names(Unlinked(nodes, x, d, k), d2, k2, y) <==>
            Names(nodes, d2, k2, y) && !(d2 == d && k2 == k) && !(nodes[x].kind == T_DIR && d2 == x)
  {
  }

  lemma UnlinkRefs(nodes: Nodes, x: nat, d: nat, k: nat, y: nat)
    requires CanUnlink(nodes, x, d, k) && x != d && Settled(nodes, x, d) && y != 0
    ensures Refs(Unlinked(nodes, x, d, k), y) ==
            if y == x then Refs(nodes, y) - {(d, k)} else if y == d
              && nodes[x].kind == T_DIR then Refs(nodes, y) - {(x, 1)} else Refs(nodes, y)
    ensures y == x ==> (d, k) in Refs(nodes, y)
    ensures y == d && nodes[x].kind == T_DIR ==> (x, 1) in Refs(nodes, y)
  {
    var nodes' := Unlinked(nodes, x, d, k);
    forall d2: nat, k2: nat
      ensures (d2, k2) in Refs(nodes', y) <==>
              (d2, k2) in Refs(nodes, y) && !(d2 == d && k2 == k && y == x)
                && !(nodes[x].kind == T_DIR && d2 == x && k2 == 1 && y == d)
    {
      UnlinkNames(nodes, x, d, k, d2, k2, y);
      RefsMember(nodes, y, d2, k2);
      RefsMember(nodes', y, d2, k2);
    }
    RefsMember(nodes, y, d, k);
    RefsMember(nodes, y, x, 1);
  }

  lemma UnlinkCountAt(nodes: Nodes, x: nat, d: nat, k: nat, y: nat)
    requires CanUnlink(nodes, x, d, k) && x != d && Settled(nodes, x, d) && y in nodes && y != 0 && CountOk(nodes, y)
    ensures CountOk(Unlinked(nodes, x, d, k), y)
  {
    UnlinkRefs(nodes, x, d, k, y);
  }

  lemma UnlinkNode(nodes: Nodes, x: nat, d: nat, k: nat, y: nat)
    requires CanUnlink(nodes, x, d, k) && x != d && Settled(nodes, x, d) && y in nodes && NodeOk(nodes, y)
             && nodes[x].nlink >= 1
    requires nodes[x].kind == T_DIR && Live(nodes, y) && y != x ==>
               |nodes[y].entries| >= 2 && nodes[y].entries[1].inum != x
    ensures NodeOk(Unlinked(nodes, x, d, k), y)
  {
    if y == d {
      PutUnique(nodes[d].entries, k, GONE);
    }
  }

  lemma UnlinkEntry(nodes: Nodes, home: Homes, x: nat, d: nat, k: nat, d2: nat, k2: nat)
    requires CanUnlink(nodes, x, d, k) && x != d && Settled(nodes, x, d)
    requires Live(nodes, d2) && k2 < |nodes[d2].entries| && EntryOk(nodes, home, d2, k2)
    requires Live(Unlinked(nodes, x, d, k), d2)
    ensures EntryOk(Unlinked(nodes, x, d, k), home, d2, k2)
  {
  }

  lemma UnlinkHome(nodes: Nodes, home: Homes, x: nat, d: nat, k: nat, c: nat)
    requires CanUnlink(nodes, x, d, k) && x != d && Settled(nodes, x, d) && Live(nodes, c) && HomeOk(nodes, home, c)
             && c != 0
    requires Live(Unlinked(nodes, x, d, k), c) && (nodes[x].kind == T_DIR && c != ROOT ==> home[c].0 != x)
    requires c != ROOT ==> EntryOk(nodes, home, home[c].0, home[c].1)
    ensures HomeOk(Unlinked(nodes, x, d, k), home, c)
  {
    if c != ROOT {
      UnlinkNames(nodes, x, d, k, home[c].0, home[c].1, c);
    }
  }

  /** No live directory has an empty directory for parent. */
  lemma NoChild(nodes: Nodes, home: Homes, x: nat, d: nat, k: nat, c: nat)
    requires Shape(nodes, home) && CanUnlink(nodes, x, d, k) && nodes[x].kind == T_DIR && Live(nodes, c)
    ensures |nodes[c].entries| >= 2 && nodes[c].entries[1].inum != x && (c != ROOT ==> c in home && home[c].0 != x)
  {
    EmptyDirRefs(nodes, home, x, d, k);
    assert NodeOk(nodes, c) && HomeOk(nodes, home, c);
    RefsMember(nodes, x, c, 1);
  }

  lemma UnlinkReady(nodes: Nodes, home: Homes, x: nat, d: nat, k: nat)
    requires Inv(nodes, home) && CanUnlink(nodes, x, d, k)
    ensures x != d && Settled(nodes, x, d) && nodes[x].nlink >= 1
  {
    assert CountOk(nodes, x) && EntryOk(nodes, home, d, k);
    NamedIsLinked(nodes, x, d, k);
    if nodes[x].kind == T_DIR {
      EmptyDirRefs(nodes, home, x, d, k);
      ParentTwice(nodes, home, x, d, k);
    }
  }

  lemma UnlinkShape(nodes: Nodes, home: Homes, x: nat, d: nat, k: nat)
    requires Inv(nodes, home) && CanUnlink(nodes, x, d, k) && x != d && Settled(nodes, x, d) && nodes[x].nlink >= 1
    ensures Shape(Unlinked(nodes, x, d, k), home)
  {
    var nodes' := Unlinked(nodes, x, d, k);
    forall y | y in nodes' ensures NodeOk(nodes', y) {
      assert NodeOk(nodes, y);
      if nodes[x].kind == T_DIR && Live(nodes, y) {
        NoChild(nodes, home, x, d, k, y);
      }
      UnlinkNode(nodes, x, d, k, y);
    }
    forall d2, k2: nat | Live(nodes', d2) && k2 < |nodes'[d2].entries| ensures EntryOk(nodes', home, d2, k2) {
      assert EntryOk(nodes, home, d2, k2);
      UnlinkEntry(nodes, home, x, d, k, d2, k2);
    }
    forall c | Live(nodes', c) ensures HomeOk(nodes', home, c) {
      UnlinkHomeAt(nodes, home, x, d, k, c);
    }
    if nodes[x].kind == T_DIR {
      EmptyDirRefs(nodes, home, x, d, k);
    }
  }

  lemma UnlinkHomeAt(nodes: Nodes, home: Homes, x: nat, d: nat, k: nat, c: nat)
    requires Inv(nodes, home) && CanUnlink(nodes, x, d, k) && x != d && Settled(nodes, x, d)
             && Live(Unlinked(nodes, x, d, k), c)
    ensures HomeOk(Unlinked(nodes, x, d, k), home, c)
  {
    assert Live(nodes, c) && NodeOk(nodes, c) && HomeOk(nodes, home, c);
    if nodes[x].kind == T_DIR {
      NoChild(nodes, home, x, d, k, c);
    }
    if c != ROOT {
      assert EntryOk(nodes, home, home[c].0, home[c].1);
    }
    UnlinkHome(nodes, home, x, d, k, c);
  }

  /** Unlinking keeps the invariant. */
  lemma UnlinkInv(nodes: Nodes, home: Homes, x: nat, d: nat, k: nat)
    requires Inv(nodes, home) && CanUnlink(nodes, x, d, k)
    ensures x != d && Inv(Unlinked(nodes, x, d, k), home)
  {
    UnlinkReady(nodes, home, x, d, k);
    UnlinkShape(nodes, home, x, d, k);
    forall y | y in nodes ensures CountOk(Unlinked(nodes, x, d, k), y) {
      assert NodeOk(nodes, y) && CountOk(nodes, y);
      UnlinkCountAt(nodes, x, d, k, y);
    }
  }

  // ---------------------------------------------------------------- iput

  /** Freeing an inode that nothing names keeps the invariant. */
  lemma DropNames(nodes: Nodes, x: nat, d2: nat, k2: nat, y: nat)
    requires x in nodes && nodes[x].nlink == 0
    ensures Names(nodes - {x}, d2, k2, y) <==> Names(nodes, d2, k2, y)
  {
  }

  lemma DropCountAt(nodes: Nodes, x: nat, y: nat)
    requires x in nodes && nodes[x].nlink == 0 && y in nodes && y != x && CountOk(nodes, y)
    ensures CountOk(nodes - {x}, y)
  {
    forall d2: nat, k2: nat ensures (d2, k2) in Refs(nodes - {x}, y) <==> (d2, k2) in Refs(nodes, y) {
      DropNames(nodes, x, d2, k2, y);
      RefsMember(nodes, y, d2, k2);
      RefsMember(nodes - {x}, y, d2, k2);
    }
    assert Refs(nodes - {x}, y) == Refs(nodes, y);
  }

  lemma Unnamed(nodes: Nodes, x: nat, d: nat, k: nat)
    requires x in nodes && nodes[x].nlink == 0 && CountOk(nodes, x)
    ensures !Names(nodes, d, k, x)
  {
    RefsMember(nodes, x, d, k);
    assert Refs(nodes, x) == {};
  }

  lemma DropNode(nodes: Nodes, x: nat, y: nat)
    requires x in nodes && nodes[x].nlink == 0 && y in nodes && y != x && NodeOk(nodes, y)
    ensures NodeOk(nodes - {x}, y)
  {
  }

  lemma DropEntry(nodes: Nodes, home: Homes, x: nat, d: nat, k: nat)
    requires x in nodes && nodes[x].nlink == 0 && CountOk(nodes, x) && Live(nodes, d) && k < |nodes[d].entries|
             && EntryOk(nodes, home, d, k)
    ensures Live(nodes - {x}, d) && EntryOk(nodes - {x}, home, d, k)
  {
    Unnamed(nodes, x, d, k);
  }

  lemma DropHome(nodes: Nodes, home: Homes, x: nat, c: nat)
    requires x in nodes && nodes[x].nlink == 0 && Live(nodes, c) && HomeOk(nodes, home, c)
    ensures Live(nodes - {x}, c) && HomeOk(nodes - {x}, home, c)
  {
    if c != ROOT {
      DropNames(nodes, x, home[c].0, home[c].1, c);
    }
  }

  lemma DropInv(nodes: Nodes, home: Homes, x: nat)
    requires Inv(nodes, home) && x in nodes && nodes[x].nlink == 0
    ensures Inv(nodes - {x}, home)
  {
    var nodes' := nodes - {x};
    assert CountOk(nodes, x);
    forall y | y in nodes' ensures NodeOk(nodes', y) {
      assert NodeOk(nodes, y);
      DropNode(nodes, x, y);
    }
    forall y | y in nodes' ensures CountOk(nodes', y) {
      assert CountOk(nodes, y);
      DropCountAt(nodes, x, y);
    }
    forall d2, k2: nat | Live(nodes', d2) && k2 < |nodes'[d2].entries| ensures EntryOk(nodes', home, d2, k2) {
      assert EntryOk(nodes, home, d2, k2);
      DropEntry(nodes, home, x, d2, k2);
    }
    forall c | Live(nodes', c) ensures HomeOk(nodes', home, c) {
      assert HomeOk(nodes, home, c);
      DropHome(nodes, home, x, c);
    }
  }

  /** The failing case made concrete: a file created in a removed directory that a process is still in. */
  lemma DeadParentBreaks()
    ensures var nodes: Nodes := map[ROOT := Node(T_DIR, 1, [Entry(ROOT, DOT), Entry(ROOT, DOTDOT)]),
                                    2 := Node(T_DIR, 0, [Entry(2, DOT), Entry(ROOT, DOTDOT)])];
            && Inv(nodes, map[]) && CanCreate(nodes, 3, T_FILE, 2, 2, "f")
            && !Counts(Created(nodes, 3, T_FILE, 2, 2, "f"))
  {
    var nodes: Nodes := map[ROOT := Node(T_DIR, 1, [Entry(ROOT, DOT), Entry(ROOT, DOTDOT)]),
        2 := Node(T_DIR, 0, [Entry(2, DOT), Entry(ROOT, DOTDOT)])];
    assert UniqueNames(nodes[ROOT].entries) && UniqueNames(nodes[2].entries);
    forall d: nat, k: nat
      ensures (d, k) in Refs(nodes, ROOT) <==> d == ROOT && k == 1
      ensures (d, k) !in Refs(nodes, 2)
    {
      RefsMember(nodes, ROOT, d, k);
      RefsMember(nodes, 2, d, k);
    }
    assert Refs(nodes, ROOT) == {(ROOT, 1)} && Refs(nodes, 2) == {};
    assert Shape(nodes, map[]);
    CreateDead(nodes, map[], 3, T_FILE, 2, 2, "f");
  }
}
