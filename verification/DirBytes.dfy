/**
 struct dirent in the bytes of a directory: two bytes of inode number, fourteen of name,
 padded with NULs. Reading slot by slot and writing one slot with writei is reading and
 writing the entries of Links.
 */
module DirBytes {
  import opened Params
  import opened Inodes
  import opened FileBytes
  import opened DirNames
  import opened Links

  const DIRENT: nat := 16

  /** An entry whose inode number a struct dirent can hold. */
  predicate Storable(e: Entry) {
    e.inum < 0x1_0000
  }

  /** The bytes of a name, padded to n. */
  function Padded(name: Name, n: nat): (r: seq<Byte>)
    requires |name| <= n
    ensures |r| == n && forall i: nat :: i < n ==> r[i] == ByteOf(name, i)
  {
    seq(n, i requires 0 <= i < n => if i < |name| then name[i] as int else 0)
  }

  /** The name in a field: what comes before the first NUL. */
  function NameIn(field: seq<Byte>): (r: Name)
    ensures |r| <= |field| && (|r| < |field| ==> field[|r|] == 0)
    ensures forall i: nat :: i < |r| ==> field[i] == r[i] as int
  {
    if field == [] || field[0] == 0 then "" else [field[0] as char] + NameIn(field[1..])
  }

  function Encode(e: Entry): (r: seq<Byte>)
    requires Storable(e)
    ensures |r| == DIRENT && r[0] as int + 256 * (r[1] as int) == e.inum
    ensures forall i: nat :: i < DIRSIZ ==> r[2 + i] == ByteOf(e.name, i)
  {
    [e.inum % 256, e.inum / 256] + Padded(e.name, DIRSIZ)
  }

  function Decode(de: seq<Byte>): Entry
    requires |de| == DIRENT
  {
    var lo: nat, hi: nat := de[0], de[1];
    Entry(lo + 256 * hi, NameIn(de[2..]))
  }

  lemma {:induction false} NameOf(field: seq<Byte>, name: Name)
    requires |name| <= |field| && forall i: nat :: i < |field| ==> field[i] == ByteOf(name, i)
    ensures NameIn(field) == name
    decreases |field|
  {
    if name != "" {
      assert field[0] == ByteOf(name, 0);
      forall i: nat | i < |field| - 1 ensures field[1..][i] == ByteOf(name[1..], i) {
        assert field[i + 1] == ByteOf(name, i + 1);
      }
      NameOf(field[1..], name[1..]);
      assert name == [name[0]] + name[1..];
    } else if field != [] {
      assert field[0] == ByteOf(name, 0);
    }
  }

  lemma NameRoundTrip(name: Name, n: nat)
    requires |name| <= n
    ensures NameIn(Padded(name, n)) == name
  {
    NameOf(Padded(name, n), name);
  }

  lemma EntryRoundTrip(e: Entry)
    requires Storable(e)
    ensures Decode(Encode(e)) == e
  {
    NameOf(Encode(e)[2..], e.name);
  }

  // ---------------------------------------------------------------- names in the bytes

  /** strncmp of a name and a field, whose bytes after a NUL do not matter. */
  ghost predicate SameField(name: Name, field: seq<Byte>)
    requires |field| == DIRSIZ
  {
    forall i: nat :: i < DIRSIZ && (forall j: nat :: j < i ==> field[j] != 0) ==> ByteOf(name, i) == field[i]
  }

  /** Comparing with the bytes of a slot is comparing with the name read from it. */
  lemma SameFieldIffName(name: Name, field: seq<Byte>)
    requires |field| == DIRSIZ
    ensures SameField(name, field) <==> SameName(name, NameIn(field))
  {
    var r := NameIn(field);
    assert forall j: nat :: j < |r| ==> field[j] != 0;
    if SameField(name, field) {
      forall i: nat | i < DIRSIZ ensures ByteOf(name, i) == ByteOf(r, i) {
        if i < |r| {
          assert ByteOf(name, i) == field[i];
        } else {
          assert ByteOf(name, |r|) == field[|r|] == 0;
        }
      }
    }
    if SameName(name, r) {
      forall i: nat | i < DIRSIZ && forall j: nat :: j < i ==> field[j] != 0 ensures ByteOf(name, i) == field[i] {
        assert ByteOf(name, i) == ByteOf(r, i);
        assert i <= |r|;
      }
    }
  }

  /** strncpy into the n bytes at s: the string up to its NUL, then NULs. */
  method Strncpy(s: array<Byte>, t: Name, n: nat)
    requires n <= s.Length
    modifies s
    ensures forall i: nat :: i < n ==> s[i] == ByteOf(t, i)
    ensures s[n..] == old(s[n..])
  {
    var k := 0;
    while k < n && ByteOf(t, k) != 0
      invariant 0 <= k <= n && k <= |t|
      invariant forall i: nat :: i < k ==> s[i] == ByteOf(t, i)
      invariant s[n..] == old(s[n..])
    {
      s[k] := ByteOf(t, k);
      k := k + 1;
    }
    while k < n
      invariant 0 <= k <= n && (k < n ==> k >= |t|)
      invariant forall i: nat :: i < k ==> s[i] == ByteOf(t, i)
      invariant s[n..] == old(s[n..])
    {
      s[k] := 0;
      k := k + 1;
    }
  }

  /**
   The struct dirent that dirlink writes, its name filled in by strncpy, is the entry with
   the name cut to DIRSIZ; the slot compares equal with exactly the names that have the same
   DIRSIZ bytes.
   */
  lemma StoredName(name: Name, inum: nat, de: seq<Byte>, other: Name)
    requires inum < 0x1_0000 && |de| == DIRENT && de[0] as int + 256 * (de[1] as int) == inum
    requires forall i: nat :: i < DIRSIZ ==> de[2 + i] == ByteOf(name, i)
    ensures Decode(de) == Entry(inum, Cut(name)) && de == Encode(Decode(de))
    ensures SameField(other, de[2..]) <==> SameName(other, name)
  {
    var field := de[2..];
    SameNameIffCut(name, Cut(name));
    assert forall i: nat :: i < DIRSIZ ==> ByteOf(name, i) == ByteOf(Cut(name), i);
    NameOf(field, Cut(name));
    var r := Encode(Decode(de));
    assert r[0] == de[0] && r[1] == de[1];
    forall i: nat | i < DIRENT ensures r[i] == de[i] {
      if i >= 2 {
        assert r[2 + (i - 2)] == ByteOf(Cut(name), i - 2);
        assert de[2 + (i - 2)] == ByteOf(name, i - 2);
      }
    }
    SameFieldIffName(other, field);
    SameNameIffCut(other, Cut(name));
    SameNameIffCut(other, Cut(other));
    if SameName(other, name) {
      SameNameTrans(other, name, Cut(name));
    }
    if SameName(other, Cut(name)) {
      SameNameTrans(other, Cut(name), name);
      assert SameName(Cut(name), name) by {
        forall i: nat | i < DIRSIZ ensures ByteOf(Cut(name), i) == ByteOf(name, i) {
          assert ByteOf(name, i) == ByteOf(Cut(name), i);
        }
      }
    }
  }

  function SlotAt(c: seq<Byte>, k: nat): seq<Byte>
    requires (k + 1) * DIRENT <= |c|
  {
    c[k * DIRENT..(k + 1) * DIRENT]
  }

  /** The entries of a directory with contents c. */
  function Entries(c: seq<Byte>): seq<Entry>
    requires |c| % DIRENT == 0
  {
    seq(|c| / DIRENT, k requires 0 <= k < |c| / DIRENT => Decode(SlotAt(c, k)))
  }

  lemma SlotAfter(c: seq<Byte>, k: nat, de: seq<Byte>, j: nat)
    requires |c| % DIRENT == 0 && k * DIRENT <= |c| && |de| == DIRENT
    requires (j + 1) * DIRENT <= |Splice(c, k * DIRENT, de)|
    ensures j == k ==> SlotAt(Splice(c, k * DIRENT, de), j) == de
    ensures j != k ==> (j + 1) * DIRENT <= |c| && SlotAt(Splice(c, k * DIRENT, de), j) == SlotAt(c, j)
  {
    var c' := Splice(c, k * DIRENT, de);
    if j != k {
      assert (j + 1) * DIRENT <= |c|;
      assert forall x :: j * DIRENT <= x < (j + 1) * DIRENT ==> c'[x] == c[x];
    }
  }

  /** writei of one dirent at a slot's offset writes that slot; at the end it adds one. */
  lemma SlotWrite(c: seq<Byte>, k: nat, e: Entry)
    requires |c| % DIRENT == 0 && k * DIRENT <= |c| && Storable(e)
    ensures |Splice(c, k * DIRENT, Encode(e))| % DIRENT == 0 && k <= |Entries(c)|
    ensures Entries(Splice(c, k * DIRENT, Encode(e))) == PutSlot(Entries(c), k, e)
  {
    var c' := Splice(c, k * DIRENT, Encode(e));
    EntryRoundTrip(e);
    assert |c'| == if k < |Entries(c)| then |c| else |c| + DIRENT;
    forall j: nat | j < |Entries(c')| ensures Entries(c')[j] == PutSlot(Entries(c), k, e)[j] {
      SlotAfter(c, k, Encode(e), j);
    }
  }
}
