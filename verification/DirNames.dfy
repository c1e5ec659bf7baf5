/**
 Names in directories: string.c's strncmp and strncpy as fs.c uses them, over at most
 DIRSIZ bytes. A C string is its characters before the NUL; a struct dirent holds a name
 of DIRSIZ bytes without one.
 */
module DirNames {
  import opened Params

  /** A name as a path gives it. */
  type Name = s: string | forall i :: 0 <= i < |s| ==> 0 < s[i] as int < 256

  /** A name as a struct dirent holds it. */
  type Stored = s: Name | |s| <= DIRSIZ

  const DOT: Stored := "."
  const DOTDOT: Stored := ".."

  /** Byte i of the C string, the NUL and what may follow it included. */
  function ByteOf(s: string, i: nat): int {
    if i < |s| then s[i] as int else 0
  }

  /** The two agree byte by byte on the DIRSIZ bytes that count. */
  ghost predicate SameName(s: Name, t: Name) {
    forall i: nat :: i < DIRSIZ ==> ByteOf(s, i) == ByteOf(t, i)
  }

  /** namecmp, which is strncmp over DIRSIZ bytes: it stops at a difference or at a NUL. */
  method Namecmp(s: Name, t: Name) returns (r: int)
    ensures r == 0 <==> SameName(s, t)
  {
    var i := 0;
    while i < DIRSIZ && ByteOf(s, i) != 0 && ByteOf(s, i) == ByteOf(t, i)
      invariant 0 <= i <= DIRSIZ && i <= |s| && i <= |t|
      invariant forall j: nat :: j < i ==> ByteOf(s, j) == ByteOf(t, j)
    {
      i := i + 1;
    }
    if i == DIRSIZ {
      return 0;
    }
    return ByteOf(s, i) - ByteOf(t, i);
  }

  /** The name that the entry keeps. */
  function Cut(name: Name): Stored {
    if |name| > DIRSIZ then name[..DIRSIZ] else name
  }

  /** namecmp of a name with a stored one is 0, if and only if what the entry would keep of it is that one. */
  lemma SameNameIffCut(s: Name, t: Stored)
    ensures SameName(s, t) <==> Cut(s) == t
  {
    if SameName(s, t) {
      assert |t| < DIRSIZ ==> ByteOf(s, |t|) == ByteOf(t, |t|) == 0;
      assert |s| < DIRSIZ ==> ByteOf(t, |s|) == ByteOf(s, |s|) == 0;
      forall i | 0 <= i < |t| ensures Cut(s)[i] == t[i] {
        assert ByteOf(s, i) == ByteOf(t, i);
      }
    } else {
      var i: nat :| i < DIRSIZ && ByteOf(s, i) != ByteOf(t, i);
      assert Cut(s) == t ==> ByteOf(Cut(s), i) == ByteOf(t, i);
    }
  }

  /** Names that fit are the same entry only if they are equal. */
  lemma ShortNames(s: Stored, t: Stored)
    ensures SameName(s, t) <==> s == t
  {
    SameNameIffCut(s, t);
  }

  lemma SameNameBack(s: Name, t: Name)
    ensures SameName(s, t) <==> SameName(t, s)
  {
    if SameName(s, t) {
      forall i: nat | i < DIRSIZ ensures ByteOf(t, i) == ByteOf(s, i) {
        assert ByteOf(s, i) == ByteOf(t, i);
      }
    }
    if SameName(t, s) {
      forall i: nat | i < DIRSIZ ensures ByteOf(s, i) == ByteOf(t, i) {
        assert ByteOf(t, i) == ByteOf(s, i);
      }
    }
  }

  lemma SameNameTrans(s: Name, t: Name, u: Name)
    requires SameName(s, t)
    ensures SameName(s, u) <==> SameName(t, u)
  {
    if SameName(s, u) {
      forall i: nat | i < DIRSIZ ensures ByteOf(t, i) == ByteOf(u, i) {
        assert ByteOf(s, i) == ByteOf(t, i) && ByteOf(s, i) == ByteOf(u, i);
      }
    }
    if SameName(t, u) {
      forall i: nat | i < DIRSIZ ensures ByteOf(s, i) == ByteOf(u, i) {
        assert ByteOf(s, i) == ByteOf(t, i) && ByteOf(t, i) == ByteOf(u, i);
      }
    }
  }
}
