/**
 bio.c: the buffer cache, a doubly linked ring of NBUF buffers in release order, over a
 disk with the meaning of iderw. Buffers are named by their index in bcache.buf.
 */
module BufferCache {
  import opened Params
  import opened RedoLog
  import opened Sets

  /** The list head of the ring; buffers are 0 .. NBUF-1. */
  const HEAD: nat := NBUF

  const ROOTDEV: nat := 1

  datatype Buf = Buf(dev: nat, blockno: nat, valid: bool, dirty: bool, refcnt: nat, data: Block)

  // ---------------------------------------------------------------- the ring

  /** The i-th node of the list; the head sits before the first and after the last. */
  function At(ring: seq<nat>, i: int): nat {
    if 0 <= i < |ring| then ring[i] else HEAD
  }

  ghost predicate Distinct(ring: seq<nat>) {
    && (forall i :: 0 <= i < |ring| ==> ring[i] < NBUF)
    && (forall i, j :: 0 <= i < j < |ring| ==> ring[i] != ring[j])
  }

  ghost predicate Linked(next: seq<nat>, prev: seq<nat>, ring: seq<nat>) {
    && |next| == NBUF + 1 && |prev| == NBUF + 1
    && Distinct(ring)
    && (forall i :: -1 <= i < |ring| ==> next[At(ring, i)] == At(ring, i + 1))
    && (forall i :: 0 <= i <= |ring| ==> prev[At(ring, i)] == At(ring, i - 1))
  }

  function Without(ring: seq<nat>, i: nat): (r: seq<nat>)
    requires i < |ring|
    ensures |r| == |ring| - 1
  {
    ring[..i] + ring[i + 1..]
  }

  lemma WithoutAt(ring: seq<nat>, i: nat, k: int)
    requires i < |ring| && -1 <= k <= |ring| - 1
    ensures At(Without(ring, i), k) == if k < i then At(ring, k) else At(ring, k + 1)
  {
  }

  /** The nodes of the list, the head once, all differ. */
  lemma AtDiffer(ring: seq<nat>, j: int, k: int)
    requires Distinct(ring) && -1 <= j < |ring| && -1 <= k < |ring| && j != k
    ensures At(ring, j) != At(ring, k)
  {
  }

  lemma UnlinkNext(next: seq<nat>, prev: seq<nat>, ring: seq<nat>, i: nat, k: int)
    requires Linked(next, prev, ring) && i < |ring| && -1 <= k < |ring| - 1
    ensures At(ring, i - 1) <= NBUF && At(Without(ring, i), k) <= NBUF
    ensures next[At(ring, i - 1) := At(ring, i + 1)][At(Without(ring, i), k)] == At(Without(ring, i), k + 1)
  {
    WithoutAt(ring, i, k);
    WithoutAt(ring, i, k + 1);
    var j := if k < i then k else k + 1;
    assert next[At(ring, j)] == At(ring, j + 1);
    if j != i - 1 {
      AtDiffer(ring, j, i - 1);
    }
  }

  lemma UnlinkPrev(next: seq<nat>, prev: seq<nat>, ring: seq<nat>, i: nat, k: int)
    requires Linked(next, prev, ring) && i < |ring| && 0 <= k <= |ring| - 1
    ensures At(ring, i + 1) <= NBUF && At(Without(ring, i), k) <= NBUF
    ensures prev[At(ring, i + 1) := At(ring, i - 1)][At(Without(ring, i), k)] == At(Without(ring, i), k - 1)
  {
    WithoutAt(ring, i, k);
    WithoutAt(ring, i, k - 1);
    var j := if k < i then k else k + 1;
    assert prev[At(ring, j)] == At(ring, j - 1);
    if j != i + 1 {
      AtDiffer(ring, if j == |ring| then -1 else j, if i + 1 == |ring| then -1 else i + 1);
    }
  }

  lemma UnlinkOk(next: seq<nat>, prev: seq<nat>, ring: seq<nat>, i: nat)
    requires Linked(next, prev, ring) && i < |ring|
    ensures prev[ring[i]] <= NBUF && next[ring[i]] <= NBUF
    ensures Linked(next[prev[ring[i]] := next[ring[i]]], prev[next[ring[i]] := prev[ring[i]]], Without(ring, i))
  {
    var b := ring[i];
    assert At(ring, i) == b;
    assert next[b] == At(ring, i + 1) && prev[b] == At(ring, i - 1);
    var rest := Without(ring, i);
    var next', prev' := next[prev[b] := next[b]], prev[next[b] := prev[b]];
    forall k | -1 <= k < |rest| ensures next'[At(rest, k)] == At(rest, k + 1) {
      UnlinkNext(next, prev, ring, i, k);
    }
    forall k | 0 <= k <= |rest| ensures prev'[At(rest, k)] == At(rest, k - 1) {
      UnlinkPrev(next, prev, ring, i, k);
    }
    DistinctWithout(ring, i);
  }

  lemma DistinctWithout(ring: seq<nat>, i: nat)
    requires Distinct(ring) && i < |ring|
    ensures Distinct(Without(ring, i))
  {
    var rest := Without(ring, i);
    forall j, k | 0 <= j < k < |rest| ensures rest[j] != rest[k] {
      assert rest[j] == ring[if j < i then j else j + 1] && rest[k] == ring[if k < i then k else k + 1];
    }
  }

  /** The four assignments that put b between the head and the first buffer. */
  lemma PushFrontOk(next: seq<nat>, prev: seq<nat>, ring: seq<nat>, b: nat)
    requires Linked(next, prev, ring) && b < NBUF && b !in ring
    ensures next[HEAD] <= NBUF
    ensures Linked(next[b := next[HEAD]][HEAD := b], prev[b := HEAD][next[HEAD] := b], [b] + ring)
  {
    assert At(ring, -1) == HEAD && next[HEAD] == At(ring, 0);
    var more := [b] + ring;
    var next', prev' := next[b := next[HEAD]][HEAD := b], prev[b := HEAD][next[HEAD] := b];
    forall k | -1 <= k < |more| ensures next'[At(more, k)] == At(more, k + 1) {
      if k > 0 {
        assert At(more, k) == At(ring, k - 1) && At(more, k + 1) == At(ring, k);
        assert ring[k - 1] in ring;
      }
    }
    forall k | 0 <= k <= |more| ensures prev'[At(more, k)] == At(more, k - 1) {
      if k > 1 {
        assert At(more, k) == At(ring, k - 1) && At(more, k - 1) == At(ring, k - 2);
        assert At(ring, k - 1) != At(ring, 0);
        assert k - 1 < |ring| ==> ring[k - 1] in ring;
      }
    }
  }

  /** The list is in release order, most recent first. */
  ghost predicate ByRecency(ring: seq<nat>, stamp: seq<int>, clock: nat) {
    && |stamp| == NBUF && Distinct(ring)
    && (forall i :: 0 <= i < NBUF ==> stamp[i] < clock)
    && (forall i, j :: 0 <= i < j < |ring| ==> stamp[ring[i]] > stamp[ring[j]])
  }

  lemma MoveKeepsRecency(ring: seq<nat>, stamp: seq<int>, clock: nat, k: nat)
    requires ByRecency(ring, stamp, clock) && k < |ring|
    ensures ByRecency([ring[k]] + Without(ring, k), stamp[ring[k] := clock], clock + 1)
  {
    var b := ring[k];
    var more := [b] + Without(ring, k);
    forall i | 0 < i < |more| ensures more[i] == ring[if i <= k then i - 1 else i] && more[i] != b {
    }
  }

  /** A ring of NBUF distinct buffers holds every buffer. */
  lemma {:induction false} FullRing(ring: seq<nat>, b: nat)
    requires Distinct(ring) && |ring| == NBUF && b < NBUF
    ensures b in ring
  {
    if b !in ring {
      var nodes := set i | 0 <= i < |ring| :: ring[i];
      SeqSize(ring);
      assert nodes <= Upto(NBUF) - {b};
      SubsetSize(nodes, Upto(NBUF) - {b});
    }
  }

  // ---------------------------------------------------------------- contents

  predicate SameKey(a: Buf, b: Buf) {
    a.dev == b.dev && a.blockno == b.blockno
  }

  /** Keys are unique, except for the key (0,0) that every buffer starts with. */
  ghost predicate UniqueKeys(bufs: seq<Buf>) {
    forall i, j {:trigger SameKey(bufs[i], bufs[j])} :: 0 <= i < j < |bufs| && SameKey(bufs[i], bufs[j]) ==>
      bufs[i].dev == 0 && bufs[i].blockno == 0
  }

  lemma KeysDiffer(bufs: seq<Buf>, i: nat, k: nat)
    requires UniqueKeys(bufs) && i < |bufs| && k < |bufs| && i != k
    requires bufs[i].dev == bufs[k].dev != 0
    ensures bufs[i].blockno != bufs[k].blockno
  {
    if bufs[i].blockno == bufs[k].blockno {
      assert SameKey(bufs[i], bufs[k]) && SameKey(bufs[k], bufs[i]);
    }
  }

  /** Replacing a buffer keeps keys unique if no other buffer has the new key. */
  lemma KeysKept(was: seq<Buf>, i: nat, b: Buf)
    requires i < |was| && UniqueKeys(was)
    requires SameKey(was[i], b) || forall k :: 0 <= k < |was| ==> !SameKey(was[k], b)
    ensures UniqueKeys(was[i := b])
  {
    var now := was[i := b];
    forall k, l | 0 <= k < l < |now| && SameKey(now[k], now[l]) ensures now[k].dev == 0 && now[k].blockno == 0 {
      assert SameKey(was[k], was[l]);
    }
  }

  /**
   A buffer that is neither dirty nor being changed by its holder agrees with the disk.
   `held` are the buffers whose holder has changed the data and not yet logged or written it.
   */
  ghost predicate Coherent(bufs: seq<Buf>, disk: Disk, held: set<nat>) {
    forall i :: 0 <= i < |bufs| ==>
      && (bufs[i].dirty || i in held ==> bufs[i].valid)
      && (i in held ==> bufs[i].refcnt > 0)
      && (bufs[i].valid ==> bufs[i].dev == ROOTDEV && bufs[i].blockno < |disk| && |bufs[i].data| == WORDS)
      && (bufs[i].valid && !bufs[i].dirty && i !in held ==> bufs[i].data == disk[bufs[i].blockno])
  }

  ghost predicate DirtyAt(bufs: seq<Buf>, i: nat, b: nat) {
    i < |bufs| && bufs[i].dirty && bufs[i].dev == ROOTDEV && bufs[i].blockno == b
  }

  ghost predicate DirtyBlock(bufs: seq<Buf>, b: nat) {
    exists i: nat :: DirtyAt(bufs, i, b)
  }

  /** The current contents of block b: its dirty buffer if there is one, else the disk. */
  ghost function Logical(bufs: seq<Buf>, disk: Disk, b: nat): Block
    requires b < |disk|
  {
    if DirtyBlock(bufs, b) then
      var i: nat :| DirtyAt(bufs, i, b);
      bufs[i].data
    else disk[b]
  }

  lemma LogicalOfDirty(bufs: seq<Buf>, disk: Disk, i: nat)
    requires i < |bufs| && UniqueKeys(bufs) && bufs[i].dirty && bufs[i].dev == ROOTDEV && bufs[i].blockno < |disk|
    ensures Logical(bufs, disk, bufs[i].blockno) == bufs[i].data
  {
    var b := bufs[i].blockno;
    assert DirtyAt(bufs, i, b);
    forall k: nat | DirtyAt(bufs, k, b) ensures k == i {
      if k != i {
        KeysDiffer(bufs, i, k);
      }
    }
  }

  predicate Recyclable(b: Buf) {
    b.refcnt == 0 && !b.dirty
  }

  predicate HasKey(b: Buf, dev: nat, blockno: nat) {
    b.dev == dev && b.blockno == blockno
  }

  /** A buffer after bread of block blockno: what bget and iderw make of it. */
  function Loaded(b: Buf, blockno: nat, disk: Disk): Buf
    requires blockno < |disk|
  {
    if !HasKey(b, ROOTDEV, blockno) then Buf(ROOTDEV, blockno, true, false, 1, disk[blockno])
    else if b.valid then b.(refcnt := b.refcnt + 1)
    else b.(refcnt := b.refcnt + 1, valid := true, data := disk[blockno])
  }

  class BCache {
    var disk: Disk
    var bufs: seq<Buf>
    var next: seq<nat>
    var prev: seq<nat>

    /** The buffers in list order, most recently released first. */
    ghost var ring: seq<nat>
    /** stamp[i] is the time of buffer i's last release to zero references. */
    ghost var stamp: seq<int>
    ghost var clock: nat
    ghost var held: set<nat>
    /** Every block written to the disk, in order. */
    ghost var writes: seq<Write>

    ghost predicate Valid()
      reads this
    {
      && |bufs| == NBUF && |stamp| == NBUF
      && Linked(next, prev, ring) && |ring| == NBUF
      && UniqueKeys(bufs) && Coherent(bufs, disk, held)
      && (forall i :: 0 <= i < |disk| ==> |disk[i]| == WORDS)
      && ByRecency(ring, stamp, clock)
      && (forall i :: i in held ==> i < NBUF)
    }

    /** binit. */
    constructor (d: Disk)
      requires forall i :: 0 <= i < |d| ==> |d[i]| == WORDS
      ensures Valid() && disk == d && writes == [] && held == {}
      ensures forall i :: 0 <= i < NBUF ==> bufs[i] == Buf(0, 0, false, false, 0, [])
    {
      disk := d;
      bufs := seq(NBUF, i => Buf(0, 0, false, false, 0, []));
      next := seq(NBUF + 1, i => HEAD);
      prev := seq(NBUF + 1, i => HEAD);
      ring := [];
      stamp := seq(NBUF, i => i - NBUF);
      clock := 0;
      held := {};
      writes := [];
      new;
      var b := 0;
      while b < NBUF
        invariant b <= NBUF && |ring| == b
        invariant Linked(next, prev, ring)
        invariant forall i :: 0 <= i < b ==> ring[i] == b - 1 - i
        invariant disk == d && writes == [] && held == {} && clock == 0
        invariant bufs == seq(NBUF, i => Buf(0, 0, false, false, 0, []))
        invariant stamp == seq(NBUF, i => i - NBUF)
      {
        PushFrontOk(next, prev, ring, b);
        var first := next[HEAD];
        next := next[b := first];
        prev := prev[b := HEAD];
        prev := prev[first := b];
        next := next[HEAD := b];
        ring := [b] + ring;
        b := b + 1;
      }
    }

    /** The first loop of bget: the cached buffer for a key, searched from the most recent. */
    method FindCached(dev: nat, blockno: nat) returns (b: nat)
      requires Valid()
      ensures b <= NBUF
      ensures b < NBUF ==> HasKey(bufs[b], dev, blockno)
      ensures b == HEAD ==> forall i :: 0 <= i < NBUF ==> !HasKey(bufs[i], dev, blockno)
    {
      b := next[HEAD];
      ghost var k := 0;
      assert At(ring, -1) == HEAD;
      while b != HEAD && !HasKey(bufs[b], dev, blockno)
        invariant 0 <= k <= |ring| && b == At(ring, k)
        invariant forall i :: 0 <= i < k ==> !HasKey(bufs[ring[i]], dev, blockno)
        decreases |ring| - k
      {
        b := next[b];
        k := k + 1;
      }
      if b == HEAD {
        forall i | 0 <= i < NBUF ensures !HasKey(bufs[i], dev, blockno) {
          FullRing(ring, i);
        }
      }
    }

    /** The second loop of bget: the unreferenced clean buffer that was released longest ago. */
    method FindRecyclable() returns (b: nat)
      requires Valid()
      ensures b <= NBUF
      ensures b < NBUF ==> Recyclable(bufs[b])
      ensures b < NBUF ==> forall i :: 0 <= i < NBUF && Recyclable(bufs[i]) ==> stamp[b] <= stamp[i]
      ensures b == HEAD ==> forall i :: 0 <= i < NBUF ==> !Recyclable(bufs[i])
    {
      b := prev[HEAD];
      ghost var k := |ring| - 1;
      assert At(ring, |ring|) == HEAD;
      while b != HEAD && !Recyclable(bufs[b])
        invariant -1 <= k < |ring| && b == At(ring, k)
        invariant forall i :: k < i < |ring| ==> !Recyclable(bufs[ring[i]])
        decreases k
      {
        b := prev[b];
        k := k - 1;
      }
      forall i | 0 <= i < NBUF && Recyclable(bufs[i]) ensures b < NBUF && stamp[b] <= stamp[i] {
        FullRing(ring, i);
      }
    }

    /**
     bget: a cached buffer gains a reference; otherwise the least recently released buffer
     that is unreferenced and clean is given the new key. None is the panic "no buffers".
     */
    method Bget(dev: nat, blockno: nat) returns (r: Option<nat>)
      requires Valid() && (dev, blockno) != (0, 0)
      modifies this`bufs
      ensures Valid()
      ensures r.None? <==>
        (forall i :: 0 <= i < NBUF ==> !HasKey(old(bufs)[i], dev, blockno) && !Recyclable(old(bufs)[i]))
      ensures r.None? ==> bufs == old(bufs)
      ensures r.Some? ==> r.value < NBUF
      ensures r.Some? && HasKey(old(bufs)[r.value], dev, blockno) ==>
        bufs == old(bufs)[r.value := old(bufs)[r.value].(refcnt := old(bufs)[r.value].refcnt + 1)]
      ensures r.Some? && !HasKey(old(bufs)[r.value], dev, blockno) ==>
        && (forall i :: 0 <= i < NBUF ==> !HasKey(old(bufs)[i], dev, blockno))
        && Recyclable(old(bufs)[r.value])
        && (forall i :: 0 <= i < NBUF && Recyclable(old(bufs)[i]) ==> stamp[r.value] <= stamp[i])
        && bufs == old(bufs)[r.value := Buf(dev, blockno, false, false, 1, old(bufs)[r.value].data)]
    {
      var b := FindCached(dev, blockno);
      if b != HEAD {
        KeysKept(bufs, b, bufs[b].(refcnt := bufs[b].refcnt + 1));
        bufs := bufs[b := bufs[b].(refcnt := bufs[b].refcnt + 1)];
        return Some(b);
      }
      b := FindRecyclable();
      if b != HEAD {
        KeysKept(bufs, b, Buf(dev, blockno, false, false, 1, bufs[b].data));
        bufs := bufs[b := Buf(dev, blockno, false, false, 1, bufs[b].data)];
        return Some(b);
      }
      return None;
    }

    /** Nothing that a reader of any block could notice, except which buffers are in use. */
    twostate predicate SameContents()
      reads this
    {
      && disk == old(disk) && writes == old(writes) && held == old(held)
      && (forall b: nat :: DirtyBlock(bufs, b) <==> DirtyBlock(old(bufs), b))
      && (forall b :: 0 <= b < |disk| ==> Logical(bufs, disk, b) == Logical(old(bufs), old(disk), b))
    }

    /** The read half of iderw. */
    method IdeRead(i: nat)
      requires Valid() && i < NBUF && !bufs[i].valid && bufs[i].dev == ROOTDEV && bufs[i].blockno < |disk|
      modifies this`bufs
      ensures Valid()
      ensures bufs == old(bufs)[i := old(bufs)[i].(valid := true, data := disk[old(bufs)[i].blockno])]
    {
      KeysKept(bufs, i, bufs[i].(valid := true, data := disk[bufs[i].blockno]));
      bufs := bufs[i := bufs[i].(valid := true, data := disk[bufs[i].blockno])];
    }

    /**
     bread: a referenced, valid buffer with the current contents of the block. The caller
     gets it locked, so no other holder is halfway through changing it. None is one of the
     panics "no buffers", "request not for disk 1" and "block out of range".
     */
    method Bread(dev: nat, blockno: nat) returns (r: Option<nat>)
      requires Valid() && (dev, blockno) != (0, 0)
      requires forall i :: i in held ==> !HasKey(bufs[i], dev, blockno)
      modifies this`bufs
      ensures Valid()
      ensures r.Some? ==>
        && r.value < NBUF && dev == ROOTDEV && blockno < |disk| && r.value !in held
        && (HasKey(old(bufs)[r.value], dev, blockno) || Recyclable(old(bufs)[r.value]))
        && bufs == old(bufs)[r.value := Loaded(old(bufs)[r.value], blockno, disk)]
        && bufs[r.value].data == Logical(old(bufs), disk, blockno)
        && SameContents()
      ensures r.None? && dev == ROOTDEV && blockno < |disk| ==>
        (forall i :: 0 <= i < NBUF ==> !HasKey(old(bufs)[i], dev, blockno) && !Recyclable(old(bufs)[i]))
    {
      r := Bget(dev, blockno);
      if r.Some? {
        var i := r.value;
        if !bufs[i].valid {
          if dev != ROOTDEV || blockno >= |disk| {
            return None;
          }
          IdeRead(i);
        }
        SameDirty(old(bufs), bufs, disk, i);
        ReadsLogical(old(bufs), bufs, disk, held, i);
      }
    }

    /** The holder of a locked buffer changes its data. */
    method Modify(i: nat, data: Block)
      requires Valid() && i < NBUF && bufs[i].valid && bufs[i].refcnt > 0 && |data| == WORDS
      modifies this`bufs, this`held
      ensures Valid() && held == old(held) + {i}
      ensures bufs == old(bufs)[i := old(bufs)[i].(data := data)]
    {
      KeysKept(bufs, i, bufs[i].(data := data));
      bufs := bufs[i := bufs[i].(data := data)];
      held := held + {i};
    }

    /** log_write's B_DIRTY: pins the buffer, whose data is now the block's contents. */
    method Pin(i: nat)
      requires Valid() && i < NBUF && bufs[i].valid && bufs[i].refcnt > 0
      modifies this`bufs, this`held
      ensures Valid() && held == old(held) - {i}
      ensures bufs == old(bufs)[i := old(bufs)[i].(dirty := true)]
    {
      KeysKept(bufs, i, bufs[i].(dirty := true));
      bufs := bufs[i := bufs[i].(dirty := true)];
      held := held - {i};
    }

    /** bwrite: sets B_DIRTY and calls iderw, which writes the block and clears it again. */
    method Bwrite(i: nat)
      requires Valid() && i < NBUF && bufs[i].valid && bufs[i].refcnt > 0
      modifies this`bufs, this`held, this`disk, this`writes
      ensures Valid() && held == old(held) - {i}
      ensures bufs == old(bufs)[i := old(bufs)[i].(dirty := false)]
      ensures disk == old(disk)[old(bufs)[i].blockno := old(bufs)[i].data]
      ensures writes == old(writes) + [Write(old(bufs)[i].blockno, old(bufs)[i].data)]
    {
      KeysKept(bufs, i, bufs[i].(dirty := false));
      bufs := bufs[i := bufs[i].(dirty := true)];
      bufs := bufs[i := bufs[i].(dirty := false, valid := true)];
      assert bufs == old(bufs)[i := old(bufs)[i].(dirty := false)];
      forall k | 0 <= k < NBUF && k != i && bufs[k].valid ensures bufs[k].blockno != bufs[i].blockno {
        KeysDiffer(bufs, i, k);
      }
      disk := disk[bufs[i].blockno := bufs[i].data];
      writes := writes + [Write(bufs[i].blockno, bufs[i].data)];
      held := held - {i};
    }

    /** brelse: drops a reference; the last one moves the buffer to the front of the list. */
    method Brelse(i: nat)
      requires Valid() && i < NBUF && bufs[i].refcnt > 0 && i !in held
      modifies this`bufs, this`next, this`prev, this`ring, this`stamp, this`clock
      ensures Valid()
      ensures bufs == old(bufs)[i := old(bufs)[i].(refcnt := old(bufs)[i].refcnt - 1)]
      ensures bufs[i].refcnt > 0 ==> ring == old(ring) && stamp == old(stamp)
      ensures bufs[i].refcnt == 0 ==>
        && (exists k :: 0 <= k < |old(ring)| && old(ring)[k] == i && ring == [i] + Without(old(ring), k))
        && stamp == old(stamp)[i := old(clock)]
    {
      KeysKept(bufs, i, bufs[i].(refcnt := bufs[i].refcnt - 1));
      bufs := bufs[i := bufs[i].(refcnt := bufs[i].refcnt - 1)];
      if bufs[i].refcnt == 0 {
        ghost var k: nat := MoveToFront(i);
        MoveKeepsRecency(old(ring), stamp, clock, k);
        stamp := stamp[i := clock];
        clock := clock + 1;
      }
    }

    method MoveToFront(i: nat) returns (ghost k: nat)
      requires Linked(next, prev, ring) && |ring| == NBUF && i < NBUF
      modifies this`next, this`prev, this`ring
      ensures Linked(next, prev, ring) && |ring| == NBUF
      ensures k < |old(ring)| && old(ring)[k] == i && ring == [i] + Without(old(ring), k)
    {
      FullRing(ring, i);
      k :| 0 <= k < |ring| && ring[k] == i;
      UnlinkOk(next, prev, ring, k);
      var n, p := next[i], prev[i];
      prev := prev[n := p];
      next := next[p := n];
      ring := Without(ring, k);
      PushFrontOk(next, prev, ring, i);
      next := next[i := next[HEAD]];
      prev := prev[i := HEAD];
      prev := prev[next[HEAD] := i];
      next := next[HEAD := i];
      ring := [i] + ring;
    }
  }

  /** Changing only clean buffers keeps every block's current contents. */
  lemma SameDirty(was: seq<Buf>, now: seq<Buf>, disk: Disk, i: nat)
    requires |was| == |now| && i < |was| && UniqueKeys(was) && UniqueKeys(now)
    requires forall k :: 0 <= k < |was| && k != i ==> now[k] == was[k]
    requires was[i].dirty == now[i].dirty
    requires was[i].dirty ==> now[i].data == was[i].data && now[i].dev == was[i].dev && now[i].blockno == was[i].blockno
    ensures forall b: nat :: DirtyBlock(now, b) <==> DirtyBlock(was, b)
    ensures forall b :: 0 <= b < |disk| ==> Logical(now, disk, b) == Logical(was, disk, b)
  {
    assert forall k: nat, b: nat :: DirtyAt(now, k, b) <==> DirtyAt(was, k, b);
    forall b | 0 <= b < |disk| && DirtyBlock(was, b) ensures Logical(now, disk, b) == Logical(was, disk, b) {
      var k: nat :| DirtyAt(was, k, b);
      assert DirtyAt(now, k, b);
      LogicalOfDirty(was, disk, k);
      LogicalOfDirty(now, disk, k);
    }
  }

  lemma ReadsLogical(was: seq<Buf>, now: seq<Buf>, disk: Disk, held: set<nat>, i: nat)
    requires |was| == |now| && i < |was| && UniqueKeys(now) && Coherent(now, disk, held) && i !in held
    requires now[i].valid && now[i].dev == ROOTDEV
    requires now[i].blockno < |disk| && Logical(now, disk, now[i].blockno) == Logical(was, disk, now[i].blockno)
    ensures now[i].data == Logical(was, disk, now[i].blockno)
  {
    if now[i].dirty {
      LogicalOfDirty(now, disk, i);
    } else {
      forall k: nat | DirtyAt(now, k, now[i].blockno) ensures false {
        KeysDiffer(now, i, k);
      }
    }
  }
}
