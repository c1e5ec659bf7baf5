/**
 Free blocks and what allocation takes of them. balloc hands out the lowest free block;
 how many a file still lacks decides exactly when bmap and writei run out of blocks.
 */
module FreeBlocks {
  import opened Params
  import opened Inodes

  /** b is the lowest clear bit. */
  predicate Lowest(bits: seq<bool>, b: nat) {
    b < |bits| && !bits[b] && forall c: nat :: c < b ==> bits[c]
  }

  /** picked are successive allocations, each the lowest free block of its moment. */
  ghost predicate Picks(bits: seq<bool>, bits': seq<bool>, picked: seq<nat>)
    decreases |picked|
  {
    if picked == [] then bits' == bits
    else Lowest(bits, picked[0]) && Picks(bits[picked[0] := true], bits', picked[1..])
  }

  lemma {:induction false} PicksConcat(bits: seq<bool>, bits1: seq<bool>, bits2: seq<bool>, p: seq<nat>, q: seq<nat>)
    requires Picks(bits, bits1, p) && Picks(bits1, bits2, q)
    ensures Picks(bits, bits2, p + q)
    decreases |p|
  {
    if p == [] {
      assert p + q == q;
    } else {
      PicksConcat(bits[p[0] := true], bits1, bits2, p[1..], q);
      assert (p + q)[1..] == p[1..] + q && (p + q)[0] == p[0];
    }
  }

  // ---------------------------------------------------------------- counting free blocks

  function FreeCount(bits: seq<bool>): nat {
    if bits == [] then 0 else FreeCount(bits[..|bits| - 1]) + (if bits[|bits| - 1] then 0 else 1)
  }

  lemma {:induction false} FreeNone(bits: seq<bool>)
    ensures FreeCount(bits) == 0 <==> forall b: nat :: b < |bits| ==> bits[b]
    decreases |bits|
  {
    if bits != [] {
      var front := bits[..|bits| - 1];
      FreeNone(front);
      forall b: nat | b < |front| ensures front[b] == bits[b] {
      }
    }
  }

  lemma {:induction false} FreeTake(bits: seq<bool>, b: nat)
    requires b < |bits| && !bits[b]
    ensures FreeCount(bits) == FreeCount(bits[b := true]) + 1
    decreases |bits|
  {
    var n, now := |bits| - 1, bits[b := true];
    if b == n {
      assert now[..n] == bits[..n];
    } else {
      FreeTake(bits[..n], b);
      assert now[..n] == bits[..n][b := true];
    }
  }

  lemma {:induction false} FreePicks(bits: seq<bool>, bits': seq<bool>, picked: seq<nat>)
    requires Picks(bits, bits', picked)
    ensures FreeCount(bits) == FreeCount(bits') + |picked|
    decreases |picked|
  {
    if picked != [] {
      FreeTake(bits, picked[0]);
      FreePicks(bits[picked[0] := true], bits', picked[1..]);
    }
  }

  // ---------------------------------------------------------------- counting what a file lacks

  /** The blocks that bmap allocates for the bn-th block of inode i. */
  function BmapCost(nodes: seq<Dinode>, blocks: seq<Bytes>, i: nat, bn: nat): nat
    requires Shaped(nodes) && i < |nodes| && bn < MAXFILE
  {
    if HasBlock(nodes, blocks, i, bn) then 0 else if bn >= NDIRECT && nodes[i].addrs[NDIRECT] == 0 then 2 else 1
  }

  /** How many of the blocks lo..hi inode i does not have. */
  function Missing(nodes: seq<Dinode>, blocks: seq<Bytes>, i: nat, lo: nat, hi: nat): nat
    requires Shaped(nodes) && i < |nodes| && lo <= hi <= MAXFILE
    decreases hi
  {
    if hi == lo then 0
    else Missing(nodes, blocks, i, lo, hi - 1) + (if HasBlock(nodes, blocks, i, hi - 1) then 0 else 1)
  }

  /** What it takes for inode i to have blocks lo..hi: those it lacks, and the indirect block if they need one. */
  function Lack(nodes: seq<Dinode>, blocks: seq<Bytes>, i: nat, lo: nat, hi: nat): nat
    requires Shaped(nodes) && i < |nodes| && lo <= hi <= MAXFILE
  {
    Missing(nodes, blocks, i, lo, hi) + (if lo < hi && hi > NDIRECT && nodes[i].addrs[NDIRECT] == 0 then 1 else 0)
  }

  predicate SameHas(nodes: seq<Dinode>, blocks: seq<Bytes>, nodes': seq<Dinode>, blocks': seq<Bytes>, i: nat, u: nat)
    requires Shaped(nodes) && Shaped(nodes') && i < |nodes| && i < |nodes'| && u < MAXFILE
  {
    HasBlock(nodes', blocks', i, u) <==> HasBlock(nodes, blocks, i, u)
  }

  lemma {:induction false} MissingSame(nodes: seq<Dinode>, blocks: seq<Bytes>, nodes': seq<Dinode>, blocks': seq<Bytes>,
                                       i: nat, lo: nat, hi: nat)
    requires Shaped(nodes) && Shaped(nodes') && i < |nodes| && i < |nodes'| && lo <= hi <= MAXFILE
    requires forall u: nat :: lo <= u < hi ==> SameHas(nodes, blocks, nodes', blocks', i, u)
    ensures Missing(nodes', blocks', i, lo, hi) == Missing(nodes, blocks, i, lo, hi)
    decreases hi
  {
    if hi > lo {
      assert SameHas(nodes, blocks, nodes', blocks', i, hi - 1);
      MissingSame(nodes, blocks, nodes', blocks', i, lo, hi - 1);
    }
  }

  /** The bn-th block has come, and no other. */
  lemma {:induction false} MissingLess(nodes: seq<Dinode>, blocks: seq<Bytes>, nodes': seq<Dinode>, blocks': seq<Bytes>,
                                       i: nat, lo: nat, hi: nat, bn: nat)
    requires Shaped(nodes) && Shaped(nodes') && i < |nodes| && i < |nodes'| && lo <= bn < hi <= MAXFILE
    requires forall u: nat :: lo <= u < hi && u != bn ==> SameHas(nodes, blocks, nodes', blocks', i, u)
    requires !HasBlock(nodes, blocks, i, bn) && HasBlock(nodes', blocks', i, bn)
    ensures Missing(nodes, blocks, i, lo, hi) == Missing(nodes', blocks', i, lo, hi) + 1
    decreases hi
  {
    if bn == hi - 1 {
      MissingSame(nodes, blocks, nodes', blocks', i, lo, hi - 1);
    } else {
      assert SameHas(nodes, blocks, nodes', blocks', i, hi - 1);
      MissingLess(nodes, blocks, nodes', blocks', i, lo, hi - 1, bn);
    }
  }

  lemma {:induction false} MissingNone(nodes: seq<Dinode>, blocks: seq<Bytes>, i: nat, lo: nat, hi: nat)
    requires Shaped(nodes) && i < |nodes| && lo <= hi <= MAXFILE
    requires forall u: nat :: lo <= u < hi ==> HasBlock(nodes, blocks, i, u)
    ensures Missing(nodes, blocks, i, lo, hi) == 0
    decreases hi
  {
    if hi > lo {
      MissingNone(nodes, blocks, i, lo, hi - 1);
    }
  }

  lemma {:induction false} MissingAt(nodes: seq<Dinode>, blocks: seq<Bytes>, i: nat, lo: nat, hi: nat, bn: nat)
    requires Shaped(nodes) && i < |nodes| && lo <= bn < hi <= MAXFILE && !HasBlock(nodes, blocks, i, bn)
    ensures Missing(nodes, blocks, i, lo, hi) >= 1
    decreases hi
  {
    if bn < hi - 1 {
      MissingAt(nodes, blocks, i, lo, hi - 1, bn);
    }
  }

  lemma {:induction false} MissingWider(nodes: seq<Dinode>, blocks: seq<Bytes>, i: nat, lo: nat, hi: nat, from: nat,
                                        stop: nat)
    requires Shaped(nodes) && i < |nodes| && lo <= from <= stop <= hi <= MAXFILE
    ensures Missing(nodes, blocks, i, from, stop) <= Missing(nodes, blocks, i, lo, hi)
    decreases hi
  {
    if stop < hi {
      MissingWider(nodes, blocks, i, lo, hi - 1, from, stop);
    } else if from < stop {
      MissingWider(nodes, blocks, i, lo, hi - 1, from, stop - 1);
    }
  }

  /** A part of a range never lacks more than the whole. */
  lemma LackWider(nodes: seq<Dinode>, blocks: seq<Bytes>, i: nat, lo: nat, hi: nat, from: nat, stop: nat)
    requires Shaped(nodes) && i < |nodes| && lo <= from <= stop <= hi <= MAXFILE
    ensures Lack(nodes, blocks, i, from, stop) <= Lack(nodes, blocks, i, lo, hi)
  {
    MissingWider(nodes, blocks, i, lo, hi, from, stop);
  }

  /** One block of the range never takes more than the whole range. */
  lemma CostBelowLack(nodes: seq<Dinode>, blocks: seq<Bytes>, i: nat, lo: nat, hi: nat, bn: nat)
    requires Shaped(nodes) && i < |nodes| && lo <= bn < hi <= MAXFILE
    ensures BmapCost(nodes, blocks, i, bn) <= Lack(nodes, blocks, i, lo, hi)
  {
    if !HasBlock(nodes, blocks, i, bn) {
      MissingAt(nodes, blocks, i, lo, hi, bn);
    }
  }

  /** With all its blocks there, a range lacks nothing. */
  lemma LackNone(nodes: seq<Dinode>, blocks: seq<Bytes>, i: nat, lo: nat, hi: nat)
    requires Shaped(nodes) && i < |nodes| && lo <= hi <= MAXFILE
    requires forall u: nat :: lo <= u < hi ==> HasBlock(nodes, blocks, i, u)
    ensures Lack(nodes, blocks, i, lo, hi) == 0
  {
    MissingNone(nodes, blocks, i, lo, hi);
    if lo < hi && hi > NDIRECT {
      assert HasBlock(nodes, blocks, i, hi - 1);
    }
  }
}
