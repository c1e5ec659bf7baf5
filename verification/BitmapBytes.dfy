/** The bitmap as balloc and bfree handle it: bit bi of a block is a bit of byte bi / 8. */
module BitmapBytes {
  /** The bit of its byte that stands for a block. */
  function Mask(j: nat): bv8
    requires j < 8
  {
    1 << j
  }

  function Bit(data: seq<bv8>, bi: nat): bool
    requires bi < 8 * |data|
  {
    data[bi / 8] & Mask(bi % 8) != 0
  }

  function SetBit(data: seq<bv8>, bi: nat): seq<bv8>
    requires bi < 8 * |data|
  {
    data[bi / 8 := data[bi / 8] | Mask(bi % 8)]
  }

  function ClearBit(data: seq<bv8>, bi: nat): seq<bv8>
    requires bi < 8 * |data|
  {
    data[bi / 8 := data[bi / 8] & !Mask(bi % 8)]
  }

  /** The mask of bit j as a number. */
  lemma Masks(j: nat)
    requires j < 8
    ensures Mask(j) == [1 as bv8, 2, 4, 8, 16, 32, 64, 128][j]
  {
  }

  lemma MaskAlone(b: bv8, j: nat, k: nat)
    requires j < 8 && k < 8
    ensures (b | Mask(j)) & Mask(k) != 0 <==> j == k || b & Mask(k) != 0
    ensures (b & !Mask(j)) & Mask(k) != 0 <==> j != k && b & Mask(k) != 0
  {
    Masks(j);
    Masks(k);
  }

  /** Different bits are in different bytes or at different places in one. */
  lemma Places(bi: nat, bj: nat)
    ensures bi / 8 == bj / 8 && bi % 8 == bj % 8 ==> bi == bj
  {
  }

  /** Marking a block in use changes its bit and no other. */
  lemma SetAlone(data: seq<bv8>, bi: nat, bj: nat)
    requires bi < 8 * |data| && bj < 8 * |data|
    ensures Bit(SetBit(data, bi), bj) <==> bj == bi || Bit(data, bj)
  {
    Places(bi, bj);
    if bi / 8 == bj / 8 {
      MaskAlone(data[bi / 8], bi % 8, bj % 8);
    }
  }

  /** Marking a block free changes its bit and no other. */
  lemma ClearAlone(data: seq<bv8>, bi: nat, bj: nat)
    requires bi < 8 * |data| && bj < 8 * |data|
    ensures Bit(ClearBit(data, bi), bj) <==> bj != bi && Bit(data, bj)
  {
    Places(bi, bj);
    if bi / 8 == bj / 8 {
      MaskAlone(data[bi / 8], bi % 8, bj % 8);
    }
  }
}
