/** Constants of param.h, fs.h, mmu.h and memlayout.h that the models share. */
module Params {
  const BSIZE: nat := 512
  const MAXOPBLOCKS: nat := 10
  const LOGSIZE: nat := MAXOPBLOCKS * 3
  const NBUF: nat := MAXOPBLOCKS * 3

  /** 32-bit words in a disk block. */
  const WORDS: nat := 128

  const NDIRECT: nat := 12
  const NINDIRECT: nat := 128
  const MAXFILE: nat := NDIRECT + NINDIRECT
  const BPB: nat := 4096
  const IPB: nat := 8
  const DIRSIZ: nat := 14

  const PIPESIZE: nat := 512
  const TWO31: int := 0x8000_0000
  const TWO32: nat := 0x1_0000_0000

  datatype Option<+T> = None | Some(value: T)

  function Min(a: nat, b: nat): nat {
    if a < b then a else b
  }
}
