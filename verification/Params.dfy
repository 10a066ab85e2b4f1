/** Sizes from kernel/param.h, kernel/riscv.h and kernel/fs.h that several components share. */
module Params {
  const NPROC: nat := 128
  const MAXOPBLOCKS: nat := 10
  const LOGBLOCKS: nat := MAXOPBLOCKS * 3
  const NBUF: nat := MAXOPBLOCKS * 3
  const BSIZE: nat := 1024
  const PGSIZE: nat := 4096
  const MAXVA: nat := 0x40_0000_0000
}
