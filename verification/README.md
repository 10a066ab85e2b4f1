# Hai-OS in Dafny

A model of the hard core of Hai-OS, a small RISC-V kernel with copy-on-write fork, an extent file
system over a redo log, a priority scheduler and a few user programs, and proofs about it.  Each
module is a component of the kernel or of user space; `dafny verify dfyconfig.toml` checks all of
them together.

| module | component | main result |
|---|---|---|
| `RedoLog`, `LogDriver` | the redo log and group commit | whatever a crash cuts short, even recovery itself, the home blocks are whole groups in order, and none that was committed is lost |
| `PageAlloc`, `VmState`, `VmWorld`, `Vm`, `VmTables` | page allocator, address spaces | every run with copy-on-write and lazy allocation is a run with eager copies, short of memory only if it can need more than is free and given back |
| `Sv39` | the three-level page table | the radix tree implements a map; a walk makes exactly the tables that are missing; teardown frees every table page once |
| `Adler`, `Extents`, `Placement`, `FsState`, `PlainFiles`, `Filesystem`, `FsOverflow` | blocks, extents, inodes, checksums | every run of the file system is the run of a machine on plain byte sequences: every answer, the count of every write and the end of the run are computed from the first state |
| `DirCache` | directories and their cache | a lookup is always the answer of the linear scan |
| `Bio`, `BufferUse` | the buffer cache and its clients | every interleaving of clients is a run on a plain block store, until a request finds all buffers in use |
| `Umalloc` | the user-space heap | circular, ordered, fully coalesced free list; units conserved |
| `Procs` | fork, exit, wait, sleep, wakeup, kill | no interleaving loses a child or deadlocks; what wait returns, and when it sleeps |
| `Sched` | dispatch, yield, ticks, priorities | who is sure to run within NPROC dispatches, and who is not |
| `Virtio`, `VirtioRun` | the disk request queue and its device | descriptors and rings carry out exactly the requests of a plain table, whatever interleaves |
| `Pipe` | the pipe ring and its sleepers | first in, first out across counter wrap-around; who may be asleep |
| `Shell`, `ShellGrammar` | the command parser | it accepts exactly the texts of the grammar, however spaced, and builds their tree; termination in place damages no word |
| `Grep` | the matcher and the line loop | the matcher decides a declarative meaning; the output does not depend on how reads are split |

`Params`, `Counting`, `Rings` and `Wrappers` hold what several of these share: sizes, reference counts
as numbers of holders, rings under wrapping counters, and optional values.

Code that updates fields in place is a class whose fields hold sequences and maps, with methods and
loops as in the C code; each method is tied to a function on values, and the theorems are about
those values.  A panic is a result value (`panicked`, `halted`, `Panic`).  What the environment does
is a parameter or left open: which user copies fail, when a kill becomes visible, how many bytes a
read returns, what status a device reports, when power fails, how processes and devices interleave.

## What the proofs found

- `user/umalloc.c`: the request for more memory is passed to `sbrk` as an `int`.  It is exact for
  requests up to 0x7fffffe0 bytes and for no larger ones; 0xffffffff bytes become a request for 16
  (`Umalloc.ExactlyBelow`).  `malloc` writes a header that claims memory past the break exactly if
  the request is larger than that, no free block is large enough and `sbrk` does not fail
  (`Umalloc.UserHeap.Malloc`).
- `kernel/log.c`: `log_write` looks at the size of the header before it looks for the block in it, so
  with a full header it panics even on a block that is logged already.  Three operations of ten
  blocks each, admitted together, get there if one of them writes a block again
  (`LogDriver.WrittenAgain`).  As long as every operation that writes has some of its ten blocks left
  it does not happen (`LogDriver.NeverTooBig`).
- `kernel/bio.c`, `kernel/log.c`: there are as many buffers as blocks in the largest group, and every
  block of a group is pinned.  The commit of a full group panics at the first `bread` of `write_log`;
  that of a smaller one finds a buffer (`BufferUse.CommitGroup`).  In any interleaving `bget` panics
  exactly if 30 blocks are in use and the one asked for is not among them (`BufferUse.NoBuffers`).
- `kernel/pipe.c`: a writer that is killed after storing bytes returns without waking the readers,
  so a reader can sleep beside those bytes (`Pipe.LostWakeup`).  That is the only way: a reader is
  asleep beside bytes exactly if such a killed writer was there and nobody has woken the readers or
  emptied the pipe since (`Pipe.MissedIff`), and writers never sleep for nothing.
- `kernel/proc.c`: the demotion in `proc_tick` cannot happen.  A dispatch refills the budget and
  every user tick is followed by `yield`, which promotes (`Sched.TickPromotes`): processes that use
  up the CPU rise to the highest priority, against what the comments there say.  Among waiting
  processes of that priority slot 0 and whoever has waited for a tick are sure to run within NPROC
  dispatches (`Sched.BoundedOvertaking`), and nobody else is (`Sched.SoonIff`): within one tick every
  other slot can be overtaken any number of times, from boot (`Sched.Unbounded`).
- `kernel/fs.c`: `bmap` can panic on a file with 14 extents although blocks are free; exactly when
  the block behind the last extent is not (`Filesystem.FileSys.AppendBlock`).  A file takes one extent
  for each of its first 14 blocks even if they are adjacent, so two files are enough
  (`FsOverflow.TwoFiles`).  `CHANGES.md` speaks of 6 extents, the code has 14; the model has 14.
- `kernel/vm.c`: lazy growth shows behind the size.  A store between the size and the end of its page
  is done if the page was allocated and kills the process if it was only promised
  (`Vm.PastEagerSize`, `Vm.PastLazySize`); below the size there is no difference.
- `kernel/fs.c`: the file checksum notices every change of one byte, but not an exchange of two
  bytes 65521 apart (`Adler.SwapDetected`).
- `user/grep.c`: a line longer than the buffer, or a NUL, ends the output silently; everything before
  it is printed.  The output is complete exactly if no line is that long and none ends behind a NUL
  (`Grep.CompleteIff`).
- `kernel/vm.c`: a failing `uvmcopy` leaves the parent's pages copy-on-write, which nobody can see;
  a 16-bit reference count cannot overflow, since a page has at most one user entry per process.

## Model

| member | source | states |
|---|---|---|
| RedoLog.HeadRoundTrip | kernel/log.c:87-115 | what write_head() encodes, read_head() decodes: the same blocks in the same order |
| RedoLog.InstallCrash | kernel/log.c:66-84 | any number of installs leaves a disk with the same meaning and the header untouched |
| RedoLog.RecoverDone | kernel/log.c:117-124 | recovery puts the logged blocks in place, clears the header and changes no meaning |
| RedoLog.RecoverCrash | kernel/log.c:117-124 | a crash after any write of recovery keeps the meaning of the disk |
| RedoLog.LogCrash | kernel/log.c:179-192 | before the header write a crash loses the group and only the group |
| RedoLog.HeadCommits | kernel/log.c:194-204 | the header write alone makes the whole group take effect |
| RedoLog.CommitCrash | kernel/log.c:194-204 | after any prefix of a commit's writes the disk means the old home blocks, or from the header write on the new ones |
| RedoLog.CommitDone | kernel/log.c:194-204 | a commit that ends has installed the group and left the log clear |
| RedoLog.PlayIsAtomic | kernel/log.c:117-204 | one group, cut anywhere and recovered with any number of crashes in recovery, happens as a whole or not at all |
| RedoLog.CrashAtomicity | kernel/log.c:66-124 | over any history of commits and crashes the home blocks are exactly the groups that took effect, whole and in order |
| LogDriver.Log.constructor | kernel/log.c:53-63 | initlog() starts from the meaning of whatever disk it finds, with an empty log |
| LogDriver.Log.WriteLog | kernel/log.c:179-192 | the loop performs exactly the log writes of the group |
| LogDriver.Log.WriteHead | kernel/log.c:103-115 | one write of the encoded header |
| LogDriver.Log.InstallTrans | kernel/log.c:66-84 | the loop performs exactly the install writes of the group |
| LogDriver.Log.ReadHead | kernel/log.c:87-98 | the in-memory header becomes the blocks logged on disk |
| LogDriver.Log.RecoverFromLog | kernel/log.c:117-124 | reaches the meaning of the disk, and every crash on the way recovers to it |
| LogDriver.Log.Commit | kernel/log.c:194-204 | home blocks become the cached ones; every crash point recovers to before or after, never a mixture |
| LogDriver.Log.BeginOp | kernel/log.c:127-143 | admitted exactly if no commit runs and ten more blocks fit; lh.n plus all unspent reservations stays within LOGBLOCKS |
| LogDriver.Log.LogWrite | kernel/log.c:215-236 | panics exactly if the header is full or no operation is in progress, never for an operation within its budget while reservations hold; a block is logged once however often it is written |
| LogDriver.Log.EndOp | kernel/log.c:147-176 | the last one out commits everything; otherwise the disk does not change |
| LogDriver.Log.Run | kernel/log.c:127-236 | over all interleavings of operations, those past their ten blocks included, each step admits, absorbs, logs or commits exactly as a plain table of operations does; the run ends early exactly at a change that finds the header full; the home blocks on disk are those of the last moment without an operation in progress; and a crash after any write of the run recovers to the last such moment before the commit it cuts, or from the header write on to the one that commit reaches |
| LogDriver.RoomyStep | kernel/log.c:127-236 | a step by an operation within its ten blocks never finds the header full, and lh.n plus all unspent reservations stays within LOGBLOCKS |
| LogDriver.NeverTooBig | kernel/log.c:127-236 | so a run in which every change is within its budget has no "too big a transaction" |
| LogDriver.SmallNeverHalts | kernel/log.c:127-236 | operations that change at most nine distinct blocks each, however often and however interleaved, are always within their budget, and none finds the header full |
| LogDriver.ChunksNeverHalt | kernel/file.c:149-172 | in particular the chunks of filewrite(), beside which a second operation is always admitted |
| LogDriver.WrittenAgain | kernel/log.c:215-236 | a run of three operations, each with ten blocks of its own, that panics on a block which is in the log already |
| PageAlloc.Kmem.constructor | kernel/kalloc.c:41-66 | all pages of the range are free and counted |
| PageAlloc.Kmem.Kalloc | kernel/kalloc.c:113-149 | fails exactly if no page is free; counts and free list stay exact |
| PageAlloc.Kmem.Kfree | kernel/kalloc.c:72-108 | one reference less, and the page is free again exactly with the last; never a double free |
| PageAlloc.Kmem.Kaddref | kernel/kalloc.c:152-167 | refuses a free page; otherwise one more reference, in 16 bits |
| VmState.Conservation | kernel/kalloc.c:72-167 | a page's count is its user entries over all page tables plus kernel holders; a writable entry means one; the free list is the zero-count pages without repeats; free_pages is its length |
| VmState.FewHolders | kernel/kalloc.c:152-167 | at most NPROC holders, so the 16-bit count cannot wrap |
| VmState.CowBreakInv | kernel/vm.c:406-432 | giving a page a private copy keeps conservation and what everyone sees |
| VmState.ShareInvSt | kernel/vm.c:309-345 | sharing an entry and downgrading it keeps conservation and what everyone sees |
| Vm.Vm.Walk | kernel/vm.c:110-128 | adding table pages changes nothing anyone can see; it takes exactly the tables that are missing for the page and fails exactly if fewer pages are free |
| Vm.Vm.MapZero | kernel/vm.c:229-253 | a zeroed page at a free slot, or no change, and that exactly if there are not enough pages for it and the missing tables |
| Vm.Vm.Uvmunmap | kernel/vm.c:205-225 | exactly the entries of the range go, each page losing one reference |
| Vm.Vm.Uvmalloc | kernel/vm.c:229-253 | all of the new range is mapped and reads as zero, or nothing has changed, and that only with fewer than three free pages for each new one |
| Vm.Vm.Uvmdealloc | kernel/vm.c:259-271 | exactly the pages beyond the new size go, with exactly their references |
| Vm.Vm.GrowEager | kernel/proc.c:289-308 | the process sees more zero bytes; fails without a change beyond TRAPFRAME, and otherwise only for want of memory |
| Vm.Vm.SbrkLazy | kernel/sysproc.c:42-68 | the bytes and the protection of the process become what eager growth with zeroes makes them; fails exactly beyond TRAPFRAME |
| Vm.Vm.Shrink | kernel/proc.c:289-308 | the process loses exactly its top bytes and exactly the pages that lose their last holder become free; shrinking below zero changes nothing |
| Vm.Vm.Uvmcopy | kernel/vm.c:309-345 | the child sees every byte of the parent, or gets nothing and that only with fewer than two free pages for each page; nobody else sees a change |
| Vm.Vm.FreeTables | kernel/vm.c:275-301 | every table page goes back exactly once |
| Vm.Vm.NewProc | kernel/proc.c:125-172 | an empty address space, or everything is given back, and that exactly with fewer than four pages free |
| Vm.Vm.Fork | kernel/proc.c:312-361 | on success the child's memory is a copy of the parent's; on failure nothing changed, and there was no slot or too little memory |
| Vm.Vm.Exit | kernel/proc.c:177-200 | the address space is gone, nobody else sees a change, exactly the pages nobody else holds become free, no leaf was left for freewalk() |
| Vm.Vm.Cowfault | kernel/vm.c:406-432 | succeeds exactly on a copy-on-write entry while memory lasts; the page becomes private and writable; nobody sees a difference |
| Vm.Vm.Vmfault | kernel/vm.c:509-533 | maps a zero page below the size where none was, which is what it read as anyway; fails exactly beyond the size, on a mapped page or without pages for it and the missing tables |
| Vm.Vm.UserStore | kernel/trap.c:70-79 | a store changes exactly that byte of that process; refused exactly if the page is not the user's to write, or lies unmapped behind the size; out of memory exactly if a copy, or a new page with its missing tables, is needed and not to be had |
| Vm.Vm.UserLoad | kernel/trap.c:70-79 | returns the byte of the eager world; refused exactly if the page is not the user's, or lies unmapped behind the size; out of memory exactly if a new page with its missing tables is needed and not to be had |
| Vm.Vm.Copyout | kernel/vm.c:363-403 | stores all of the source, or a prefix of it, into one process only; it stops only at a page the user may not write or with fewer than three free pages for each page touched |
| Vm.Vm.Copyin | kernel/vm.c:437-460 | returns exactly the bytes of the eager world; it stops only at a page that is not the user's or with fewer than three free pages for each page touched |
| Vm.Vm.Uvmclear | kernel/vm.c:349-358 | the guard page is no longer the user's, and nothing else changes |
| Vm.Vm.Run | kernel/vm.c:309-533 | any sequence of create, fork, exit, grow, shrink, guard, loads, stores and copies behaves, byte by byte, as if fork had copied all memory and growth had zeroed it; each answer is determined except for want of memory, which needs fewer free pages than the call can need; exits and shrinks give back exactly the pages that lose their last holder |
| Vm.NeverShort | kernel/vm.c:309-533 | a run never runs out of memory if at each operation the pages free at the start and those given back since cover what the operations can have needed |
| Vm.FreeOrHeld | kernel/kalloc.c:72-149 | free pages and pages with a holder add up to all pages |
| Vm.GivenBack | kernel/kalloc.c:72-108 | dropping references frees exactly the pages that lose their last holder |
| Vm.AllBack | kernel/proc.c:177-200 | with no process left every page is free again |
| Vm.LoadAfterStore | kernel/vm.c:406-432 | a load sees the last store of its own process at its address, and no store of anybody it shares the page with |
| Vm.LoadAfterFork | kernel/vm.c:309-345 | a load of a new child sees what the parent had |
| Vm.LoadAfterGrow | kernel/proc.c:289-308 | growing, at once or lazily, keeps every byte and shows zeroes above |
| Vm.LoadAfterShrink | kernel/proc.c:289-308 | shrinking keeps the bytes below and takes away every page above |
| Vm.SharedTables | kernel/vm.c:98-128 | two pages share a level-1 table exactly if their root indices agree, and a level-0 table exactly if the next indices agree too |
| VmTables.Walk | kernel/vm.c:110-128 | the count of tables and the three-level tree succeed and fail together, take as many pages, and have the same tables afterwards |
| VmTables.Walks | kernel/vm.c:110-128 | so over any sequence of walks in a new address space |
| Vm.PastEagerSize | kernel/vm.c:509-533 | from boot: a store behind the size but inside an allocated page is done |
| Vm.PastLazySize | kernel/vm.c:509-533 | from boot: the same store on a page that was only promised is refused |
| Sv39.PxUnique | kernel/vm.c:98-109 | the three indices determine the page number |
| Sv39.PageTable.Walk | kernel/vm.c:110-128 | finds or makes the entry's page without changing any mapping; succeeds exactly below MAXVA with the tables there or, with alloc, as many pages as are missing; takes exactly those pages and makes exactly those tables |
| Sv39.PageTable.Mappages | kernel/vm.c:158-187 | maps exactly a prefix of the range to consecutive pages, all of it unless memory or addresses run out or a page was mapped |
| Sv39.PageTable.Unmap | kernel/vm.c:205-225 | no page of the range stays mapped, every other mapping and every table stays, and the pages that were mapped are returned in order |
| Sv39.PageTable.Freewalk | kernel/vm.c:275-291 | the subtree's pages go to the pool, each once; a panic means a leaf |
| Sv39.PageTable.Free | kernel/vm.c:295-301 | panics exactly if something is still mapped; otherwise every table page is back in the pool exactly once |
| Adler.Update | kernel/fs.c:32-43 | continuing the checksum of any prefix gives the Adler-32 (section 2.2 of RFC 1950) of the whole |
| Adler.KnownValue | kernel/fs.c:32-43 | the checksums of nothing and of "abc" |
| Adler.OneByteDetected | kernel/fs.c:45-67 | changing any single byte always changes the checksum |
| Adler.SwapDetected | kernel/fs.c:45-67 | exchanging two bytes is noticed exactly if 65521 does not divide distance times difference |
| Extents.Append | kernel/fs.c:542-564 | the new block becomes the last of the file, in the first empty slot or else merged; refused exactly if all slots are used and it is not adjacent |
| Placement.WhyShort | kernel/fs.c:586-608 | a file that gets fewer blocks than it wants has met a full disk or a block that fits in no extent |
| Placement.GetsMore | kernel/fs.c:586-608 | placing blocks in two goes places the same blocks as in one |
| Placement.AfterBlocks | kernel/fs.c:542-608 | a file has as many blocks more as it got |
| Placement.StaysTogether | kernel/fs.c:586-608 | the next block is the one behind the file's last if that is free, and else the lowest free one |
| Placement.SinglesAfter | kernel/fs.c:542-608 | on a fresh disk the first fourteen blocks of a file are consecutive and take an extent each |
| Filesystem.FileSys.BallocPrefer | kernel/fs.c:177-198 | this block, zeroed, exactly if it is free |
| Filesystem.FileSys.Balloc | kernel/fs.c:204-227 | the lowest free block, zeroed; 0 exactly if the disk is full |
| Filesystem.FileSys.AppendBlock | kernel/fs.c:586-608 | one more block at the end of one file's list, the adjacent one if free and else the lowest, ownership kept; panics exactly if all extents are used, some block is free and the adjacent one is not |
| Filesystem.FileSys.FindBlock | kernel/fs.c:570-584 | finds the logical block exactly if the extents reach that far |
| Filesystem.FileSys.Bmap | kernel/fs.c:567-611 | never moves an existing block, only appends as many as can be placed, and allocates nothing for a block the file has; panics exactly if one of the blocks wanted fits in no extent |
| Filesystem.FileSys.InodeChecksum | kernel/fs.c:45-67 | the Adler-32 of the content, block by block, allocating nothing |
| Filesystem.FileSys.Readi | kernel/fs.c:651-681 | from inside the file, min(n, size - off) bytes and exactly those there, or -1 and a prefix of them exactly if a copy fails; 0 and nothing from behind the end; nothing is allocated or changed; a file with a right checksum raises no error |
| Filesystem.FileSys.Writei | kernel/fs.c:690-733 | the count, the new bytes, bitmap and extents and whether it panics are those of the plain machine: as many bytes replaced as the copies and the blocks that can be placed allow, every other byte of every file the same; the checksum matches again and the blocks logged are bounded |
| Filesystem.FileSys.Ialloc | kernel/fs.c:337-359 | the lowest free inode becomes an empty file with the checksum of no bytes; 0 exactly if there is none; nothing else changes |
| Filesystem.FileSys.Itrunc | kernel/fs.c:615-633 | gives back exactly the file's blocks, none of which was free; nothing else changes |
| Filesystem.FileSys.Remove | kernel/fs.c:481-507 | the file is gone, exactly its blocks are free, every other file stays |
| Filesystem.FileSys.FileWrite | kernel/file.c:134-179 | how far it gets, what it answers, whether it panics and every file, bitmap and extent afterwards are those of the plain chunk-by-chunk machine, for any number of copies that succeed in each chunk |
| Filesystem.FileSys.WriteChunk | kernel/file.c:157-164 | a chunk at any offset logs at most nine distinct blocks, within the ten of an operation |
| PlainFiles.WroteReplaces | kernel/fs.c:690-733 | a write changes one file only, and there exactly the bytes it counts |
| PlainFiles.ChunksReplace | kernel/file.c:134-179 | wherever filewrite() ends, it has replaced exactly the first bytes it counts, as one splice |
| PlainFiles.StopsAt | kernel/fs.c:586-608 | a run of the plain machine stops only at a write whose next block fits in no extent |
| PlainFiles.ReadGives | kernel/fs.c:651-681 | a read gives the bytes from its offset to its count or to the end of the file, all of them unless a copy fails |
| PlainFiles.WriteThenRead | kernel/fs.c:651-733 | a read of what a write counted gives it back, and a read that does not touch it, of this file or another, gives what it gave before |
| PlainFiles.ChunksThenRead | kernel/file.c:134-179 | the same behind filewrite() |
| PlainFiles.WriteAll | kernel/fs.c:690-733 | a write is turned away exactly if it starts behind the end or would pass the largest size; with its copies and blocks it is done in full |
| PlainFiles.FailedCopy | kernel/fs.c:690-733 | the block of a copy that fails stays with the file |
| PlainFiles.ChunkSpan | kernel/file.c:149-172 | a chunk touches at most four blocks whatever its offset |
| Filesystem.FileSys.Run | kernel/fs.c:542-733 | the answers to any sequence of create, write, read, truncate and delete, the point at which it panics and the disk afterwards are those of a machine on plain byte sequences, extents and bitmap, started in the first state; no checksum error is raised |
| FsOverflow.TwoFiles | kernel/fs.c:542-611 | from a formatted disk: after fourteen blocks of one file and one of another, one more byte for the first panics exactly if a block is left |
| FsState.Ownership | kernel/fs.c:177-244 | in every state a block is in use exactly if it is metadata or in the list of one file, and once in it |
| FsState.GrownInv | kernel/fs.c:177-244 | the in-use bitmap stays the metadata blocks plus the disjoint union of all extents when a file grows |
| FsState.TruncatedInv | kernel/fs.c:615-633 | and when a file is truncated |
| FsState.WrittenContent | kernel/fs.c:690-733 | blocks rewritten piece by piece and the new size amount to one splice of the content |
| DirCache.SameName | kernel/fs.c:793-797 | names compare equal exactly if their first DIRSIZ characters up to NUL do |
| DirCache.SameIff | kernel/fs.c:793-797 | that is, if they agree up to the first NUL or for DIRSIZ characters |
| DirCache.EntryInBlock | kernel/fs.c:801-861 | no entry crosses a block boundary |
| DirCache.Directory.Rebuild | kernel/fs.c:737-761 | the cache is again the live entries of the directory, or the first DIRCACHE_MAX of them, marked truncated, exactly if there is more to scan after those |
| DirCache.Directory.CacheLookup | kernel/fs.c:763-791 | a hit is the first match of the scan; a miss is final unless the cache is truncated |
| DirCache.Directory.Dirlookup | kernel/fs.c:801-830 | always the inum and offset of the first match of a linear scan, or none exactly if there is none |
| DirCache.Directory.Dirlink | kernel/fs.c:834-861 | refuses exactly a name that exists or has no room; afterwards the name means the new inode, at the first free place or else at the end, and every other name what it did |
| DirCache.Directory.Clear | kernel/sysfile.c:203-257 | the cleared name is gone, every other name keeps its meaning |
| DirCache.Directory.Truncate | kernel/fs.c:615-633 | an empty directory, and no stale cache |
| DirCache.Directory.Reload | kernel/fs.c:433-462 | reading the inode again marks the cache invalid |
| DirCache.FieldKeepsName | kernel/string.c:61-82 | storing a name in its field keeps it as namecmp() sees it |
| Umalloc.FreedInv | user/umalloc.c:24-44 | freeing keeps the list circular, address-ordered and fully coalesced, blocks disjoint, and the number of units |
| Umalloc.ExactlyBelow | user/umalloc.c:46-61 | the sbrk count is exact if and only if the request is at most 0x7fffffe0 bytes |
| Umalloc.LargeEnough | user/umalloc.c:63-90 | the units of a request hold its bytes, and no unit too many |
| Umalloc.UserHeap.FindPlace | user/umalloc.c:24-44 | the search ends, at the node after which the block belongs |
| Umalloc.UserHeap.Free | user/umalloc.c:24-44 | the block is free again, all other live blocks keep place and size, the heap invariant holds |
| Umalloc.UserHeap.Morecore | user/umalloc.c:46-61 | refused exactly if sbrk() fails; a free block of at least the size asked for and that many more units if the count is exact; otherwise a header that claims memory past the break |
| Umalloc.UserHeap.HandOut | user/umalloc.c:63-90 | a block of exactly the size asked for: the whole free block if it fits exactly, else its tail |
| Umalloc.UserHeap.Malloc | user/umalloc.c:63-90 | a new block, large enough and disjoint from all others; no block exactly if none is large enough and sbrk() fails; more memory is obtained exactly if none is and it does not; it writes past the break exactly if moreover the request is above 0x7fffffe0 bytes; both loops end |
| Bio.LruOrder | kernel/bio.c:41-58 | the list is a permutation of all buffers, the most recently released first |
| Bio.Bcache.constructor | kernel/bio.c:41-58 | all buffers are linked and the cache shows the disk |
| Bio.Bcache.FindCached | kernel/bio.c:63-94 | finds the buffer of the key exactly if there is one |
| Bio.Bcache.FindUnused | kernel/bio.c:63-94 | the unused buffer released longest ago, exactly if one is unused |
| Bio.Bcache.Bget | kernel/bio.c:63-94 | at most one buffer per key; held and pinned buffers are never recycled; no client sees it; panics exactly if all buffers are referenced and none has the key |
| Bio.Bcache.Fill | kernel/bio.c:97-109 | whoever holds the lock sees the block of the store |
| Bio.Bcache.Modify | kernel/bio.c:97-109 | a client's change is a change of that block only |
| Bio.Bcache.Bwrite | kernel/bio.c:112-119 | the disk catches up and no client sees a difference |
| Bio.Bcache.Release | kernel/bio.c:123-144 | one reference less; the last moves the buffer to the front; no client sees a difference |
| Bio.Bcache.Bpin | kernel/bio.c:146-151 | one more reference, which keeps the buffer |
| Bio.Bcache.Bunpin | kernel/bio.c:153-158 | one reference less for a buffer that is clean if it was the last |
| BufferUse.NoBuffers | kernel/bio.c:63-94 | every buffer is referenced and none has the key exactly if as many blocks are in use as there are buffers and the key is not among them |
| BufferUse.LastClean | kernel/bio.c:123-144 | whoever lets go of the last reference of a buffer leaves it equal to the disk |
| BufferUse.Clients.Get | kernel/bio.c:63-94 | a reference for one more client, in any state of the others; panics exactly if the blocks in use fill the cache |
| BufferUse.Clients.Read | kernel/bio.c:97-109 | a client with the lock gets what the block store holds, whichever buffer it is |
| BufferUse.Clients.Keep | kernel/log.c:215-236 | a changed block is pinned once and so stays in its buffer |
| BufferUse.Clients.Unkeep | kernel/log.c:66-84 | a block that was written is unpinned, and nobody sees a difference |
| BufferUse.Clients.Drop | kernel/bio.c:123-144 | one reference less; changes of others to the block are not lost |
| BufferUse.Clients.OnDiskUnlessDirty | kernel/bio.c:112-119 | at any moment the disk holds every block of the store that is not waiting to be written |
| BufferUse.StopsAt | kernel/bio.c:63-94 | a run of the plain store stops only at a request for a block when all buffers are in use by others |
| BufferUse.Clients.Run | kernel/bio.c:41-158 | in every interleaving of any number of clients that read, change, pin, write, unpin and release, each reads what a plain block store would hold, up to exactly the request that finds no buffer |
| BufferUse.CommitGroup | kernel/log.c:179-192 | from boot: with a group of distinct blocks pinned, the first log block of write_log() finds no buffer exactly if the group has 30 blocks |
| BufferUse.InstallGroup | kernel/log.c:66-84 | a pinned block is found as it was changed last, in however full a cache, and is clean and out of the group after bwrite() and bunpin() |
| Procs.NoLostChild | kernel/proc.c:365-470 | in every reachable state with wait_lock free a process asleep in kwait() has no zombie child |
| Procs.NoDeadParent | kernel/proc.c:365-421 | in every reachable state a child's parent is alive |
| Procs.ReapedOnce | kernel/proc.c:425-470 | a zombie is reaped by its parent, after it has left its stack, once, with its own pid and status |
| Procs.StatusDelivered | kernel/proc.c:381-470 | over every run what wait returned for a pid is what the process with that pid called exit() with |
| Procs.SleeperHasChild | kernel/proc.c:425-470 | in every reachable state whoever sleeps in kwait(), or is about to, has a child |
| Procs.ScanEnds | kernel/proc.c:460-468 | a scan that ends has met no zombie; it returns -1 exactly if the process was killed or has no child, and goes to sleep otherwise |
| Procs.WaitAnswers | kernel/proc.c:425-470 | a kwait() that ends returns the pid of a child it has just reaped, or -1 with nothing reaped because the copy failed, it was killed or it has no child |
| Procs.CallsEnd | kernel/proc.c:312-470 | kwait() ends only with an answer, exit never returns, and fork() ends with its child started or with nothing |
| Procs.ForkGives | kernel/proc.c:312-361 | the new child is runnable, its parent is the caller, and its pid is nobody else's and was never used |
| Procs.KillStays | kernel/proc.c:673-692 | a kill leaves the victim marked and awake, and the mark stays until its slot is freed |
| Procs.NoDeadlock | kernel/proc.c:312-692 | in every reachable state with somebody inside fork, exit, wait or sleep somebody can take a step there |
| Procs.WholeLife | kernel/proc.c:312-470 | from boot: init forks and sleeps in wait, the child exits with any status, and wait returns its pid with that status |
| Procs.ReachedInv | kernel/proc.c:312-692 | the invariant holds after every interleaving of fork, exit, wait, sleep, wakeup and kill steps |
| Procs.SoloInv | kernel/proc.c:381-470 | every step of exit, wait and sleep that touches its own slot only keeps the invariant |
| Procs.DuoInv | kernel/proc.c:312-470 | every step of fork, reparent, wakeup and wait that touches another slot keeps the invariant |
| Procs.RouseInv | kernel/proc.c:673-692 | a kill at any moment keeps the invariant |
| Sched.Scan | kernel/proc.c:479-534 | the highest priority, then the longest wait, then the first in the table; none exactly if nothing is runnable |
| Sched.BestUnique | kernel/proc.c:479-534 | that choice is unique |
| Sched.Scheduler.Dispatch | kernel/proc.c:479-534 | the best process runs with a full budget and a new stamp |
| Sched.Scheduler.Wakeup | kernel/proc.c:650-668 | exactly the sleepers on the channel become runnable, one priority higher, with a new stamp |
| Sched.Scheduler.Kill | kernel/proc.c:673-692 | exactly the first process with the pid changes: if it sleeps it becomes runnable, with its old stamp |
| Sched.Scheduler.SetPriority | kernel/proc.c:695-714 | rejects priorities out of range and unknown pids; otherwise exactly the first process with the pid is reset |
| Sched.TickPromotes | kernel/trap.c:87-90 | a tick never demotes: proc_tick() and yield() together promote until PRI_MAX |
| Sched.BudgetRunsOut | kernel/proc.c:266-285 | left alone proc_tick() counts the budget down and then takes one priority away |
| Sched.YieldPromotes | kernel/proc.c:564-578 | yield() promotes exactly who has more than half of a slice left, up to PRI_MAX |
| Sched.OvertakerStale | kernel/proc.c:479-534 | who overtakes a waiting process of the highest priority has been waiting longer, or as long and comes before it in the table |
| Sched.Scheduler.Run | kernel/proc.c:479-714 | the table after a run is the step function of the scheduler applied operation by operation |
| Sched.NextOk | kernel/proc.c:479-714 | every such step keeps the table sound, with at most one process running |
| Sched.BoundedOvertaking | kernel/proc.c:479-714 | in every run a runnable process of the highest priority that is in slot 0, or whose stamp is before the current tick, is dispatched within NPROC rounds of the scheduler, every other slot at most once before it, whatever else happens |
| Sched.SameTick | kernel/proc.c:479-534 | within one tick there is no bound for any other slot: the first in the table can run any number of times before it |
| Sched.Unbounded | kernel/proc.c:479-714 | for every slot but the first that tie is reached from boot |
| Sched.SoonIff | kernel/proc.c:479-714 | every process that has waited d ticks in slot p at the highest priority is sure to run within NPROC rounds, if and only if p is 0 or d is positive |
| Sched.LifeCycle | kernel/proc.c:479-714 | a process goes on being able to run unless it sleeps or exits itself, and is able to again exactly if it is woken, killed in its sleep or started |
| Sched.StoppedItself | kernel/proc.c:479-714 | over every run, whoever could run and cannot has slept or exited in between |
| Sched.NeverIdle | kernel/proc.c:479-534 | after every run a round dispatches exactly if somebody can run |
| Sched.PreemptedRuns | kernel/proc.c:564-578 | a process that is preempted or yields stays runnable with the present stamp, and the next round dispatches somebody |
| Sched.PreemptedReturns | kernel/proc.c:479-578 | preempted at or next to the highest priority, it is dispatched again within NPROC rounds once the clock has moved |
| Sched.ResetWaits | kernel/proc.c:695-714 | setpriority() to the highest priority sends a runnable process to the end of the queue |
| Sched.FreeSlots | kernel/proc.c:673-714 | from boot no unused slot has the pid of a process, so kill() and setpriority() never find one |
| Virtio.AtMostTwo | kernel/virtio_disk.c:224-311 | at most two requests are outstanding |
| Virtio.RingsHaveRoom | kernel/virtio_disk.c:280-295 | neither ring ever holds more than two entries, so none is overwritten before it is read |
| Virtio.ChainsDisjoint | kernel/virtio_disk.c:164-222 | chains share no descriptor and none of theirs is free |
| Virtio.RoomIff | kernel/virtio_disk.c:210-222 | three descriptors are free exactly if fewer than two requests are outstanding |
| Virtio.VirtioDisk.AllocDesc | kernel/virtio_disk.c:164-175 | a free descriptor, or none exactly if none is free |
| Virtio.VirtioDisk.FreeDesc | kernel/virtio_disk.c:178-191 | panics exactly out of range or on a free descriptor |
| Virtio.VirtioDisk.Alloc3 | kernel/virtio_disk.c:210-222 | three descriptors, or no change and exactly if there are not three |
| Virtio.VirtioDisk.Submit | kernel/virtio_disk.c:224-295 | the request is queued behind the others, or nothing changed, exactly because two are outstanding |
| Virtio.VirtioDisk.Complete | kernel/virtio_disk.c:240-275 | the chain still leads the device to the operation, buffer and status that were submitted |
| Virtio.VirtioDisk.IntrRound | kernel/virtio_disk.c:328-347 | panics exactly if the device reported the oldest finished request bad; otherwise releases exactly the buffer that submitted it |
| Virtio.VirtioDisk.Intr | kernel/virtio_disk.c:313-350 | handles every used entry once, in order, up to the first that is bad |
| Virtio.VirtioDisk.FreeChain | kernel/virtio_disk.c:194-206 | frees exactly the three descriptors of the request, and ends |
| Virtio.VirtioDisk.Finish | kernel/virtio_disk.c:301-311 | the request is gone, its descriptors free, no panic |
| VirtioRun.TrackSize | kernel/virtio_disk.c:224-311 | as many processes wait in virtio_disk_rw() as there are requests |
| VirtioRun.Machine.Run | kernel/virtio_disk.c:224-350 | over all interleavings of processes, device and interrupts the queue does exactly what a plain table of requests does: each moves the right block between the right buffer and sector, once; the only panic is that on a request reported bad |
| VirtioRun.CallMoves | kernel/virtio_disk.c:224-350 | one request from end to end moves exactly one block between its buffer and its place on the disk |
| VirtioRun.ReadBack | kernel/virtio_disk.c:224-350 | what was written from one buffer is read into another |
| Rings.RingPut | kernel/pipe.c:92-97 | adding to a ring that is not full keeps every entry, across counter wrap-around |
| Rings.RingGet | kernel/pipe.c:119-129 | taking from a ring gives its oldest entry |
| Pipe.Pipe.Write | kernel/pipe.c:76-103 | stores exactly as many bytes as fit before a fault, a kill or a full ring; says when it sleeps, fails or returns, and whom it wakes |
| Pipe.Pipe.Read | kernel/pipe.c:105-134 | takes exactly the oldest bytes, as many as were asked for, are there or can be copied; says when it sleeps, fails or returns, and whom it wakes |
| Pipe.Pipe.Close | kernel/pipe.c:58-74 | nobody stays asleep on a closed end |
| Pipe.Pipe.Kill | kernel/proc.c:673-692 | the victim wakes and everything else stays |
| Pipe.Pipe.Run | kernel/pipe.c:58-134 | over all interleavings the pipe does what the plain machine does; bytes read then bytes buffered are bytes written, at most PIPESIZE buffered; a sleeping writer means full with a reader open; a sleeping reader means a writer open, and bytes beside it exactly if a killed writer left them |
| Pipe.MissedIff | kernel/pipe.c:58-134 | bytes are left beside sleeping readers exactly if some killed writer stored bytes and since then nothing woke the readers or emptied the pipe |
| Pipe.LostWakeup | kernel/pipe.c:82-86 | with a kill a reader can be asleep beside a byte |
| Shell.GetTok | user/sh.c:357-400 | a word token is a maximal run of word characters; only the end of the text does not advance |
| Shell.Parser.GetToken | user/sh.c:357-400 | the code computes that token and moves the cursor behind it |
| Shell.Parser.Peek | user/sh.c:402-412 | the next character that is not white space, or the end |
| Shell.Parser.ParseRedirs | user/sh.c:466-489 | the loop collects all redirections, or panics for want of a file name |
| Shell.Parser.ParseSimple | user/sh.c:507-538 | the loop collects words and redirections, panicking on the tenth word or a parenthesis |
| Shell.Parser.ParseBlockCmd | user/sh.c:491-505 | a parenthesised line and its redirections, or a panic |
| Shell.Parser.ParsePipeCmd | user/sh.c:453-464 | terminates on all input with what the grammar gives |
| Shell.Parser.ParseLineCmd | user/sh.c:436-451 | terminates on all input with what the grammar gives |
| Shell.ParseLine | user/sh.c:436-451 | every word of the result is a whole token of the text, and parsing advances |
| Shell.RoundTrip | user/sh.c:419-538 | printing any command tree with parentheses and parsing it gives the tree back |
| Shell.EndOutside | user/sh.c:541-585 | no terminator falls inside a word |
| Shell.WordsSurvive | user/sh.c:541-585 | after termination every argument and file name is exactly its token |
| Shell.NulTerminate | user/sh.c:541-585 | writes NUL exactly where words end |
| Shell.ParseCmd | user/sh.c:419-434 | the strings of the command in the terminated buffer are its tokens; a panic leaves the buffer alone |
| ShellGrammar.LexIff | user/sh.c:357-400 | gettoken() reads exactly the words and symbols a text spells: words as long as they can be, ">>" before ">", any white space around them |
| ShellGrammar.WrapText | user/sh.c:466-489 | redirections are nested in the order in which they were read |
| ShellGrammar.GrammarParses | user/sh.c:419-538 | a text of the grammar parses as its tree: words with redirections before, between and behind them, pipes, lists, background and parentheses |
| ShellGrammar.ParsesExactly | user/sh.c:419-538 | parsing succeeds exactly on the texts of the grammar with at most nine words in a command |
| Grep.MatchHere | user/grep.c:85-96 | true exactly if the text splits into a piece for each item of the pattern |
| Grep.MatchStar | user/grep.c:99-106 | the loop decides a starred item, whatever the pattern behind it |
| Grep.Match | user/grep.c:72-82 | decides the declarative meaning of literals, '.', '*', leading '^' and final '$' for every pattern and text |
| Grep.MatchesAnywhere | user/grep.c:72-82 | unanchored matching is anchored matching of some suffix |
| Grep.WriteCompile | user/grep.c:72-106 | every pattern text is one regular expression written down, and every one that can be written down is read back as itself |
| Grep.AtomMeans | user/grep.c:85-106 | a dot stands for every character, every other one for itself |
| Grep.ScanLines | user/grep.c:21-33 | the complete lines in the buffer are printed if they match; the rest moves to the front |
| Grep.GrepFile | user/grep.c:11-35 | however reads are split, the output is the matching lines up to the first that does not fit or that holds a NUL |
| Grep.CompleteIff | user/grep.c:11-35 | no matching line is missing, for any pattern, exactly if every line fits and none ends behind a NUL |

## Left out

- Hardware access, assembly, consoles, telemetry, exec loading and system-call plumbing: nothing to prove that is not assumed.
- Weak memory: acquire and release are atomic steps, and so is what happens between them where only data under that lock is touched.
- The translation lookaside buffer is not modelled.
- Several harts: `Sched` has one, since the scan of the scheduler is no snapshot on several.  `Procs`, `Pipe` and `Virtio` interleave freely.
- Counters without bounds: `ticks`, pids and the telemetry counters; `Umalloc` has no upper end of the address space.
- Link counts, path lookup and directories that were unlinked while open.
- Trampoline and trapframe mappings in `Vm`: they lie above every user page.
- The bits of a bitmap block, and inode packing: `used` is one truth value per block, and the in-memory and on-disk inode are one.
- The log region is given at least LOGBLOCKS + 1 blocks, and the log is on a disk whose block writes are atomic.
- `Filesystem` calls do not interleave with each other: their locks are not modelled, and `LogDriver` treats the interleaving of operations.
- `Procs` models the loops of reparent(), wakeup() and kwait() as steps on values, because other processes run between their rounds; the order in which allocproc() tries slots is left open.
- `Pipe` is not freed when both ends are closed: the file layer calls nothing after that.
- Readi, Writei and FileWrite take a user copy as done or not done: a copy that fails half way through a block is not modelled.
- Malloc: what follows a header written past the break is not modelled; it depends on what lies there.
- GrepFile: read errors are not modelled.
- Sleepers on the descriptor table of the disk are not modelled; only the queue is.  A client of the buffer cache whose step cannot be taken tries again later.
- Complete: a request that the device reports bad has moved no data.
- EagerStep: its bound on what a call can need counts two tables for every page touched; Walk, MapZero, Vmfault, UserStore and UserLoad count exactly those that are missing.
- CommitGroup: the group is built by one client after another; the condition under other interleavings is that of Clients.Get.
- ParseExecCmd and its caller share the command node in the C code while arguments are added to it; here arguments and redirections are collected and put together at the end.
