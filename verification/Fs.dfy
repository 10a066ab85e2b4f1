/** The code of kernel/fs.c from the block allocator to reading and writing files, and the
    chunking of filewrite() in kernel/file.c.  `logged` records the blocks passed to
    log_write(): a bitmap block, the block of an inode, or a data block. */
module Filesystem {
  import opened Adler
  import opened Counting
  import opened Extents
  import opened FsState
  import opened PlainFiles
  import opened Placement
  import opened Params

  const BPB: nat := BSIZE * 8  // bits per bitmap block
  const IPB: nat := 8          // inodes per block

  datatype Dirty = BitmapBlock(n: nat) | InodeBlock(n: nat) | DataBlock(b: nat)

  /** What a disk is as plain files. */
  ghost function PlainOf(f: Fs): (p: Plain)
    requires Inv(f)
    ensures p.files.Keys == f.inodes.Keys && p.used == f.used
  {
    Plain(f.used, map i | i in f.inodes :: FileView(f.inodes[i].typ, Content(f, i), f.inodes[i].extents))
  }

  lemma PlainFits(f: Fs)
    requires Inv(f)
    ensures PlainOk(PlainOf(f))
  {
    hide Blocks, OwnOk, BitmapOk;
  }

  lemma PlainAt(f: Fs, i: nat)
    requires Inv(f) && i in f.inodes
    ensures PlainOf(f).files[i] == FileView(f.inodes[i].typ, Content(f, i), f.inodes[i].extents)
    ensures FileOk(PlainOf(f).files[i]) && |Content(f, i)| == f.inodes[i].size
  {
    hide Blocks, OwnOk, BitmapOk, Content;
  }

  /** An operation on file i changes the plain files at i. */
  lemma PlainChange(f: Fs, g: Fs, i: nat)
    requires Inv(f) && Inv(g) && OthersSame(f, g, i)
    ensures PlainOf(g).files ==
            if i in g.inodes then PlainOf(f).files[i := FileView(g.inodes[i].typ, Content(g, i), g.inodes[i].extents)]
            else PlainOf(f).files - {i}
  {
    hide Inv, Blocks, Content;
    forall j | j != i
      ensures (j in f.inodes <==> j in g.inodes) && (j in f.inodes ==> PlainOf(g).files[j] == PlainOf(f).files[j])
    {
      assert SameFile(f, g, j);
      if j in f.inodes {
        SameContent(f, g, j);
      }
    }
  }

  // ---------------------------------------------------------------- one write

  /** Before the next piece: f is the disk before the write, g the present one. */
  ghost predicate Midway(f: Fs, g: Fs, i: nat, off: nat, src: Bytes, tot: nat, pieces: nat) {
    && Inv(f) && Inv(g) && tot <= |src| && Written(f, g, i, off, src[..tot])
    && pieces == Spanned(off, tot) && (0 < tot < |src| ==> (off + tot) % BSIZE == 0)
    && var a, had, now := AllocOf(f, i), |FileBlocks(f.inodes, i)|, |FileBlocks(g.inodes, i)|;
       InLoop(a, had, off, |src|, tot, pieces, now) && AllocOf(g, i) == Placement.After(a, now - had)
  }

  /** Whether the write panics, and how many bytes it takes if not. */
  ghost predicate Fate(f: Fs, i: nat, off: nat, n: nat, room: nat, tot: nat, panicked: bool) {
    && Inv(f) && i in f.inodes
    && var a, had := AllocOf(f, i), |FileBlocks(f.inodes, i)|;
       && Shape(a.es) && off <= had * BSIZE
       && (panicked <==> Breaks(a, Wanted(had, off, n, room)))
       && (!panicked ==> tot == Reach(a, had, off, n, room))
  }

  /** The loop is over and has not panicked. */
  ghost predicate Ended(f: Fs, g: Fs, i: nat, off: nat, src: Bytes, room: nat, tot: nat) {
    && Inv(f) && Inv(g) && tot <= |src| && Written(f, g, i, off, src[..tot]) && Fate(f, i, off, |src|, room, tot, false)
    && AllocOf(g, i) == Placement.After(AllocOf(f, i), Wanted(|FileBlocks(f.inodes, i)|, off, |src|, room))
  }

  lemma MidwayParts(f: Fs, g: Fs, i: nat, off: nat, src: Bytes, tot: nat, pieces: nat)
    requires Midway(f, g, i, off, src, tot, pieces)
    ensures i in f.inodes && i in g.inodes && Shape(f.inodes[i].extents)
    ensures |FileBlocks(f.inodes, i)| <= |FileBlocks(g.inodes, i)| && off <= |FileBlocks(f.inodes, i)| * BSIZE
  {
    hide Inv, Blocks;
  }

  lemma MidwayFirst(f: Fs, i: nat, off: nat, src: Bytes)
    requires Inv(f) && i in f.inodes && off <= f.inodes[i].size
    ensures Midway(f, f, i, off, src, 0, 0)
  {
    hide Inv, Blocks, Written, Spanned, Gets, Placement.After;
    HasShape(f, i);
    SizeFits(f, i);
    GetsStart(AllocOf(f, i));
    LoopStart(|FileBlocks(f.inodes, i)|, off);
    WrittenNone(f, i, off);
    SpannedNone(off, |src|);
  }

  lemma MidwayLast(f: Fs, g: Fs, i: nat, off: nat, src: Bytes, room: nat, tot: nat, pieces: nat)
    requires Midway(f, g, i, off, src, tot, pieces) && tot == |src| && pieces <= room
    ensures Ended(f, g, i, off, src, room, tot) && pieces <= Spanned(off, |src|)
  {
    hide Inv, Blocks, Written, Spanned, InLoop, Gets, Placement.After, Breaks, Reach, Wanted;
    MidwayParts(f, g, i, off, src, tot, pieces);
    LoopEnd(AllocOf(f, i), |FileBlocks(f.inodes, i)|, off, |src|, room, pieces, |FileBlocks(g.inodes, i)|);
  }

  lemma PieceAligned(off: nat, tot: nat, m: nat, n: nat)
    requires tot < n && m == Clip(n - tot, BSIZE - (off + tot) % BSIZE)
    ensures tot + m < n ==> (off + tot + m) % BSIZE == 0
  {
  }

  lemma FateParts(f: Fs, i: nat, off: nat, src: Bytes, room: nat, tot: nat, panicked: bool)
    requires Fate(f, i, off, |src|, room, tot, panicked) && !Rejected(f.inodes[i].size, off, |src|)
    ensures FileOk(PlainOf(f).files[i])
    ensures panicked <==> Breaking(f.used, PlainOf(f).files[i], off, src, room)
    ensures !panicked ==> tot == WriteCount(f.used, PlainOf(f).files[i], off, src, room)
  {
    hide Inv, Blocks, Content, Breaks, Reach, Wanted;
    PlainAt(f, i);
  }

  lemma EndedParts(f: Fs, g: Fs, i: nat, off: nat, src: Bytes, room: nat, tot: nat)
    requires Ended(f, g, i, off, src, room, tot)
    ensures i in f.inodes && Inv(f) && Inv(g) && Written(f, g, i, off, src[..tot]) && i in g.inodes
    ensures Fate(f, i, off, |src|, room, tot, false) && tot <= |src|
  {
    hide Inv, Blocks, Fate;
  }

  lemma RejectedSame(f: Fs, i: nat, off: nat, src: Bytes, room: nat)
    requires Inv(f) && i in f.inodes && Rejected(f.inodes[i].size, off, |src|) && PlainOk(PlainOf(f))
    ensures Wrote(PlainOf(f), i, off, src, room) == PlainOf(f) && FileOk(PlainOf(f).files[i])
    ensures var v := PlainOf(f).files[i];
            !Breaking(f.used, v, off, src, room) && WriteCount(f.used, v, off, src, room) == -1
  {
    hide Inv, Blocks, Content;
    PlainAt(f, i);
    var p := PlainOf(f);
    assert p.files[i := p.files[i]] == p.files;
  }

  /** What the loop and the new size come to. */
  lemma WroteIs(f: Fs, g: Fs, h: Fs, i: nat, off: nat, src: Bytes, room: nat, tot: nat)
    requires Ended(f, g, i, off, src, room, tot) && !Rejected(f.inodes[i].size, off, |src|)
    requires Inv(h) && OthersSame(f, h, i) && i in h.inodes && off <= f.inodes[i].size
    requires AllocOf(h, i) == AllocOf(g, i) && h.inodes[i].typ == f.inodes[i].typ
    requires Content(h, i) == Spliced(Content(f, i), off, src[..tot])
    ensures PlainOk(PlainOf(f)) && PlainOf(h) == Wrote(PlainOf(f), i, off, src, room)
  {
    hide Inv, Blocks, Content, Breaks, Reach, Wanted, Written, OthersSame, Spliced, Gets, Placement.After;
    PlainFits(f);
    PlainAt(f, i);
    PlainChange(f, h, i);
    FateParts(f, i, off, src, room, tot, false);
  }

  // ---------------------------------------------------------------- creating and truncating

  lemma CreatedPlain(f: Fs, g: Fs, ninodes: nat, inum: nat, typ: FileType)
    requires Inv(f) && Inv(g)
    requires if inum == 0 then g == f && forall j :: 1 <= j < ninodes ==> j in f.inodes
             else
               && inum < ninodes && inum !in f.inodes && (forall j :: 1 <= j < inum ==> j in f.inodes)
               && inum in g.inodes && g.inodes[inum] == Inode(typ, 0, 1, Empty()) && g.used == f.used
               && OthersSame(f, g, inum) && Content(g, inum) == [] && Checksum([]) == 1
    ensures inum == FirstFree(f.inodes.Keys, 1, ninodes) && (Sealed(f) ==> Sealed(g))
    ensures PlainOk(PlainOf(f)) && PlainOf(g) == Next(ninodes, PlainOf(f), Create(typ))
  {
    hide Inv, Blocks, Content, Checksum, OthersSame, Sealed;
    PlainFits(f);
    FirstFreeIs(f.inodes.Keys, ninodes, inum);
    if inum != 0 {
      PlainChange(f, g, inum);
      if Sealed(f) {
        SealedKeep(f, g, inum);
      }
    }
  }

  lemma TruncatedPlain(f: Fs, g: Fs, ninodes: nat, i: nat)
    requires Inv(f) && Inv(g) && i in f.inodes && g == Truncated(f, i) && OthersSame(f, g, i) && Content(g, i) == []
    requires Checksum([]) == 1
    ensures PlainOk(PlainOf(f)) && PlainOf(g) == Next(ninodes, PlainOf(f), Truncate(i)) && (Sealed(f) ==> Sealed(g))
  {
    hide Inv, Blocks, Content, Checksum, OthersSame, Sealed;
    PlainFits(f);
    PlainAt(f, i);
    PlainChange(f, g, i);
    if Sealed(f) {
      SealedKeep(f, g, i);
    }
  }

  lemma DeletedPlain(f: Fs, g: Fs, h: Fs, ninodes: nat, i: nat)
    requires Inv(f) && Inv(g) && Inv(h) && i in f.inodes && i !in h.inodes && OthersSame(f, h, i) && h.used == g.used
    requires PlainOk(PlainOf(f)) && PlainOf(g) == Next(ninodes, PlainOf(f), Truncate(i))
    ensures PlainOf(h) == Next(ninodes, PlainOf(f), Delete(i)) && (Sealed(f) ==> Sealed(h))
  {
    hide Inv, Blocks, Content, Checksum, OthersSame, Sealed;
    PlainChange(f, h, i);
    if Sealed(f) {
      SealedKeep(f, h, i);
    }
  }

  // ---------------------------------------------------------------- reading

  /** The first `copies` pieces have been copied out. */
  ghost predicate CopiedSoFar(c: Bytes, off: nat, len: nat, room: nat, dst: Bytes, copies: nat) {
    && |dst| <= len && off + len <= |c| && dst == c[off..off + |dst|] && copies == Spanned(off, |dst|) <= room
    && (|dst| == Pieces(off, copies) || |dst| == len <= Pieces(off, copies))
  }

  lemma CopiedNone(c: Bytes, off: nat, len: nat, room: nat)
    requires off + len <= |c|
    ensures CopiedSoFar(c, off, len, room, [], 0)
  {
    SpannedNone(off, len);
  }

  lemma CopiedNext(c: Bytes, off: nat, len: nat, room: nat, dst: Bytes, copies: nat)
    requires CopiedSoFar(c, off, len, room, dst, copies) && |dst| < len
    ensures off + len <= |c|
    ensures var p := off + |dst|;
            var m := Clip(len - |dst|, BSIZE - p % BSIZE);
            && (copies < room ==> CopiedSoFar(c, off, len, room, dst + c[p..p + m], copies + 1))
            && (copies >= room ==> room < Spanned(off, len) && dst == c[off..off + Clip(len, Pieces(off, room))])
  {
    hide Spanned, Pieces;
    var p := off + |dst|;
    var m := Clip(len - |dst|, BSIZE - p % BSIZE);
    PieceAt(off, len, |dst|, copies, m);
    PieceStart(off, copies);
    SpannedStep(off, |dst|, m, len);
    assert c[off..p] + c[p..p + m] == c[off..p + m];
  }

  lemma CopiedAll(c: Bytes, off: nat, len: nat, room: nat, dst: Bytes, copies: nat)
    requires CopiedSoFar(c, off, len, room, dst, copies) && |dst| >= len
    ensures |dst| == len && room >= Spanned(off, len) && dst == c[off..off + Clip(len, Pieces(off, room))]
  {
    hide Spanned, Pieces;
    PiecesMore(off, copies, room);
  }

  // ---------------------------------------------------------------- other facts

  lemma EmptyChecksum()
    ensures Checksum([]) == 1
  {
  }

  /** bmap() cannot place a block for file i although there is room on the disk. */
  ghost predicate Stuck(f: Fs, i: nat) {
    && i in f.inodes && |f.inodes[i].extents| == NEXTENT
    && (forall k :: 0 <= k < NEXTENT ==> f.inodes[i].extents[k].len > 0)
    && (exists b :: 0 <= b < |f.used| && !f.used[b])
    && var e := f.inodes[i].extents[NEXTENT - 1];
       var tail := e.start + e.len;
       !(tail < |f.used| && !f.used[tail])
  }

  function AllocOf(f: Fs, i: nat): Alloc
    requires i in f.inodes
  {
    Alloc(f.used, f.inodes[i].extents)
  }

  lemma StuckIs(f: Fs, i: nat)
    requires Inv(f) && i in f.inodes
    ensures Shape(f.inodes[i].extents) && (Stuck(f, i) <==> Overflows(AllocOf(f, i)))
  {
    hide OwnOk, BitmapOk, Blocks;
    LastSlot(f.inodes[i].extents);
    var l := Lowest(f.used, 0);
    if !Full(f.used) {
      assert !f.used[l];
    }
  }

  lemma LastSlot(es: seq<Extent>)
    requires Shape(es)
    ensures es[NEXTENT - 1].len > 0 <==> forall k :: 0 <= k < NEXTENT ==> es[k].len > 0
    ensures es[NEXTENT - 1].len > 0 ==> LastUsed(es) == NEXTENT - 1
  {
  }

  lemma HasShape(f: Fs, i: nat)
    requires Inv(f) && i in f.inodes
    ensures Shape(f.inodes[i].extents)
  {
  }

  lemma ZeroUsed(f: Fs)
    requires Inv(f)
    ensures 0 < |f.used| == |f.data| && f.used[0]
  {
  }

  lemma BlocksNone(es: seq<Extent>)
    ensures Blocks(es[..0]) == []
  {
  }

  lemma FoundUsed(f: Fs, i: nat, bn: nat)
    requires Inv(f) && i in f.inodes && bn < |FileBlocks(f.inodes, i)|
    ensures 0 < FileBlocks(f.inodes, i)[bn] < |f.data| && |f.data[FileBlocks(f.inodes, i)[bn]]| == BSIZE
  {
    hide Blocks, InodesOk;
    assert FileBlocks(f.inodes, i)[bn] in f.owner;
  }

  lemma ExtendsParts(f: Fs, g: Fs, i: nat)
    requires Inv(f) && Inv(g) && Extends(f, g, i)
    ensures i in f.inodes && i in g.inodes && FileBlocks(f.inodes, i) <= FileBlocks(g.inodes, i)
    ensures g.inodes[i] == f.inodes[i].(extents := g.inodes[i].extents)
  {
    hide Inv, Blocks;
  }

  lemma LoggedFew(base: set<Dirty>, a: set<Dirty>, b: set<Dirty>)
    requires exists x, y :: b <= a + {x, y}
    ensures |b - base| <= |a - base| + 2
  {
    var x, y :| b <= a + {x, y};
    var c := (a - base) + {x} + {y};
    Subset(b - base, c);
  }

  lemma WrittenParts(f: Fs, g: Fs, i: nat, off: nat, bytes: Bytes)
    requires Inv(f) && Inv(g) && Written(f, g, i, off, bytes)
    ensures i in f.inodes && i in g.inodes && off + |bytes| <= |FileBlocks(g.inodes, i)| * BSIZE
    ensures g.inodes[i] == f.inodes[i].(extents := g.inodes[i].extents)
  {
    hide Inv, Blocks;
  }

  lemma LoggedOne(base: set<Dirty>, a: set<Dirty>, x: Dirty)
    ensures |a + {x} - base| <= |a - base| + 1
  {
    Subset(a + {x} - base, (a - base) + {x});
  }

  lemma NewInode(f: Fs, i: nat, typ: FileType)
    requires Inv(f) && i !in f.inodes
    ensures var g := f.(inodes := f.inodes[i := Inode(typ, 0, 1, Empty())]);
            Inv(g) && OthersSame(f, g, i) && Content(g, i) == []
  {
    hide Blocks, Shape;
    EmptyBlocks();
    var g := f.(inodes := f.inodes[i := Inode(typ, 0, 1, Empty())]);
    assert forall j :: j in f.inodes ==> FileBlocks(g.inodes, j) == FileBlocks(f.inodes, j);
    assert FileBlocks(g.inodes, i) == [];
    assert InodesOk(g.inodes) && OwnOk(g.inodes, g.owner) && BitmapOk(g);
  }

  lemma FreedNone(used: seq<bool>)
    ensures used == Freed(used, [])
  {
  }

  lemma FreedMore(used: seq<bool>, bs: seq<nat>, r: seq<nat>, b: nat)
    requires b < |r| && r[b] < |used|
    ensures Freed(used, bs + r[..b + 1]) == Freed(used, bs + r[..b])[r[b] := false]
  {
    assert bs + r[..b + 1] == bs + r[..b] + [r[b]];
  }

  /** The next block to be freed belongs to the file and has not been freed before. */
  lemma StillUsed(f: Fs, i: nat, k: nat, b: nat)
    requires Inv(f) && i in f.inodes && k < |f.inodes[i].extents| && b < f.inodes[i].extents[k].len
    ensures var es := f.inodes[i].extents;
            var addr := es[k].start + b;
            addr < |f.used| && f.used[addr] && addr !in Blocks(es[..k]) + Range(es[k])[..b]
  {
    hide Blocks, InodesOk;
    var es := f.inodes[i].extents;
    var done := Blocks(es[..k]) + Range(es[k])[..b];
    BlocksStep(es, k);
    BlocksPrefix(es, k + 1);
    var all := FileBlocks(f.inodes, i);
    var n := |Blocks(es[..k])| + b;
    assert all[n] == es[k].start + b;
    assert forall m :: 0 <= m < |done| ==> done[m] == all[m];
    assert all[n] in f.owner && f.owner[all[n]] == (i, n);
    forall m | 0 <= m < |done| ensures done[m] != all[n] {
      assert f.owner[all[m]] == (i, m);
    }
  }

  lemma NoContent(f: Fs, i: nat)
    requires Inv(f) && i in f.inodes && f.inodes[i].size == 0
    ensures Content(f, i) == []
  {
  }

  lemma DropInode(f: Fs, i: nat)
    requires Inv(f) && i in f.inodes && Content(f, i) == [] && f.inodes[i].extents == Empty()
    ensures var g := f.(inodes := f.inodes - {i});
            Inv(g) && OthersSame(f, g, i)
  {
    hide Blocks, Shape;
    EmptyBlocks();
    var g := f.(inodes := f.inodes - {i});
    assert forall j :: j in g.inodes ==> FileBlocks(g.inodes, j) == FileBlocks(f.inodes, j);
    assert InodesOk(g.inodes) && OwnOk(g.inodes, g.owner) && BitmapOk(g);
  }

  lemma OthersRefl(f: Fs, i: nat)
    requires Inv(f)
    ensures OthersSame(f, f, i)
  {
    hide Inv;
  }

  // ---------------------------------------------------------------- the code

  class FileSys {
    const meta: nat
    const ninodes: nat
    var used: seq<bool>
    var data: seq<Block>
    var inodes: Inodes
    ghost var owner: map<nat, (nat, nat)>
    var checksumErrors: nat // bio_checksum_errors
    ghost var logged: set<Dirty>

    ghost function S(): Fs
      reads this
    {
      Fs(meta, used, data, inodes, owner)
    }

    /** A formatted disk without files. */
    constructor (meta: nat, size: nat, ninodes: nat)
      requires 0 < meta <= size
      ensures Inv(S()) && inodes == map[] && this.meta == meta && this.ninodes == ninodes && used == Prefix(size, meta)
      ensures Valid() && P() == Plain(Prefix(size, meta), map[])
    {
      this.meta, this.ninodes := meta, ninodes;
      used := Prefix(size, meta);
      data := seq(size, _ => ZeroBlock());
      inodes, owner, logged, checksumErrors := map[], map[], {}, 0;
    }

    // -------------------------------------------------------------- blocks

    /** Mark block b in use and zero it (the tail of balloc and balloc_prefer). */
    method Take(b: nat)
      requires b < |used| == |data|
      modifies this`used, this`data, this`logged
      ensures used == old(used)[b := true] && data == old(data)[b := ZeroBlock()]
      ensures logged == old(logged) + {BitmapBlock(b / BPB), DataBlock(b)}
    {
      used := used[b := true];
      logged := logged + {BitmapBlock(b / BPB)};
      data := data[b := ZeroBlock()]; // bzero
      logged := logged + {DataBlock(b)};
    }

    /** balloc_prefer(): this block or none. */
    method BallocPrefer(b: nat) returns (r: nat)
      requires |used| == |data|
      modifies this`used, this`data, this`logged
      ensures |used| == |old(used)| && |data| == |old(data)|
      ensures if b < |used| && !old(used)[b] then
                && r == b && used == old(used)[b := true] && data == old(data)[b := ZeroBlock()]
                && logged == old(logged) + {BitmapBlock(b / BPB), DataBlock(b)}
              else r == 0 && used == old(used) && data == old(data) && logged == old(logged)
    {
      if b >= |used| {
        return 0;
      }
      if used[b] {
        return 0;
      }
      Take(b);
      return b;
    }

    /** balloc(): the lowest free block, zeroed, or 0 when the disk is full. */
    method Balloc() returns (r: nat)
      requires |used| == |data| && 0 < |used| && used[0]
      modifies this`used, this`data, this`logged
      ensures |used| == |old(used)| && |data| == |old(data)|
      ensures r == 0 <==> Full(old(used))
      ensures r == 0 ==> used == old(used) && data == old(data) && logged == old(logged)
      ensures r != 0 ==> r == Lowest(old(used), 0) < |used|
      ensures r != 0 ==> used == old(used)[r := true] && data == old(data)[r := ZeroBlock()]
      ensures r != 0 ==> logged == old(logged) + {BitmapBlock(r / BPB), DataBlock(r)}
    {
      var b := 0;
      while b < |used|
        invariant forall c :: 0 <= c < b && c < |used| ==> used[c]
        invariant used == old(used) && data == old(data) && logged == old(logged)
      {
        var bi := 0;
        while bi < BPB && b + bi < |used|
          invariant 0 <= bi <= BPB && forall c :: 0 <= c < b + bi && c < |used| ==> used[c]
          invariant used == old(used) && data == old(data) && logged == old(logged)
        {
          if !used[b + bi] {
            LowestIs(used, b + bi);
            Take(b + bi);
            return b + bi;
          }
          bi := bi + 1;
        }
        b := b + BPB;
      }
      LowestIs(used, |used|);
      return 0;
    }

    /** A free block for a file with these extents: next to the last extent if that is free,
        else the lowest one. */
    method PickBlock(es: seq<Extent>) returns (nb: nat)
      requires Shape(es) && |used| == |data| && 0 < |used| && used[0]
      modifies this`used, this`data, this`logged
      ensures |used| == |old(used)| && |data| == |old(data)|
      ensures nb == 0 <==> Full(old(used))
      ensures nb == 0 ==> used == old(used) && data == old(data) && logged == old(logged)
      ensures nb != 0 ==> nb == Picked(Alloc(old(used), es)) < |used| && !old(used)[nb]
      ensures nb != 0 ==> used == old(used)[nb := true] && data == old(data)[nb := ZeroBlock()]
      ensures nb != 0 ==> logged == old(logged) + {BitmapBlock(nb / BPB), DataBlock(nb)}
    {
      var k := LastUsed(es);
      nb := 0;
      if k < NEXTENT {
        nb := BallocPrefer(es[k].start + es[k].len);
      }
      if nb == 0 {
        nb := Balloc();
      }
    }

    /** bmap()'s allocation of one more block for file i.  It panics exactly when all extents
        are in use, the block after the last one is not free, and some other block is. */
    method AppendBlock(i: nat) returns (nb: nat, panicked: bool)
      requires Inv(S()) && i in inodes
      modifies this`used, this`data, this`inodes, this`owner, this`logged
      ensures !panicked ==> Inv(S()) && Extends(old(S()), S(), i)
      ensures !panicked && nb == 0 ==> S() == old(S()) && logged == old(logged)
      ensures !panicked && nb != 0 ==>
                && FileBlocks(inodes, i) == FileBlocks(old(inodes), i) + [nb]
                && logged == old(logged) + {BitmapBlock(nb / BPB), DataBlock(nb)}
      ensures panicked <==> Stuck(old(S()), i)
      ensures var a := AllocOf(old(S()), i);
              && Shape(a.es) && (panicked <==> Overflows(a)) && (nb == 0 <==> Full(a.used))
              && (!panicked && nb != 0 ==> AllocOf(S(), i) == Placed(a))
    {
      hide Blocks, Extends, Inv, ZeroBlock;
      ghost var f := S();
      HasShape(f, i);
      ZeroUsed(f);
      StuckIs(f, i);
      var es := inodes[i].extents;
      nb := PickBlock(es);
      if nb == 0 {
        ExtendsRefl(f, i);
        return 0, false;
      }
      var ok, r := Append(es, nb);
      if !ok {
        return nb, true; // panic("bmap: extent overflow")
      }
      GrownExtends(f, i, nb, r);
      inodes := inodes[i := inodes[i].(extents := r)];
      owner := owner[nb := (i, |FileBlocks(f.inodes, i)|)];
      assert S() == Grown(f, i, nb, r);
      return nb, false;
    }

    // -------------------------------------------------------------- the block map

    /** bmap()'s search: the bn-th block of the extents, if they reach that far. */
    method FindBlock(es: seq<Extent>, bn: nat) returns (found: bool, addr: nat, base: nat)
      requires |es| == NEXTENT
      ensures found <==> bn < |Blocks(es)|
      ensures found ==> addr == Blocks(es)[bn]
      ensures !found ==> base == |Blocks(es)|
    {
      hide Blocks;
      base, addr := 0, 0;
      BlocksNone(es);
      var i := 0;
      while i < NEXTENT
        invariant i <= NEXTENT && base == |Blocks(es[..i])| <= bn
      {
        BlocksStep(es, i);
        var len := es[i].len;
        if len != 0 {
          if bn < base + len {
            BlocksPrefix(es, i + 1);
            return true, es[i].start + (bn - base), base;
          }
          base := base + len;
        }
        i := i + 1;
      }
      assert es[..NEXTENT] == es;
      return false, 0, base;
    }

    /** bmap(): finds logical block bn of file i, appending blocks to the file until it has
        one.  Blocks the file already has are never moved. */
    method Bmap(i: nat, bn: nat) returns (r: nat, panicked: bool)
      requires Inv(S()) && i in inodes
      modifies this`used, this`data, this`inodes, this`owner, this`logged
      ensures bn < |FileBlocks(old(inodes), i)| ==>
                !panicked && r == FileBlocks(old(inodes), i)[bn] && S() == old(S()) && logged == old(logged)
      ensures !panicked ==> Inv(S()) && Extends(old(S()), S(), i)
      ensures !panicked && r != 0 ==> bn < |FileBlocks(inodes, i)| && FileBlocks(inodes, i)[bn] == r
      ensures !panicked && r == 0 ==> |FileBlocks(inodes, i)| <= bn
      ensures bn >= |FileBlocks(old(inodes), i)| ==>
                var a, n := AllocOf(old(S()), i), bn + 1 - |FileBlocks(old(inodes), i)|;
                && Shape(a.es) && (panicked <==> Breaks(a, n))
                && (!panicked ==>
                    AllocOf(S(), i) == Placement.After(a, n) && |FileBlocks(inodes, i)| == bn + 1 - n + Gets(a, n))
      ensures !panicked && bn == |FileBlocks(old(inodes), i)| ==>
                logged == if r == 0 then old(logged) else old(logged) + {BitmapBlock(r / BPB), DataBlock(r)}
    {
      hide Blocks, Extends, Inv, Gets, Placement.After, Breaks, Overflows, Full, Placed;
      r, panicked := 0, true;
      HasShape(S(), i);
      ExtendsRefl(S(), i);
      ghost var a, had := AllocOf(S(), i), |FileBlocks(inodes, i)|;
      GetsStart(a);
      var found, addr, base := FindBlock(inodes[i].extents, bn);
      if found {
        FoundUsed(S(), i, bn);
        return addr, false;
      }
      while base <= bn
        invariant Inv(S()) && i in inodes && Extends(old(S()), S(), i)
        invariant base == |FileBlocks(inodes, i)| <= bn
        invariant base == |FileBlocks(old(inodes), i)| ==> logged == old(logged)
        invariant base >= had && Gets(a, base - had) == base - had && AllocOf(S(), i) == Placement.After(a, base - had)
        decreases bn - base
      {
        ghost var g := S();
        GrowStep(a, base - had, bn + 1 - had);
        var nb, stop := AppendBlock(i);
        if stop {
          return 0, true;
        }
        ExtendsTrans(old(S()), g, S(), i);
        ExtendsParts(g, S(), i);
        if nb == 0 {
          return 0, false;
        }
        if base == bn {
          return nb, false;
        }
        base := base + 1;
      }
      assert false; // so panic("bmap: unreachable") is not reached
    }

    // -------------------------------------------------------------- checksums and reading

    /** inode_checksum(): the Adler-32 of the whole content, block by block; allocates nothing. */
    method InodeChecksum(i: nat) returns (adler: nat)
      requires Inv(S()) && i in inodes
      modifies this`used, this`data, this`inodes, this`owner, this`logged
      ensures S() == old(S()) && logged == old(logged)
      ensures adler == if inodes[i].typ.Device? then 1 else Checksum(Content(S(), i))
    {
      hide Inv, Blocks, Content, Checksum, Extends;
      if inodes[i].typ.Device? {
        return 1;
      }
      ghost var f, c := S(), Content(S(), i);
      var size := inodes[i].size;
      var blocks := (size + BSIZE - 1) / BSIZE;
      adler := 1;
      EmptyChecksum();
      assert c[..0] == [];
      var bn := 0;
      while bn < blocks
        invariant bn <= blocks && S() == f && logged == old(logged)
        invariant adler == Checksum(c[..if bn < blocks then bn * BSIZE else size])
      {
        var chunk := if bn == blocks - 1 then size - bn * BSIZE else BSIZE;
        ContentPiece(f, i, bn * BSIZE, chunk);
        var addr, stop := Bmap(i, bn);
        var bytes := data[addr][..chunk];
        TakeMore(c, bn * BSIZE, bn * BSIZE + chunk);
        adler := Update(adler, bytes, c[..bn * BSIZE]);
        bn := bn + 1;
      }
      assert c[..size] == c;
    }

    /** readi(), its user copies failing after `room` of them: exactly the bytes of the file. */
    method Readi(i: nat, off: nat, n: nat, room: nat) returns (tot: int, dst: Bytes)
      requires Inv(S()) && i in inodes && off < U32 && n < U32
      modifies this`used, this`data, this`inodes, this`owner, this`logged, this`checksumErrors
      ensures S() == old(S()) && logged == old(logged)
      ensures Sealed(S()) ==> checksumErrors == old(checksumErrors)
      ensures FileResult(tot, dst) == ReadResult(PlainOf(S()).files[i], off, n, room)
      ensures off > inodes[i].size || off + n >= U32 ==> tot == 0 && dst == []
      ensures off <= inodes[i].size && off + n < U32 ==>
                var len := if n < inodes[i].size - off then n else inodes[i].size - off;
                && dst <= Content(S(), i)[off..off + len]
                && if room >= Spanned(off, len) then tot == |dst| == len else tot == -1
    {
      hide Inv, Blocks, Content, Extends, Spanned, Pieces;
      PlainAt(S(), i);
      if off > inodes[i].size || (off + n) % U32 < off {
        return 0, [];
      }
      var len := Clip(off + n, inodes[i].size) - off;
      var ok;
      ok, dst := ReadLoop(i, off, len, room);
      if !ok {
        return -1, dst;
      }
      if off == 0 && |dst| == inodes[i].size && !inodes[i].typ.Device? {
        var now := InodeChecksum(i); // verify_inode_checksum
        if now != inodes[i].checksum {
          checksumErrors := checksumErrors + 1;
        }
      }
      return |dst|, dst;
    }

    /** The loop of readi(), one block at a time. */
    method ReadLoop(i: nat, off: nat, len: nat, room: nat) returns (ok: bool, dst: Bytes)
      requires Inv(S()) && i in inodes && off + len <= inodes[i].size
      modifies this`used, this`data, this`inodes, this`owner, this`logged
      ensures S() == old(S()) && logged == old(logged)
      ensures ok <==> room >= Spanned(off, len)
      ensures dst == Content(S(), i)[off..off + Clip(len, Pieces(off, room))] && (ok ==> |dst| == len)
    {
      hide Inv, Content, Spanned, Pieces, CopiedSoFar;
      ghost var c := Content(S(), i);
      var copies := 0;
      dst := [];
      CopiedNone(c, off, len, room);
      while |dst| < len
        invariant S() == old(S()) && logged == old(logged) && CopiedSoFar(c, off, len, room, dst, copies)
        decreases len - |dst|
      {
        CopiedNext(c, off, len, room, dst, copies);
        var p := off + |dst|;
        var m := if len - |dst| < BSIZE - p % BSIZE then len - |dst| else BSIZE - p % BSIZE;
        var piece := ReadPiece(i, p, m);
        if copies >= room {
          return false, dst;
        }
        dst := dst + piece;
        copies := copies + 1;
      }
      CopiedAll(c, off, len, room, dst, copies);
      return true, dst;
    }

    /** Part of one block of a file. */
    method ReadPiece(i: nat, p: nat, m: nat) returns (piece: Bytes)
      requires Inv(S()) && i in inodes && p + m <= inodes[i].size && 0 < m <= BSIZE - p % BSIZE
      modifies this`used, this`data, this`inodes, this`owner, this`logged
      ensures S() == old(S()) && logged == old(logged) && piece == Content(S(), i)[p..p + m]
    {
      hide Inv, Blocks, Content, Extends, Shape, Breaks, Gets, Placement.After;
      ContentPiece(S(), i, p, m);
      var addr, stop := Bmap(i, p / BSIZE);
      piece := data[addr][p % BSIZE..p % BSIZE + m];
    }

    // -------------------------------------------------------------- writing

    /** One round of writei()'s loop: src[tot..tot + m] goes into the block at off + tot. */
    method WritePiece(i: nat, off: nat, src: Bytes, tot: nat, m: nat, copyOk: bool, ghost f: Fs)
      returns (done: bool, panicked: bool)
      requires Inv(f) && Inv(S()) && tot + m <= |src| && Written(f, S(), i, off, src[..tot])
      requires 0 < m <= BSIZE - (off + tot) % BSIZE
      modifies this`used, this`data, this`inodes, this`owner, this`logged
      ensures !panicked ==> Inv(S()) && Written(f, S(), i, off, src[..if done then tot + m else tot])
      ensures !panicked ==> exists x, y :: logged <= old(logged) + {x, y}
      ensures var a, had := AllocOf(old(S()), i), |FileBlocks(old(inodes), i)|;
              var n := if (off + tot) / BSIZE < had then 0 else 1;
              && Shape(a.es) && (off + tot) / BSIZE <= had && (panicked <==> Breaks(a, n))
              && (!panicked ==> AllocOf(S(), i) == Placement.After(a, n) && |FileBlocks(inodes, i)| == had + Gets(a, n))
              && (!panicked ==> (done <==> Gets(a, n) == n && copyOk))
    {
      hide Inv, Blocks, Written, Extends, Covered, Gets, Placement.After, Overflows, Full, Placed;
      var p := off + tot;
      ghost var g := S();
      WrittenParts(f, g, i, off, src[..tot]);
      HasShape(g, i);
      GetsStart(AllocOf(g, i));
      var addr, stop := Bmap(i, p / BSIZE);
      if stop {
        return false, true;
      }
      ghost var h := S();
      WrittenExtend(f, g, h, i, off, src[..tot]);
      assert logged <= old(logged) + {BitmapBlock(addr / BPB), DataBlock(addr)};
      if addr == 0 || !copyOk {
        return false, false;
      }
      WrittenPatch(f, h, i, off, src[..tot], src[tot..tot + m]);
      TakeMore(src, tot, tot + m);
      data := data[addr := Patched(data[addr], p % BSIZE, src[tot..tot + m])];
      logged := logged + {DataBlock(addr)};
      assert logged <= old(logged) + {BitmapBlock(addr / BPB), DataBlock(addr)};
      return true, false;
    }

    /** One round of the loop, with what it means for the whole write. */
    method NextPiece(i: nat, off: nat, src: Bytes, room: nat, tot: nat, pieces: nat, ghost f: Fs)
      returns (m: nat, done: bool, panicked: bool)
      requires Midway(f, S(), i, off, src, tot, pieces) && tot < |src| && pieces <= room
      modifies this`used, this`data, this`inodes, this`owner, this`logged
      ensures panicked ==> Fate(f, i, off, |src|, room, tot, true)
      ensures !panicked && done ==>
              0 < m && tot + m <= |src| && pieces < room && Midway(f, S(), i, off, src, tot + m, pieces + 1)
      ensures !panicked && !done ==> Ended(f, S(), i, off, src, room, tot) && pieces < Spanned(off, |src|)
      ensures !panicked ==> exists x, y :: logged <= old(logged) + {x, y}
    {
      hide Inv, Blocks, Written, Spanned, InLoop, Breaks, Gets, Placement.After, Reach, Wanted;
      MidwayParts(f, S(), i, off, src, tot, pieces);
      var p := off + tot;
      m := if |src| - tot < BSIZE - p % BSIZE then |src| - tot else BSIZE - p % BSIZE;
      SpannedStep(off, tot, m, |src|);
      ghost var now := |FileBlocks(inodes, i)|;
      LoopStep(AllocOf(f, i), |FileBlocks(f.inodes, i)|, off, |src|, room, tot, pieces, now, m);
      done, panicked := WritePiece(i, off, src, tot, m, pieces < room, f);
      if !panicked {
        WrittenParts(f, S(), i, off, src[..if done then tot + m else tot]);
        if done {
          PieceAligned(off, tot, m, |src|);
        }
      }
    }

    /** The loop of writei(): all of src, or a prefix of it if the disk fills up or one of the
        user copies fails. */
    method WriteLoop(i: nat, off: nat, src: Bytes, room: nat) returns (tot: nat, panicked: bool)
      requires Inv(S()) && i in inodes && off <= inodes[i].size
      modifies this`used, this`data, this`inodes, this`owner, this`logged
      ensures panicked ==> Fate(old(S()), i, off, |src|, room, tot, true)
      ensures !panicked ==> Ended(old(S()), S(), i, off, src, room, tot)
      ensures !panicked ==> |logged - old(logged)| <= 2 * Spanned(off, |src|)
    {
      hide Inv, Midway, Ended, Fate, Spanned;
      tot := 0;
      var pieces := 0;
      MidwayFirst(S(), i, off, src);
      assert logged - old(logged) == {};
      while tot < |src|
        invariant tot <= |src| && pieces <= room && Midway(old(S()), S(), i, off, src, tot, pieces)
        invariant |logged - old(logged)| <= 2 * pieces
        decreases |src| - tot
      {
        ghost var log1 := logged;
        var m, done, stop := NextPiece(i, off, src, room, tot, pieces, old(S()));
        if stop {
          return tot, true;
        }
        LoggedFew(old(logged), log1, logged);
        if !done {
          return tot, false;
        }
        tot := tot + m;
        pieces := pieces + 1;
      }
      MidwayLast(old(S()), S(), i, off, src, room, tot, pieces);
      return tot, false;
    }

    /** writei(): a write that is accepted replaces exactly [off, off + r) of the file's bytes,
        growing it if needed, leaves every other file alone and renews the checksum.  How many
        bytes that are, which blocks are placed and whether bmap() panics is decided beforehand. */
    method Writei(i: nat, off: nat, src: Bytes, room: nat) returns (r: int, panicked: bool)
      requires Inv(S()) && i in inodes && off < U32 && |src| < U32
      modifies this`used, this`data, this`inodes, this`owner, this`logged
      ensures FileOk(PlainOf(old(S())).files[i])
      ensures panicked <==> Breaking(old(used), PlainOf(old(S())).files[i], off, src, room)
      ensures !panicked ==> r == WriteCount(old(used), PlainOf(old(S())).files[i], off, src, room)
      ensures !panicked ==>
                && Inv(S()) && i in inodes && OthersSame(old(S()), S(), i)
                && PlainOk(PlainOf(old(S()))) && PlainOf(S()) == Wrote(PlainOf(old(S())), i, off, src, room)
                && (Sealed(old(S())) ==> Sealed(S())) && |logged - old(logged)| <= 2 * Spanned(off, |src|) + 1
    {
      hide Inv, OthersSame, Spanned, Sealed, Fate, Ended, PlainOf, PlainOk, FileOk, Breaking, WriteCount, Wrote;
      ghost var f := S();
      PlainFits(f);
      PlainAt(f, i);
      OthersRefl(f, i);
      if off > inodes[i].size || (off + |src|) % U32 < off {
        RejectedSame(f, i, off, src, room);
        return -1, false;
      }
      if off + |src| > MAXFILE * BSIZE {
        RejectedSame(f, i, off, src, room);
        return -1, false;
      }
      var tot, stop := WriteLoop(i, off, src, room);
      if stop {
        FateParts(f, i, off, src, room, tot, true);
        return -1, true;
      }
      ghost var log1 := logged;
      EndedParts(f, S(), i, off, src, room, tot);
      FateParts(f, i, off, src, room, tot, false);
      FinishWrite(i, off, src, room, tot, f);
      LoggedOne(old(logged), log1, InodeBlock(i / IPB));
      return tot, false;
    }

    /** The end of writei(): the new size, the new checksum, iupdate(). */
    method FinishWrite(i: nat, off: nat, src: Bytes, room: nat, tot: nat, ghost f: Fs)
      requires Inv(f) && Inv(S()) && i in f.inodes && i in inodes && !Rejected(f.inodes[i].size, off, |src|)
      requires Ended(f, S(), i, off, src, room, tot)
      modifies this`used, this`data, this`inodes, this`owner, this`logged
      ensures Inv(S()) && i in inodes && OthersSame(f, S(), i) && logged == old(logged) + {InodeBlock(i / IPB)}
      ensures PlainOk(PlainOf(f)) && PlainOf(S()) == Wrote(PlainOf(f), i, off, src, room)
      ensures Sealed(f) ==> Sealed(S())
    {
      hide Inv, Blocks, Written, Content, Checksum, Spliced, OthersSame, Sealed, Fate, Ended;
      ghost var g := S();
      EndedParts(f, g, i, off, src, room, tot);
      WrittenParts(f, g, i, off, src[..tot]);
      var size := if off + tot > inodes[i].size then off + tot else inodes[i].size;
      inodes := inodes[i := inodes[i].(size := size)];
      ghost var h := S();
      WrittenContent(f, g, h, i, off, src[..tot], g.inodes[i].checksum);
      if !inodes[i].typ.Device? {
        var sum := InodeChecksum(i);
        inodes := inodes[i := inodes[i].(checksum := sum)];
        WrittenContent(f, g, S(), i, off, src[..tot], sum);
      }
      logged := logged + {InodeBlock(i / IPB)}; // iupdate
      WroteIs(f, g, S(), i, off, src, room, tot);
      if Sealed(f) {
        SealedKeep(f, S(), i);
      }
    }

    // -------------------------------------------------------------- creating and truncating

    /** ialloc(): the lowest free inode becomes an empty file whose checksum is that of no bytes;
        0 if there is none. */
    method Ialloc(typ: FileType) returns (inum: nat)
      requires Inv(S())
      modifies this`inodes, this`logged
      ensures Inv(S()) && inum == FirstFree(old(inodes).Keys, 1, ninodes) && (Sealed(old(S())) ==> Sealed(S()))
      ensures PlainOk(PlainOf(old(S()))) && PlainOf(S()) == Next(ninodes, PlainOf(old(S())), Create(typ))
      ensures inum == 0 ==> S() == old(S()) && forall j :: 1 <= j < ninodes ==> j in inodes
      ensures inum != 0 ==>
                && inum < ninodes && inum !in old(inodes) && (forall j :: 1 <= j < inum ==> j in old(inodes))
                && inum in inodes && inodes[inum].typ == typ && OthersSame(old(S()), S(), inum)
                && Content(S(), inum) == [] && inodes[inum].checksum == Checksum([])
                && AllocOf(S(), inum) == Alloc(old(used), Empty())
    {
      hide Inv, Blocks, OthersSame, Content, Checksum, Sealed, PlainOf, PlainOk, Next;
      ghost var f := S();
      inum := 1;
      while inum < ninodes
        invariant 1 <= inum && (forall j :: 1 <= j < inum ==> j in inodes) && S() == f
      {
        if inum !in inodes {
          NewInode(f, inum, typ);
          EmptyChecksum();
          inodes := inodes[inum := Inode(typ, 0, 1, Empty())];
          logged := logged + {InodeBlock(inum / IPB)};
          CreatedPlain(f, S(), ninodes, inum, typ);
          return;
        }
        inum := inum + 1;
      }
      inum := 0;
      CreatedPlain(f, f, ninodes, 0, typ);
    }

    /** itrunc(): gives back exactly the blocks of the file; none of them was free. */
    method Itrunc(i: nat)
      requires Inv(S()) && i in inodes
      modifies this`used, this`inodes, this`owner, this`logged
      ensures Inv(S()) && i in inodes && OthersSame(old(S()), S(), i)
      ensures Content(S(), i) == [] && inodes[i].checksum == Checksum([]) && inodes[i].typ == old(inodes)[i].typ
      ensures inodes[i].extents == Empty()
      ensures forall b :: 0 <= b < |used| ==> (used[b] <==> old(used)[b] && b !in FileBlocks(old(inodes), i))
      ensures PlainOk(PlainOf(old(S()))) && PlainOf(S()) == Next(ninodes, PlainOf(old(S())), Truncate(i))
      ensures Sealed(old(S())) ==> Sealed(S())
    {
      hide Inv, Blocks, OthersSame, Content, Checksum, Sealed, PlainOf, PlainOk, Next;
      ghost var f := S();
      var es := inodes[i].extents;
      TruncatedInv(f, i);
      TruncatedOthers(f, i);
      BlocksNone(es);
      FreedNone(used);
      HasShape(f, i);
      var k := 0;
      while k < NEXTENT
        invariant k <= NEXTENT && used == Freed(f.used, Blocks(es[..k]))
        invariant inodes == f.inodes && owner == f.owner
      {
        BlocksStep(es, k);
        var b := 0;
        while b < es[k].len
          invariant b <= es[k].len && used == Freed(f.used, Blocks(es[..k]) + Range(es[k])[..b])
          invariant inodes == f.inodes && owner == f.owner
        {
          var addr := es[k].start + b;
          StillUsed(f, i, k, b);
          assert used[addr]; // so panic("freeing free block") is not reached
          used := used[addr := false]; // bfree
          logged := logged + {BitmapBlock(addr / BPB)};
          FreedMore(f.used, Blocks(es[..k]), Range(es[k]), b);
          b := b + 1;
        }
        assert Range(es[k])[..b] == Range(es[k]);
        k := k + 1;
      }
      assert es[..NEXTENT] == es;
      inodes := inodes[i := inodes[i].(size := 0, checksum := 1, extents := Empty())];
      owner := map b | b in owner && owner[b].0 != i :: owner[b];
      logged := logged + {InodeBlock(i / IPB)};
      assert S() == Truncated(f, i);
      EmptyChecksum();
      NoContent(S(), i);
      TruncatedPlain(f, S(), ninodes, i);
    }

    /** The end of iput() for a file without links: truncate, then free the inode. */
    method Remove(i: nat)
      requires Inv(S()) && i in inodes
      modifies this`used, this`inodes, this`owner, this`logged
      ensures Inv(S()) && i !in inodes && OthersSame(old(S()), S(), i)
      ensures PlainOk(PlainOf(old(S()))) && PlainOf(S()) == Next(ninodes, PlainOf(old(S())), Delete(i))
      ensures Sealed(old(S())) ==> Sealed(S())
    {
      hide Inv, Blocks, OthersSame, Content, Checksum, Sealed, PlainOf, PlainOk, Next;
      ghost var f := S();
      Itrunc(i);
      ghost var g := S();
      DropInode(g, i);
      inodes := inodes - {i};
      OthersTrans(f, g, S(), i);
      DeletedPlain(f, g, S(), ninodes, i);
    }

    /** One chunk of filewrite(), a log operation of its own: it passes at most nine distinct blocks
        to log_write(). */
    method WriteChunk(i: nat, off: nat, src: Bytes, room: nat) returns (r: int, panicked: bool)
      requires Inv(S()) && i in inodes && off < U32 && |src| <= CHUNK
      modifies this`used, this`data, this`inodes, this`owner, this`logged
      ensures !panicked ==> |logged| <= 9 < MAXOPBLOCKS
      ensures FileOk(PlainOf(old(S())).files[i])
      ensures panicked <==> Breaking(old(used), PlainOf(old(S())).files[i], off, src, room)
      ensures !panicked ==>
                && Inv(S()) && i in inodes && OthersSame(old(S()), S(), i)
                && r == WriteCount(old(used), PlainOf(old(S())).files[i], off, src, room)
                && PlainOk(PlainOf(old(S()))) && PlainOf(S()) == Wrote(PlainOf(old(S())), i, off, src, room)
                && (Sealed(old(S())) ==> Sealed(S()))
    {
      hide Inv, OthersSame, Breaking, WriteCount, Wrote, PlainOf, PlainOk, FileOk, Sealed, Spanned;
      logged := {}; // begin_op
      r, panicked := Writei(i, off, src, room);
      ChunkSpan(off, |src|);
      assert logged - {} == logged;
    }

    /** filewrite() on a file, chunk by chunk: how far it gets and what the files are then is
        decided beforehand, and ChunksReplace says what that comes to. */
    method FileWrite(i: nat, off: nat, src: Bytes, rooms: nat -> nat) returns (ret: int, done: nat, panicked: bool)
      requires Inv(S()) && i in inodes && off < U32
      modifies this`used, this`data, this`inodes, this`owner, this`logged
      ensures PlainOk(PlainOf(old(S())))
      ensures var o := Chunks(PlainOf(old(S())), i, off, src, rooms, 0, 0);
              && done == o.done && panicked == o.panicked && (!panicked ==> Inv(S()) && PlainOf(S()) == o.p)
      ensures !panicked ==> i in inodes && OthersSame(old(S()), S(), i) && (Sealed(old(S())) ==> Sealed(S()))
      ensures ret == if done == |src| then |src| else -1
    {
      hide Inv, OthersSame, Breaking, WriteCount, Wrote, PlainOf, PlainOk, FileOk, Sealed, Chunks;
      ghost var f := S();
      PlainFits(f);
      OthersRefl(f, i);
      ghost var end := Chunks(PlainOf(f), i, off, src, rooms, 0, 0);
      done := 0;
      var k := 0;
      while done < |src|
        invariant Inv(S()) && i in inodes && done <= |src| && OthersSame(f, S(), i) && (Sealed(f) ==> Sealed(S()))
        invariant off + done < U32 // a chunk that would pass it is turned away
        invariant PlainOk(PlainOf(S())) && Chunks(PlainOf(S()), i, off, src, rooms, done, k) == end
        decreases |src| - done
      {
        ghost var g := S();
        ChunksStep(PlainOf(g), i, off, src, rooms, done, k);
        var n1 := if |src| - done > CHUNK then CHUNK else |src| - done;
        var r, stop := WriteChunk(i, off + done, src[done..done + n1], rooms(k));
        if stop {
          return -1, done, true;
        }
        OthersTrans(f, g, S(), i);
        PlainFits(S());
        if r > 0 {
          done := done + r;
        }
        if r != n1 {
          return -1, done, false;
        }
        k := k + 1;
      }
      ChunksEnd(PlainOf(S()), i, off, src, rooms, k);
      return |src|, done, false;
    }

    // -------------------------------------------------------------- whole runs

    ghost predicate Valid()
      reads this
    {
      Inv(S()) && Sealed(S())
    }

    /** The disk as plain files. */
    ghost function P(): Plain
      reads this
      requires Inv(S())
    {
      PlainOf(S())
    }

    method Step(op: FileOp) returns (res: FileResult, halted: bool)
      requires Valid() && OpOk(op)
      modifies this
      ensures PlainOk(old(P())) && (halted <==> Halts(old(P()), op))
      ensures !halted ==> Valid() && P() == Next(ninodes, old(P()), op) && res == Answer(ninodes, old(P()), op)
      ensures !halted ==> checksumErrors == old(checksumErrors)
    {
      hide Inv, Content, Checksum, OthersSame, Sealed, PlainOf, PlainOk, FileOk, Breaking, WriteCount, Wrote,
        ReadResult;
      PlainFits(S());
      res, halted := FileResult(0, []), false;
      match op {
        case Create(typ) =>
          var inum := Ialloc(typ);
          res := FileResult(inum, []);
        case Write(i, off, src, room) =>
          if i in inodes {
            var r, stop := Writei(i, off, src, room);
            halted := stop;
            res := FileResult(r, []);
          }
        case Read(i, off, n, room) =>
          if i in inodes {
            var r, dst := Readi(i, off, n, room);
            res := FileResult(r, dst);
          }
        case Truncate(i) =>
          if i in inodes {
            Itrunc(i);
          }
        case Delete(i) =>
          if i in inodes {
            Remove(i);
          }
      }
    }

    /** Extents, bitmap and block contents refine plain files: every run of file operations answers
        and changes what the run on plain files does, and no read ever counts a checksum error.
        The run ends early exactly at a write that makes bmap() panic on extent overflow. */
    method Run(ops: seq<FileOp>) returns (rs: seq<FileResult>, halted: bool)
      requires Valid() && forall k :: 0 <= k < |ops| ==> OpOk(ops[k])
      modifies this
      ensures PlainOk(old(P())) && rs == Answers(ninodes, old(P()), ops) && (halted <==> |rs| < |ops|)
      ensures !halted ==> Valid() && P() == Final(ninodes, old(P()), ops) && checksumErrors == old(checksumErrors)
    {
      hide Inv, Sealed, PlainOf, PlainOk, Halts, Next, Answer;
      PlainFits(S());
      rs, halted := [], false;
      var k := 0;
      while k < |ops|
        invariant k == |rs| <= |ops| && Valid() && PlainOk(P()) && checksumErrors == old(checksumErrors)
        invariant rs + Answers(ninodes, P(), ops[k..]) == Answers(ninodes, old(P()), ops)
        invariant Final(ninodes, P(), ops[k..]) == Final(ninodes, old(P()), ops)
      {
        assert ops[k..][1..] == ops[k + 1..];
        ghost var p := P();
        var res, stop := Step(ops[k]);
        if stop {
          return rs, true;
        }
        rs, k := rs + [res], k + 1;
        PlainFits(S());
      }
    }
  }
}
