/** File-system states of kernel/fs.c as values: block bitmap, block contents and inodes, and
    the ownership of blocks by files.  Block numbers below `meta` are the boot block, super
    block, log, inode blocks and bitmap blocks. */
module FsState {
  import opened Adler
  import opened Extents
  import opened Params

  const MAXFILE: nat := 1024

  type Block = Bytes
  datatype FileType = Dir | File | Device
  datatype Inode = Inode(typ: FileType, size: nat, checksum: nat, extents: seq<Extent>)
  type Inodes = map<nat, Inode>

  /** owner[b] == (i, k) when b is the k-th block of inode i. */
  datatype Fs = Fs(meta: nat, used: seq<bool>, data: seq<Block>, inodes: Inodes, owner: map<nat, (nat, nat)>)

  function FileBlocks(inodes: Inodes, i: nat): (r: seq<nat>)
    requires i in inodes
  {
    Blocks(inodes[i].extents)
  }

  // ---------------------------------------------------------------- invariant

  predicate DiskOk(f: Fs) {
    && 0 < f.meta <= |f.used| == |f.data|
    && forall b :: 0 <= b < |f.data| ==> |f.data[b]| == BSIZE
  }

  /** The extents of every file cover its size. */
  ghost predicate InodesOk(inodes: Inodes) {
    forall i :: i in inodes ==> Shape(inodes[i].extents) && inodes[i].size <= |FileBlocks(inodes, i)| * BSIZE
  }

  /** The blocks of all files are pairwise different: owner inverts FileBlocks. */
  ghost predicate OwnOk(inodes: Inodes, owner: map<nat, (nat, nat)>) {
    && (forall i, k :: i in inodes && 0 <= k < |FileBlocks(inodes, i)| ==>
          FileBlocks(inodes, i)[k] in owner && owner[FileBlocks(inodes, i)[k]] == (i, k))
    && (forall b :: b in owner ==>
          owner[b].0 in inodes && owner[b].1 < |FileBlocks(inodes, owner[b].0)|
            && FileBlocks(inodes, owner[b].0)[owner[b].1] == b)
  }

  /** A block is in use exactly if it is metadata or belongs to a file. */
  ghost predicate BitmapOk(f: Fs) {
    && (forall b :: 0 <= b < |f.used| ==> (f.used[b] <==> b < f.meta || b in f.owner))
    && (forall b :: b in f.owner ==> f.meta <= b < |f.used|)
  }

  ghost predicate Inv(f: Fs) { DiskOk(f) && InodesOk(f.inodes) && OwnOk(f.inodes, f.owner) && BitmapOk(f) }

  /** b is the k-th block of inode i. */
  predicate BlockAt(inodes: Inodes, i: nat, k: nat, b: nat) {
    i in inodes && k < |FileBlocks(inodes, i)| && FileBlocks(inodes, i)[k] == b
  }

  /** In terms of the files alone: a block is in use exactly if it is metadata or in the list of
      some file, and then it is in one list only, and once. */
  lemma Ownership(f: Fs, b: nat)
    requires Inv(f) && b < |f.used|
    ensures f.used[b] <==> b < f.meta || exists i, k :: BlockAt(f.inodes, i, k, b)
    ensures b < f.meta ==> forall i, k :: !BlockAt(f.inodes, i, k, b)
    ensures forall i, k, j, l :: BlockAt(f.inodes, i, k, b) && BlockAt(f.inodes, j, l, b) ==> i == j && k == l
  {
    hide FileBlocks, InodesOk;
    if b in f.owner {
      assert BlockAt(f.inodes, f.owner[b].0, f.owner[b].1, b);
    }
  }

  // ---------------------------------------------------------------- contents

  /** Byte k of file i, which may lie beyond its size but not beyond its blocks. */
  ghost predicate Covered(f: Fs, i: nat, k: int) {
    i in f.inodes && 0 <= k < |FileBlocks(f.inodes, i)| * BSIZE
  }

  lemma CoveredIndex(n: nat, k: int)
    requires 0 <= k < n * BSIZE
    ensures 0 <= k / BSIZE < n && 0 <= k % BSIZE < BSIZE
  {
  }

  ghost function ByteOf(f: Fs, i: nat, k: int): Byte
    requires Inv(f) && Covered(f, i, k)
  {
    CoveredIndex(|FileBlocks(f.inodes, i)|, k);
    f.data[FileBlocks(f.inodes, i)[k / BSIZE]][k % BSIZE]
  }

  ghost function Content(f: Fs, i: nat): (r: Bytes)
    requires Inv(f) && i in f.inodes
    ensures |r| == f.inodes[i].size
  {
    seq(f.inodes[i].size, k requires 0 <= k < f.inodes[i].size => ByteOf(f, i, k))
  }

  /** No byte of file j, not even a spare one, differs. */
  ghost predicate SameFile(f: Fs, g: Fs, j: nat)
    requires Inv(f) && Inv(g)
  {
    && (j in f.inodes <==> j in g.inodes)
    && (j in f.inodes ==>
        f.inodes[j] == g.inodes[j] && forall k :: Covered(f, j, k) ==> ByteOf(f, j, k) == ByteOf(g, j, k))
  }

  ghost predicate OthersSame(f: Fs, g: Fs, i: nat)
    requires Inv(f) && Inv(g)
  {
    forall j :: j != i ==> SameFile(f, g, j)
  }

  // ---------------------------------------------------------------- appending a block

  function ZeroBlock(): (r: Block)
    ensures |r| == BSIZE && forall k :: 0 <= k < BSIZE ==> r[k] == 0
  {
    seq(BSIZE, _ => 0)
  }

  function Grown(f: Fs, i: nat, nb: nat, es: seq<Extent>): Fs
    requires i in f.inodes && nb < |f.used| == |f.data|
  {
    f.(used := f.used[nb := true], data := f.data[nb := ZeroBlock()],
       inodes := f.inodes[i := f.inodes[i].(extents := es)],
       owner := f.owner[nb := (i, |FileBlocks(f.inodes, i)|)])
  }

  lemma GrownOwn(f: Fs, i: nat, nb: nat, es: seq<Extent>)
    requires OwnOk(f.inodes, f.owner) && i in f.inodes && nb < |f.used| == |f.data| && nb !in f.owner
    requires Blocks(es) == FileBlocks(f.inodes, i) + [nb]
    ensures OwnOk(Grown(f, i, nb, es).inodes, Grown(f, i, nb, es).owner)
  {
    hide Blocks;
    var g := Grown(f, i, nb, es);
    forall j, k | j in g.inodes && 0 <= k < |FileBlocks(g.inodes, j)|
      ensures FileBlocks(g.inodes, j)[k] in g.owner && g.owner[FileBlocks(g.inodes, j)[k]] == (j, k)
    {
      if j != i {
        assert FileBlocks(g.inodes, j) == FileBlocks(f.inodes, j);
      }
    }
  }

  lemma GrownInv(f: Fs, i: nat, nb: nat, es: seq<Extent>)
    requires Inv(f) && i in f.inodes && nb < |f.used| && !f.used[nb]
    requires Shape(es) && Blocks(es) == FileBlocks(f.inodes, i) + [nb]
    ensures Inv(Grown(f, i, nb, es))
  {
    hide Blocks, Shape;
    var g := Grown(f, i, nb, es);
    GrownOwn(f, i, nb, es);
    forall j | j in g.inodes
      ensures Shape(g.inodes[j].extents) && g.inodes[j].size <= |FileBlocks(g.inodes, j)| * BSIZE
    {
      assert FileBlocks(f.inodes, j) <= FileBlocks(g.inodes, j);
    }
  }

  /** Appending a block moves no existing block of any file and changes no byte. */
  lemma GrownBytes(f: Fs, i: nat, nb: nat, es: seq<Extent>, j: nat, k: int)
    requires Inv(f) && i in f.inodes && nb < |f.used| && !f.used[nb] && Inv(Grown(f, i, nb, es))
    requires Blocks(es) == FileBlocks(f.inodes, i) + [nb] && Covered(f, j, k)
    ensures Covered(Grown(f, i, nb, es), j, k) && ByteOf(Grown(f, i, nb, es), j, k) == ByteOf(f, j, k)
  {
    hide Blocks, InodesOk;
    var g := Grown(f, i, nb, es);
    CoveredIndex(|FileBlocks(f.inodes, j)|, k);
    assert FileBlocks(f.inodes, j) <= FileBlocks(g.inodes, j);
    assert FileBlocks(f.inodes, j)[k / BSIZE] in f.owner;
  }

  lemma GrownOthers(f: Fs, i: nat, nb: nat, es: seq<Extent>)
    requires Inv(f) && i in f.inodes && nb < |f.used| && !f.used[nb] && Inv(Grown(f, i, nb, es))
    requires Blocks(es) == FileBlocks(f.inodes, i) + [nb]
    ensures OthersSame(f, Grown(f, i, nb, es), i)
  {
    hide Blocks, InodesOk, OwnOk, BitmapOk;
    var g := Grown(f, i, nb, es);
    assert forall j :: j in f.inodes && j != i ==> FileBlocks(g.inodes, j) == FileBlocks(f.inodes, j);
    forall j, k | j != i && Covered(f, j, k) ensures ByteOf(f, j, k) == ByteOf(g, j, k) {
      GrownBytes(f, i, nb, es, j, k);
    }
  }

  // ---------------------------------------------------------------- changing bytes in place

  function Patched(bl: Block, off: nat, bytes: Bytes): (r: Block)
    requires |bl| == BSIZE && off + |bytes| <= BSIZE
    ensures |r| == BSIZE
  {
    bl[..off] + bytes + bl[off + |bytes|..]
  }

  /** The content of block bn of file i replaced. */
  function Rewritten(f: Fs, b: nat, bl: Block): Fs
    requires b < |f.data|
  {
    f.(data := f.data[b := bl])
  }

  lemma RewrittenInv(f: Fs, b: nat, bl: Block)
    requires Inv(f) && b < |f.data| && |bl| == BSIZE
    ensures Inv(Rewritten(f, b, bl))
  {
  }

  lemma RewrittenByte(f: Fs, i: nat, bn: nat, bl: Block, j: nat, k: int)
    requires Inv(f) && i in f.inodes && bn < |FileBlocks(f.inodes, i)| && |bl| == BSIZE && Covered(f, j, k)
    ensures FileBlocks(f.inodes, i)[bn] < |f.data|
    ensures var g := Rewritten(f, FileBlocks(f.inodes, i)[bn], bl);
            && Inv(g) && Covered(g, j, k)
            && ByteOf(g, j, k) == (if j == i && k / BSIZE == bn then bl[k % BSIZE] else ByteOf(f, j, k))
  {
    hide Blocks, InodesOk;
    var b := FileBlocks(f.inodes, i)[bn];
    assert b in f.owner && f.owner[b] == (i, bn);
    RewrittenInv(f, b, bl);
    CoveredIndex(|FileBlocks(f.inodes, j)|, k);
    assert FileBlocks(f.inodes, j)[k / BSIZE] in f.owner;
  }

  lemma RewrittenOthers(f: Fs, i: nat, bn: nat, bl: Block)
    requires Inv(f) && i in f.inodes && bn < |FileBlocks(f.inodes, i)| && |bl| == BSIZE
    ensures FileBlocks(f.inodes, i)[bn] < |f.data|
    ensures var g := Rewritten(f, FileBlocks(f.inodes, i)[bn], bl);
            Inv(g) && OthersSame(f, g, i)
  {
    hide Blocks, InodesOk;
    var b := FileBlocks(f.inodes, i)[bn];
    assert b in f.owner;
    RewrittenInv(f, b, bl);
    forall j, k | j != i && Covered(f, j, k) ensures ByteOf(f, j, k) == ByteOf(Rewritten(f, b, bl), j, k) {
      RewrittenByte(f, i, bn, bl, j, k);
    }
  }

  // ---------------------------------------------------------------- size and checksum

  function WithMeta(f: Fs, i: nat, size: nat, checksum: nat): Fs
    requires i in f.inodes
  {
    f.(inodes := f.inodes[i := f.inodes[i].(size := size, checksum := checksum)])
  }

  lemma WithMetaInv(f: Fs, i: nat, size: nat, checksum: nat)
    requires Inv(f) && i in f.inodes && size <= |FileBlocks(f.inodes, i)| * BSIZE
    ensures var g := WithMeta(f, i, size, checksum);
            && Inv(g) && OthersSame(f, g, i)
            && FileBlocks(g.inodes, i) == FileBlocks(f.inodes, i)
            && forall k :: Covered(f, i, k) ==> ByteOf(g, i, k) == ByteOf(f, i, k)
  {
    hide Blocks, Shape;
    var g := WithMeta(f, i, size, checksum);
    assert forall j :: j in f.inodes ==> FileBlocks(g.inodes, j) == FileBlocks(f.inodes, j);
    assert InodesOk(g.inodes) && OwnOk(g.inodes, g.owner) && BitmapOk(g);
  }

  // ---------------------------------------------------------------- freeing

  /** bfree() of the blocks bs: used becomes false on them. */
  function Freed(used: seq<bool>, bs: seq<nat>): (r: seq<bool>)
    ensures |r| == |used|
  {
    seq(|used|, b requires 0 <= b < |used| => used[b] && b !in bs)
  }

  function Truncated(f: Fs, i: nat): Fs
    requires i in f.inodes
  {
    f.(used := Freed(f.used, FileBlocks(f.inodes, i)),
       inodes := f.inodes[i := f.inodes[i].(size := 0, checksum := 1, extents := Empty())],
       owner := map b | b in f.owner && f.owner[b].0 != i :: f.owner[b])
  }

  lemma TruncatedOwn(f: Fs, i: nat)
    requires OwnOk(f.inodes, f.owner) && i in f.inodes
    ensures OwnOk(Truncated(f, i).inodes, Truncated(f, i).owner)
    ensures FileBlocks(Truncated(f, i).inodes, i) == []
  {
    hide Blocks;
    var g := Truncated(f, i);
    EmptyBlocks();
    forall j, k | j in g.inodes && 0 <= k < |FileBlocks(g.inodes, j)|
      ensures FileBlocks(g.inodes, j)[k] in g.owner && g.owner[FileBlocks(g.inodes, j)[k]] == (j, k)
    {
      assert j != i && FileBlocks(g.inodes, j) == FileBlocks(f.inodes, j);
    }
    forall b | b in g.owner
      ensures g.owner[b].0 in g.inodes && g.owner[b].1 < |FileBlocks(g.inodes, g.owner[b].0)|
           && FileBlocks(g.inodes, g.owner[b].0)[g.owner[b].1] == b
    {
      assert FileBlocks(g.inodes, g.owner[b].0) == FileBlocks(f.inodes, g.owner[b].0);
    }
  }

  lemma EmptyBlocks()
    ensures Blocks(Empty()) == [] && Shape(Empty())
  {
    BlocksTail(Empty(), 0);
    assert Empty()[..0] == [];
  }

  lemma TruncatedInv(f: Fs, i: nat)
    requires Inv(f) && i in f.inodes
    ensures Inv(Truncated(f, i))
  {
    hide Blocks, Shape;
    var g := Truncated(f, i);
    EmptyBlocks();
    TruncatedOwn(f, i);
    forall j | j in g.inodes
      ensures Shape(g.inodes[j].extents) && g.inodes[j].size <= |FileBlocks(g.inodes, j)| * BSIZE
    {
      if j != i { assert FileBlocks(g.inodes, j) == FileBlocks(f.inodes, j); }
    }
    forall b | 0 <= b < |g.used| ensures g.used[b] <==> b < g.meta || b in g.owner {
      if b in FileBlocks(f.inodes, i) {
        var k :| 0 <= k < |FileBlocks(f.inodes, i)| && FileBlocks(f.inodes, i)[k] == b;
      }
      assert b in f.owner && f.owner[b].0 == i ==> FileBlocks(f.inodes, i)[f.owner[b].1] == b;
    }
  }

  lemma TruncatedOthers(f: Fs, i: nat)
    requires Inv(f) && i in f.inodes && Inv(Truncated(f, i))
    ensures OthersSame(f, Truncated(f, i), i)
  {
    hide Blocks;
    var g := Truncated(f, i);
    forall j, k | j != i && Covered(f, j, k) ensures ByteOf(f, j, k) == ByteOf(g, j, k) {
      assert FileBlocks(g.inodes, j) == FileBlocks(f.inodes, j);
    }
  }

  // ---------------------------------------------------------------- files that grew

  /** File i only gained zeroed blocks at its end; nothing else changed. */
  ghost predicate Extends(f: Fs, g: Fs, i: nat)
    requires Inv(f) && Inv(g)
  {
    && i in f.inodes && i in g.inodes
    && g.inodes[i] == f.inodes[i].(extents := g.inodes[i].extents)
    && FileBlocks(f.inodes, i) <= FileBlocks(g.inodes, i)
    && OthersSame(f, g, i)
    && (forall k :: Covered(f, i, k) ==> ByteOf(g, i, k) == ByteOf(f, i, k))
    && (forall k :: Covered(g, i, k) && !Covered(f, i, k) ==> ByteOf(g, i, k) == 0)
  }

  lemma ExtendsRefl(f: Fs, i: nat)
    requires Inv(f) && i in f.inodes
    ensures Extends(f, f, i)
  {
    hide Inv, Blocks;
  }

  lemma OthersTrans(f: Fs, g: Fs, h: Fs, i: nat)
    requires Inv(f) && Inv(g) && Inv(h) && OthersSame(f, g, i) && OthersSame(g, h, i)
    ensures OthersSame(f, h, i)
  {
    hide Inv, Blocks;
    forall j | j != i ensures SameFile(f, h, j) {
      assert SameFile(f, g, j) && SameFile(g, h, j);
      if j in f.inodes {
        forall k | Covered(f, j, k) ensures ByteOf(f, j, k) == ByteOf(h, j, k) {
          assert Covered(g, j, k);
        }
      }
    }
  }

  lemma ExtendsTrans(f: Fs, g: Fs, h: Fs, i: nat)
    requires Inv(f) && Inv(g) && Inv(h) && Extends(f, g, i) && Extends(g, h, i)
    ensures Extends(f, h, i)
  {
    hide Inv, Blocks;
    OthersTrans(f, g, h, i);
    forall k | Covered(f, i, k) ensures ByteOf(h, i, k) == ByteOf(f, i, k) {
      assert Covered(g, i, k);
    }
  }

  lemma GrownExtends(f: Fs, i: nat, nb: nat, es: seq<Extent>)
    requires Inv(f) && i in f.inodes && nb < |f.used| && !f.used[nb]
    requires Shape(es) && Blocks(es) == FileBlocks(f.inodes, i) + [nb]
    ensures Inv(Grown(f, i, nb, es)) && Extends(f, Grown(f, i, nb, es), i)
  {
    hide Blocks, InodesOk, OwnOk, BitmapOk, Shape;
    var g := Grown(f, i, nb, es);
    GrownInv(f, i, nb, es);
    GrownOthers(f, i, nb, es);
    forall k | Covered(f, i, k) ensures Covered(g, i, k) && ByteOf(g, i, k) == ByteOf(f, i, k) {
      GrownBytes(f, i, nb, es, i, k);
    }
    forall k | Covered(g, i, k) && !Covered(f, i, k) ensures ByteOf(g, i, k) == 0 {
      assert k / BSIZE == |FileBlocks(f.inodes, i)|;
    }
  }

  // ---------------------------------------------------------------- files written to

  /** bytes were written at off in file i, which may have gained blocks; its inode is
      otherwise as before. */
  ghost predicate Written(f: Fs, g: Fs, i: nat, off: nat, bytes: Bytes)
    requires Inv(f) && Inv(g)
  {
    && i in f.inodes && i in g.inodes
    && g.inodes[i] == f.inodes[i].(extents := g.inodes[i].extents)
    && FileBlocks(f.inodes, i) <= FileBlocks(g.inodes, i)
    && OthersSame(f, g, i)
    && off + |bytes| <= |FileBlocks(g.inodes, i)| * BSIZE
    && (forall k :: Covered(g, i, k) ==> ByteOf(g, i, k) == WrittenByte(f, i, off, bytes, k))
  }

  ghost function WrittenByte(f: Fs, i: nat, off: nat, bytes: Bytes, k: int): Byte
    requires Inv(f)
  {
    if off <= k < off + |bytes| then bytes[k - off] else if Covered(f, i, k) then ByteOf(f, i, k) else 0
  }

  lemma WrittenNone(f: Fs, i: nat, off: nat)
    requires Inv(f) && i in f.inodes && off <= f.inodes[i].size
    ensures Written(f, f, i, off, [])
  {
    hide Blocks, OwnOk, BitmapOk;
    assert f.inodes[i] == f.inodes[i].(extents := f.inodes[i].extents);
  }

  lemma WrittenExtend(f: Fs, g: Fs, h: Fs, i: nat, off: nat, bytes: Bytes)
    requires Inv(f) && Inv(g) && Inv(h) && Written(f, g, i, off, bytes) && Extends(g, h, i)
    ensures Written(f, h, i, off, bytes)
  {
    hide Inv, Blocks;
    OthersTrans(f, g, h, i);
    forall k | Covered(h, i, k) ensures ByteOf(h, i, k) == WrittenByte(f, i, off, bytes, k) {
      assert Covered(f, i, k) ==> Covered(g, i, k);
    }
  }

  lemma WrittenPatch(f: Fs, g: Fs, i: nat, off: nat, bytes: Bytes, piece: Bytes)
    requires Inv(f) && Inv(g) && Written(f, g, i, off, bytes)
    requires var p := off + |bytes|;
             p / BSIZE < |FileBlocks(g.inodes, i)| && p % BSIZE + |piece| <= BSIZE
    ensures var p := off + |bytes|;
            var b := FileBlocks(g.inodes, i)[p / BSIZE];
            && b < |g.data| && |g.data[b]| == BSIZE
            && var h := Rewritten(g, b, Patched(g.data[b], p % BSIZE, piece));
            Inv(h) && Written(f, h, i, off, bytes + piece)
  {
    hide Blocks, InodesOk, BitmapOk, OwnOk;
    var p := off + |bytes|;
    var bn := p / BSIZE;
    var b := FileBlocks(g.inodes, i)[bn];
    BlockInRange(g, i, bn);
    var bl := Patched(g.data[b], p % BSIZE, piece);
    var h := Rewritten(g, b, bl);
    RewrittenOthers(g, i, bn, bl);
    OthersTrans(f, g, h, i);
    forall k | Covered(h, i, k) ensures ByteOf(h, i, k) == WrittenByte(f, i, off, bytes + piece, k) {
      RewrittenByte(g, i, bn, bl, i, k);
      assert Covered(g, i, k);
      PatchedByte(g, i, bn, p, piece, k);
    }
  }

  lemma BlockInRange(f: Fs, i: nat, bn: nat)
    requires Inv(f) && i in f.inodes && bn < |FileBlocks(f.inodes, i)|
    ensures FileBlocks(f.inodes, i)[bn] < |f.data| && |f.data[FileBlocks(f.inodes, i)[bn]]| == BSIZE
  {
    hide Blocks, InodesOk;
    assert FileBlocks(f.inodes, i)[bn] in f.owner;
  }

  lemma PatchedByte(g: Fs, i: nat, bn: nat, p: nat, piece: Bytes, k: int)
    requires Inv(g) && i in g.inodes && bn < |FileBlocks(g.inodes, i)| && p / BSIZE == bn
    requires p % BSIZE + |piece| <= BSIZE
    requires Covered(g, i, k)
    ensures var b := FileBlocks(g.inodes, i)[bn];
            && b < |g.data| && |g.data[b]| == BSIZE
            && (k / BSIZE == bn ==> Patched(g.data[b], p % BSIZE, piece)[k % BSIZE]
                                    == if p <= k < p + |piece| then piece[k - p] else ByteOf(g, i, k))
            && (k / BSIZE != bn ==> !(p <= k < p + |piece|))
  {
    hide Blocks, InodesOk, BitmapOk, OwnOk;
    BlockInRange(g, i, bn);
  }

  /** The file after a write of bytes at off and the update of its size. */
  lemma WrittenContent(f: Fs, g: Fs, h: Fs, i: nat, off: nat, bytes: Bytes, checksum: nat)
    requires i in f.inodes && i in g.inodes && i in h.inodes && off <= f.inodes[i].size
    requires h == WithMeta(g, i, if off + |bytes| > f.inodes[i].size then off + |bytes| else f.inodes[i].size, checksum)
    requires Inv(f) && Inv(g) && Written(f, g, i, off, bytes)
    ensures Inv(h) && OthersSame(f, h, i)
    ensures Content(h, i) == Spliced(Content(f, i), off, bytes)
  {
    hide Inv, Blocks, Spliced, OthersSame, Content, ByteOf, WrittenByte;
    var size := if off + |bytes| > f.inodes[i].size then off + |bytes| else f.inodes[i].size;
    SizeFits(f, i);
    WithMetaInv(g, i, size, checksum);
    OthersTrans(f, g, h, i);
    var c := Spliced(Content(f, i), off, bytes);
    forall k | 0 <= k < size ensures Covered(h, i, k) && ByteOf(h, i, k) == c[k] {
      assert Covered(g, i, k);
      SplicedByte(f, i, off, bytes, k);
    }
    ContentIs(h, i, c);
  }

  lemma SplicedByte(f: Fs, i: nat, off: nat, bytes: Bytes, k: nat)
    requires Inv(f) && i in f.inodes && off <= f.inodes[i].size
    requires k < off + |bytes| || k < f.inodes[i].size
    ensures Spliced(Content(f, i), off, bytes)[k] == WrittenByte(f, i, off, bytes, k)
  {
    hide Inv, Spliced, Blocks;
    SizeFits(f, i);
    SplicedAt(Content(f, i), off, bytes, k);
  }

  lemma ContentIs(f: Fs, i: nat, c: Bytes)
    requires Inv(f) && i in f.inodes && |c| == f.inodes[i].size
    requires forall k :: 0 <= k < |c| ==> Covered(f, i, k) && ByteOf(f, i, k) == c[k]
    ensures Content(f, i) == c
  {
    hide Inv, Blocks, ByteOf;
  }

  lemma SplicedAt(c: Bytes, off: nat, bytes: Bytes, k: nat)
    requires off <= |c| && k < |Spliced(c, off, bytes)|
    ensures !(off <= k < off + |bytes|) ==> k < |c|
    ensures Spliced(c, off, bytes)[k] == if off <= k < off + |bytes| then bytes[k - off] else c[k]
  {
  }

  lemma SizeFits(f: Fs, i: nat)
    requires Inv(f) && i in f.inodes
    ensures f.inodes[i].size <= |FileBlocks(f.inodes, i)| * BSIZE
  {
  }

  /** A byte sequence with bytes put at off, replacing what was there and growing if needed. */
  function Spliced(c: Bytes, off: nat, bytes: Bytes): (r: Bytes)
    requires off <= |c|
    ensures |r| == if off + |bytes| > |c| then off + |bytes| else |c|
  {
    c[..off] + bytes + (if off + |bytes| < |c| then c[off + |bytes|..] else [])
  }

  // ---------------------------------------------------------------- reading

  /** Part of one block is part of the content. */
  lemma ContentPiece(f: Fs, i: nat, off: nat, m: nat)
    requires Inv(f) && i in f.inodes && off + m <= f.inodes[i].size && 0 < m && off % BSIZE + m <= BSIZE
    ensures off / BSIZE < |FileBlocks(f.inodes, i)|
    ensures var b := FileBlocks(f.inodes, i)[off / BSIZE];
            && b < |f.data| && |f.data[b]| == BSIZE
            && f.data[b][off % BSIZE..off % BSIZE + m] == Content(f, i)[off..off + m]
  {
    hide Blocks, OwnOk, BitmapOk;
    SizeFits(f, i);
    BlockInRange(f, i, off / BSIZE);
    var b := FileBlocks(f.inodes, i)[off / BSIZE];
    forall k | off <= k < off + m ensures Content(f, i)[k] == f.data[b][k - off + off % BSIZE] {
      assert k / BSIZE == off / BSIZE && k % BSIZE == k - off + off % BSIZE;
    }
  }

  /** Every file and directory carries the checksum of its content. */
  ghost predicate Sealed(f: Fs)
    requires Inv(f)
  {
    forall i :: i in f.inodes && !f.inodes[i].typ.Device? ==> f.inodes[i].checksum == Checksum(Content(f, i))
  }

  lemma SealedKeep(f: Fs, g: Fs, i: nat)
    requires Inv(f) && Inv(g) && Sealed(f) && OthersSame(f, g, i)
    requires i in g.inodes && !g.inodes[i].typ.Device? ==> g.inodes[i].checksum == Checksum(Content(g, i))
    ensures Sealed(g)
  {
    hide Inv, Blocks;
    forall j | j in g.inodes && !g.inodes[j].typ.Device? ensures g.inodes[j].checksum == Checksum(Content(g, j)) {
      if j != i {
        assert SameFile(f, g, j);
        SameContent(f, g, j);
      }
    }
  }

  lemma SameContent(f: Fs, g: Fs, j: nat)
    requires Inv(f) && Inv(g) && SameFile(f, g, j) && j in f.inodes
    ensures Content(f, j) == Content(g, j)
  {
    hide Inv, Blocks;
    SizeFits(f, j);
    SizeFits(g, j);
  }
}
