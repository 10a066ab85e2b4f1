/** A run of the file system that ends in panic("bmap: extent overflow") with free blocks left. */
module FsOverflow {
  import opened Adler
  import opened Extents
  import opened FsState
  import opened Placement
  import opened PlainFiles
  import opened Filesystem
  import opened Params

  function NewFile(): FileView { FileView(File, [], Empty()) }

  lemma NewFileOk(start: nat)
    ensures FileOk(NewFile()) && Blocks(Empty()) == [] && Empty() == Singles(start, 0)
  {
    EmptyBlocks();
  }

  lemma SinglesBlocks(start: nat, j: nat)
    requires j <= NEXTENT
    ensures |Blocks(Singles(start, j))| == j
  {
    hide Blocks, Singles, Gets, After, Prefix;
    NewFileOk(start);
    SinglesAfter(start + j, start, 0, j);
    AfterBlocks(Alloc(Prefix(start + j, start), Singles(start, 0)), j);
  }

  /** A first write of n blocks to a file, on a disk filled from the start. */
  lemma FirstWrite(p: Plain, i: nat, size: nat, start: nat, src: Bytes, n: nat)
    requires PlainOk(p) && i in p.files && p.files[i] == NewFile() && p.used == Prefix(size, start)
    requires 0 < n <= NEXTENT && start + n <= size && (n - 1) * BSIZE < |src| <= n * BSIZE
    ensures !Halts(p, Write(i, 0, src, n)) && Next(3, p, Write(i, 0, src, n)) == Wrote(p, i, 0, src, n)
    ensures Wrote(p, i, 0, src, n)
            == Plain(Prefix(size, start + n), p.files[i := FileView(File, src, Singles(start, n))])
  {
    hide Gets, Overflows, After, Blocks, Singles, Prefix, Pieces, Spanned;
    NewFileOk(start);
    SinglesAfter(size, start, 0, n);
    WantedFirst(|src|, n);
    assert src[..|src|] == src && Spliced([], 0, src) == src;
  }

  lemma WantedFirst(len: nat, n: nat)
    requires 0 < n <= NEXTENT && (n - 1) * BSIZE < len <= n * BSIZE
    ensures Wanted(0, 0, len, n) == n && !Rejected(0, 0, len) && Pieces(0, n) >= len
  {
  }

  /** One byte more behind fourteen full blocks. */
  lemma OneMore(p: Plain, i: nat, size: nat, start: nat, b: Byte)
    requires PlainOk(p) && i in p.files && p.files[i].es == Singles(start, NEXTENT)
    requires |p.files[i].bytes| == NEXTENT * BSIZE && start + NEXTENT < size
    requires p.used == Prefix(size, start + NEXTENT + 1)
    ensures Halts(p, Write(i, NEXTENT * BSIZE, [b], 1)) <==> start + NEXTENT + 1 < size
  {
    hide Breaks, Overflows, Blocks, Singles, Prefix;
    SinglesBlocks(start, NEXTENT);
    SinglesEnd(size, start);
    assert Wanted(NEXTENT, NEXTENT * BSIZE, 1, 1) == 1;
  }

  function Ops(src: Bytes, b: Byte): seq<FileOp> {
    [Create(File), Create(File), Write(1, 0, src, NEXTENT), Write(2, 0, [b], 1), Write(1, NEXTENT * BSIZE, [b], 1)]
  }

  lemma OneStep(n: nat, p: Plain, op: FileOp, rest: seq<FileOp>)
    requires PlainOk(p)
    ensures |Answers(n, p, [op] + rest)| == if Halts(p, op) then 0 else 1 + |Answers(n, Next(n, p, op), rest)|
  {
    hide Halts, Next, Answer, PlainOk;
    assert ([op] + rest)[1..] == rest;
  }

  lemma NoHalt(p: Plain)
    requires PlainOk(p)
    ensures !Halts(p, Create(File))
  {
  }

  lemma Creates(used: seq<bool>)
    ensures var p := Plain(used, map[]);
            && PlainOk(p) && Next(3, p, Create(File)) == Plain(used, map[1 := NewFile()])
            && PlainOk(Plain(used, map[1 := NewFile()]))
            && Next(3, Plain(used, map[1 := NewFile()]), Create(File))
               == Plain(used, map[1 := NewFile(), 2 := NewFile()])
            && PlainOk(Plain(used, map[1 := NewFile(), 2 := NewFile()]))
  {
    NewFileOk(0);
    FirstFreeIs({}, 3, 1);
    FirstFreeIs({1}, 3, 2);
    var p, q := Plain(used, map[]), Plain(used, map[1 := NewFile()]);
    assert p.files.Keys == {} && q.files.Keys == {1};
  }

  /** The run on plain files. */
  lemma TwoFilesRun(meta: nat, size: nat, src: Bytes, b: Byte)
    requires meta + NEXTENT < size && |src| == NEXTENT * BSIZE
    ensures PlainOk(Plain(Prefix(size, meta), map[]))
    ensures |Answers(3, Plain(Prefix(size, meta), map[]), Ops(src, b))| < 5 <==> meta + NEXTENT + 1 < size
  {
    hide Answers, Singles, Prefix, PlainOk, NewFile, Halts, Next, Wrote;
    var used, ops := Prefix(size, meta), Ops(src, b);
    var p0, p1 := Plain(used, map[]), Plain(used, map[1 := NewFile()]);
    var p2 := Plain(used, map[1 := NewFile(), 2 := NewFile()]);
    Creates(used);
    NoHalt(p0);
    NoHalt(p1);
    FirstWrite(p2, 1, size, meta, src, NEXTENT);
    var p3 := Wrote(p2, 1, 0, src, NEXTENT);
    FirstWrite(p3, 2, size, meta + NEXTENT, [b], 1);
    var p4 := Wrote(p3, 2, 0, [b], 1);
    OneMore(p4, 1, size, meta, b);
    Steps5(p0, p1, p2, p3, p4, ops);
  }

  lemma Steps5(p0: Plain, p1: Plain, p2: Plain, p3: Plain, p4: Plain, ops: seq<FileOp>)
    requires PlainOk(p0) && PlainOk(p1) && PlainOk(p2) && PlainOk(p3) && PlainOk(p4) && |ops| == 5
    requires !Halts(p0, ops[0]) && !Halts(p1, ops[1]) && !Halts(p2, ops[2]) && !Halts(p3, ops[3])
    requires Next(3, p0, ops[0]) == p1 && Next(3, p1, ops[1]) == p2 && Next(3, p2, ops[2]) == p3
    requires Next(3, p3, ops[3]) == p4
    ensures |Answers(3, p0, ops)| < 5 <==> Halts(p4, ops[4])
  {
    hide Halts, Next, Answers, PlainOk;
    assert ops == [ops[0]] + ops[1..] && ops[1..] == [ops[1]] + ops[2..] && ops[2..] == [ops[2]] + ops[3..];
    assert ops[3..] == [ops[3]] + ops[4..] && ops[4..] == [ops[4]] + [];
    OneStep(3, p0, ops[0], ops[1..]);
    OneStep(3, p1, ops[1], ops[2..]);
    OneStep(3, p2, ops[2], ops[3..]);
    OneStep(3, p3, ops[3], ops[4..]);
    OneStep(3, p4, ops[4], []);
    StopsAt(3, p0, ops);
    if !Halts(p4, ops[4]) {
      StopsAt(3, Next(3, p4, ops[4]), []);
    }
  }

  /** From a formatted disk: two files, fourteen blocks for the first, one for the second, and then
      one more byte for the first.  Its fourteen extents are taken and the block behind the last
      belongs to the other file, so that bmap() panics exactly if there is a block left. */
  method TwoFiles(meta: nat, size: nat, src: Bytes, b: Byte) returns (panicked: bool)
    requires 0 < meta && meta + NEXTENT < size && |src| == NEXTENT * BSIZE
    ensures panicked <==> meta + NEXTENT + 1 < size
  {
    hide Inv, Sealed, Answers, Final, PlainOf, PlainOk, Prefix;
    var fs := new FileSys(meta, size, 3);
    TwoFilesRun(meta, size, src, b);
    var rs;
    rs, panicked := fs.Run(Ops(src, b));
  }
}
