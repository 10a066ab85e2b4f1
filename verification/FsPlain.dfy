/** Files as plain byte sequences: what the operations of kernel/fs.c and filewrite() of
    kernel/file.c come to.  Beside the bytes only what decides which blocks a file can get is
    kept, the bitmap and the extents. */
module PlainFiles {
  import opened Adler
  import opened Extents
  import opened FsState
  import opened Placement
  import opened Params

  const U32: nat := 0x1_0000_0000
  const CHUNK: nat := ((MAXOPBLOCKS - 1 - 1 - 2) / 2) * BSIZE // filewrite() writes this much at a time

  function Clip(x: nat, y: nat): nat { if x < y then x else y }

  lemma GetsStart(a: Alloc)
    requires Shape(a.es)
    ensures Gets(a, 0) == 0 && After(a, 0) == a
  {
  }

  // ---------------------------------------------------------------- a write in pieces

  /** The arguments writei() turns away. */
  predicate Rejected(size: nat, off: nat, n: nat) {
    off > size || off + n >= U32 || off + n > MAXFILE * BSIZE
  }

  /** The number of blocks that n bytes at off touch. */
  function Spanned(off: nat, n: nat): nat {
    if n == 0 then 0 else (off + n - 1) / BSIZE - off / BSIZE + 1
  }

  /** The bytes in the first c pieces of a write at off. */
  function Pieces(off: nat, c: nat): nat { if c == 0 then 0 else c * BSIZE - off % BSIZE }

  /** How many blocks a write wants to add to a file that has `had`: writei() maps a block for
      each piece, including the one whose copy fails. */
  function Wanted(had: nat, off: nat, n: nat, room: nat): nat {
    var last := off / BSIZE + Clip(Spanned(off, n), room + 1);
    if last > had then last - had else 0
  }

  /** How many of n bytes get written: as many as the copies and the blocks the file gets allow. */
  function Reach(a: Alloc, had: nat, off: nat, n: nat, room: nat): nat
    requires Shape(a.es) && off <= had * BSIZE
  {
    Clip(Clip(n, Pieces(off, room)), (had + Gets(a, Wanted(had, off, n, room))) * BSIZE - off)
  }

  /** Before the next piece of a write: the file has exactly the blocks of the pieces so far. */
  ghost predicate InLoop(a: Alloc, had: nat, off: nat, n: nat, tot: nat, pieces: nat, now: nat) {
    && Shape(a.es) && off <= had * BSIZE && had <= now && Gets(a, now - had) == now - had
    && now == (if off / BSIZE + pieces > had then off / BSIZE + pieces else had)
    && (tot == Pieces(off, pieces) || tot == n <= Pieces(off, pieces)) && pieces <= Spanned(off, n)
  }

  lemma LoopStart(had: nat, off: nat)
    requires off <= had * BSIZE
    ensures off / BSIZE <= had && Pieces(off, 0) == 0
  {
  }

  /** The next piece starts in block off / BSIZE + pieces. */
  lemma PieceAt(off: nat, n: nat, tot: nat, pieces: nat, m: nat)
    requires tot == Pieces(off, pieces) && tot < n && m == Clip(n - tot, BSIZE - (off + tot) % BSIZE)
    ensures (off + tot) / BSIZE == off / BSIZE + pieces
    ensures tot + m == Pieces(off, pieces + 1) || tot + m == n <= Pieces(off, pieces + 1)
    ensures pieces > 0 ==> tot == (off / BSIZE + pieces) * BSIZE - off
    ensures pieces == 0 ==> tot == 0
  {
    if pieces > 0 {
      assert off + tot == (off / BSIZE + pieces) * BSIZE;
    }
  }

  lemma PieceStart(off: nat, c: nat)
    ensures c == 0 || (off + Pieces(off, c)) % BSIZE == 0
    ensures c == 0 ==> Pieces(off, c) == 0
  {
    PiecesMore(off, c, c);
  }

  lemma PiecesMore(off: nat, c: nat, d: nat)
    requires c <= d
    ensures Pieces(off, c) <= Pieces(off, d)
    ensures d > 0 ==> Pieces(off, d) == (off / BSIZE + d) * BSIZE - off
  {
  }

  /** A write that wants more blocks than it can get stops before the first it cannot get. */
  lemma StopShort(a: Alloc, had: nat, off: nat, n: nat, room: nat, tot: nat, pieces: nat, now: nat)
    requires InLoop(a, had, off, n, tot, pieces, now) && tot < n && pieces < Spanned(off, n) && pieces <= room
    requires now == off / BSIZE + pieces && Gets(a, Wanted(had, off, n, room)) == now - had
    ensures tot == Reach(a, had, off, n, room)
  {
    hide Gets, Spanned;
    PiecesMore(off, pieces, room);
    PieceAt(off, n, tot, pieces, Clip(n - tot, BSIZE - (off + tot) % BSIZE));
  }

  /** A write that gets its blocks stops where the copies do. */
  lemma StopCopy(a: Alloc, had: nat, off: nat, n: nat, room: nat, tot: nat, now: nat)
    requires Shape(a.es) && off <= had * BSIZE && had <= now && tot < n && tot == Pieces(off, room)
    requires room < Spanned(off, n)
    requires now == (if off / BSIZE + room + 1 > had then off / BSIZE + room + 1 else had)
    requires Gets(a, now - had) == now - had
    ensures !Breaks(a, Wanted(had, off, n, room)) && tot == Reach(a, had, off, n, room)
    ensures Wanted(had, off, n, room) == now - had
  {
    hide Gets, Spanned, Overflows, After;
    PiecesMore(off, room, room + 1);
  }

  lemma LoopStep(a: Alloc, had: nat, off: nat, n: nat, room: nat, tot: nat, pieces: nat, now: nat, m: nat)
    requires InLoop(a, had, off, n, tot, pieces, now) && tot < n && pieces < Spanned(off, n) && pieces <= room
    requires m == Clip(n - tot, BSIZE - (off + tot) % BSIZE)
    ensures var c, k := After(a, now - had), if (off + tot) / BSIZE < now then 0 else 1;
            && (Breaks(c, k) ==> Breaks(a, Wanted(had, off, n, room)))
            && (!Breaks(c, k) && Gets(c, k) < k ==>
                !Breaks(a, Wanted(had, off, n, room)) && tot == Reach(a, had, off, n, room))
            && (!Breaks(c, k) && Gets(c, k) < k ==> Gets(a, Wanted(had, off, n, room)) == now - had && Gets(c, k) == 0)
            && (!Breaks(c, k) && Gets(c, k) < k ==> After(a, Wanted(had, off, n, room)) == c == After(c, k))
            && (Gets(c, k) == k && pieces == room ==>
                && !Breaks(a, Wanted(had, off, n, room))
                && tot == Reach(a, had, off, n, room) && Wanted(had, off, n, room) == now + k - had)
            && (Gets(c, k) == k ==>
                InLoop(a, had, off, n, tot + m, pieces + 1, now + k) && After(c, k) == After(a, now + k - had))
  {
    hide Spanned, Overflows, Full, Pieces, Reach, Placed;
    var c, k := After(a, now - had), if (off + tot) / BSIZE < now then 0 else 1;
    PieceAt(off, n, tot, pieces, m);
    GetsStart(c);
    GetsMore(a, now - had, k);
    if k == 1 {
      assert now - had < Wanted(had, off, n, room);
      GrowStep(a, now - had, Wanted(had, off, n, room));
      if Full(c.used) || Overflows(c) {
        GetsNone(c, 1);
        StopShort(a, had, off, n, room, tot, pieces, now);
      } else {
        GetsOne(c);
      }
    }
    if Gets(c, k) == k && pieces == room {
      StopCopy(a, had, off, n, room, tot, now + k);
    }
  }

  lemma LoopEnd(a: Alloc, had: nat, off: nat, n: nat, room: nat, pieces: nat, now: nat)
    requires InLoop(a, had, off, n, n, pieces, now) && pieces <= room && pieces == Spanned(off, n)
    ensures !Breaks(a, Wanted(had, off, n, room)) && n == Reach(a, had, off, n, room)
    ensures Wanted(had, off, n, room) == now - had
  {
    hide Gets, Overflows, After;
    PiecesMore(off, pieces, room);
    LoopStart(had, off);
  }

  lemma SpannedNone(off: nat, n: nat)
    ensures Spanned(off, 0) == 0 <= Spanned(off, n)
  {
  }

  lemma SpannedStep(off: nat, tot: nat, m: nat, n: nat)
    requires 0 < m <= BSIZE - (off + tot) % BSIZE && tot + m <= n
    requires tot == 0 || (off + tot) % BSIZE == 0
    ensures Spanned(off, tot + m) == Spanned(off, tot) + 1 <= Spanned(off, n)
  {
  }

  /** A chunk of filewrite() at any offset touches at most four blocks. */
  lemma ChunkSpan(off: nat, n: nat)
    requires n <= 3 * BSIZE
    ensures Spanned(off, n) <= 4
  {
  }

  lemma TakeMore<T>(s: seq<T>, a: nat, b: nat)
    requires a <= b <= |s|
    ensures s[..a] + s[a..b] == s[..b]
  {
  }

  // ---------------------------------------------------------------- the plain file system

  datatype FileView = FileView(typ: FileType, bytes: Bytes, es: seq<Extent>)

  datatype Plain = Plain(used: seq<bool>, files: map<nat, FileView>)

  datatype FileOp =
    | Create(typ: FileType)
    | Write(i: nat, off: nat, src: Bytes, room: nat)
    | Read(i: nat, off: nat, n: nat, room: nat)
    | Truncate(i: nat)
    | Delete(i: nat)

  datatype FileResult = FileResult(r: int, bytes: Bytes)

  /** Offsets and counts are 32-bit. */
  predicate OpOk(op: FileOp) {
    match op
    case Write(_, off, src, _) => off < U32 && |src| < U32
    case Read(_, off, n, _) => off < U32 && n < U32
    case _ => true
  }

  /** The extents cover the bytes. */
  predicate FileOk(v: FileView) { Shape(v.es) && |v.bytes| <= |Blocks(v.es)| * BSIZE }

  ghost predicate PlainOk(p: Plain) { forall i :: i in p.files ==> FileOk(p.files[i]) }

  /** The write makes bmap() panic: it is accepted and comes, among the blocks it wants, to one
      that fits in no extent. */
  predicate Breaking(used: seq<bool>, v: FileView, off: nat, src: Bytes, room: nat)
    requires FileOk(v)
  {
    !Rejected(|v.bytes|, off, |src|) && Breaks(Alloc(used, v.es), Wanted(|Blocks(v.es)|, off, |src|, room))
  }

  /** What a write that does not panic returns. */
  function WriteCount(used: seq<bool>, v: FileView, off: nat, src: Bytes, room: nat): (r: int)
    requires FileOk(v)
    ensures r <= |src| && (r == -1 || (0 <= r && off + |src| < U32))
  {
    if Rejected(|v.bytes|, off, |src|) then -1
    else Reach(Alloc(used, v.es), |Blocks(v.es)|, off, |src|, room)
  }

  /** The bitmap and the extents it leaves: those of the blocks that could be placed. */
  function Placing(used: seq<bool>, v: FileView, off: nat, n: nat, room: nat): (r: Alloc)
    requires FileOk(v)
    ensures Shape(r.es)
  {
    if Rejected(|v.bytes|, off, n) then Alloc(used, v.es)
    else After(Alloc(used, v.es), Wanted(|Blocks(v.es)|, off, n, room))
  }

  /** The bytes it leaves. */
  function NewBytes(used: seq<bool>, v: FileView, off: nat, src: Bytes, room: nat): Bytes
    requires FileOk(v)
  {
    if Rejected(|v.bytes|, off, |src|) then v.bytes
    else Spliced(v.bytes, off, src[..WriteCount(used, v, off, src, room)])
  }

  function Wrote(p: Plain, i: nat, off: nat, src: Bytes, room: nat): (r: Plain)
    requires PlainOk(p) && i in p.files
    ensures PlainOk(r) && r.files.Keys == p.files.Keys
  {
    var v := p.files[i];
    var a := Placing(p.used, v, off, |src|, room);
    WroteOk(p.used, v, off, src, room);
    Plain(a.used, p.files[i := FileView(v.typ, NewBytes(p.used, v, off, src, room), a.es)])
  }

  lemma WroteOk(used: seq<bool>, v: FileView, off: nat, src: Bytes, room: nat)
    requires FileOk(v)
    ensures FileOk(FileView(v.typ, NewBytes(used, v, off, src, room), Placing(used, v, off, |src|, room).es))
  {
    hide Gets, After, Wanted, Blocks;
    if !Rejected(|v.bytes|, off, |src|) {
      AfterBlocks(Alloc(used, v.es), Wanted(|Blocks(v.es)|, off, |src|, room));
    }
  }

  /** The lowest number from i on that is below n and not taken, or 0. */
  function FirstFree(taken: set<nat>, i: nat, n: nat): (r: nat)
    requires 0 < i
    ensures r == 0 ==> forall j :: i <= j < n ==> j in taken
    ensures r != 0 ==> i <= r < n && r !in taken && forall j :: i <= j < r ==> j in taken
    decreases n - i
  {
    if i >= n then 0 else if i !in taken then i else FirstFree(taken, i + 1, n)
  }

  lemma FirstFreeIs(taken: set<nat>, n: nat, r: nat)
    requires if r == 0 then forall j :: 1 <= j < n ==> j in taken
             else r < n && r !in taken && forall j :: 1 <= j < r ==> j in taken
    ensures FirstFree(taken, 1, n) == r
  {
    var f := FirstFree(taken, 1, n);
    assert f != 0 ==> f !in taken;
  }

  /** What readi() copies out, and what it returns. */
  function ReadResult(v: FileView, off: nat, n: nat, room: nat): FileResult {
    if off > |v.bytes| || off + n >= U32 then FileResult(0, [])
    else
      var len := Clip(off + n, |v.bytes|) - off;
      FileResult(if room < Spanned(off, len) then -1 else len, v.bytes[off..off + Clip(len, Pieces(off, room))])
  }

  /** The operation makes bmap() panic. */
  predicate Halts(p: Plain, op: FileOp)
    requires PlainOk(p)
  {
    op.Write? && op.i in p.files && Breaking(p.used, p.files[op.i], op.off, op.src, op.room)
  }

  /** One operation that does not, where the numbers below ninodes can be given to files. */
  function Next(ninodes: nat, p: Plain, op: FileOp): (r: Plain)
    requires PlainOk(p)
    ensures PlainOk(r)
  {
    match op
    case Create(typ) =>
      var i := FirstFree(p.files.Keys, 1, ninodes);
      EmptyBlocks();
      if i == 0 then p else p.(files := p.files[i := FileView(typ, [], Empty())])
    case Write(i, off, src, room) => if i in p.files then Wrote(p, i, off, src, room) else p
    case Read(_, _, _, _) => p
    case Truncate(i) =>
      EmptyBlocks();
      if i !in p.files then p
      else Plain(Freed(p.used, Blocks(p.files[i].es)), p.files[i := FileView(p.files[i].typ, [], Empty())])
    case Delete(i) =>
      if i !in p.files then p else Plain(Freed(p.used, Blocks(p.files[i].es)), p.files - {i})
  }

  /** What it returns. */
  function Answer(ninodes: nat, p: Plain, op: FileOp): FileResult
    requires PlainOk(p)
  {
    match op
    case Create(typ) => FileResult(FirstFree(p.files.Keys, 1, ninodes), [])
    case Write(i, off, src, room) =>
      FileResult(if i in p.files then WriteCount(p.used, p.files[i], off, src, room) else 0, [])
    case Read(i, off, n, room) => if i in p.files then ReadResult(p.files[i], off, n, room) else FileResult(0, [])
    case _ => FileResult(0, [])
  }

  function Final(ninodes: nat, p: Plain, ops: seq<FileOp>): (r: Plain)
    requires PlainOk(p)
    ensures PlainOk(r)
    decreases |ops|
  {
    if ops == [] || Halts(p, ops[0]) then p else Final(ninodes, Next(ninodes, p, ops[0]), ops[1..])
  }

  function Answers(ninodes: nat, p: Plain, ops: seq<FileOp>): seq<FileResult>
    requires PlainOk(p)
    decreases |ops|
  {
    if ops == [] || Halts(p, ops[0]) then []
    else [Answer(ninodes, p, ops[0])] + Answers(ninodes, Next(ninodes, p, ops[0]), ops[1..])
  }

  /** A run falls short only at a write that makes bmap() panic. */
  lemma {:induction false} StopsAt(ninodes: nat, p: Plain, ops: seq<FileOp>)
    requires PlainOk(p)
    ensures |Answers(ninodes, p, ops)| <= |ops|
    ensures |Answers(ninodes, p, ops)| < |ops| ==> Halts(Final(ninodes, p, ops), ops[|Answers(ninodes, p, ops)|])
    decreases |ops|
  {
    hide Halts, Next, Answer, PlainOk;
    if ops != [] && !Halts(p, ops[0]) {
      StopsAt(ninodes, Next(ninodes, p, ops[0]), ops[1..]);
    }
  }

  // ---------------------------------------------------------------- filewrite()

  datatype Outcome = Outcome(p: Plain, done: nat, panicked: bool)

  /** filewrite() from byte `done` on, one chunk after another; rooms(k) copies succeed in chunk
      k.  It ends with the first chunk that panics or is not written in full. */
  function Chunks(p: Plain, i: nat, off: nat, src: Bytes, rooms: nat -> nat, done: nat, k: nat): (r: Outcome)
    requires PlainOk(p) && i in p.files && done <= |src|
    ensures PlainOk(r.p) && i in r.p.files && done <= r.done <= |src|
    decreases |src| - done
  {
    if done == |src| then Outcome(p, done, false)
    else
      var n, v := Clip(|src| - done, CHUNK), p.files[i];
      var piece := src[done..done + n];
      var q, c := Wrote(p, i, off + done, piece, rooms(k)), WriteCount(p.used, v, off + done, piece, rooms(k));
      if Breaking(p.used, v, off + done, piece, rooms(k)) then Outcome(p, done, true)
      else if c != n then Outcome(q, if c == -1 then done else done + c, false)
      else Chunks(q, i, off, src, rooms, done + n, k + 1)
  }

  lemma ChunksStep(p: Plain, i: nat, off: nat, src: Bytes, rooms: nat -> nat, done: nat, k: nat)
    requires PlainOk(p) && i in p.files && done < |src|
    ensures var n, v := Clip(|src| - done, CHUNK), p.files[i];
            var piece, o := src[done..done + n], Chunks(p, i, off, src, rooms, done, k);
            && FileOk(v)
            && var q, c := Wrote(p, i, off + done, piece, rooms(k)), WriteCount(p.used, v, off + done, piece, rooms(k));
               if Breaking(p.used, v, off + done, piece, rooms(k)) then o == Outcome(p, done, true)
               else if c != n then o == Outcome(q, if c == -1 then done else done + c, false)
               else PlainOk(q) && i in q.files && o == Chunks(q, i, off, src, rooms, done + n, k + 1)
  {
    hide FileOk, Wrote, WriteCount, Breaking;
    FileAt(p, i);
  }

  lemma ChunksEnd(p: Plain, i: nat, off: nat, src: Bytes, rooms: nat -> nat, k: nat)
    requires PlainOk(p) && i in p.files
    ensures Chunks(p, i, off, src, rooms, |src|, k) == Outcome(p, |src|, false)
  {
  }

  /** Nothing changes but file i and the bitmap, and in file i exactly the bytes written. */
  ghost predicate Replaced(p: Plain, q: Plain, i: nat, off: nat, bytes: Bytes)
    requires i in p.files
  {
    && i in q.files && q.files == p.files[i := q.files[i]] && q.files[i].typ == p.files[i].typ
    && (bytes != [] ==> off <= |p.files[i].bytes|)
    && q.files[i].bytes == if bytes == [] then p.files[i].bytes else Spliced(p.files[i].bytes, off, bytes)
  }

  lemma ReplacedMore(p: Plain, q: Plain, r: Plain, i: nat, off: nat, a: Bytes, b: Bytes)
    requires i in p.files && Replaced(p, q, i, off, a) && Replaced(q, r, i, off + |a|, b)
    ensures Replaced(p, r, i, off, a + b)
  {
    if a == [] {
      assert a + b == b;
    } else if b == [] {
      assert a + b == a;
    } else {
      SplicedTwice(p.files[i].bytes, off, a, b);
    }
  }

  lemma WroteReplaces(p: Plain, i: nat, off: nat, src: Bytes, room: nat)
    requires PlainOk(p) && i in p.files
    ensures var c := WriteCount(p.used, p.files[i], off, src, room);
            Replaced(p, Wrote(p, i, off, src, room), i, off, if c == -1 then [] else src[..c])
  {
    hide Wanted, Reach, After;
    var v, c := p.files[i], WriteCount(p.used, p.files[i], off, src, room);
    if c == 0 {
      assert src[..c] == [] && Spliced(v.bytes, off, []) == v.bytes;
    }
  }

  lemma ReplacedNone(p: Plain, i: nat, off: nat)
    requires i in p.files
    ensures Replaced(p, p, i, off, [])
  {
  }

  /** Wherever and why ever it ends, filewrite() has replaced exactly the bytes it counts. */
  lemma {:induction false} ChunksReplace(p: Plain, i: nat, off: nat, src: Bytes, rooms: nat -> nat, done: nat, k: nat)
    requires PlainOk(p) && i in p.files && done <= |src|
    ensures var o := Chunks(p, i, off, src, rooms, done, k);
            Replaced(p, o.p, i, off + done, src[done..o.done])
    decreases |src| - done
  {
    hide Wrote, WriteCount, Breaking, FileOk, PlainOk, Replaced, Chunks;
    var o := Chunks(p, i, off, src, rooms, done, k);
    ReplacedNone(p, i, off + done);
    assert src[done..done] == [];
    if done == |src| {
      ChunksEnd(p, i, off, src, rooms, k);
    } else {
      var n := Clip(|src| - done, CHUNK);
      var piece := src[done..done + n];
      ChunksStep(p, i, off, src, rooms, done, k);
      if !Breaking(p.used, p.files[i], off + done, piece, rooms(k)) {
        var q := Wrote(p, i, off + done, piece, rooms(k));
        var c := WriteCount(p.used, p.files[i], off + done, piece, rooms(k));
        WroteReplaces(p, i, off + done, piece, rooms(k));
        if c == n {
          assert piece[..c] == piece;
          ChunksReplace(q, i, off, src, rooms, done + n, k + 1);
          ReplacedMore(p, q, o.p, i, off + done, piece, src[done + n..o.done]);
          assert piece + src[done + n..o.done] == src[done..o.done];
        } else if c != -1 {
          assert piece[..c] == src[done..done + c];
        }
      }
    }
  }

  lemma FileAt(p: Plain, i: nat)
    requires PlainOk(p) && i in p.files
    ensures FileOk(p.files[i])
  {
  }

  lemma SplicedTwice(c: Bytes, off: nat, a: Bytes, b: Bytes)
    requires off <= |c|
    ensures off + |a| <= |Spliced(c, off, a)|
    ensures Spliced(Spliced(c, off, a), off + |a|, b) == Spliced(c, off, a + b)
  {
  }

  // ---------------------------------------------------------------- reading and writing together

  /** So many copies move so many bytes. */
  lemma PiecesCover(off: nat, n: nat, room: nat)
    requires room >= Spanned(off, n)
    ensures Pieces(off, room) >= n
  {
  }

  /** A read inside the file whose copies succeed gives the bytes there, up to the end of the file. */
  lemma ReadGives(v: FileView, off: nat, n: nat, room: nat)
    requires off <= |v.bytes| && off + n < U32
    ensures var r, tot := ReadResult(v, off, n, room), if n < |v.bytes| - off then n else |v.bytes| - off;
            && (room >= Spanned(off, tot) ==> r.r == tot && |r.bytes| == tot)
            && (room < Spanned(off, tot) ==> r.r == -1 && |r.bytes| <= tot)
            && forall k :: 0 <= k < |r.bytes| ==> r.bytes[k] == v.bytes[off + k]
  {
    hide Pieces;
    var tot := if n < |v.bytes| - off then n else |v.bytes| - off;
    if room >= Spanned(off, tot) {
      PiecesCover(off, tot, room);
    }
  }

  lemma SameSlice(a: Bytes, b: Bytes, at: nat, m: nat)
    requires at + m <= |a| && at + m <= |b| && forall k :: at <= k < at + m ==> a[k] == b[k]
    ensures a[at..at + m] == b[at..at + m]
  {
  }

  lemma SplicedAt(c: Bytes, off: nat, bytes: Bytes)
    requires off <= |c|
    ensures var r := Spliced(c, off, bytes);
            && |r| == (if off + |bytes| > |c| then off + |bytes| else |c|)
            && (forall k :: 0 <= k < |bytes| ==> r[off + k] == bytes[k])
            && (forall k :: 0 <= k < off || (off + |bytes| <= k < |c|) ==> r[k] == c[k])
  {
  }

  /** Reading back what was written gives it back, and a read that does not touch it gives what it
      gave before. */
  lemma ReplacedRead(p: Plain, q: Plain, i: nat, off: nat, bytes: Bytes, at: nat, n: nat, room: nat)
    requires i in p.files && Replaced(p, q, i, off, bytes) && bytes != [] && off + |bytes| < U32
    ensures room >= Spanned(off, |bytes|) ==>
              ReadResult(q.files[i], off, |bytes|, room) == FileResult(|bytes|, bytes)
    ensures at + n <= off || off + |bytes| <= at ==>
              ReadResult(q.files[i], at, n, room) == ReadResult(p.files[i], at, n, room)
  {
    hide Pieces, Spanned;
    var old', new' := p.files[i].bytes, q.files[i].bytes;
    SplicedAt(old', off, bytes);
    if room >= Spanned(off, |bytes|) {
      ReadGives(q.files[i], off, |bytes|, room);
      assert ReadResult(q.files[i], off, |bytes|, room).bytes == bytes;
    }
    SpannedNone(at, n);
    if at + n <= off {
      SameSlice(old', new', at, Clip(n, Pieces(at, room)));
    } else if off + |bytes| <= at < |old'| {
      SameSlice(old', new', at, Clip(Clip(at + n, |old'|) - at, Pieces(at, room)));
    }
  }

  lemma OthersKept(p: Plain, q: Plain, i: nat, off: nat, bytes: Bytes)
    requires i in p.files && Replaced(p, q, i, off, bytes)
    ensures i in q.files && forall j :: j in p.files && j != i ==> j in q.files && q.files[j] == p.files[j]
  {
  }

  /** A write that answers c > 0, then any read. */
  lemma WriteThenRead(ninodes: nat, p: Plain, i: nat, off: nat, src: Bytes, room: nat, j: nat, at: nat, n: nat,
                      rest: nat)
    requires PlainOk(p) && i in p.files && j in p.files
    requires Answer(ninodes, p, Write(i, off, src, room)).r > 0
    ensures var c, q := Answer(ninodes, p, Write(i, off, src, room)).r, Next(ninodes, p, Write(i, off, src, room));
            && (rest >= Spanned(off, c) ==> Answer(ninodes, q, Read(i, off, c, rest)) == FileResult(c, src[..c]))
            && (j != i || at + n <= off || off + c <= at ==>
                Answer(ninodes, q, Read(j, at, n, rest)) == Answer(ninodes, p, Read(j, at, n, rest)))
  {
    hide Wrote, WriteCount, ReadResult, Replaced, PlainOk, Spanned;
    var c, q := Answer(ninodes, p, Write(i, off, src, room)).r, Next(ninodes, p, Write(i, off, src, room));
    assert FileOk(p.files[i]) by { FileAt(p, i); }
    WroteReplaces(p, i, off, src, room);
    ReplacedRead(p, q, i, off, src[..c], at, n, rest);
    if rest >= Spanned(off, c) {
      ReplacedRead(p, q, i, off, src[..c], off, c, rest);
    }
    OthersKept(p, q, i, off, src[..c]);
  }

  /** The same behind filewrite(), however many chunks it took. */
  lemma ChunksThenRead(p: Plain, i: nat, off: nat, src: Bytes, rooms: nat -> nat, at: nat, n: nat, rest: nat)
    requires PlainOk(p) && i in p.files && off + |src| < U32 && Chunks(p, i, off, src, rooms, 0, 0).done > 0
    ensures var o := Chunks(p, i, off, src, rooms, 0, 0);
            && (rest >= Spanned(off, o.done) ==>
                ReadResult(o.p.files[i], off, o.done, rest) == FileResult(o.done, src[..o.done]))
            && (at + n <= off || off + o.done <= at ==>
                ReadResult(o.p.files[i], at, n, rest) == ReadResult(p.files[i], at, n, rest))
  {
    hide Chunks, ReadResult, Replaced, PlainOk, Spanned;
    var o := Chunks(p, i, off, src, rooms, 0, 0);
    ChunksReplace(p, i, off, src, rooms, 0, 0);
    assert src[0..o.done] == src[..o.done];
    ReplacedRead(p, o.p, i, off, src[..o.done], at, n, rest);
  }

  /** A copy that fails has had its block placed all the same: the file keeps it. */
  lemma FailedCopy(used: seq<bool>, v: FileView, off: nat, src: Bytes, room: nat)
    requires FileOk(v) && WriteCount(used, v, off, src, room) != -1 && room < Spanned(off, |src|)
    ensures var had, last := |Blocks(v.es)|, off / BSIZE + room + 1;
            var more := if last > had then last - had else 0;
            Gets(Alloc(used, v.es), more) == more ==>
            && |Blocks(Placing(used, v, off, |src|, room).es)| == had + more
            && WriteCount(used, v, off, src, room) == Pieces(off, room)
  {
    hide Gets, Blocks, After;
    AfterBlocks(Alloc(used, v.es), Wanted(|Blocks(v.es)|, off, |src|, room));
  }

  /** A write is turned away exactly if it starts behind the end or would pass the largest size;
      and if its copies succeed and the file has or gets the blocks it covers, all of it is done. */
  lemma WriteAll(used: seq<bool>, v: FileView, off: nat, src: Bytes, room: nat)
    requires FileOk(v)
    ensures WriteCount(used, v, off, src, room) == -1 <==>
            off > |v.bytes| || off + |src| >= U32 || off + |src| > MAXFILE * BSIZE
    ensures var had, need := |Blocks(v.es)|, (off + |src| + BSIZE - 1) / BSIZE;
            var more := if need > had then need - had else 0;
            WriteCount(used, v, off, src, room) != -1 && room >= Spanned(off, |src|)
            && Gets(Alloc(used, v.es), more) == more
            ==> WriteCount(used, v, off, src, room) == |src|
  {
    hide Gets;
  }
}
