/** The redo log of kernel/log.c.

    A disk is a sequence of blocks, a block a sequence of BSIZE/4 words.  The log
    occupies the header block `start` and the LOGBLOCKS blocks after it; every other
    block is a home block.  Disk writes are atomic and happen one at a time, so a crash
    leaves the disk as it was after some prefix of the writes issued so far. */
module RedoLog {
  import opened Counting
  import opened Params

  const WORDS: nat := BSIZE / 4 // sizeof(uint)

  type Block = seq<int>
  type Disk = seq<Block>
  datatype Write = Write(addr: nat, data: Block)

  predicate InLog(start: nat, a: int) { start <= a <= start + LOGBLOCKS }

  // ---------------------------------------------------------------- the header block

  /** The words of a header block after hb->n and hb->block[..n] have been stored in it. */
  function EncodeHead(old_: Block, blocks: seq<nat>): (r: Block)
    requires |old_| == WORDS && |blocks| <= LOGBLOCKS
    ensures |r| == WORDS
  {
    [|blocks|] + blocks + old_[1 + |blocks|..]
  }

  predicate HeadOk(start: nat, size: nat, b: Block) {
    && |b| == WORDS
    && 0 <= b[0] <= LOGBLOCKS
    && forall i :: 1 <= i <= b[0] ==> 0 <= b[i] < size && !InLog(start, b[i])
  }

  function HeadBlocks(start: nat, size: nat, b: Block): (r: seq<nat>)
    requires HeadOk(start, size, b)
    ensures |r| == b[0] && Targets(start, size, r)
  {
    seq(b[0], i requires 0 <= i < b[0] => b[i + 1])
  }

  /** Block numbers that log_write can have collected: home blocks of the device. */
  predicate Targets(start: nat, size: nat, blocks: seq<nat>) {
    forall i :: 0 <= i < |blocks| ==> blocks[i] < size && !InLog(start, blocks[i])
  }

  predicate DiskOk(start: nat, d: Disk) {
    && start + LOGBLOCKS < |d|
    && HeadOk(start, |d|, d[start])
    && NoRepeats(HeadBlocks(start, |d|, d[start]))
  }

  function Logged(start: nat, d: Disk): (r: seq<nat>)
    requires DiskOk(start, d)
    ensures |r| <= LOGBLOCKS && Targets(start, |d|, r) && NoRepeats(r)
  {
    HeadBlocks(start, |d|, d[start])
  }

  lemma HeadRoundTrip(start: nat, size: nat, old_: Block, blocks: seq<nat>)
    requires |old_| == WORDS && |blocks| <= LOGBLOCKS && Targets(start, size, blocks)
    ensures HeadOk(start, size, EncodeHead(old_, blocks))
    ensures HeadBlocks(start, size, EncodeHead(old_, blocks)) == blocks
  {
    var e := EncodeHead(old_, blocks);
    assert forall i :: 0 <= i < |blocks| ==> e[i + 1] == blocks[i];
    assert forall i :: 1 <= i <= |blocks| ==> e[i] == blocks[i - 1];
  }

  // ---------------------------------------------------------------- disk writes

  predicate Fits(ws: seq<Write>, size: nat) {
    forall i :: 0 <= i < |ws| ==> ws[i].addr < size
  }

  /** The disk after the writes ws, in order. */
  function Apply(d: Disk, ws: seq<Write>): (r: Disk)
    requires Fits(ws, |d|)
    ensures |r| == |d|
    decreases |ws|
  {
    if ws == [] then d else Apply(d[ws[0].addr := ws[0].data], ws[1..])
  }

  lemma ApplyNone(d: Disk)
    ensures Apply(d, []) == d
  {
  }

  lemma {:induction false} ApplyConcat(d: Disk, xs: seq<Write>, ys: seq<Write>)
    requires Fits(xs, |d|) && Fits(ys, |d|)
    ensures Fits(xs + ys, |d|)
    ensures Apply(d, xs + ys) == Apply(Apply(d, xs), ys)
    decreases |xs|
  {
    if xs == [] {
      assert xs + ys == ys;
    } else {
      assert (xs + ys)[1..] == xs[1..] + ys;
      ApplyConcat(d[xs[0].addr := xs[0].data], xs[1..], ys);
    }
  }

  lemma ApplyLast(d: Disk, xs: seq<Write>, w: Write)
    requires Fits(xs, |d|) && w.addr < |d|
    ensures Fits(xs + [w], |d|) && Apply(d, xs + [w]) == Apply(d, xs)[w.addr := w.data]
  {
    ApplyConcat(d, xs, [w]);
    assert Apply(Apply(d, xs), [w]) == Apply(d, xs)[w.addr := w.data];
  }

  predicate DistinctAddrs(ws: seq<Write>) {
    forall i, j :: 0 <= i < j < |ws| ==> ws[i].addr != ws[j].addr
  }

  lemma {:induction false} ApplyElsewhere(d: Disk, ws: seq<Write>, a: nat)
    requires Fits(ws, |d|) && a < |d|
    requires forall i :: 0 <= i < |ws| ==> ws[i].addr != a
    ensures Apply(d, ws)[a] == d[a]
    decreases |ws|
  {
    if ws != [] {
      ApplyElsewhere(d[ws[0].addr := ws[0].data], ws[1..], a);
    }
  }

  lemma {:induction false} ApplyAt(d: Disk, ws: seq<Write>, k: nat)
    requires Fits(ws, |d|) && k < |ws| && DistinctAddrs(ws)
    ensures Apply(d, ws)[ws[k].addr] == ws[k].data
    decreases |ws|
  {
    var d1 := d[ws[0].addr := ws[0].data];
    if k == 0 {
      ApplyElsewhere(d1, ws[1..], ws[0].addr);
    } else {
      ApplyAt(d1, ws[1..], k - 1);
    }
  }

  // ---------------------------------------------------------------- what a disk means

  function IndexOf(blocks: seq<nat>, a: nat): (i: nat)
    requires a in blocks
    ensures i < |blocks| && blocks[i] == a
  {
    if blocks[0] == a then 0 else 1 + IndexOf(blocks[1..], a)
  }

  /** The home blocks that recovery is bound to reach: a block named in the header has
      the content of its log block, any other block its own.  The log region is blanked. */
  function Logical(start: nat, d: Disk): (r: Disk)
    requires DiskOk(start, d)
    ensures |r| == |d|
  {
    var blocks := Logged(start, d);
    seq(|d|, a requires 0 <= a < |d| =>
      if InLog(start, a) then []
      else if a in blocks then d[start + 1 + IndexOf(blocks, a)]
      else d[a])
  }

  /** The home blocks themselves, with the log region blanked. */
  function Home(start: nat, d: Disk): (r: Disk)
    ensures |r| == |d|
  {
    seq(|d|, a requires 0 <= a < |d| => if InLog(start, a) then [] else d[a])
  }

  // ---------------------------------------------------------------- write sequences

  /** write_log: log block tail+1 gets the cached content of block[tail]. */
  function LogWrites(start: nat, view: Disk, blocks: seq<nat>): (ws: seq<Write>)
    requires Targets(start, |view|, blocks)
    ensures |ws| == |blocks|
  {
    seq(|blocks|, i requires 0 <= i < |blocks| => Write(start + 1 + i, view[blocks[i]]))
  }

  /** install_trans: home block block[tail] gets the content of log block tail+1. */
  function InstallWrites(start: nat, d: Disk, blocks: seq<nat>): (ws: seq<Write>)
    requires start + |blocks| < |d|
    ensures |ws| == |blocks|
  {
    seq(|blocks|, i requires 0 <= i < |blocks| => Write(blocks[i], d[start + 1 + i]))
  }

  /** write_head. */
  function HeadWrite(start: nat, old_: Block, blocks: seq<nat>): Write
    requires |old_| == WORDS && |blocks| <= LOGBLOCKS
  {
    Write(start, EncodeHead(old_, blocks))
  }

  /** recover_from_log: install what the header names, then clear the header. */
  function RecoverWrites(start: nat, d: Disk): (ws: seq<Write>)
    requires DiskOk(start, d)
    ensures |ws| == |Logged(start, d)| + 1 && Fits(ws, |d|)
  {
    InstallWrites(start, d, Logged(start, d)) + [HeadWrite(start, d[start], [])]
  }

  /** commit, for a disk whose header is clear: log, header, install, clear. */
  function CommitWrites(start: nat, d: Disk, view: Disk, blocks: seq<nat>): (ws: seq<Write>)
    requires DiskOk(start, d) && |view| == |d|
    requires |blocks| <= LOGBLOCKS && Targets(start, |d|, blocks)
  {
    if blocks == [] then []
    else
      var log := LogWrites(start, view, blocks);
      var head := HeadWrite(start, d[start], blocks);
      var d1 := Apply(d, log + [head]);
      log + [head] + InstallWrites(start, d1, blocks) + [HeadWrite(start, EncodeHead(d[start], blocks), [])]
  }

  // ---------------------------------------------------------------- crash safety of recovery

  lemma InstallDisk(start: nat, d: Disk, k: nat, a: nat)
    requires DiskOk(start, d) && k <= |Logged(start, d)| && a < |d|
    ensures var blocks := Logged(start, d);
            var ws := InstallWrites(start, d, blocks)[..k];
            && Fits(ws, |d|)
            && Apply(d, ws)[a] == (if a in blocks[..k] then d[start + 1 + IndexOf(blocks, a)] else d[a])
  {
    hide Apply;
    var blocks := Logged(start, d);
    var ws := InstallWrites(start, d, blocks)[..k];
    if a in blocks[..k] {
      var i := IndexOf(blocks, a);
      ApplyAt(d, ws, i);
    } else {
      assert forall i :: 0 <= i < k ==> blocks[..k][i] == ws[i].addr;
      ApplyElsewhere(d, ws, a);
    }
  }

  /** A crash after any number of installs leaves a disk with the same meaning. */
  lemma InstallCrash(start: nat, d: Disk, k: nat)
    requires DiskOk(start, d) && k <= |Logged(start, d)|
    ensures var ws := InstallWrites(start, d, Logged(start, d))[..k];
            Fits(ws, |d|) && DiskOk(start, Apply(d, ws)) && Logical(start, Apply(d, ws)) == Logical(start, d)
            && Apply(d, ws)[start] == d[start]
  {
    hide Apply, IndexOf;
    var blocks := Logged(start, d);
    var ws := InstallWrites(start, d, blocks)[..k];
    var d' := Apply(d, ws);
    InstallDisk(start, d, k, start);
    assert d'[start] == d[start];
    forall a | 0 <= a < |d| ensures Logical(start, d')[a] == Logical(start, d)[a] {
      InstallDisk(start, d, k, a);
      if a in blocks {
        var i := IndexOf(blocks, a);
        InstallDisk(start, d, k, start + 1 + i);
      }
    }
  }

  /** Completing recovery puts the meaning in place and clears the header. */
  lemma RecoverDone(start: nat, d: Disk)
    requires DiskOk(start, d)
    ensures var d' := Apply(d, RecoverWrites(start, d));
            && DiskOk(start, d') && Logged(start, d') == []
            && Home(start, d') == Logical(start, d) == Logical(start, d')
  {
    hide Apply;
    var blocks := Logged(start, d);
    var ins := InstallWrites(start, d, blocks);
    var head := HeadWrite(start, d[start], []);
    assert ins[..|blocks|] == ins;
    InstallCrash(start, d, |blocks|);
    ApplyLast(d, ins, head);
    var d1 := Apply(d, ins);
    var d' := Apply(d, ins + [head]);
    assert d' == d1[start := head.data];
    HeadRoundTrip(start, |d|, d[start], []);
    forall a | 0 <= a < |d| ensures Home(start, d')[a] == Logical(start, d)[a] {
      InstallDisk(start, d, |blocks|, a);
      assert blocks[..|blocks|] == blocks;
    }
    assert Logical(start, d') == Home(start, d');
  }

  /** Recovery may itself crash anywhere: every prefix of its writes keeps the meaning. */
  lemma RecoverCrash(start: nat, d: Disk, k: nat)
    requires DiskOk(start, d) && k <= |RecoverWrites(start, d)|
    ensures var d' := Apply(d, RecoverWrites(start, d)[..k]);
            DiskOk(start, d') && Logical(start, d') == Logical(start, d)
  {
    hide Apply;
    var ws := RecoverWrites(start, d);
    if k == |ws| {
      assert ws[..k] == ws;
      RecoverDone(start, d);
    } else {
      assert ws[..k] == InstallWrites(start, d, Logged(start, d))[..k];
      InstallCrash(start, d, k);
    }
  }

  // ---------------------------------------------------------------- crash safety of commit

  /** The home blocks after a group that set blocks[i] to data[i]. */
  function Updated(start: nat, d: Disk, view: Disk, blocks: seq<nat>): (r: Disk)
    requires |view| == |d|
    ensures |r| == |d|
  {
    seq(|d|, a requires 0 <= a < |d| =>
      if InLog(start, a) then [] else if a in blocks then view[a] else d[a])
  }

  /** A disk with an empty log, and a group of distinct home blocks that fits it. */
  predicate GroupOk(start: nat, size: nat, view: Disk, blocks: seq<nat>) {
    |view| == size && |blocks| <= LOGBLOCKS && Targets(start, size, blocks) && NoRepeats(blocks)
  }

  predicate Clean(start: nat, d: Disk) { DiskOk(start, d) && Logged(start, d) == [] }

  lemma LogDisk(start: nat, d: Disk, view: Disk, blocks: seq<nat>, k: nat, a: nat)
    requires start + LOGBLOCKS < |d| == |view| && |blocks| <= LOGBLOCKS && Targets(start, |d|, blocks)
    requires k <= |blocks| && a < |d|
    ensures var ws := LogWrites(start, view, blocks)[..k];
            && Fits(ws, |d|)
            && Apply(d, ws)[a] == (if start < a <= start + k then view[blocks[a - start - 1]] else d[a])
  {
    hide Apply;
    var ws := LogWrites(start, view, blocks)[..k];
    assert forall i :: 0 <= i < k ==> ws[i] == Write(start + 1 + i, view[blocks[i]]);
    if start < a <= start + k {
      assert ws[a - start - 1].addr == a;
      ApplyAt(d, ws, a - start - 1);
    } else {
      ApplyElsewhere(d, ws, a);
    }
  }

  /** Before the header is written a crash loses the group, and only the group. */
  lemma LogCrash(start: nat, d: Disk, view: Disk, blocks: seq<nat>, k: nat)
    requires Clean(start, d) && GroupOk(start, |d|, view, blocks) && k <= |blocks|
    ensures var ws := LogWrites(start, view, blocks)[..k];
            && Fits(ws, |d|)
            && DiskOk(start, Apply(d, ws))
            && Apply(d, ws)[start] == d[start]
            && Logical(start, Apply(d, ws)) == Logical(start, d) == Home(start, d)
  {
    hide Apply;
    var d' := Apply(d, LogWrites(start, view, blocks)[..k]);
    LogDisk(start, d, view, blocks, k, start);
    forall a | 0 <= a < |d| ensures Logical(start, d')[a] == Logical(start, d)[a] {
      LogDisk(start, d, view, blocks, k, a);
    }
    assert Logical(start, d) == Home(start, d);
  }

  lemma HeadDisk(start: nat, d: Disk, view: Disk, blocks: seq<nat>)
    requires DiskOk(start, d) && |view| == |d|
    requires |blocks| <= LOGBLOCKS && Targets(start, |d|, blocks)
    ensures var log := LogWrites(start, view, blocks);
            var head := HeadWrite(start, d[start], blocks);
            && Fits(log, |d|) && Fits(log + [head], |d|)
            && Apply(d, log + [head]) == Apply(d, log)[start := EncodeHead(d[start], blocks)]
  {
    hide Apply;
    var log := LogWrites(start, view, blocks);
    var head := HeadWrite(start, d[start], blocks);
    ApplyLast(d, log, head);
  }

  /** Writing the header commits the whole group at once. */
  lemma HeadCommits(start: nat, d: Disk, view: Disk, blocks: seq<nat>)
    requires Clean(start, d) && GroupOk(start, |d|, view, blocks)
    ensures var ws := LogWrites(start, view, blocks) + [HeadWrite(start, d[start], blocks)];
            && Fits(ws, |d|)
            && DiskOk(start, Apply(d, ws)) && Logged(start, Apply(d, ws)) == blocks
            && Apply(d, ws)[start] == EncodeHead(d[start], blocks)
            && Logical(start, Apply(d, ws)) == Updated(start, d, view, blocks)
  {
    hide Apply;
    HeadDisk(start, d, view, blocks);
    HeadRoundTrip(start, |d|, d[start], blocks);
    var d1 := Apply(d, LogWrites(start, view, blocks));
    var d' := d1[start := EncodeHead(d[start], blocks)];
    forall a | 0 <= a < |d| ensures Logical(start, d')[a] == Updated(start, d, view, blocks)[a] {
      CommittedAt(start, d, view, blocks, d1, a);
    }
  }

  lemma CommittedAt(start: nat, d: Disk, view: Disk, blocks: seq<nat>, d1: Disk, a: nat)
    requires DiskOk(start, d) && GroupOk(start, |d|, view, blocks) && a < |d| == |d1| && start + LOGBLOCKS < |d|
    requires d1 == Apply(d, LogWrites(start, view, blocks))
    requires DiskOk(start, d1[start := EncodeHead(d[start], blocks)])
    requires Logged(start, d1[start := EncodeHead(d[start], blocks)]) == blocks
    ensures Logical(start, d1[start := EncodeHead(d[start], blocks)])[a] == Updated(start, d, view, blocks)[a]
  {
    hide Apply, IndexOf, Logged, DiskOk, EncodeHead;
    var log := LogWrites(start, view, blocks);
    assert log[..|blocks|] == log;
    LogDisk(start, d, view, blocks, |blocks|, a);
    if a in blocks {
      LogDisk(start, d, view, blocks, |blocks|, start + 1 + IndexOf(blocks, a));
    }
  }

  /** After the header write, the rest of commit is what recovery would do. */
  lemma CommitShape(start: nat, d: Disk, view: Disk, blocks: seq<nat>)
    requires Clean(start, d) && GroupOk(start, |d|, view, blocks) && blocks != []
    ensures var pre := LogWrites(start, view, blocks) + [HeadWrite(start, d[start], blocks)];
            && Fits(pre, |d|)
            && DiskOk(start, Apply(d, pre))
            && CommitWrites(start, d, view, blocks) == pre + RecoverWrites(start, Apply(d, pre))
  {
    hide Apply;
    HeadCommits(start, d, view, blocks);
  }

  lemma PrefixLog<T>(log: seq<T>, head: T, rest: seq<T>, k: nat)
    requires k <= |log|
    ensures (log + [head] + rest)[..k] == log[..k]
  {
  }

  lemma PrefixRest<T>(pre: seq<T>, rest: seq<T>, k: nat)
    requires |pre| <= k <= |pre| + |rest|
    ensures (pre + rest)[..k] == pre + rest[..k - |pre|]
  {
  }

  lemma CommitCrashLate(start: nat, d: Disk, view: Disk, blocks: seq<nat>, k: nat)
    requires Clean(start, d) && GroupOk(start, |d|, view, blocks)
    requires blocks != [] && |blocks| < k <= |CommitWrites(start, d, view, blocks)|
    ensures var ws := CommitWrites(start, d, view, blocks)[..k];
            && Fits(ws, |d|) && DiskOk(start, Apply(d, ws))
            && Logical(start, Apply(d, ws)) == Updated(start, d, view, blocks)
  {
    hide Apply, Logical, Updated, EncodeHead, HeadBlocks, NoRepeats, Targets, CommitWrites, LogWrites, RecoverWrites;
    CommitShape(start, d, view, blocks);
    HeadCommits(start, d, view, blocks);
    var pre := LogWrites(start, view, blocks) + [HeadWrite(start, d[start], blocks)];
    var d1 := Apply(d, pre);
    PrefixRest(pre, RecoverWrites(start, d1), k);
    ApplyConcat(d, pre, RecoverWrites(start, d1)[..k - |pre|]);
    RecoverCrash(start, d1, k - |pre|);
  }

  /** Crash atomicity of one commit: whatever prefix of its writes reached the disk, the
      disk means the old home blocks up to the header write and the new ones from it on. */
  lemma CommitCrash(start: nat, d: Disk, view: Disk, blocks: seq<nat>, k: nat)
    requires Clean(start, d) && GroupOk(start, |d|, view, blocks)
    requires k <= |CommitWrites(start, d, view, blocks)|
    ensures var ws := CommitWrites(start, d, view, blocks)[..k];
            && Fits(ws, |d|) && DiskOk(start, Apply(d, ws))
            && Logical(start, Apply(d, ws))
               == (if k <= |blocks| then Home(start, d) else Updated(start, d, view, blocks))
  {
    if k > |blocks| {
      CommitCrashLate(start, d, view, blocks, k);
    } else {
      LogCrash(start, d, view, blocks, k);
      if blocks != [] {
        CommitShape(start, d, view, blocks);
        hide Apply, Logical, Updated, Home, EncodeHead, HeadOk, HeadBlocks, NoRepeats, Targets, CommitWrites,
          RecoverWrites, LogWrites;
        var log, head := LogWrites(start, view, blocks), HeadWrite(start, d[start], blocks);
        PrefixLog(log, head, RecoverWrites(start, Apply(d, log + [head])), k);
      }
    }
  }

  /** A commit that runs to its end installs the group and leaves the log clear. */
  lemma CommitDone(start: nat, d: Disk, view: Disk, blocks: seq<nat>)
    requires Clean(start, d) && GroupOk(start, |d|, view, blocks)
    ensures var ws := CommitWrites(start, d, view, blocks);
            && Fits(ws, |d|) && Clean(start, Apply(d, ws))
            && Home(start, Apply(d, ws)) == Updated(start, d, view, blocks)
  {
    if blocks == [] {
      assert Home(start, d) == Updated(start, d, view, blocks);
    } else {
      CommitShape(start, d, view, blocks);
      HeadCommits(start, d, view, blocks);
      var pre := LogWrites(start, view, blocks) + [HeadWrite(start, d[start], blocks)];
      ApplyConcat(d, pre, RecoverWrites(start, Apply(d, pre)));
      RecoverDone(start, Apply(d, pre));
    }
  }

  // ---------------------------------------------------------------- whole runs with crashes

  /** One commit of a run.  A crashed one stops after `at` writes; then follow attempts to
      recover, the i-th stopped after cuts[i] writes, and finally one that completes. */
  datatype Episode =
    | Committed(view: Disk, blocks: seq<nat>)
    | Crashed(view: Disk, blocks: seq<nat>, at: nat, cuts: seq<nat>)

  function Reboot(start: nat, d: Disk, cuts: seq<nat>): (r: Disk)
    requires DiskOk(start, d)
    ensures |r| == |d| && Clean(start, r) && Home(start, r) == Logical(start, d)
    decreases |cuts|
  {
    if cuts == [] then
      RecoverDone(start, d);
      Apply(d, RecoverWrites(start, d))
    else
      var ws := RecoverWrites(start, d);
      var k := if cuts[0] <= |ws| then cuts[0] else |ws|;
      RecoverCrash(start, d, k);
      Reboot(start, Apply(d, ws[..k]), cuts[1..])
  }

  function Play(start: nat, d: Disk, e: Episode): (r: Disk)
    requires Clean(start, d) && GroupOk(start, |d|, e.view, e.blocks)
    ensures |r| == |d| && Clean(start, r)
  {
    var ws := CommitWrites(start, d, e.view, e.blocks);
    match e
    case Committed(_, _) =>
      CommitDone(start, d, e.view, e.blocks);
      Apply(d, ws)
    case Crashed(_, _, at, cuts) =>
      var k := if at <= |ws| then at else |ws|;
      CommitCrash(start, d, e.view, e.blocks, k);
      Reboot(start, Apply(d, ws[..k]), cuts)
  }

  predicate EpisodesOk(start: nat, size: nat, es: seq<Episode>) {
    forall i :: 0 <= i < |es| ==> GroupOk(start, size, es[i].view, es[i].blocks)
  }

  function PlayAll(start: nat, d: Disk, es: seq<Episode>): (r: Disk)
    requires Clean(start, d) && EpisodesOk(start, |d|, es)
    ensures |r| == |d| && Clean(start, r)
    decreases |es|
  {
    if es == [] then d else PlayAll(start, Play(start, d, es[0]), es[1..])
  }

  /** A group takes effect if its commit got past the header write. */
  predicate TakesEffect(e: Episode) {
    e.Committed? || (e.blocks != [] && e.at > |e.blocks|)
  }

  /** The home blocks a user of the log expects: whole groups, in order. */
  function Expected(start: nat, h: Disk, es: seq<Episode>): (r: Disk)
    requires EpisodesOk(start, |h|, es)
    decreases |es|
  {
    if es == [] then h
    else Expected(start, if TakesEffect(es[0]) then Updated(start, h, es[0].view, es[0].blocks) else h, es[1..])
  }

  lemma PlayIsAtomic(start: nat, d: Disk, e: Episode)
    requires Clean(start, d) && GroupOk(start, |d|, e.view, e.blocks)
    ensures Home(start, Play(start, d, e))
         == (if TakesEffect(e) then Updated(start, Home(start, d), e.view, e.blocks) else Home(start, d))
  {
    hide Apply;
    assert Updated(start, Home(start, d), e.view, e.blocks) == Updated(start, d, e.view, e.blocks);
    if e.Committed? {
      CommitDone(start, d, e.view, e.blocks);
    } else {
      var ws := CommitWrites(start, d, e.view, e.blocks);
      CommitCrash(start, d, e.view, e.blocks, if e.at <= |ws| then e.at else |ws|);
    }
  }

  /** Crash atomicity over whole runs: after any sequence of commits, crashes inside commits
      and crashes inside recoveries, the home blocks are those of the groups that took
      effect, each applied whole and in order, and nothing else. */
  lemma {:induction false} CrashAtomicity(start: nat, d: Disk, es: seq<Episode>)
    requires Clean(start, d) && EpisodesOk(start, |d|, es)
    ensures Home(start, PlayAll(start, d, es)) == Expected(start, Home(start, d), es)
    decreases |es|
  {
    if es != [] {
      PlayIsAtomic(start, d, es[0]);
      CrashAtomicity(start, Play(start, d, es[0]), es[1..]);
    }
  }
}
