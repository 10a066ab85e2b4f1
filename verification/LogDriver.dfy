/** The code of kernel/log.c over the write sequences of RedoLog.

    `view` is what bread returns for each block (the buffer cache), `disk` what the device
    holds; bwrite copies one block from view to disk.  `outstanding` operations are named by
    ids; `spent` records how many header slots each has added since its begin_op. */
module LogDriver {
  import opened Counting
  import opened RedoLog
  import opened Params

  // ---------------------------------------------------------------- reserved log space

  predicate WithinBudget(spent: map<nat, nat>) {
    forall op :: op in spent ==> spent[op] <= MAXOPBLOCKS
  }

  /** Header slots the outstanding operations may still add. */
  ghost function Unspent(spent: map<nat, nat>): nat
    requires WithinBudget(spent)
    decreases |spent|
  {
    if spent == map[] then 0
    else
      var op :| op in spent;
      MAXOPBLOCKS - spent[op] + Unspent(spent - {op})
  }

  lemma {:induction false} UnspentSplit(spent: map<nat, nat>, op: nat)
    requires WithinBudget(spent) && op in spent
    ensures Unspent(spent) == MAXOPBLOCKS - spent[op] + Unspent(spent - {op})
    decreases |spent|
  {
    var first :| first in spent && Unspent(spent) == MAXOPBLOCKS - spent[first] + Unspent(spent - {first});
    if first != op {
      UnspentSplit(spent - {first}, op);
      UnspentSplit(spent - {op}, first);
      assert spent - {first} - {op} == spent - {op} - {first};
    }
  }

  lemma {:induction false} UnspentBound(spent: map<nat, nat>)
    requires WithinBudget(spent)
    ensures Unspent(spent) <= |spent| * MAXOPBLOCKS
    decreases |spent|
  {
    if spent != map[] {
      var op :| op in spent;
      UnspentSplit(spent, op);
      UnspentBound(spent - {op});
      assert |spent - {op}| == |spent| - 1;
    }
  }

  lemma UnspentUpdate(spent: map<nat, nat>, op: nat, s: nat)
    requires WithinBudget(spent) && s <= MAXOPBLOCKS
    ensures Unspent(spent[op := s])
         == MAXOPBLOCKS - s + (if op in spent then Unspent(spent) - (MAXOPBLOCKS - spent[op]) else Unspent(spent))
  {
    var m := spent[op := s];
    UnspentSplit(m, op);
    if op in spent {
      UnspentSplit(spent, op);
      assert m - {op} == spent - {op};
    } else {
      assert m - {op} == spent;
    }
  }

  // ---------------------------------------------------------------- the driver

  lemma ApplyOne(d: Disk, ws: seq<Write>, k: nat)
    requires Fits(ws, |d|) && k < |ws|
    ensures Fits(ws[..k], |d|) && Fits(ws[..k + 1], |d|)
    ensures Apply(d, ws[..k + 1]) == Apply(d, ws[..k])[ws[k].addr := ws[k].data]
  {
    hide Apply;
    assert ws[..k + 1] == ws[..k] + [ws[k]];
    ApplyLast(d, ws[..k], ws[k]);
  }

  /** Applying the same writes to cache and disk makes them agree wherever they did before
      and wherever a write went. */
  lemma {:induction false} ApplyBoth(d: Disk, v: Disk, ws: seq<Write>, a: nat)
    requires |d| == |v| && Fits(ws, |d|) && a < |d|
    requires d[a] == v[a] || exists i :: 0 <= i < |ws| && ws[i].addr == a
    ensures Apply(d, ws)[a] == Apply(v, ws)[a]
    decreases |ws|
  {
    if ws != [] {
      assert ws[0].addr != a ==> forall i :: 0 < i < |ws| ==> ws[i] == ws[1..][i - 1];
      ApplyBoth(d[ws[0].addr := ws[0].data], v[ws[0].addr := ws[0].data], ws[1..], a);
    }
  }

  ghost predicate AgreeOff(blocks: seq<nat>, d: Disk, v: Disk) {
    |d| == |v| && forall a :: 0 <= a < |d| && a !in blocks ==> v[a] == d[a]
  }

  /** Cache and disk once the header is written: they agree on the log and on the header. */
  lemma LoggedPhase(start: nat, d: Disk, v: Disk, blocks: seq<nat>)
    requires Clean(start, d) && GroupOk(start, |d|, v, blocks) && AgreeOff(blocks, d, v)
    ensures var log := LogWrites(start, v, blocks);
            && Fits(log, |d|)
            && Apply(v, log)[start] == d[start]
            && AgreeOff(blocks, Apply(d, log)[start := EncodeHead(d[start], blocks)],
                                Apply(v, log)[start := EncodeHead(d[start], blocks)])
            && InstallWrites(start, Apply(d, log)[start := EncodeHead(d[start], blocks)], blocks)
            == InstallWrites(start, Apply(v, log)[start := EncodeHead(d[start], blocks)], blocks)
  {
    var log := LogWrites(start, v, blocks);
    ApplyElsewhere(v, log, start);
    forall a | 0 <= a < |d| && a !in blocks ensures Apply(d, log)[a] == Apply(v, log)[a] {
      ApplyBoth(d, v, log, a);
    }
  }

  /** Installing the log brings cache and disk together. */
  lemma InstalledPhase(start: nat, d: Disk, v: Disk, blocks: seq<nat>)
    requires start + LOGBLOCKS < |d| && GroupOk(start, |d|, v, blocks) && AgreeOff(blocks, d, v)
    ensures var ws := InstallWrites(start, v, blocks);
            Fits(ws, |d|) && Apply(d, ws) == Apply(v, ws) && Apply(v, ws)[start] == v[start]
  {
    var ws := InstallWrites(start, v, blocks);
    ApplyElsewhere(v, ws, start);
    forall a | 0 <= a < |d| ensures Apply(d, ws)[a] == Apply(v, ws)[a] {
      if a in blocks {
        assert ws[IndexOf(blocks, a)].addr == a;
      }
      ApplyBoth(d, v, ws, a);
    }
  }

  lemma CommitApplied(start: nat, d: Disk, v: Disk, blocks: seq<nat>)
    requires Clean(start, d) && GroupOk(start, |d|, v, blocks) && blocks != []
    ensures var log := LogWrites(start, v, blocks);
            var e := EncodeHead(d[start], blocks);
            && Fits(log, |d|)
            && var d2 := Apply(d, log)[start := e];
            var ins := InstallWrites(start, d2, blocks);
            && Fits(ins, |d|) && |e| == WORDS
            && CommitWrites(start, d, v, blocks) == log + [Write(start, e)] + ins + [Write(start, EncodeHead(e, []))]
            && Fits(CommitWrites(start, d, v, blocks), |d|)
            && Apply(d, CommitWrites(start, d, v, blocks)) == Apply(d2, ins)[start := EncodeHead(e, [])]
  {
    HeadDisk(start, d, v, blocks);
    var log := LogWrites(start, v, blocks);
    var e := EncodeHead(d[start], blocks);
    var d2 := Apply(d, log)[start := e];
    var ins := InstallWrites(start, d2, blocks);
    var fin := [Write(start, EncodeHead(e, []))];
    var pre := log + [Write(start, e)];
    ApplyConcat(d, pre, ins);
    ApplyConcat(d, pre + ins, fin);
    assert Apply(Apply(d2, ins), fin) == Apply(d2, ins)[start := EncodeHead(e, [])];
  }

  /** A crash right after the writes ws recovers to the home blocks h. */
  ghost predicate RecoversTo(start: nat, d: Disk, ws: seq<Write>, h: Disk) {
    Fits(ws, |d|) && DiskOk(start, Apply(d, ws)) && Logical(start, Apply(d, ws)) == h
  }

  /** Spending one reserved block leaves room for the others. */
  lemma StillReserved(spent: map<nat, nat>, op: nat, n: nat)
    requires WithinBudget(spent) && op in spent && spent[op] < MAXOPBLOCKS && n + Unspent(spent) <= LOGBLOCKS
    ensures n < LOGBLOCKS && WithinBudget(spent[op := spent[op] + 1]) && spent[op := spent[op]] == spent
    ensures n + 1 + Unspent(spent[op := spent[op] + 1]) <= LOGBLOCKS
  {
    hide Unspent;
    UnspentSplit(spent, op);
    UnspentUpdate(spent, op, spent[op] + 1);
  }

  /** Absorption: a block enters the header once. */
  lemma LoggedIs(before: seq<nat>, after: seq<nat>, b: nat, i: nat)
    requires i <= |before| && (i < |before| ==> before[i] == b && after == before)
    requires (i == |before| ==> b !in before && after == before + [b])
    ensures after == if b in before then before else before + [b]
    ensures NoRepeats(before) ==> NoRepeats(after)
  {
  }

  // ---------------------------------------------------------------- the plain table of operations

  datatype Op = Begin(id: nat) | Change(id: nat, b: nat, data: Block) | End(id: nat)

  /** The home blocks as the operations see them, the operations in progress with the number of
      blocks each has added to the header, and the header. */
  datatype Moment = Moment(view: Disk, spent: map<nat, nat>, log: seq<nat>)

  /** A change by an operation in progress, of a home block. */
  predicate Takes(start: nat, g: Moment, op: Op) {
    op.Change? && op.id in g.spent && op.b < |g.view| && !InLog(start, op.b)
  }

  /** panic("too big a transaction"). */
  predicate Halts(start: nat, g: Moment, op: Op) { Takes(start, g, op) && |g.log| >= LOGBLOCKS }

  /** One step that does not. */
  function Next(start: nat, g: Moment, op: Op): Moment {
    match op
    case Begin(id) =>
      if id !in g.spent && |g.log| + (|g.spent| + 1) * MAXOPBLOCKS <= LOGBLOCKS then g.(spent := g.spent[id := 0])
      else g
    case Change(id, b, data) =>
      if !Takes(start, g, op) then g
      else
        var log := if b in g.log then g.log else g.log + [b];
        Moment(g.view[b := data], g.spent[id := g.spent[id] + |log| - |g.log|], log)
    case End(id) =>
      if id !in g.spent then g else Moment(g.view, g.spent - {id}, if g.spent - {id} == map[] then [] else g.log)
  }

  ghost predicate RunOf(start: nat, gs: seq<Moment>, ops: seq<Op>) {
    && 1 <= |gs| <= |ops| + 1
    && forall i :: 0 <= i < |gs| - 1 ==> !Halts(start, gs[i], ops[i]) && gs[i + 1] == Next(start, gs[i], ops[i])
  }

  /** No operation has spent more than it reserved, and the header has room for the rest. */
  ghost predicate Roomy(g: Moment) { WithinBudget(g.spent) && |g.log| + Unspent(g.spent) <= LOGBLOCKS }

  /** A change by an operation that has reserved space left never finds the header full, and
      whatever the others do such space stays reserved. */
  lemma RoomyStep(start: nat, g: Moment, op: Op)
    requires Roomy(g) && (Takes(start, g, op) ==> g.spent[op.id] < MAXOPBLOCKS)
    ensures !Halts(start, g, op) && Roomy(Next(start, g, op))
  {
    hide Unspent;
    match op
    case Begin(id) =>
      UnspentBound(g.spent);
      UnspentUpdate(g.spent, id, 0);
    case Change(id, b, data) =>
      if Takes(start, g, op) {
        UnspentSplit(g.spent, id);
        UnspentUpdate(g.spent, id, g.spent[id] + 1);
        assert g.spent[id := g.spent[id]] == g.spent;
      }
    case End(id) =>
      if id in g.spent {
        UnspentSplit(g.spent, id);
      }
  }

  /** Every change is by an operation that has reserved space left. */
  ghost predicate InBudget(start: nat, gs: seq<Moment>, ops: seq<Op>) {
    forall i :: 0 <= i < |gs| && i < |ops| && Takes(start, gs[i], ops[i]) ==> gs[i].spent[ops[i].id] < MAXOPBLOCKS
  }

  /** Then no step of the run finds the header full. */
  lemma {:induction false} NeverTooBig(start: nat, gs: seq<Moment>, ops: seq<Op>, n: nat)
    requires RunOf(start, gs, ops) && InBudget(start, gs, ops) && Roomy(gs[0]) && n < |gs|
    ensures Roomy(gs[n]) && (n < |ops| ==> !Halts(start, gs[n], ops[n]))
  {
    hide Roomy, Next, Halts;
    if n > 0 {
      NeverTooBig(start, gs, ops, n - 1);
      RoomyStep(start, gs[n - 1], ops[n - 1]);
    }
    if n < |ops| {
      RoomyStep(start, gs[n], ops[n]);
    }
  }

  /** The distinct blocks that operation id has changed since it was admitted. */
  ghost function Touched(start: nat, gs: seq<Moment>, ops: seq<Op>, id: nat, n: nat): set<nat>
    requires n < |gs| && n <= |ops|
  {
    if n == 0 then {}
    else
      var g, op := gs[n - 1], ops[n - 1];
      if op == Begin(id) && id !in g.spent then {}
      else Touched(start, gs, ops, id, n - 1) + (if Takes(start, g, op) && op.id == id then {op.b} else {})
  }

  /** Every operation changes fewer distinct blocks than it reserves. */
  ghost predicate Small(start: nat, gs: seq<Moment>, ops: seq<Op>) {
    forall n: nat, id: nat :: n < |gs| && n <= |ops| ==> |Touched(start, gs, ops, id, n)| < MAXOPBLOCKS
  }

  /** What it has spent is at most what it has touched of the header. */
  ghost predicate Accounted(g: Moment, id: nat, touched: set<nat>) {
    id in g.spent ==> g.spent[id] <= |touched * Elements(g.log)|
  }

  lemma ElementsMore(log: seq<nat>, b: nat)
    ensures Elements(log + [b]) == Elements(log) + {b}
  {
  }

  lemma SetSizes(a: set<nat>, b: set<nat>)
    requires a <= b
    ensures |a| <= |b|
  {
    assert b == a + (b - a);
  }

  lemma Met(touched: set<nat>, more: set<nat>, log: set<nat>, after: set<nat>)
    requires log <= after
    ensures |touched * log| <= |(touched + more) * after|
  {
    SetSizes(touched * log, (touched + more) * after);
  }

  lemma MetOne(touched: set<nat>, log: set<nat>, b: nat)
    requires b !in log
    ensures |touched * log| + 1 <= |(touched + {b}) * (log + {b})|
  {
    SetSizes(touched * log + {b}, (touched + {b}) * (log + {b}));
  }

  lemma AccountedStep(start: nat, g: Moment, op: Op, id: nat, touched: set<nat>)
    requires Accounted(g, id, touched)
    ensures var more := if Takes(start, g, op) && op.id == id then {op.b} else {};
            Accounted(Next(start, g, op), id, if op == Begin(id) && id !in g.spent then {} else touched + more)
  {
    hide Elements;
    match op
    case Begin(_) => assert touched + {} == touched;
    case End(_) => assert touched + {} == touched;
    case Change(_, b, _) =>
      assert touched + {} == touched;
      if Takes(start, g, op) {
        var log := Next(start, g, op).log;
        if b !in g.log {
          ElementsMore(g.log, b);
          MetOne(touched, Elements(g.log), b);
        }
        Met(touched, if op.id == id then {b} else {}, Elements(g.log), Elements(log));
      }
  }

  lemma NoneSpent(g: Moment, id: nat)
    requires g.spent == map[]
    ensures Accounted(g, id, {})
  {
  }

  lemma {:induction false} SpentOnTouched(start: nat, gs: seq<Moment>, ops: seq<Op>, id: nat, n: nat)
    requires RunOf(start, gs, ops) && gs[0].spent == map[] && n < |gs| && n <= |ops|
    ensures Accounted(gs[n], id, Touched(start, gs, ops, id, n))
  {
    hide Accounted, Next, Takes;
    if n == 0 {
      NoneSpent(gs[0], id);
    } else {
      SpentOnTouched(start, gs, ops, id, n - 1);
      AccountedStep(start, gs[n - 1], ops[n - 1], id, Touched(start, gs, ops, id, n - 1));
    }
  }

  /** Operations that keep to nine distinct blocks each, however often they write them and however
      they interleave, are always within their reservation, and no change finds the header full. */
  lemma SmallNeverHalts(start: nat, gs: seq<Moment>, ops: seq<Op>, n: nat)
    requires RunOf(start, gs, ops) && Small(start, gs, ops) && gs[0].spent == map[] && gs[0].log == [] && n < |gs|
    ensures InBudget(start, gs, ops) && (n < |ops| ==> !Halts(start, gs[n], ops[n]))
  {
    hide Halts, Next, Touched;
    forall i | 0 <= i < |gs| && i < |ops| && Takes(start, gs[i], ops[i])
      ensures gs[i].spent[ops[i].id] < MAXOPBLOCKS
    {
      var id := ops[i].id;
      var touched := Touched(start, gs, ops, id, i);
      SpentOnTouched(start, gs, ops, id, i);
      SetSizes(touched * Elements(gs[i].log), touched);
    }
    NeverTooBig(start, gs, ops, n);
  }

  /** In particular the chunks of filewrite(), each of which passes at most nine distinct blocks to
      log_write(): a second begin_op() finds room beside a chunk that has logged all of its nine. */
  lemma ChunksNeverHalt(start: nat, gs: seq<Moment>, ops: seq<Op>, logged: (nat, nat) -> set<nat>, n: nat)
    requires RunOf(start, gs, ops) && gs[0].spent == map[] && gs[0].log == [] && n < |gs|
    requires forall k: nat, id: nat :: k < |gs| && k <= |ops| ==>
               Touched(start, gs, ops, id, k) <= logged(id, k) && |logged(id, k)| <= 9
    ensures n < |ops| ==> !Halts(start, gs[n], ops[n])
    ensures forall g: Moment, id: nat :: |g.log| <= 9 && |g.spent| == 1 && id !in g.spent ==>
              id in Next(start, g, Begin(id)).spent
  {
    hide Halts, Touched, RunOf;
    forall k: nat, id: nat | k < |gs| && k <= |ops| ensures |Touched(start, gs, ops, id, k)| < MAXOPBLOCKS {
      SetSizes(Touched(start, gs, ops, id, k), logged(id, k));
    }
    SmallNeverHalts(start, gs, ops, n);
  }

  // ---------------------------------------------------------------- a block written once too often

  /** How many of the first k blocks operation id has logged, ten by each. */
  function Share(id: nat, k: nat): nat {
    if k <= MAXOPBLOCKS * id then 0 else if k >= MAXOPBLOCKS * (id + 1) then MAXOPBLOCKS else k - MAXOPBLOCKS * id
  }

  function Shares(k: nat): map<nat, nat> { map[0 := Share(0, k), 1 := Share(1, k), 2 := Share(2, k)] }

  /** Three operations have logged the k blocks from base on. */
  ghost predicate Filling(g: Moment, base: nat, k: nat, size: nat) {
    |g.view| == size && g.spent == Shares(k) && g.log == seq(k, i requires 0 <= i < k => base + i)
  }

  predicate HomeRange(start: nat, size: nat, base: nat) {
    base + LOGBLOCKS <= size && forall b :: base <= b < base + LOGBLOCKS ==> !InLog(start, b)
  }

  lemma FillStep(start: nat, g: Moment, base: nat, k: nat, size: nat, data: Block)
    requires Filling(g, base, k, size) && k < LOGBLOCKS && HomeRange(start, size, base)
    ensures var op := Change(k / MAXOPBLOCKS, base + k, data);
            !Halts(start, g, op) && Filling(Next(start, g, op), base, k + 1, size)
  {
    var op := Change(k / MAXOPBLOCKS, base + k, data);
    var h := Next(start, g, op);
    assert k / MAXOPBLOCKS in g.spent;
    assert base + k !in g.log;
    assert h.log == seq(k + 1, i requires 0 <= i < k + 1 => base + i);
    assert h.spent == Shares(k + 1);
  }

  lemma ThreeBegin(start: nat, g: Moment)
    requires g.spent == map[] && g.log == []
    ensures var g1 := Next(start, g, Begin(0));
            var g2 := Next(start, g1, Begin(1));
            Next(start, g2, Begin(2)) == g.(spent := Shares(0))
  {
    var g1 := Next(start, g, Begin(0));
    assert g1.spent == map[0 := 0] && |g1.spent| == 1;
    var g2 := Next(start, g1, Begin(1));
    assert g2.spent == map[0 := 0, 1 := 0] && |g2.spent| == 2;
  }

  /** Operation id changes only its ten blocks. */
  predicate OwnBlocks(base: nat, op: Op) {
    op.Change? ==> base + MAXOPBLOCKS * op.id <= op.b < base + MAXOPBLOCKS * (op.id + 1)
  }

  /** log_write() looks at the room in the header before it looks for the block.  Three operations
      that keep to ten blocks each fill the header, and the next change of a block that is in it
      already panics. */
  lemma WrittenAgain(start: nat, view: Disk, base: nat, data: Block) returns (gs: seq<Moment>, ops: seq<Op>)
    requires HomeRange(start, |view|, base)
    ensures RunOf(start, gs, ops) && |gs| == |ops| && gs[0] == Moment(view, map[], [])
    ensures forall i :: 0 <= i < |ops| ==> OwnBlocks(base, ops[i])
    ensures var last := |ops| - 1; Halts(start, gs[last], ops[last]) && ops[last].b in gs[last].log
  {
    hide Halts, Next, Filling, OwnBlocks;
    var g0 := Moment(view, map[], []);
    ThreeBegin(start, g0);
    var g1 := Next(start, g0, Begin(0));
    var g2 := Next(start, g1, Begin(1));
    var g3 := Next(start, g2, Begin(2));
    gs, ops := [g0, g1, g2, g3], [Begin(0), Begin(1), Begin(2)];
    BeginsRun(start, base, gs, ops);
    var k := 0;
    while k < LOGBLOCKS
      invariant k <= LOGBLOCKS && |gs| == |ops| + 1 && RunOf(start, gs, ops) && gs[0] == g0
      invariant Filling(gs[|ops|], base, k, |view|) && forall i :: 0 <= i < |ops| ==> OwnBlocks(base, ops[i])
    {
      var op := Change(k / MAXOPBLOCKS, base + k, data);
      FillStep(start, gs[|ops|], base, k, |view|, data);
      OwnOne(base, k, data);
      gs, ops := gs + [Next(start, gs[|ops|], op)], ops + [op];
      k := k + 1;
    }
    var op := Change(2, base + LOGBLOCKS - 1, data);
    FullHeader(start, gs[|ops|], base, |view|, data);
    OwnOne(base, LOGBLOCKS - 1, data);
    ops := ops + [op];
  }

  lemma BeginsRun(start: nat, base: nat, gs: seq<Moment>, ops: seq<Op>)
    requires |gs| == 4 && ops == [Begin(0), Begin(1), Begin(2)] && gs[0].spent == map[] && gs[0].log == []
    requires gs[1] == Next(start, gs[0], ops[0]) && gs[2] == Next(start, gs[1], ops[1])
    requires gs[3] == Next(start, gs[2], ops[2])
    ensures RunOf(start, gs, ops) && Filling(gs[3], base, 0, |gs[0].view|)
    ensures forall i :: 0 <= i < 3 ==> OwnBlocks(base, ops[i])
  {
    ThreeBegin(start, gs[0]);
  }

  lemma OwnOne(base: nat, k: nat, data: Block)
    ensures OwnBlocks(base, Change(k / MAXOPBLOCKS, base + k, data))
  {
  }

  lemma FullHeader(start: nat, g: Moment, base: nat, size: nat, data: Block)
    requires Filling(g, base, LOGBLOCKS, size) && HomeRange(start, size, base)
    ensures Halts(start, g, Change(2, base + LOGBLOCKS - 1, data)) && base + LOGBLOCKS - 1 in g.log
  {
    assert g.log[LOGBLOCKS - 1] == base + LOGBLOCKS - 1;
  }

  // ---------------------------------------------------------------- what a crash recovers to

  /** The home blocks of the last moment in which no operation was in progress. */
  ghost function LastQuiet(gs: seq<Moment>): Disk
    requires |gs| > 0
    decreases |gs|
  {
    var k := |gs| - 1;
    if k > 0 && gs[k].spent != map[] then LastQuiet(gs[..k]) else gs[k].view
  }

  /** What k writes into step i are worth: from the header write of a commit on, all of it. */
  ghost function Durable(gs: seq<Moment>, i: nat, k: nat): Disk
    requires i + 1 < |gs|
  {
    if k <= |gs[i].log| then LastQuiet(gs[..i + 1]) else gs[i + 1].view
  }

  ghost predicate CrashAt(start: nat, d: Disk, ws: seq<Write>, gs: seq<Moment>, i: nat, from: nat, k: nat) {
    i + 1 < |gs| && from <= k <= |ws| && RecoversTo(start, d, ws[..k], Durable(gs, i, k - from))
  }

  /** A crash after any of the writes ws; marks[i] of them come before step i. */
  ghost predicate Crashes(start: nat, d: Disk, ws: seq<Write>, gs: seq<Moment>, marks: seq<nat>) {
    && |marks| == |gs| > 0 && marks[0] == 0 && marks[|gs| - 1] == |ws|
    && forall i, k :: 0 <= i < |gs| - 1 && marks[i] <= k <= marks[i + 1] ==> CrashAt(start, d, ws, gs, i, marks[i], k)
  }

  /** The writes ws of one step, which takes g to h and the disk from d to e. */
  ghost predicate StepCrash(start: nat, d: Disk, ws: seq<Write>, e: Disk, g: Moment, h: Moment) {
    && Fits(ws, |d|) && e == Apply(d, ws) && Home(start, e) == (if h.spent == map[] then h.view else Home(start, d))
    && forall k :: 0 <= k <= |ws| ==> RecoversTo(start, d, ws[..k], if k <= |g.log| then Home(start, d) else h.view)
  }

  lemma NoWrites(start: nat, d: Disk)
    requires Clean(start, d)
    ensures Fits([], |d|) && Apply(d, []) == d && RecoversTo(start, d, [], Home(start, d))
  {
    ApplyNone(d);
  }

  lemma RecoversMore(start: nat, d: Disk, ws: seq<Write>, more: seq<Write>, h: Disk)
    requires Fits(ws, |d|) && |Apply(d, ws)| == |d| && RecoversTo(start, Apply(d, ws), more, h)
    ensures RecoversTo(start, d, ws + more, h)
  {
    ApplyConcat(d, ws, more);
  }

  lemma LastMore(gs: seq<Moment>, h: Moment)
    requires |gs| > 0
    ensures LastQuiet(gs + [h]) == if h.spent == map[] then h.view else LastQuiet(gs)
  {
    assert (gs + [h])[..|gs|] == gs;
  }

  lemma CrashAtStep(start: nat, d: Disk, ws: seq<Write>, e: Disk, g: Moment, h: Moment, k: nat)
    requires StepCrash(start, d, ws, e, g, h) && k <= |ws|
    ensures RecoversTo(start, d, ws[..k], if k <= |g.log| then Home(start, d) else h.view)
  {
    hide RecoversTo, Home, Apply, Fits;
  }

  lemma CrashNew(start: nat, d: Disk, d1: Disk, ws: seq<Write>, more: seq<Write>, gs: seq<Moment>, e: Disk,
                 h: Moment, k: nat)
    requires |gs| > 0 && Fits(ws, |d|) && d1 == Apply(d, ws) && Home(start, d1) == LastQuiet(gs) && k <= |more|
    requires StepCrash(start, d1, more, e, gs[|gs| - 1], h)
    ensures CrashAt(start, d, ws + more, gs + [h], |gs| - 1, |ws|, |ws| + k)
  {
    hide RecoversTo, Home, Apply, Fits, StepCrash, LastQuiet;
    CrashAtStep(start, d1, more, e, gs[|gs| - 1], h, k);
    assert (gs + [h])[..|gs|] == gs && (ws + more)[..|ws| + k] == ws + more[..k];
    RecoversMore(start, d, ws, more[..k], if k <= |gs[|gs| - 1].log| then Home(start, d1) else h.view);
  }

  lemma CrashOld(start: nat, d: Disk, ws: seq<Write>, more: seq<Write>, gs: seq<Moment>, h: Moment, i: nat,
                 from: nat, k: nat)
    requires CrashAt(start, d, ws, gs, i, from, k)
    ensures CrashAt(start, d, ws + more, gs + [h], i, from, k)
  {
    hide RecoversTo, LastQuiet;
    assert (gs + [h])[..i + 1] == gs[..i + 1] && (ws + more)[..k] == ws[..k];
  }

  lemma CrashNext(start: nat, d: Disk, d1: Disk, ws: seq<Write>, more: seq<Write>, gs: seq<Moment>, marks: seq<nat>,
                  e: Disk, h: Moment, i: nat, k: nat)
    requires Crashes(start, d, ws, gs, marks) && Fits(ws, |d|) && d1 == Apply(d, ws) && Home(start, d1) == LastQuiet(gs)
    requires StepCrash(start, d1, more, e, gs[|gs| - 1], h)
    requires i < |gs| && marks[i] <= k <= if i == |gs| - 1 then |ws + more| else marks[i + 1]
    ensures CrashAt(start, d, ws + more, gs + [h], i, marks[i], k)
  {
    hide RecoversTo, Home, LastQuiet, CrashAt, Apply, Fits, StepCrash;
    if i == |gs| - 1 {
      CrashNew(start, d, d1, ws, more, gs, e, h, k - |ws|);
    } else {
      assert CrashAt(start, d, ws, gs, i, marks[i], k);
      CrashOld(start, d, ws, more, gs, h, i, marks[i], k);
    }
  }

  /** One more step keeps the promise. */
  lemma CrashesMore(start: nat, d: Disk, d1: Disk, ws: seq<Write>, more: seq<Write>, gs: seq<Moment>, marks: seq<nat>,
                    e: Disk, h: Moment)
    requires Crashes(start, d, ws, gs, marks) && Fits(ws, |d|) && d1 == Apply(d, ws) && Home(start, d1) == LastQuiet(gs)
    requires StepCrash(start, d1, more, e, gs[|gs| - 1], h)
    ensures Crashes(start, d, ws + more, gs + [h], marks + [|ws + more|])
  {
    hide RecoversTo, Home, LastQuiet, CrashAt, Apply, Fits, StepCrash;
    var ms, hs := marks + [|ws + more|], gs + [h];
    forall i, k | 0 <= i < |gs| && ms[i] <= k <= ms[i + 1] ensures CrashAt(start, d, ws + more, hs, i, ms[i], k) {
      hide Crashes;
      CrashNext(start, d, d1, ws, more, gs, marks, e, h, i, k);
    }
  }

  lemma HomeChange(start: nat, v: Disk, b: nat, data: Block)
    requires b < |v| && !InLog(start, b)
    ensures |Home(start, v)| == |v| && Home(start, v[b := data]) == Home(start, v)[b := data]
  {
  }

  lemma HomeAfter(start: nat, d: Disk, ws: seq<Write>, e: Disk, g: Moment, h: Moment)
    requires StepCrash(start, d, ws, e, g, h)
    ensures Home(start, e) == if h.spent == map[] then h.view else Home(start, d)
  {
    hide RecoversTo, Home, Apply, Fits;
  }

  lemma WritesMore(start: nat, d: Disk, ws: seq<Write>, more: seq<Write>, e: Disk, g: Moment, h: Moment)
    requires Fits(ws, |d|) && StepCrash(start, Apply(d, ws), more, e, g, h)
    ensures Fits(ws + more, |d|) && Apply(d, ws + more) == e
  {
    hide RecoversTo, Home;
    ApplyConcat(d, ws, more);
  }

  // ---------------------------------------------------------------- the code

  class Log {
    const start: nat
    var disk: Disk
    var view: Disk
    var n: nat            // log.lh.n
    var block: seq<nat>   // log.lh.block
    var outstanding: nat
    var committing: bool
    ghost var spent: map<nat, nat>
    ghost var writes: seq<Write> // every bwrite so far

    ghost predicate Shape()
      reads this
    {
      && start + LOGBLOCKS < |disk| == |view|
      && |block| == LOGBLOCKS && n <= LOGBLOCKS
      && Targets(start, |disk|, block[..n]) && NoRepeats(block[..n])
      && |view[start]| == WORDS
    }

    /** Only blocks named in the in-memory header differ between cache and disk. */
    ghost predicate Synced(blocks: seq<nat>)
      reads this
    {
      |view| == |disk| && forall a :: 0 <= a < |disk| && a !in blocks ==> view[a] == disk[a]
    }

    /** While every operation keeps to its ten blocks, the header has room for the rest of them. */
    ghost predicate Reserved()
      reads this
    {
      WithinBudget(spent) && n + Unspent(spent) <= LOGBLOCKS
    }

    /** The state between critical sections. */
    ghost predicate Valid()
      reads this
    {
      Shape() && Clean(start, disk) && Synced(block[..n]) && |spent| == outstanding && (committing ==> outstanding == 0)
    }

    /** Overwrite one cached block and write it to the disk. */
    method Store(a: nat, data: Block)
      requires a < |disk| == |view|
      modifies this`disk, this`view, this`writes
      ensures view == old(view)[a := data] && disk == old(disk)[a := data]
      ensures writes == old(writes) + [Write(a, data)]
    {
      view := view[a := data];
      disk := disk[a := view[a]]; // bwrite
      writes := writes + [Write(a, data)];
    }

    method WriteLog()
      requires Shape()
      modifies this`disk, this`view, this`writes
      ensures var ws := LogWrites(start, old(view), block[..n]);
              && Fits(ws, |old(disk)|) && writes == old(writes) + ws
              && disk == Apply(old(disk), ws) && view == Apply(old(view), ws)
    {
      hide Apply;
      var tail := 0;
      ghost var ws := LogWrites(start, view, block[..n]);
      ApplyNone(disk);
      ApplyNone(view);
      while tail < n
        invariant tail <= n && Fits(ws, |old(disk)|)
        invariant disk == Apply(old(disk), ws[..tail]) && view == Apply(old(view), ws[..tail])
        invariant writes == old(writes) + ws[..tail]
      {
        ApplyOne(old(disk), ws, tail);
        ApplyOne(old(view), ws, tail);
        assert block[..n][tail] == block[tail];
        ApplyElsewhere(old(view), ws[..tail], block[tail]);
        Store(start + tail + 1, view[block[tail]]);
        tail := tail + 1;
      }
      assert ws[..n] == ws;
    }

    method WriteHead()
      requires Shape()
      modifies this`disk, this`view, this`writes
      ensures var head := HeadWrite(start, old(view)[start], block[..n]);
              && view == old(view)[start := head.data] && disk == old(disk)[start := head.data]
              && writes == old(writes) + [head]
    {
      var hb := view[start];
      hb := hb[0 := n];
      var i := 0;
      while i < n
        invariant i <= n && |hb| == WORDS && hb[0] == n
        invariant forall j :: 1 <= j <= i ==> hb[j] == block[j - 1]
        invariant forall j :: i < j < WORDS && j != 0 ==> hb[j] == view[start][j]
      {
        hb := hb[i + 1 := block[i]];
        i := i + 1;
      }
      assert hb == EncodeHead(view[start], block[..n]);
      Store(start, hb);
    }

    method InstallTrans()
      requires Shape()
      modifies this`disk, this`view, this`writes
      ensures var ws := InstallWrites(start, old(view), block[..n]);
              && Fits(ws, |old(disk)|) && writes == old(writes) + ws
              && disk == Apply(old(disk), ws) && view == Apply(old(view), ws)
    {
      hide Apply;
      var tail := 0;
      ghost var ws := InstallWrites(start, view, block[..n]);
      ApplyNone(disk);
      ApplyNone(view);
      while tail < n
        invariant tail <= n && Fits(ws, |old(disk)|)
        invariant disk == Apply(old(disk), ws[..tail]) && view == Apply(old(view), ws[..tail])
        invariant writes == old(writes) + ws[..tail]
      {
        ApplyOne(old(disk), ws, tail);
        ApplyOne(old(view), ws, tail);
        assert block[..n][tail] == block[tail];
        ApplyElsewhere(old(view), ws[..tail], start + tail + 1);
        Store(block[tail], view[start + tail + 1]);
        tail := tail + 1;
      }
      assert ws[..n] == ws;
    }

    /** commit(): the disk writes are CommitWrites, so a crash after any of them recovers to
        the home blocks before the group or, from the header write on, to those after it. */
    method Commit()
      requires Shape() && Clean(start, disk) && Synced(block[..n])
      modifies this`disk, this`view, this`n, this`writes
      ensures Shape() && Clean(start, disk) && n == 0 && Synced([])
      ensures Home(start, disk) == Home(start, view) == Home(start, old(view))
      ensures var ws := CommitWrites(start, old(disk), old(view), old(block[..n]));
              && writes == old(writes) + ws && Fits(ws, |old(disk)|) && disk == Apply(old(disk), ws)
              && forall k :: 0 <= k <= |ws| ==>
                   RecoversTo(start, old(disk), ws[..k],
                     if k <= old(n) then Home(start, old(disk)) else Home(start, old(view)))
    {
      ghost var blocks := block[..n];
      ghost var cw := CommitWrites(start, disk, view, blocks);
      assert Updated(start, disk, view, blocks) == Home(start, view);
      forall k | 0 <= k <= |cw|
        ensures RecoversTo(start, disk, cw[..k], if k <= n then Home(start, disk) else Home(start, view))
      {
        CommitCrash(start, disk, view, blocks, k);
      }
      CommitDone(start, disk, view, blocks);
      if n > 0 {
        CommitBusy();
      }
    }

    method CommitBusy()
      requires Shape() && Clean(start, disk) && Synced(block[..n]) && n > 0
      modifies this`disk, this`view, this`n, this`writes
      ensures |view| == |disk| && view == disk && n == 0
      ensures var ws := CommitWrites(start, old(disk), old(view), old(block[..n]));
              Fits(ws, |old(disk)|) && disk == Apply(old(disk), ws) && writes == old(writes) + ws
    {
      hide Apply, LogWrites, InstallWrites, EncodeHead, CommitWrites, HeadOk, HeadBlocks;
      ghost var d0, v0, blocks := disk, view, block[..n];
      ghost var log, e := LogWrites(start, v0, blocks), EncodeHead(d0[start], blocks);
      HeadDisk(start, d0, v0, blocks);
      LoggedPhase(start, d0, v0, blocks);
      WriteLog();
      WriteHead();
      ghost var d2, v2 := disk, view;
      InstalledPhase(start, d2, v2, blocks);
      InstallTrans();
      n := 0;
      WriteHead();
      CommitApplied(start, d0, v0, blocks);
    }

    method ReadHead()
      requires start + LOGBLOCKS < |disk| == |view| && |block| == LOGBLOCKS
      requires DiskOk(start, disk) && view == disk
      modifies this`n, this`block
      ensures Shape() && block[..n] == Logged(start, disk)
    {
      var lh := view[start];
      n := lh[0];
      var i := 0;
      while i < n
        invariant i <= n == lh[0] && |block| == LOGBLOCKS
        invariant forall j :: 0 <= j < i ==> block[j] == lh[j + 1]
      {
        block := block[i := lh[i + 1]];
        i := i + 1;
      }
      assert block[..n] == Logged(start, disk);
    }

    /** recover_from_log(): reaches the meaning of the disk; so does every crash on the way. */
    method RecoverFromLog()
      requires start + LOGBLOCKS < |disk| == |view| && |block| == LOGBLOCKS
      requires DiskOk(start, disk) && view == disk
      modifies this`n, this`block, this`disk, this`view, this`writes
      ensures Shape() && n == 0 && Clean(start, disk) && view == disk
      ensures Home(start, disk) == Logical(start, old(disk))
      ensures var ws := RecoverWrites(start, old(disk));
              && writes == old(writes) + ws
              && forall k :: 0 <= k <= |ws| ==> RecoversTo(start, old(disk), ws[..k], Logical(start, old(disk)))
    {
      ghost var d0, ws := disk, RecoverWrites(start, disk);
      forall k | 0 <= k <= |ws| ensures RecoversTo(start, d0, ws[..k], Logical(start, d0)) {
        RecoverCrash(start, d0, k);
      }
      RecoverDone(start, d0);
      ReadHead();
      ghost var ins, head := InstallWrites(start, d0, block[..n]), HeadWrite(start, d0[start], []);
      ApplyConcat(d0, ins, [head]);
      ApplyElsewhere(d0, ins, start);
      InstallTrans(); // install_trans(1)
      n := 0;
      assert block[..n] == [];
      WriteHead();
      assert disk == Apply(d0, ws) by {
        assert Apply(Apply(d0, ins), [head]) == Apply(d0, ins)[start := head.data];
      }
    }

    /** initlog(), on a freshly booted machine: the cache is empty, so bread sees the disk. */
    constructor (start: nat, d: Disk)
      requires start + LOGBLOCKS < |d| && DiskOk(start, d)
      ensures Valid() && Reserved() && this.start == start && n == 0 && outstanding == 0 && !committing
      ensures spent == map[]
      ensures Home(start, view) == Home(start, disk)
      ensures Home(start, disk) == Logical(start, d)
    {
      this.start := start;
      disk, view, n, block := d, d, 0, seq(LOGBLOCKS, _ => 0);
      outstanding, committing, spent, writes := 0, false, map[], [];
      new;
      RecoverFromLog();
    }

    /** One pass of the loop in begin_op; a process that is not admitted sleeps and retries. */
    method BeginOp(op: nat) returns (admitted: bool)
      requires Valid() && op !in spent
      modifies this`outstanding, this`spent
      ensures Valid() && (old(Reserved()) ==> Reserved())
      ensures admitted <==> !committing && n + (old(outstanding) + 1) * MAXOPBLOCKS <= LOGBLOCKS
      ensures outstanding == old(outstanding) + (if admitted then 1 else 0)
      ensures spent == if admitted then old(spent)[op := 0] else old(spent)
    {
      if committing {
        return false;
      } else if n + (outstanding + 1) * MAXOPBLOCKS > LOGBLOCKS {
        return false;
      }
      if WithinBudget(spent) {
        UnspentBound(spent);
        UnspentUpdate(spent, op, 0);
      }
      outstanding := outstanding + 1;
      spent := spent[op := 0];
      return true;
    }

    /** log_write() of block b by operation op, which has just changed the buffer to data.  It
        panics exactly if the header is full or no operation is in progress, which an operation
        with unspent reservation never meets; the block enters the header once however often it
        is written (absorption). */
    method LogWrite(op: nat, b: nat, data: Block) returns (panicked: bool)
      requires Valid() && b < |disk| && !InLog(start, b)
      modifies this`view, this`n, this`block, this`spent
      ensures view == old(view)[b := data]
      ensures panicked <==> old(n) >= LOGBLOCKS || outstanding < 1
      ensures panicked ==> n == old(n) && block == old(block) && spent == old(spent)
      ensures !panicked ==>
                && n <= |block|
                && block[..n] == (if b in old(block[..n]) then old(block[..n]) else old(block[..n]) + [b])
                && spent == (if op in old(spent) then old(spent)[op := old(spent)[op] + n - old(n)] else old(spent))
      ensures !panicked ==> Valid()
      ensures old(Reserved()) && op in old(spent) && old(spent)[op] < MAXOPBLOCKS ==> !panicked && Reserved()
    {
      hide HeadOk, HeadBlocks, Unspent, WithinBudget;
      if Reserved() && op in spent && spent[op] < MAXOPBLOCKS {
        StillReserved(spent, op, n);
      }
      view := view[b := data];
      if n >= LOGBLOCKS {
        return true; // panic("too big a transaction")
      }
      if outstanding < 1 {
        return true; // panic("log_write outside of trans")
      }
      ghost var blocks := block[..n];
      var i := FindLogged(b);
      block := block[i := b];
      if i == n {
        n := n + 1;
        spent := if op in spent then spent[op := spent[op] + 1] else spent;
      }
      LoggedIs(blocks, block[..n], b, i);
      return false;
    }

    /** The loop of log_write(). */
    method FindLogged(b: nat) returns (i: nat)
      requires n <= |block|
      ensures i <= n && (i < n ==> block[i] == b) && (i == n ==> b !in block[..n])
    {
      i := 0;
      while i < n && block[i] != b
        invariant i <= n
        invariant b !in block[..i]
      {
        i := i + 1;
      }
    }

    /** end_op(): the last operation out commits everything logged so far, so the disk only
        ever moves from one state with no operation in progress to another. */
    method EndOp(op: nat) returns (committed: bool)
      requires Valid() && op in spent
      modifies this`outstanding, this`spent, this`committing, this`disk, this`view, this`n, this`writes
      ensures Valid() && !committing && spent == old(spent) - {op} && outstanding == old(outstanding) - 1
      ensures old(Reserved()) ==> Reserved()
      ensures committed <==> outstanding == 0
      ensures !committed ==> disk == old(disk) && view == old(view) && n == old(n) && writes == old(writes)
      ensures committed ==> n == 0 && Home(start, disk) == Home(start, view) == Home(start, old(view))
      ensures committed ==>
                var ws := CommitWrites(start, old(disk), old(view), old(block[..n]));
                && writes == old(writes) + ws && Fits(ws, |old(disk)|) && disk == Apply(old(disk), ws)
                && forall k :: 0 <= k <= |ws| ==>
                     RecoversTo(start, old(disk), ws[..k],
                       if k <= old(n) then Home(start, old(disk)) else Home(start, old(view)))
    {
      committed := EndOpEnter(op);
      if committed {
        Commit();
        committing := false;
      }
    }

    /** The first critical section of end_op. */
    method EndOpEnter(op: nat) returns (doCommit: bool)
      requires Valid() && op in spent
      modifies this`outstanding, this`spent, this`committing
      ensures Valid() && spent == old(spent) - {op} && outstanding == old(outstanding) - 1
      ensures doCommit == committing && (doCommit <==> outstanding == 0) && (old(Reserved()) ==> Reserved())
    {
      if WithinBudget(spent) {
        UnspentSplit(spent, op);
      }
      assert |spent - {op}| == |spent| - 1;
      outstanding := outstanding - 1;
      assert !committing; // so panic("log.committing") is not reached
      spent := spent - {op};
      doCommit := outstanding == 0;
      committing := doCommit;
    }

    /** What the operations see. */
    ghost function G(): Moment
      reads this
    {
      Moment(Home(start, view), spent, if n <= |block| then block[..n] else [])
    }

    /** Between steps: with no operation in progress the disk is what the cache is. */
    ghost predicate Settled()
      reads this
    {
      Valid() && !committing && (spent == map[] ==> n == 0 && Home(start, view) == Home(start, disk))
    }

    /** Any interleaving of operations does what the plain table of operations does, and ends early
        exactly at a log_write() that finds the header full.  A crash after any disk write recovers
        to the last moment without an operation in progress, or, from the header write of a commit
        on, to the moment which that commit reaches. */
    method Run(ops: seq<Op>) returns (halted: bool, ghost gs: seq<Moment>, ghost marks: seq<nat>, ghost ws: seq<Write>)
      requires Settled() && spent == map[]
      modifies this
      ensures RunOf(start, gs, ops) && gs[0] == old(G()) && old(Home(start, disk)) == gs[0].view
      ensures if halted then |gs| <= |ops| && Halts(start, gs[|gs| - 1], ops[|gs| - 1]) else |gs| == |ops| + 1
      ensures writes == old(writes) + ws && Crashes(start, old(disk), ws, gs, marks)
      ensures !halted ==> Settled() && G() == gs[|ops|] && Home(start, disk) == LastQuiet(gs)
    {
      hide Clean, Crashes, Home, Apply, Fits, LastQuiet, StepCrash, Halts, Next, G, Settled;
      var count: map<nat, nat> := map[];
      gs, marks, ws, halted := [G()], [0], [], false;
      Start();
      var i := 0;
      while i < |ops|
        invariant i <= |ops| && Settled() && count == spent && !halted
        invariant |gs| == i + 1 && RunOf(start, gs, ops) && gs[0] == old(G()) && G() == gs[i]
        invariant writes == old(writes) + ws && Fits(ws, |old(disk)|) && disk == Apply(old(disk), ws)
        invariant Crashes(start, old(disk), ws, gs, marks) && Home(start, disk) == LastQuiet(gs)
      {
        ghost var d1, more := disk, [];
        count, halted, more := Step(ops[i], count);
        if halted {
          return;
        }
        CrashesMore(start, old(disk), d1, ws, more, gs, marks, disk, G());
        WritesMore(start, old(disk), ws, more, disk, gs[i], G());
        LastMore(gs, G());
        HomeAfter(start, d1, more, disk, gs[i], G());
        gs, marks, ws := gs + [G()], marks + [|ws + more|], ws + more;
        i := i + 1;
      }
    }

    lemma Start()
      requires Settled() && spent == map[]
      ensures Home(start, disk) == G().view && G().spent == map[] && Fits([], |disk|) && Apply(disk, []) == disk
      ensures Crashes(start, disk, [], [G()], [0]) && LastQuiet([G()]) == Home(start, disk)
    {
      hide Home;
      ApplyNone(disk);
    }

    method Step(op: Op, count: map<nat, nat>) returns (after: map<nat, nat>, halted: bool, ghost ws: seq<Write>)
      requires Settled() && count == spent
      modifies this
      ensures halted <==> Halts(start, old(G()), op)
      ensures halted ==> writes == old(writes)
      ensures !halted ==>
                && Settled() && after == spent && G() == Next(start, old(G()), op)
                && writes == old(writes) + ws && StepCrash(start, old(disk), ws, disk, old(G()), G())
    {
      hide Clean, RecoversTo, CommitWrites, Unspent, Apply, Fits;
      after, halted, ws := count, false, [];
      NoWrites(start, disk);
      match op
      case Begin(id) =>
        if id !in count {
          var admitted := BeginOp(id);
          if admitted {
            after := count[id := 0];
          }
        }
      case Change(id, b, data) =>
        if id in count && b < |disk| && !InLog(start, b) {
          after, halted := ChangeStep(id, b, data, count);
        }
      case End(id) =>
        if id in count {
          ws := EndStep(id);
          after := count - {id};
        }
    }

    method ChangeStep(id: nat, b: nat, data: Block, count: map<nat, nat>) returns (after: map<nat, nat>, halted: bool)
      requires Settled() && count == spent && id in spent && b < |disk| && !InLog(start, b)
      modifies this`view, this`n, this`block, this`spent
      ensures halted <==> Halts(start, old(G()), Change(id, b, data))
      ensures !halted ==> Settled() && after == spent && G() == Next(start, old(G()), Change(id, b, data))
    {
      hide Clean, Unspent, Targets, Home, NoRepeats;
      HomeChange(start, view, b, data);
      var before := n;
      halted := LogWrite(id, b, data);
      after := count;
      if !halted {
        after := count[id := count[id] + n - before];
      }
    }

    method EndStep(id: nat) returns (ghost ws: seq<Write>)
      requires Settled() && id in spent
      modifies this
      ensures Settled() && G() == Next(start, old(G()), End(id))
      ensures writes == old(writes) + ws && StepCrash(start, old(disk), ws, disk, old(G()), G())
    {
      hide Clean, RecoversTo, CommitWrites, Unspent, Apply, Fits;
      NoWrites(start, disk);
      ghost var cw := CommitWrites(start, disk, view, block[..n]);
      var committed := EndOp(id);
      ws := if committed then cw else [];
    }
  }
}
