/** The code of kernel/vm.c, with growproc(), sbrk(), fork and teardown from kernel/proc.c and
    kernel/sysproc.c. */
module Vm {
  import Sv39
  import opened Counting
  import opened PageAlloc
  import opened VmState
  import opened VmWorld
  import opened Params

  datatype Outcome = Done | Denied | NoMemory

  /** What an eager world allows: the page is the user's and writable (readable). */
  ghost predicate MayStore(pr: Proc, va: nat) {
    va / PGSIZE < |pr.acc| && pr.acc[va / PGSIZE].user && pr.acc[va / PGSIZE].write
  }

  ghost predicate MayLoad(pr: Proc, va: nat) {
    va / PGSIZE < |pr.acc| && pr.acc[va / PGSIZE].user
  }

  lemma StoreAccess(s: St, p: nat, va: nat, sz: map<nat, nat>)
    requires p in sz
    ensures var h, inside := User(p, va / PGSIZE), va / PGSIZE < Npages(sz[p]);
            && (MayStore(Abs(s.m, s.ptes, sz)[p], va) <==>
                inside && (h !in s.ptes || (s.ptes[h].u && (s.ptes[h].w || s.ptes[h].cow))))
            && (MayLoad(Abs(s.m, s.ptes, sz)[p], va) <==> inside && (h !in s.ptes || s.ptes[h].u))
  {
  }

  /** Storing bytes changes no page's protection. */
  lemma StoredMay(pr: Proc, a: nat, bytes: seq<int>, va: nat)
    requires a + |bytes| <= |pr.mem|
    ensures MayStore(Stored(pr, a, bytes), va) <==> MayStore(pr, va)
  {
  }

  lemma SamePage(pr: Proc, va: nat, n: nat)
    requires MayLoad(pr, va) && n <= PGSIZE - va % PGSIZE
    ensures forall a :: va <= a < va + n ==> MayLoad(pr, a)
  {
    assert forall a :: va <= a < va + n ==> a / PGSIZE == va / PGSIZE;
  }

  lemma PageAbove(va: nat, sz: nat)
    ensures va - va % PGSIZE >= sz ==> va / PGSIZE >= Npages(sz)
    ensures va - va % PGSIZE >= MAXVA ==> va / PGSIZE >= MAXPAGES
  {
  }

  /** The number of pages that [va, va + n) touches. */
  function Touched(va: nat, n: nat): nat {
    if n == 0 then 0 else (va + n - 1) / PGSIZE - va / PGSIZE + 1
  }

  lemma TouchedMore(va: nat, done: nat, n: nat, all: nat)
    requires 0 < n <= PGSIZE - (va + done) % PGSIZE && done + n <= all
    requires done == 0 || (va + done) % PGSIZE == 0
    ensures Touched(va, done + n) == Touched(va, done) + 1 <= Touched(va, all)
  {
    assert (va + done + n - 1) / PGSIZE == (va + done) / PGSIZE;
    if done > 0 {
      assert (va + done - 1) / PGSIZE == (va + done) / PGSIZE - 1;
    }
    assert (va + done + n - 1) / PGSIZE <= (va + all - 1) / PGSIZE;
  }

  lemma MayStoreEntry(s: St, p: nat, va: nat, sz: map<nat, nat>)
    requires p in sz && User(p, va / PGSIZE) in s.ptes && va / PGSIZE < Npages(sz[p])
    requires s.ptes[User(p, va / PGSIZE)].u && s.ptes[User(p, va / PGSIZE)].w
    ensures MayStore(Abs(s.m, s.ptes, sz)[p], va)
  {
  }

  /** Extending the part already copied by the next piece, which lies in one page. */
  lemma OutStep(pr: Proc, now: Proc, dst: nat, src: seq<int>, done: nat, n: nat)
    requires done + n <= |src| && (done > 0 ==> dst + done <= |pr.mem|)
    requires now == (if done == 0 then pr else Stored(pr, dst, src[..done]))
    requires n <= PGSIZE - (dst + done) % PGSIZE && dst + done + n <= |now.mem| && MayStore(now, dst + done)
    ensures dst + done + n <= |pr.mem|
    ensures Stored(now, dst + done, src[done..done + n]) == Stored(pr, dst, src[..done + n])
    ensures forall a :: dst + done <= a < dst + done + n ==> MayStore(pr, a)
  {
    if done == 0 {
      assert src[0..n] == src[..n];
    } else {
      assert |now.mem| == |pr.mem|;
      StoredMore(pr, dst, src[..done], src[done..done + n]);
      assert src[..done] + src[done..done + n] == src[..done + n];
    }
    assert forall a :: dst + done <= a < dst + done + n ==> a / PGSIZE == (dst + done) / PGSIZE;
  }

  ghost predicate ReadSoFar(m: seq<int>, a: nat, dst: seq<int>) {
    dst != [] ==> a + |dst| <= |m| && dst == m[a..a + |dst|]
  }

  lemma ReadNone(m: seq<int>, a: nat)
    ensures ReadSoFar(m, a, [])
  {
  }

  lemma ReadMore(m: seq<int>, a: nat, dst: seq<int>, piece: seq<int>)
    requires ReadSoFar(m, a, dst) && a + |dst| + |piece| <= |m|
    requires piece == m[a + |dst|..a + |dst| + |piece|]
    ensures ReadSoFar(m, a, dst + piece)
  {
    if dst != [] {
      assert m[a..a + |dst|] + m[a + |dst|..a + |dst| + |piece|] == m[a..a + |dst| + |piece|];
    }
  }

  lemma ReadParts(m: seq<int>, a: nat, dst: seq<int>)
    requires ReadSoFar(m, a, dst)
    ensures dst != [] ==> a + |dst| <= |m| && dst == m[a..a + |dst|]
  {
  }

  lemma MappedPage(s: St, h: Holder)
    requires Inv(s) && h in s.ptes
    ensures PageAt(s.m, s.ptes, h) == s.m.pages[s.ptes[h].pa]
  {
  }

  // ---------------------------------------------------------------- page-table pages

  /** The table of process p at a level below the root, 512 entries wide, that virtual page v needs. */
  datatype Node = Node(p: nat, level: nat, index: nat)

  function NodeAt(p: nat, level: nat, v: nat): Node { Node(p, level, if level == 1 then v / 262144 else v / 512) }

  /** Pages share a table of level 1 exactly if their indices in the root agree, and one of level 0
      exactly if those in the level-1 table agree too. */
  lemma SharedTables(p: nat, v: nat, u: nat)
    requires v < Sv39.VPNS && u < Sv39.VPNS
    ensures NodeAt(p, 1, v) == NodeAt(p, 1, u) <==> Sv39.SameTop(v, u)
    ensures NodeAt(p, 0, v) == NodeAt(p, 0, u) <==> Sv39.SameBottom(v, u)
  {
    Divided(v);
    Divided(u);
  }

  lemma Divided(v: nat)
    requires v < Sv39.VPNS
    ensures v / 262144 == Sv39.Px(2, v) && v / 512 == Sv39.Px(2, v) * 512 + Sv39.Px(1, v)
  {
    Sv39.PxSplit(v);
  }

  lemma Levels(p: nat, v: nat)
    ensures NodeAt(p, 1, v) != NodeAt(p, 0, v)
  {
  }

  /** How many of the two there are not. */
  function Missing(made: set<Node>, p: nat, v: nat): (n: nat)
    ensures n <= 2
  {
    (if NodeAt(p, 1, v) in made then 0 else 1) + (if NodeAt(p, 0, v) in made then 0 else 1)
  }

  // ---------------------------------------------------------------- what an exit gives back

  ghost function HeldPages(refs: Refs): set<nat> { set h | h in refs :: refs[h] }

  ghost function LastHeld(refs: Refs, left: Refs): set<nat> { HeldPages(refs) - HeldPages(left) }

  /** The references without those of process q. */
  ghost function Released(refs: Refs, q: nat): Refs {
    map h | h in refs && !((h.User? || h.Table?) && h.p == q) :: refs[h]
  }

  ghost function Unlinked(refs: Refs, p: nat, a: nat, b: nat): Refs {
    map h | h in refs && !(h.User? && h.p == p && a <= h.v < b) :: refs[h]
  }

  ghost function TablesOff(refs: Refs, q: nat, n: nat): Refs {
    map h | h in refs && !(h.Table? && h.p == q && h.i >= n) :: refs[h]
  }

  lemma ReleasedPart(refs: Refs, q: nat)
    ensures forall h :: h in Released(refs, q) ==> h in refs && Released(refs, q)[h] == refs[h]
  {
  }

  lemma UnlinkedPart(refs: Refs, p: nat, a: nat, b: nat)
    ensures forall h :: h in Unlinked(refs, p, a, b) ==> h in refs && Unlinked(refs, p, a, b)[h] == refs[h]
  {
  }

  lemma UnlinkedNone(refs: Refs, p: nat, a: nat)
    ensures Unlinked(refs, p, a, a) == refs
  {
  }

  lemma UnlinkedStep(refs: Refs, p: nat, a: nat, b: nat)
    requires a <= b
    ensures Unlinked(refs, p, a, b + 1) == Unlinked(refs, p, a, b) - {User(p, b)}
  {
  }

  lemma HeldEntry(s: St, h: Holder)
    requires Inv(s) && h.User?
    ensures h in s.ptes <==> h in s.m.refs
    ensures h !in s.m.refs ==> s.m.refs - {h} == s.m.refs
  {
  }

  lemma TablesOffNone(s: St, q: nat)
    requires Inv(s) && q in s.tables
    ensures TablesOff(s.m.refs, q, |s.tables[q]|) == s.m.refs
  {
  }

  lemma TablesOffStep(refs: Refs, q: nat, n: nat)
    ensures TablesOff(refs, q, n) == TablesOff(refs, q, n + 1) - {Table(q, n)}
  {
  }

  lemma DropKeys(m: Mem, h: Holder)
    requires MemInv(m) && h in m.refs
    ensures m.refs[h] in m.refcnt && Drop(m, h).pages.Keys == m.pages.Keys && Drop(m, h).refs == m.refs - {h}
  {
    hide CountOk, FreeOk;
    assert m.pages[m.refs[h] := Fill(1)].Keys == m.pages.Keys;
  }

  lemma ReleasedIs(s: St, q: nat, n: nat)
    requires Inv(s) && q in s.lim && s.lim[q] <= n
    ensures TablesOff(Unlinked(s.m.refs, q, 0, n), q, 0) == Released(s.m.refs, q)
  {
    hide MemInv, TableLinks, WritableOk, SharingOk;
  }

  /** A page is free or held. */
  lemma FreeOrHeld(m: Mem)
    requires MemInv(m)
    ensures |m.freelist| + |HeldPages(m.refs)| == |m.pages.Keys|
  {
    hide MemInv;
    MemParts(m);
    ElementsSize(m.freelist);
    var free, held := Elements(m.freelist), HeldPages(m.refs);
    forall pa | pa in m.pages.Keys ensures pa in free <==> pa !in held {
      HeldIff(m, pa);
    }
    Partition(m.pages.Keys, free, held);
  }

  /** With no process left and no page lent outside, every page is free again. */
  lemma AllBack(s: St)
    requires Inv(s) && s.lim == map[] && forall h :: h in s.m.refs ==> !h.Other? && !h.Fresh?
    ensures |s.m.freelist| == |s.m.pages.Keys|
  {
    hide Inv, MemInv;
    InvMem(s);
    FreeOrHeld(s.m);
    forall h | h in s.m.refs ensures false {
      HolderLives(s, h);
    }
    assert HeldPages(s.m.refs) == {};
  }

  lemma HolderLives(s: St, h: Holder)
    requires Inv(s) && h in s.m.refs && (h.User? || h.Table?)
    ensures h.p in s.lim
  {
  }

  lemma MemParts(m: Mem)
    requires MemInv(m)
    ensures NoRepeats(m.freelist) && (forall pa :: pa in m.freelist ==> pa in m.pages)
    ensures HeldPages(m.refs) <= m.pages.Keys
  {
    hide CountOk;
  }

  lemma HeldIff(m: Mem, pa: nat)
    requires MemInv(m) && pa in m.pages
    ensures pa in m.freelist <==> pa !in HeldPages(m.refs)
  {
    if pa in HeldPages(m.refs) {
      var h :| h in m.refs && m.refs[h] == pa;
      CountPositive(m.refs, h);
    } else {
      assert Holders(m.refs, pa) == {};
    }
  }

  lemma Partition(all: set<nat>, a: set<nat>, b: set<nat>)
    requires a <= all && b <= all && forall x :: x in all ==> (x in a <==> x !in b)
    ensures |all| == |a| + |b|
  {
    assert all == a + b && a !! b;
  }

  /** The pages that lose their last holder are the ones given back. */
  lemma GivenBack(s: St, t: St)
    requires Inv(s) && Inv(t) && t.m.pages.Keys == s.m.pages.Keys
    requires forall h :: h in t.m.refs ==> h in s.m.refs && t.m.refs[h] == s.m.refs[h]
    ensures |t.m.freelist| == |s.m.freelist| + |LastHeld(s.m.refs, t.m.refs)|
  {
    hide UserLinks, TableLinks, WritableOk, SharingOk, SizesOk, MemInv;
    FreeOrHeld(s.m);
    FreeOrHeld(t.m);
    var before, after := HeldPages(s.m.refs), HeldPages(t.m.refs);
    assert after <= before;
    assert |before - after| == |before| - |after|;
  }

  lemma NoneLost(refs: Refs)
    ensures LastHeld(refs, refs) == {}
  {
  }

  // ---------------------------------------------------------------- operations of a run

  datatype Op =
    | Create(p: nat)
    | Fork(p: nat, q: nat)
    | Exit(p: nat)
    | Grow(p: nat, n: nat, w: bool)
    | LazyGrow(p: nat, n: nat)
    | Shrink(p: nat, n: nat)
    | Guard(p: nat, v: nat)
    | Store(p: nat, va: nat, b: int)
    | Load(p: nat, va: nat)
    | CopyOut(p: nat, va: nat, src: seq<int>)
    | CopyIn(p: nat, va: nat, n: nat)

  datatype Result = Result(outcome: Outcome, bytes: seq<int>)

  /** As many free pages as an operation can need: a data page and the two levels of tables
      under the root for each page it may have to map, and for a new process its trapframe,
      its root and the tables of the two fixed mappings. */
  ghost function Need(w: World, op: Op): nat {
    if op.Create? then 4
    else if op.p !in w then 0
    else
      match op
      case Fork(p, _) => 4 + 2 * Npages(w[p].sz)
      case Grow(p, n, _) => NpagesMono(w[p].sz, w[p].sz + n); 3 * (Npages(w[p].sz + n) - Npages(w[p].sz))
      case Store(_, _, _) => 3
      case Load(_, _) => 3
      case CopyOut(_, va, src) => 3 * Touched(va, |src|)
      case CopyIn(_, va, n) => 3 * Touched(va, n)
      case _ => 0
  }

  /** The pages that nobody but process q holds. */
  /** The references an exit or a shrink leaves. */
  ghost function Left(refs: Refs, w: World, op: Op): Refs
    requires op.p in w
  {
    if op.Exit? then Released(refs, op.p)
    else if op.Shrink? && op.n <= w[op.p].sz
    then Unlinked(refs, op.p, Npages(w[op.p].sz - op.n), Npages(w[op.p].sz))
    else refs
  }

  /** How many pages it gives back. */
  ghost function Gain(s: St, w: World, op: Op): nat {
    if (op.Exit? || op.Shrink?) && op.p in w then |LastHeld(s.m.refs, Left(s.m.refs, w, op))| else 0
  }

  /** One operation in the world where fork copies, from memory state s to t: what it does to the
      world and what it answers.  It runs out of memory only if there are fewer free pages than it
      can need.  The memory state matters otherwise only where lazy allocation shows: uvmclear()
      needs the page mapped, and so does an access between the size and the end of its page. */
  ghost predicate EagerStep(s: St, w: World, op: Op, r: Result, t: St, w': World) {
    var free, free' := |s.m.freelist|, |t.m.freelist|;
    && free' + Need(w, op) >= free
    && (r.outcome.NoMemory? ==> free < Need(w, op))
    && (if op.Create? then
          && (r.outcome.Denied? <==> op.p in w || |w| >= NPROC)
          && w' == if r.outcome.Done? then w[op.p := Proc(0, [], [])] else w
        else if op.p !in w then r.outcome.Denied? && w' == w
        else
          && (op.Exit? || op.Shrink? ==> free' == free + Gain(s, w, op))
          && EagerAct(s.ptes.Keys, free, w, w[op.p], op, r, w'))
  }

  ghost predicate EagerAct(mapped: set<Holder>, free: nat, w: World, pr: Proc, op: Op, r: Result, w': World)
    requires !op.Create? && op.p in w
  {
    match op
    case Fork(p, q) =>
      && (r.outcome.Denied? <==> q in w || |w| >= NPROC)
      && w' == if r.outcome.Done? then w[q := pr] else w
    case Exit(p) => r.outcome.Done? && w' == w - {p}
    case Grow(p, n, wr) =>
      && (r.outcome.Denied? <==> n > 0 && pr.sz + n > TRAPFRAME)
      && w' == if r.outcome.Done? then w[p := Grown(pr, pr.sz + n, wr)] else w
    case LazyGrow(p, n) =>
      && r.outcome == (if pr.sz + n > TRAPFRAME then Denied else Done)
      && w' == if r.outcome.Done? then w[p := Grown(pr, pr.sz + n, true)] else w
    case Shrink(p, n) =>
      && r.outcome.Done? && WellSized(pr)
      && w' == if n <= pr.sz then w[p := Shrunk(pr, pr.sz - n)] else w
    case Guard(p, v) =>
      && r.outcome == (if User(p, v) in mapped then Done else Denied)
      && if r.outcome.Done? then v < |pr.acc| && w' == w[p := Guarded(pr, v)] else w' == w
    case Store(p, va, b) =>
      && (r.outcome.Denied? <==> !MayStore(pr, va) || (va >= pr.sz && User(p, va / PGSIZE) !in mapped))
      && if r.outcome.Done? then va < |pr.mem| && w' == w[p := Stored(pr, va, [b])] else w' == w
    case Load(p, va) =>
      && (r.outcome.Denied? <==> !MayLoad(pr, va) || (va >= pr.sz && User(p, va / PGSIZE) !in mapped))
      && w' == w && (r.outcome.Done? ==> va < |pr.mem| && r.bytes == [pr.mem[va]])
    case CopyOut(p, va, src) =>
      && r.bytes <= src && (r.outcome.Done? <==> r.bytes == src)
      && (if r.bytes == [] then w' == w
          else va + |r.bytes| <= |pr.mem| && w' == w[p := Stored(pr, va, r.bytes)])
      && (forall a :: va <= a < va + |r.bytes| ==> MayStore(pr, a))
      && (r.outcome.Done? || !MayStore(pr, va + |r.bytes|) || free < Need(w, op))
    case CopyIn(p, va, n) =>
      && w' == w && |r.bytes| <= n && (r.outcome.Done? <==> |r.bytes| == n)
      && (r.bytes != [] ==> va + |r.bytes| <= |pr.mem| && r.bytes == pr.mem[va..va + |r.bytes|])
      && (forall a :: va <= a < va + |r.bytes| ==> MayLoad(pr, a))
      && (r.outcome.Done? || !MayLoad(pr, va + |r.bytes|) || free < Need(w, op))
    case Create(_) => false
  }

  // ---------------------------------------------------------------- what a load sees

  /** A done load of byte x by process q. */
  ghost predicate Loads(s: St, w: World, q: nat, x: nat, r: Result, t: St) {
    q in w && EagerStep(s, w, Load(q, x), r, t, w) && r.outcome.Done?
  }

  /** After a store: the byte stored, at its address in its process, and everywhere else what was
      there before, whoever shares the page. */
  lemma LoadAfterStore(s: St, w: World, p: nat, va: nat, b: int, r: Result, t: St, w': World, q: nat, x: nat,
                       r': Result, u: St)
    requires p in w && EagerStep(s, w, Store(p, va, b), r, t, w') && r.outcome.Done? && Loads(t, w', q, x, r', u)
    ensures q in w && x < |w[q].mem| && r'.bytes == [if q == p && x == va then b else w[q].mem[x]]
  {
    hide Need, Gain;
  }

  /** After a fork: in the child what the parent had. */
  lemma LoadAfterFork(s: St, w: World, p: nat, q: nat, r: Result, t: St, w': World, x: nat, r': Result, u: St)
    requires p in w && EagerStep(s, w, Fork(p, q), r, t, w') && r.outcome.Done? && Loads(t, w', q, x, r', u)
    ensures x < |w[p].mem| && r'.bytes == [w[p].mem[x]] && w'[p] == w[p]
  {
    hide Need, Gain;
  }

  /** After growing, at once or lazily: zeroes above what was there before. */
  lemma LoadAfterGrow(s: St, w: World, op: Op, r: Result, t: St, w': World, x: nat, r': Result, u: St)
    requires (op.Grow? || op.LazyGrow?) && op.p in w && EagerStep(s, w, op, r, t, w') && r.outcome.Done?
    requires Loads(t, w', op.p, x, r', u)
    ensures r'.bytes == [if x < |w[op.p].mem| then w[op.p].mem[x] else 0] && w'[op.p].sz == w[op.p].sz + op.n
  {
    hide Need, Gain;
  }

  /** After shrinking: nothing above the last page, and below it what was there before. */
  lemma LoadAfterShrink(s: St, w: World, p: nat, n: nat, r: Result, t: St, w': World, x: nat, r': Result, u: St)
    requires p in w && EagerStep(s, w, Shrink(p, n), r, t, w') && n <= w[p].sz && Loads(t, w', p, x, r', u)
    ensures w'[p].sz == w[p].sz - n && x / PGSIZE < Npages(w[p].sz - n) && x < |w[p].mem| && r'.bytes == [w[p].mem[x]]
  {
    hide Need, Gain;
  }

  ghost function Sizes(w: World): map<nat, nat> { map p | p in w :: w[p].sz }

  /** The memory state s is sound and shows the world w. */
  ghost predicate Shows(s: St, w: World) { Inv(s) && w == Abs(s.m, s.ptes, Sizes(w)) }

  ghost predicate EagerRun(ss: seq<St>, ws: seq<World>, ops: seq<Op>, rs: seq<Result>) {
    && |rs| == |ops| && |ws| == |ss| == |ops| + 1 && (forall i :: 0 <= i <= |ops| ==> Shows(ss[i], ws[i]))
    && forall i :: 0 <= i < |ops| ==> EagerStep(ss[i], ws[i], ops[i], rs[i], ss[i + 1], ws[i + 1])
  }

  /** What the first n operations of a run can need in all, and what they give back. */
  ghost function TotalNeed(ws: seq<World>, ops: seq<Op>, n: nat): nat
    requires n <= |ops| && n <= |ws|
  {
    if n == 0 then 0 else TotalNeed(ws, ops, n - 1) + Need(ws[n - 1], ops[n - 1])
  }

  ghost function TotalGain(ss: seq<St>, ws: seq<World>, ops: seq<Op>, n: nat): nat
    requires n <= |ops| && n <= |ws| && n <= |ss|
  {
    if n == 0 then 0 else TotalGain(ss, ws, ops, n - 1) + Gain(ss[n - 1], ws[n - 1], ops[n - 1])
  }

  /** At every operation the pages free at the start and those given back since cover what
      the operations up to it can need. */
  ghost predicate Affordable(ss: seq<St>, ws: seq<World>, ops: seq<Op>, n: nat)
    requires n <= |ops| && n < |ws| && n < |ss|
  {
    forall i :: 0 <= i < n ==> TotalNeed(ws, ops, i + 1) <= |ss[0].m.freelist| + TotalGain(ss, ws, ops, i)
  }

  /** Such a run never runs out of memory. */
  lemma {:induction false} NeverShort(ss: seq<St>, ws: seq<World>, ops: seq<Op>, rs: seq<Result>, n: nat)
    requires EagerRun(ss, ws, ops, rs) && n <= |ops|
    ensures |ss[n].m.freelist| + TotalNeed(ws, ops, n) >= |ss[0].m.freelist| + TotalGain(ss, ws, ops, n)
    ensures Affordable(ss, ws, ops, n) ==> forall i :: 0 <= i < n ==> !rs[i].outcome.NoMemory?
  {
    hide EagerAct, Need, LastHeld, Left, Shows;
    if n > 0 {
      NeverShort(ss, ws, ops, rs, n - 1);
      var k := n - 1;
      assert EagerStep(ss[k], ws[k], ops[k], rs[k], ss[n], ws[n]);
      ExitNeeds(ws[k], ops[k]);
    }
  }

  lemma ExitNeeds(w: World, op: Op)
    ensures op.Exit? || op.Shrink? ==> Need(w, op) == 0
  {
  }

  lemma SizedWorld(m: Mem, ptes: map<Holder, Pte>, sz: map<nat, nat>, p: nat)
    requires p in sz
    ensures WellSized(Abs(m, ptes, sz)[p]) && Abs(m, ptes, sz)[p].sz == sz[p]
  {
  }

  lemma WorldSize(m: Mem, ptes: map<Holder, Pte>, sz: map<nat, nat>)
    ensures Abs(m, ptes, sz).Keys == sz.Keys && |Abs(m, ptes, sz)| == |sz|
  {
    SameSize(Abs(m, ptes, sz), sz);
  }

  lemma GrownNone(pr: Proc, w: bool)
    ensures Grown(pr, pr.sz, w) == pr
  {
    assert pr.mem + Zeros(0) == pr.mem;
    assert pr.acc + seq(0, _ => Access(true, w)) == pr.acc;
  }

  lemma ShrunkNone(s: St, p: nat, sz: map<nat, nat>)
    requires p in sz
    ensures Abs(s.m, s.ptes, sz) == Abs(s.m, s.ptes, sz)[p := Shrunk(Abs(s.m, s.ptes, sz)[p], sz[p])]
  {
    hide Abs, SameOut, Shrunk, Npages, Same;
    SameRefl(s);
    SameOutAny(s, s, p, Npages(sz[p]), Npages(sz[p]));
    ShrinkWorld(s, s, p, sz, sz[p]);
    assert sz[p := sz[p]] == sz;
  }

  lemma NewWorld(s: St, q: nat, sz: map<nat, nat>)
    requires q !in sz
    ensures Abs(s.m, s.ptes, sz[q := 0]) == Abs(s.m, s.ptes, sz)[q := Proc(0, [], [])]
  {
    assert Bytes(s.m, s.ptes, q, 0) == [] && Accesses(s.ptes, q, 0) == [];
  }

  class Vm {
    const kmem: Kmem
    var ptes: map<Holder, Pte>
    var sz: map<nat, nat>
    var tables: map<nat, seq<nat>>
    var made: set<Node> // which tables below the roots there are

    ghost var lim: map<nat, nat>

    ghost function S(): St
      reads this, kmem
    {
      St(kmem.M(), ptes, lim, tables)
    }

    /** The state between calls. */
    ghost predicate Valid()
      reads this, kmem
    {
      && Inv(S()) && Fresh !in kmem.refs
      && sz.Keys == lim.Keys && forall p :: p in sz ==> lim[p] == Npages(sz[p])
    }

    ghost function World(): World
      reads this, kmem
    {
      Abs(kmem.M(), ptes, sz)
    }

    /** The number of free pages. */
    ghost function Free(): nat
      reads this, kmem
    {
      |kmem.freelist|
    }

    constructor (lo: nat, hi: nat)
      requires 0 < lo <= hi
      ensures Valid() && fresh(kmem) && World() == map[] && ptes == map[] && Free() == hi - lo
    {
      kmem := new Kmem(lo, hi);
      ptes, sz, tables, made, lim := map[], map[], map[], {}, map[];
    }

    /** walk() with alloc, for virtual page v: adds the page-table pages that are missing on the way,
        and fails exactly if there are not so many free. */
    method Walk(p: nat, v: nat) returns (ok: bool)
      requires Inv(S()) && p in tables
      modifies this`tables, this`made, kmem
      ensures Inv(S()) && Same(old(S()), S())
      ensures tables.Keys == old(tables).Keys && FreshKept(old(S()), S())
      ensures ok <==> old(Free()) >= Missing(old(made), p, v)
      ensures Free() + Missing(old(made), p, v) >= old(Free())
      ensures ok ==>
              Free() == old(Free()) - Missing(old(made), p, v) && made == old(made) + {NodeAt(p, 1, v), NodeAt(p, 0, v)}
      ensures !ok ==> Free() == 0 && made == old(made) + if old(Free()) == 0 then {} else {NodeAt(p, 1, v)}
    {
      hide Inv, Same, FreshKept, NodeAt;
      SameRefl(S());
      Levels(p, v);
      var level := 2;
      while level > 0
        invariant Inv(S()) && Same(old(S()), S()) && p in tables && 0 <= level <= 2
        invariant tables.Keys == old(tables).Keys && FreshKept(old(S()), S())
        invariant level == 2 ==> made == old(made)
        invariant level == 1 ==> made == old(made) + {NodeAt(p, 1, v)}
        invariant level == 0 ==> made == old(made) + {NodeAt(p, 1, v), NodeAt(p, 0, v)}
        invariant Free() + Missing(old(made), p, v) - Missing(made, p, v) == old(Free())
      {
        if NodeAt(p, level - 1, v) !in made {
          ghost var s1 := S();
          ok := AddTablePage(p);
          if !ok {
            return false;
          }
          SameTrans(old(S()), s1, S());
          made := made + {NodeAt(p, level - 1, v)};
        }
        level := level - 1;
      }
      return true;
    }

    method AddTablePage(p: nat) returns (ok: bool)
      requires Inv(S()) && p in tables
      modifies this`tables, kmem
      ensures ok <==> old(kmem.freelist) != []
      ensures !ok ==> S() == old(S())
      ensures ok ==> Inv(S()) && Same(old(S()), S()) && tables.Keys == old(tables).Keys && FreshKept(old(S()), S())
      ensures Free() == if ok then old(Free()) - 1 else old(Free())
    {
      hide Inv, Same, MemInv, Holders, FreshKept;
      ghost var s0 := S();
      if kmem.freelist != [] {
        AddTableInv(s0, p);
        AddTableKept(s0, p);
      }
      TableSlot(s0, p);
      var pa := kmem.Kalloc(Table(p, |tables[p]|));
      if pa == 0 {
        return false;
      }
      kmem.pages := kmem.pages[pa := Fill(0)];
      tables := tables[p := tables[p] + [pa]];
      assert S() == AddTable(s0, p);
      return true;
    }

    /** kalloc(), memset() and mappages() of one zeroed page at a free slot. */
    method MapZero(p: nat, v: nat, w: bool) returns (ok: bool)
      requires Inv(S()) && Fresh !in kmem.refs
      requires p in lim && v < lim[p] && User(p, v) !in ptes
      modifies this`ptes, this`tables, this`made, kmem
      ensures Inv(S()) && Fresh !in kmem.refs
      ensures !ok ==> Same(old(S()), S()) && ptes == old(ptes)
      ensures ok ==> SameBut(old(S()), S(), User(p, v)) && User(p, v) in ptes
      ensures ok ==> ptes == old(ptes)[User(p, v) := Pte(ptes[User(p, v)].pa, w, true, false)]
      ensures ok ==> PageAt(kmem.M(), ptes, User(p, v)) == Fill(0)
      ensures ok <==> old(Free()) >= 1 + Missing(old(made), p, v)
      ensures Free() + 1 + Missing(old(made), p, v) >= old(Free())
    {
      hide Inv, Same, SameBut, FreshKept, PageAt, MemInv, Missing;
      ghost var s0 := S();
      var mem := GrabPage(Fill(0));
      if mem == 0 {
        SameRefl(s0);
        return false;
      }
      ghost var s2 := S();
      InvParts(s2);
      ok := Walk(p, v);
      ghost var s3 := S();
      SameTrans(s0, s2, s3);
      KeptPage(s2, s3);
      InvParts(s3);
      if !ok {
        UngrabInv(s3);
        kmem.Kfree(mem, Fresh);
        SameTrans(s0, s3, S());
        return false;
      }
      MapInv(s3, User(p, v), w);
      kmem.refs := (kmem.refs - {Fresh})[User(p, v) := mem];
      ptes := ptes[User(p, v) := Pte(mem, w, true, false)];
      assert S() == MapFresh(s3, User(p, v), w);
      SameThenBut(s0, s3, S(), User(p, v));
    }

    /** kalloc() and filling the page: 0 if there is none. */
    method GrabPage(pg: Page) returns (mem: nat)
      requires Inv(S()) && Fresh !in kmem.refs && |pg| == PGSIZE
      modifies kmem
      ensures Inv(S()) && Same(old(S()), S())
      ensures mem == 0 <==> old(kmem.freelist) == []
      ensures mem == 0 ==> S() == old(S())
      ensures mem != 0 ==> S() == PutFresh(Grab(old(S())), pg) && kmem.refs[Fresh] == mem
    {
      hide Inv, Same, Holders, MemInv;
      ghost var s0 := S();
      InvMem(s0);
      if kmem.freelist != [] {
        GrabInv(s0);
        PutFreshInv(Grab(s0), pg);
        SameTrans(s0, Grab(s0), PutFresh(Grab(s0), pg));
      }
      mem := kmem.Kalloc(Fresh);
      if mem == 0 {
        SameRefl(s0);
        return;
      }
      kmem.pages := kmem.pages[mem := pg];
    }

    method UnmapPage(h: Holder)
      requires Inv(S()) && Fresh !in kmem.refs && h in ptes
      modifies this`ptes, kmem
      ensures Inv(S()) && Fresh !in kmem.refs && ptes == old(ptes) - {h} && SameBut(old(S()), S(), h)
      ensures Free() >= old(Free())
      ensures kmem.refs == old(kmem.refs) - {h}
      ensures kmem.pages.Keys == old(kmem.pages).Keys
    {
      hide Inv, SameBut, MemInv;
      ghost var s1 := S();
      InvParts(s1);
      UnmapInv(s1, h);
      DropKeys(s1.m, h);
      kmem.Kfree(ptes[h].pa, h);
      ptes := ptes - {h};
      assert S() == Unmap(s1, h);
    }

    /** uvmunmap() with do_free: removes exactly the entries in range, freeing their pages. */
    method Uvmunmap(p: nat, v0: nat, npages: nat)
      requires Inv(S()) && Fresh !in kmem.refs
      modifies this`ptes, kmem
      ensures Inv(S()) && Fresh !in kmem.refs
      ensures ptes == Without(old(ptes), p, v0, v0 + npages)
      ensures SameOut(old(S()), S(), p, v0, v0 + npages)
      ensures Free() >= old(Free())
      ensures kmem.refs == Unlinked(old(kmem.refs), p, v0, v0 + npages) && tables == old(tables)
      ensures kmem.pages.Keys == old(kmem.pages).Keys
    {
      hide Inv, SameOut, SameBut, MemInv, Same;
      SameOutRefl(S(), p, v0);
      UnlinkedNone(kmem.refs, p, v0);
      var v := v0;
      while v < v0 + npages
        invariant v0 <= v <= v0 + npages
        invariant Inv(S()) && Fresh !in kmem.refs && Free() >= old(Free())
        invariant ptes == Without(old(ptes), p, v0, v)
        invariant kmem.refs == Unlinked(old(kmem.refs), p, v0, v) && kmem.pages.Keys == old(kmem.pages).Keys
        invariant SameOut(old(S()), S(), p, v0, v)
      {
        ghost var s1 := S();
        UnlinkedStep(old(kmem.refs), p, v0, v);
        HeldEntry(s1, User(p, v));
        if User(p, v) in ptes {
          UnmapPage(User(p, v));
          SameOutStep(old(S()), s1, S(), p, v0, v);
        } else {
          SameRefl(s1);
          SameOutSame(old(S()), s1, s1, p, v0, v);
        }
        v := v + 1;
      }
    }

    /** uvmalloc(): all of [PGROUNDUP(oldsz), newsz) zeroed, or nothing. */
    method Uvmalloc(p: nat, oldsz: nat, newsz: nat, w: bool) returns (r: nat)
      requires Inv(S()) && Fresh !in kmem.refs && p in lim && Npages(newsz) <= lim[p]
      requires forall h :: h in ptes && h.User? && h.p == p ==> h.v < Npages(oldsz)
      modifies this`ptes, this`tables, this`made, kmem
      ensures Inv(S()) && Fresh !in kmem.refs
      ensures newsz < oldsz ==> r == oldsz && S() == old(S())
      ensures newsz >= oldsz ==>
                && (r == newsz || r == 0)
                && SameOut(old(S()), S(), p, Npages(oldsz), Npages(newsz))
                && (if r == newsz then ZeroRange(S(), p, Npages(oldsz), Npages(newsz), w) else ptes == old(ptes))
                && (r == newsz ==> forall v: nat :: Npages(oldsz) <= v < Npages(newsz) ==> User(p, v) in ptes)
      ensures forall h :: h in ptes && !InRange(h, p, Npages(oldsz), Npages(newsz)) ==> h in old(ptes)
      ensures newsz >= oldsz ==>
                && Free() + 3 * (Npages(newsz) - Npages(oldsz)) >= old(Free())
                && (r != newsz ==> old(Free()) < 3 * (Npages(newsz) - Npages(oldsz)))
    {
      hide Inv, SameOut, SameBut, Same, ZeroRange, MemInv, PageAt, AccessAt;
      if newsz < oldsz {
        return oldsz;
      }
      SameOutRefl(S(), p, Npages(oldsz));
      var a := Npages(oldsz);
      ZeroRangeEmpty(S(), p, a, w);
      while a * PGSIZE < newsz
        invariant Npages(oldsz) <= a <= Npages(newsz)
        invariant Inv(S()) && Fresh !in kmem.refs
        invariant Without(ptes, p, Npages(oldsz), a) == old(ptes)
        invariant forall h :: h in ptes && h.User? && h.p == p ==> h.v < a
        invariant SameOut(old(S()), S(), p, Npages(oldsz), a)
        invariant ZeroRange(S(), p, Npages(oldsz), a, w)
        invariant Free() + 3 * (a - Npages(oldsz)) >= old(Free())
        invariant forall v: nat :: Npages(oldsz) <= v < a ==> User(p, v) in ptes
      {
        ghost var s1 := S();
        var ok := MapZero(p, a, w);
        if !ok {
          SameOutSame(old(S()), s1, S(), p, Npages(oldsz), a);
          ghost var s2 := S();
          Uvmunmap(p, Npages(oldsz), a - Npages(oldsz));
          SameOutTrans(old(S()), s2, S(), p, Npages(oldsz), a, Npages(newsz));
          return 0;
        }
        SameOutStep(old(S()), s1, S(), p, Npages(oldsz), a);
        ZeroRangeStep(s1, S(), p, Npages(oldsz), a, w);
        a := a + 1;
      }
      return newsz;
    }

    /** uvmdealloc(). */
    method Uvmdealloc(p: nat, oldsz: nat, newsz: nat) returns (r: nat)
      requires Inv(S()) && Fresh !in kmem.refs
      modifies this`ptes, kmem
      ensures Inv(S()) && Fresh !in kmem.refs
      ensures newsz >= oldsz ==> r == oldsz && S() == old(S())
      ensures newsz < oldsz ==>
                && r == newsz && SameOut(old(S()), S(), p, Npages(newsz), Npages(oldsz))
                && ptes == Without(old(ptes), p, Npages(newsz), Npages(oldsz))
                && kmem.refs == Unlinked(old(kmem.refs), p, Npages(newsz), Npages(oldsz))
      ensures Free() >= old(Free()) && kmem.pages.Keys == old(kmem.pages).Keys
    {
      hide Inv, SameOut, Unlinked;
      if newsz >= oldsz {
        return oldsz;
      }
      NpagesMono(newsz, oldsz);
      if Npages(newsz) < Npages(oldsz) {
        Uvmunmap(p, Npages(newsz), Npages(oldsz) - Npages(newsz));
      } else {
        SameOutRefl(S(), p, Npages(newsz));
        UnlinkedNone(kmem.refs, p, Npages(newsz));
        assert ptes == Without(ptes, p, Npages(newsz), Npages(oldsz));
      }
      return newsz;
    }

    /** growproc() with n > 0. */
    method GrowEager(p: nat, n: nat, w: bool) returns (r: int)
      requires Valid() && p in sz && n > 0
      modifies this, kmem
      ensures Valid() && (r == 0 || r == -1)
      ensures old(sz)[p] + n > TRAPFRAME ==> r == -1
      ensures r == -1 ==> World() == old(World())
      ensures r == 0 ==> World() == old(World())[p := Grown(old(World())[p], old(sz)[p] + n, w)]
      ensures r == 0 ==> sz == old(sz)[p := old(sz)[p] + n]
      ensures r == 0 ==> forall v: nat :: Npages(old(sz)[p]) <= v < Npages(sz[p]) ==> User(p, v) in ptes
      ensures Npages(old(sz)[p]) <= Npages(old(sz)[p] + n)
      ensures Free() + 3 * (Npages(old(sz)[p] + n) - Npages(old(sz)[p])) >= old(Free())
      ensures r == -1 ==> old(sz)[p] + n > TRAPFRAME || old(Free()) < 3 * (Npages(old(sz)[p] + n) - Npages(old(sz)[p]))
    {
      hide Inv, SameOut, ZeroRange, Abs, Grown, Npages;
      ghost var z0 := sz;
      var oldsz, newsz := sz[p], sz[p] + n;
      NpagesMono(oldsz, newsz);
      if newsz > TRAPFRAME {
        return -1;
      }
      InvSizes(S());
      NpagesBound(newsz);
      ResizeInv(S(), p, Npages(newsz));
      lim := lim[p := Npages(newsz)];
      ghost var s1 := S();
      var got := Uvmalloc(p, oldsz, newsz, w);
      ghost var s2 := S();
      if got == 0 {
        KeepWorld(s1, s2, p, z0, Npages(newsz));
        ResizeInv(S(), p, Npages(oldsz));
        lim := lim[p := Npages(oldsz)];
        return -1;
      }
      GrowWorld(s1, s2, p, z0, newsz, w);
      sz := sz[p := newsz];
      return 0;
    }

    /** sbrk(n, SBRK_LAZY): only the size grows; the pages come with the first fault. */
    method SbrkLazy(p: nat, n: nat) returns (r: int)
      requires Valid() && p in sz
      modifies this`sz, this`lim
      ensures Valid() && (r == 0 || r == -1)
      ensures r == -1 <==> old(sz)[p] + n > TRAPFRAME
      ensures r == 0 ==> sz == old(sz)[p := old(sz)[p] + n]
      ensures r == -1 ==> World() == old(World())
      ensures r == 0 ==> World() == old(World())[p := Grown(old(World())[p], old(sz)[p] + n, true)]
    {
      hide Inv, Abs, Grown, SameOut, ZeroRange, Npages, Same;
      if sz[p] + n > TRAPFRAME {
        return -1;
      }
      ghost var newsz := sz[p] + n;
      NpagesMono(sz[p], newsz);
      NpagesBound(newsz);
      InvSizes(S());
      ResizeInv(S(), p, Npages(newsz));
      SameRefl(S());
      SameOutAny(S(), S(), p, Npages(sz[p]), Npages(newsz));
      LazyZero(S(), p, Npages(sz[p]), Npages(newsz));
      GrowWorld(S(), S(), p, sz, newsz, true);
      sz := sz[p := sz[p] + n];
      lim := lim[p := Npages(newsz)];
      return 0;
    }

    /** growproc(-n): a shrink below zero wraps around and changes nothing. */
    method Shrink(p: nat, n: nat)
      requires Valid() && p in sz
      modifies this, kmem
      ensures Valid()
      ensures World() == if n <= old(sz)[p] then old(World())[p := Shrunk(old(World())[p], old(sz)[p] - n)]
              else old(World())
      ensures Free() == old(Free()) + Gain(old(S()), old(World()), Op.Shrink(p, n))
    {
      hide Inv, Abs, Shrunk, Npages, Unlinked, LastHeld;
      SizedWorld(kmem.M(), ptes, sz, p);
      if n == 0 {
        ShrunkNone(S(), p, sz);
        UnlinkedNone(kmem.refs, p, Npages(sz[p]));
        NoneLost(kmem.refs);
      } else if n <= sz[p] {
        ShrinkTo(p, sz[p] - n);
      } else {
        NoneLost(kmem.refs);
      }
    }

    method ShrinkTo(p: nat, newsz: nat)
      requires Valid() && p in sz && newsz < sz[p]
      modifies this, kmem
      ensures Valid()
      ensures World() == old(World())[p := Shrunk(old(World())[p], newsz)]
      ensures var refs := old(kmem.refs);
              Free() == old(Free()) + |LastHeld(refs, Unlinked(refs, p, Npages(newsz), Npages(old(sz)[p])))|
    {
      hide Inv, Abs, SameOut, Shrunk, Npages, Unlinked, LastHeld;
      ghost var s0 := S();
      InvSizes(s0);
      NpagesMono(newsz, sz[p]);
      var r := Uvmdealloc(p, sz[p], newsz);
      UnlinkedPart(s0.m.refs, p, Npages(newsz), Npages(sz[p]));
      GivenBack(s0, S());
      ShrinkWorld(s0, S(), p, sz, newsz);
      sz := sz[p := r];
      ResizeInv(S(), p, Npages(newsz));
      lim := lim[p := Npages(newsz)];
    }

    /** The body of uvmcopy's loop: the child's entry, the reference, the parent's downgrade. */
    method ShareOne(p: nat, q: nat, v: nat)
      requires Inv(S()) && Fresh !in kmem.refs && p != q
      requires User(p, v) in ptes && User(q, v) !in ptes && q in lim && v < lim[q]
      modifies this`ptes, kmem
      ensures Inv(S()) && Fresh !in kmem.refs && SameBut(old(S()), S(), User(q, v))
      ensures PageAt(kmem.M(), ptes, User(q, v)) == old(PageAt(kmem.M(), ptes, User(p, v)))
      ensures AccessAt(ptes, User(q, v)) == old(AccessAt(ptes, User(p, v)))
      ensures ptes.Keys == old(ptes).Keys + {User(q, v)}
      ensures Free() == old(Free())
    {
      hide Inv, SameBut, PageAt, AccessAt, MemInv;
      ghost var s0, h, k := S(), User(p, v), User(q, v);
      InvParts(s0);
      ShareInvSt(s0, h, k);
      var pte := ptes[User(p, v)];
      var newpte := if pte.w then pte.(w := false, cow := true) else pte;
      ptes := ptes[User(q, v) := newpte];
      var r := kmem.Kaddref(pte.pa, k);
      assert r != -1;
      ptes := ptes[User(p, v) := newpte];
      assert S() == ShareEntry(s0, h, k);
    }

    /** uvmcopy(): the child gets every page of the parent, or nothing at all. */
    method Uvmcopy(p: nat, q: nat, size: nat) returns (ok: bool)
      requires Inv(S()) && Fresh !in kmem.refs && p != q && q in lim && Npages(size) <= lim[q]
      requires forall v :: User(q, v) !in ptes
      modifies this`ptes, this`tables, this`made, kmem
      ensures Inv(S()) && Fresh !in kmem.refs && SameOff(old(S()), S(), q)
      ensures ok ==> CopyRange(old(S()), S(), p, q, Npages(size))
      ensures !ok ==> forall v :: User(q, v) !in ptes
      ensures Free() + 2 * Npages(size) >= old(Free()) && (!ok ==> old(Free()) < 2 * Npages(size))
    {
      hide Inv, SameBut, Same, SameOff, CopyRange, SameOut, PageAt, AccessAt, Missing, Unlinked;
      CopyNone(S(), p, q);
      var i := 0;
      while i * PGSIZE < size
        invariant i <= Npages(size)
        invariant Inv(S()) && Fresh !in kmem.refs && SameOff(old(S()), S(), q)
        invariant CopyRange(old(S()), S(), p, q, i)
        invariant Free() + 2 * i >= old(Free())
        invariant forall v: nat :: User(q, v) in ptes ==> v < i
      {
        ghost var s1 := S();
        InvSizes(s1);
        if User(p, i) in ptes {
          var mapped := Walk(q, i);
          ghost var s2 := S();
          CopyKeep(old(S()), s1, s2, p, q, i);
          if !mapped {
            Uvmunmap(q, 0, i + 1);
            OutOff(s2, S(), q, 0, i + 1);
            OffTrans(old(S()), s2, S(), q);
            return false;
          }
          ShareOne(p, q, i);
          CopyStep(old(S()), s2, S(), p, q, i);
        } else {
          CopyHole(s1, p, q, i);
          CopyStep(old(S()), s1, s1, p, q, i);
        }
        i := i + 1;
      }
      return true;
    }

    // -------------------------------------------------------------- fork and exit

    /** freewalk() and freeing the trapframe: every page-table page goes back exactly once. */
    method FreeTables(q: nat)
      requires Inv(S()) && q in tables
      modifies this`tables, kmem
      ensures Inv(S()) && Same(old(S()), S()) && FreshKept(old(S()), S())
      ensures tables == old(tables)[q := []]
      ensures Free() >= old(Free())
      ensures kmem.refs == TablesOff(old(kmem.refs), q, 0)
      ensures kmem.pages.Keys == old(kmem.pages).Keys
    {
      hide Inv, Same, FreshKept, TablesOff;
      SameRefl(S());
      TablesOffNone(S(), q);
      while tables[q] != []
        invariant Inv(S()) && Same(old(S()), S()) && FreshKept(old(S()), S())
        invariant q in tables && tables == old(tables)[q := tables[q]] && Free() >= old(Free())
        invariant kmem.refs == TablesOff(old(kmem.refs), q, |tables[q]|) && kmem.pages.Keys == old(kmem.pages).Keys
        decreases |tables[q]|
      {
        ghost var s1 := S();
        TablesOffStep(old(kmem.refs), q, |tables[q]| - 1);
        DropLast(q);
        SameTrans(old(S()), s1, S());
      }
    }

    method DropLast(q: nat)
      requires Inv(S()) && q in tables && tables[q] != []
      modifies this`tables, kmem
      ensures Inv(S()) && Same(old(S()), S()) && FreshKept(old(S()), S()) && Free() >= old(Free())
      ensures tables == old(tables)[q := old(tables)[q][..|old(tables)[q]| - 1]]
      ensures kmem.refs == old(kmem.refs) - {Table(q, |old(tables)[q]| - 1)} && kmem.pages.Keys == old(kmem.pages).Keys
    {
      hide Inv, Same, FreshKept, MemInv;
      ghost var s1 := S();
      var last := |tables[q]| - 1;
      DropTableInv(s1, q);
      InvMem(s1);
      DropTableKept(s1, q);
      DropKeys(s1.m, Table(q, last));
      kmem.Kfree(tables[q][last], Table(q, last));
      tables := tables[q := tables[q][..last]];
      assert S() == DropTable(s1, q);
    }

    /** freeproc() of a process without user pages. */
    method Discard(q: nat)
      requires Inv(S()) && Fresh !in kmem.refs && q in lim && forall v: nat :: User(q, v) !in ptes
      modifies this`tables, this`lim, kmem
      ensures Inv(S()) && Fresh !in kmem.refs && Same(old(S()), S()) && lim == old(lim) - {q}
      ensures Free() >= old(Free())
      ensures kmem.refs == TablesOff(old(kmem.refs), q, 0)
      ensures kmem.pages.Keys == old(kmem.pages).Keys
    {
      hide Inv, Same, MemInv;
      InvSizes(S());
      FreeTables(q);
      DropProcInv(S(), q);
      ghost var s1 := S();
      lim := lim - {q};
      tables := tables - {q};
      SameFields(old(S()), s1, S());
    }

    /** Trapframe, root and the pages that map the trampoline and the trapframe. */
    method FirstTables(q: nat) returns (ok: bool)
      requires Inv(S()) && q in tables
      modifies this`tables, this`made, kmem
      ensures Inv(S()) && Same(old(S()), S()) && FreshKept(old(S()), S())
      ensures ok <==> old(Free()) >= 4
      ensures Free() + 4 >= old(Free()) && (ok ==> Free() == old(Free()) - 4)
    {
      hide Inv, Same, FreshKept;
      SameRefl(S());
      ok := AddTablePage(q);
      if ok {
        ghost var s1 := S();
        ok := AddTablePage(q);
        SameTrans(old(S()), s1, S());
        if ok {
          s1 := S();
          made := set x | x in made && x.p != q; // a new root is empty
          ok := Walk(q, MAXPAGES); // the trampoline shares the tables of the trapframe
          SameTrans(old(S()), s1, S());
        }
      }
    }

    method AddProc(q: nat)
      requires Inv(S()) && q !in lim && |lim| < NPROC
      modifies this`tables, this`lim
      ensures Inv(S()) && Same(old(S()), S())
      ensures q in tables && lim == old(lim)[q := 0]
    {
      hide Inv, Same;
      InvSizes(S());
      NewProcInv(S(), q);
      lim := lim[q := 0];
      tables := tables[q := []];
      SameRefl(old(S()));
      SameFields(old(S()), old(S()), S());
    }

    /** allocproc() up to the empty page table. */
    method NewProc(q: nat) returns (ok: bool)
      requires Inv(S()) && Fresh !in kmem.refs && q !in lim && |lim| < NPROC
      modifies this`tables, this`made, this`lim, kmem
      ensures Inv(S()) && Fresh !in kmem.refs && Same(old(S()), S())
      ensures lim == if ok then old(lim)[q := 0] else old(lim)
      ensures ok <==> old(Free()) >= 4
      ensures Free() + 4 >= old(Free())
    {
      hide Inv, Same, FreshKept, TablesOff;
      AddProc(q);
      ghost var s1 := S();
      ok := FirstTables(q);
      ghost var s2 := S();
      NoFresh(s1, s2);
      SameTrans(old(S()), s1, s2);
      if !ok {
        InvSizes(s2);
        Discard(q);
        SameTrans(old(S()), s2, S());
      }
    }

    /** kfork(), as far as memory goes: on success the child's world is a copy of the parent's. */
    method Fork(p: nat, q: nat) returns (ok: bool)
      requires Valid() && p in sz && q !in sz
      modifies this, kmem
      ensures Valid()
      ensures World() == if ok then old(World())[q := old(World())[p]] else old(World())
      ensures Free() + 4 + 2 * Npages(old(sz)[p]) >= old(Free())
      ensures |old(sz)| >= NPROC ==> !ok
      ensures !ok ==> |old(sz)| >= NPROC || old(Free()) < 4 + 2 * Npages(old(sz)[p])
    {
      hide Inv, Same, SameOff, CopyRange, Abs, Npages;
      if |sz| >= NPROC {
        return false; // no UNUSED slot
      }
      ghost var s0, z0 := S(), sz;
      SameSize(lim, sz);
      InvSizes(s0);
      ok := NewProc(q);
      ghost var s1 := S();
      if !ok {
        AbsSame(s0, s1, sz);
        return false;
      }
      ok := ForkInto(p, q);
      SameIsOff(s0, s1, q);
      OffTrans(s0, s1, S(), q);
      if ok {
        CopyFrom(s0, s1, S(), p, q, Npages(sz[p]));
        ForkWorld(s0, S(), p, q, z0);
        sz := sz[q := sz[p]];
      } else {
        OffWorldNew(s0, S(), q, z0);
      }
    }

    method ForkInto(p: nat, q: nat) returns (ok: bool)
      requires Inv(S()) && Fresh !in kmem.refs && p in sz && p != q && q in lim && lim[q] == 0
      requires p in lim && lim[p] == Npages(sz[p])
      modifies this`ptes, this`tables, this`made, this`lim, kmem
      ensures Inv(S()) && Fresh !in kmem.refs && SameOff(old(S()), S(), q)
      ensures ok ==> CopyRange(old(S()), S(), p, q, Npages(sz[p])) && lim == old(lim)[q := Npages(sz[p])]
      ensures !ok ==> lim == old(lim) - {q}
      ensures Free() + 2 * Npages(sz[p]) >= old(Free()) && (!ok ==> old(Free()) < 2 * Npages(sz[p]))
    {
      hide Inv, Same, SameOff, CopyRange;
      ghost var s0 := S();
      InvSizes(s0);
      ResizeInv(s0, q, lim[p]);
      lim := lim[q := lim[p]];
      ghost var s1 := S();
      FieldsOff(s0, s1, q);
      ok := Uvmcopy(p, q, sz[p]);
      OffTrans(s0, s1, S(), q);
      if ok {
        FieldsCopy(s0, s1, S(), p, q, Npages(sz[p]));
      } else {
        ghost var s2 := S();
        InvSizes(s2);
        Discard(q);
        SameIsOff(s2, S(), q);
        OffTrans(s0, s2, S(), q);
      }
    }

    /** freeproc() of an exited process: afterwards no page belongs to it, and freewalk() has
        met no leaf. */
    method Exit(q: nat)
      requires Valid() && q in sz
      modifies this, kmem
      ensures Valid() && World() == old(World()) - {q}
      ensures forall h :: h in kmem.refs ==> !((h.User? || h.Table?) && h.p == q)
      ensures Free() >= old(Free())
      ensures Free() == old(Free()) + |LastHeld(old(kmem.refs), Released(old(kmem.refs), q))|
    {
      hide Inv, Same, SameOff, SameOut, Abs, Npages, Unlinked, TablesOff, Released, LastHeld, MemInv;
      ghost var s0 := S();
      InvSizes(s0);
      ghost var sz0 := sz[q];
      Uvmunmap(q, 0, Npages(sz[q]));
      ghost var s1 := S();
      OutOff(s0, s1, q, 0, Npages(sz[q]));
      assert forall v: nat :: User(q, v) !in ptes; // so panic("freewalk: leaf") is not reached
      Discard(q);
      SameIsOff(s1, S(), q);
      OffTrans(s0, s1, S(), q);
      OffWorld(s0, S(), q, sz);
      sz := sz - {q};
      GoneHolders(S(), q);
      ReleasedIs(s0, q, Npages(sz0));
      ReleasedPart(s0.m.refs, q);
      GivenBack(s0, S());
    }

    // -------------------------------------------------------------- faults

    /** cowfault(): the page becomes private and writable; nobody sees a difference. */
    method Cowfault(p: nat, va: nat) returns (ok: bool)
      requires Inv(S()) && Fresh !in kmem.refs
      modifies this`ptes, kmem
      ensures Inv(S()) && Fresh !in kmem.refs && Same(old(S()), S())
      ensures var h := User(p, va / PGSIZE);
              && (ok <==> h in old(ptes) && old(ptes)[h].cow && old(kmem.freelist) != [])
              && (!ok ==> S() == old(S()))
              && (ok ==>
                  && h in ptes && ptes == old(ptes)[h := ptes[h]] && ptes[h].w && !ptes[h].cow
                  && ptes[h].u == old(ptes)[h].u)
      ensures Free() + 1 >= old(Free())
    {
      hide Inv, Same, SameBut, MemInv, PageAt, AccessAt;
      ghost var s0 := S();
      SameRefl(s0);
      var h := User(p, va / PGSIZE);
      if h !in ptes || !ptes[h].cow {
        return false;
      }
      InvParts(s0);
      var pa := ptes[h].pa;
      var mem := GrabPage(kmem.pages[pa]);
      if mem == 0 {
        return false;
      }
      ghost var s1 := S();
      InvParts(s1);
      CowBreakInv(s1, h);
      MappedPage(s0, h);
      BreakView(s0, s1, h);
      BreakMem(s1, h);
      SwapParts(s1, h);
      SwapIn(h, mem);
      kmem.Kfree(pa, Fresh);
      assert S() == CowBreak(s1, h);
      return true;
    }

    /** The entry of h now maps the fresh page, and the old page waits to be freed. */
    method SwapIn(h: Holder, mem: nat)
      requires Fresh in kmem.refs && kmem.refs[Fresh] == mem && h in ptes && h in kmem.refs
      requires kmem.refs[h] == ptes[h].pa
      modifies this`ptes, kmem`refs
      ensures S() == SwapFresh(old(S()), h)
    {
      kmem.refs := kmem.refs[h := mem][Fresh := ptes[h].pa];
      ptes := ptes[h := ptes[h].(pa := mem, w := true, cow := false)];
    }

    /** vmfault(): maps a zeroed page below the size, which is what the page read as anyway. */
    method Vmfault(p: nat, va: nat) returns (ok: bool)
      requires Valid() && p in sz
      modifies this`ptes, this`tables, this`made, kmem
      ensures Valid() && Same(old(S()), S())
      ensures var h := User(p, va / PGSIZE);
              && (ok ==> va < sz[p] && h !in old(ptes) && h in ptes && ptes == old(ptes)[h := ptes[h]])
              && (ok ==> ptes[h].u && ptes[h].w && !ptes[h].cow)
              && (!ok ==> ptes == old(ptes))
      ensures ok <==>
              va < sz[p] && User(p, va / PGSIZE) !in old(ptes) && old(Free()) >= 1 + Missing(old(made), p, va / PGSIZE)
      ensures User(p, va / PGSIZE) in old(ptes) ==> Free() == old(Free())
      ensures Free() + 3 >= old(Free())
    {
      hide Inv, Same, SameBut, PageAt, AccessAt, MemInv;
      ghost var s0 := S();
      SameRefl(s0);
      if va >= sz[p] {
        return false;
      }
      var v := va / PGSIZE;
      if User(p, v) in ptes {
        return false;
      }
      PageBelow(va, sz[p]);
      ok := MapZero(p, v, true);
      if ok {
        ZeroView(s0, S(), User(p, v));
      }
    }

    // -------------------------------------------------------------- loads and stores

    /** memmove() into a page that p may write. */
    method PatchPage(p: nat, v: nat, off: nat, bytes: seq<int>)
      requires Valid() && p in sz && off + |bytes| <= PGSIZE
      requires User(p, v) in ptes && ptes[User(p, v)].w
      modifies kmem
      ensures Valid() && v < Npages(sz[p])
      ensures World() == old(World())[p := Stored(old(World())[p], v * PGSIZE + off, bytes)]
      ensures Free() == old(Free())
    {
      hide Inv, SameBut, PageAt, Abs, Stored;
      ghost var s0, h := S(), User(p, v);
      InvParts(s0);
      InvSizes(s0);
      var pa := ptes[User(p, v)].pa;
      var pg := Patched(kmem.pages[pa], off, bytes);
      MappedPage(s0, h);
      WriteInv(s0, h, pg);
      kmem.pages := kmem.pages[pa := pg];
      assert S() == WritePage(s0, h, pg);
      StoreWorld(s0, S(), p, v, off, bytes, sz);
    }

    /** usertrap() on a page fault: cowfault(), then vmfault(). */
    method Fault(p: nat, va: nat) returns (ok: bool)
      requires Valid() && p in sz
      modifies this`ptes, this`tables, this`made, kmem
      ensures Valid() && World() == old(World()) && Free() + 3 >= old(Free())
      ensures var h := User(p, va / PGSIZE);
              && (ok ==> h in ptes && !ptes[h].cow && (h !in old(ptes) ==> va < sz[p] && ptes[h].u && ptes[h].w))
              && (ok && h in old(ptes) ==> old(ptes)[h].cow && ptes[h].w && ptes[h].u == old(ptes)[h].u)
              && (!ok ==> ptes == old(ptes) && (h in ptes ==> Free() == old(Free())))
              && (h in old(ptes) && old(ptes)[h].cow ==> (!ok <==> old(Free()) == 0))
              && (h !in old(ptes) && va < sz[p] ==> (!ok <==> old(Free()) < 1 + Missing(old(made), p, va / PGSIZE)))
    {
      hide Inv, Same, Abs;
      ghost var s0 := S();
      ok := Cowfault(p, va);
      AbsSame(s0, S(), sz);
      if !ok {
        ok := Vmfault(p, va);
        AbsSame(s0, S(), sz);
      }
    }

    /** A user store of one byte: the hardware writes through a writable user entry; otherwise
        the fault is handled and the store tried again, and the process is killed if that fails
        too.  An allowed store below the size is done unless memory runs out; one between the
        size and the end of its page needs the page to be mapped already. */
    method UserStore(p: nat, va: nat, b: int) returns (r: Outcome)
      requires Valid() && p in sz
      modifies this`ptes, this`tables, this`made, kmem
      ensures Valid()
      ensures r.Done? ==> va < |old(World())[p].mem| && World() == old(World())[p := Stored(old(World())[p], va, [b])]
      ensures !r.Done? ==> World() == old(World())
      ensures r.Denied? <==> !MayStore(old(World())[p], va) || (va >= sz[p] && User(p, va / PGSIZE) !in old(ptes))
      ensures Free() + 3 >= old(Free()) && (r.NoMemory? ==> old(Free()) < 3)
      ensures r.NoMemory? <==>
                if User(p, va / PGSIZE) in old(ptes) then
                  && MayStore(old(World())[p], va) && !old(ptes)[User(p, va / PGSIZE)].w && old(Free()) == 0
                else va < sz[p] && old(Free()) < 1 + Missing(old(made), p, va / PGSIZE)
    {
      hide Inv, Abs, Missing, Stored, MayStore, MayLoad;
      var v, tries := va / PGSIZE, 0;
      var h := User(p, v);
      Lookup(p, va);
      while !(h in ptes && ptes[h].u && ptes[h].w)
        invariant Valid() && World() == old(World()) && Free() + 3 >= old(Free())
        invariant tries == 0 ==> S() == old(S()) && made == old(made)
        invariant tries == 0 || (h in ptes && !ptes[h].cow && (h !in old(ptes) ==> va < sz[p]))
        invariant tries == 1 ==> old(Free()) > 0
        invariant tries == 1 && h !in old(ptes) ==> old(Free()) >= 1 + Missing(old(made), p, v)
        decreases 1 - tries
      {
        var ok := Fault(p, va);
        Lookup(p, va);
        if !ok {
          var forbidden := if h in ptes then !(ptes[h].u && (ptes[h].w || ptes[h].cow)) else va >= sz[p];
          return if forbidden then Denied else NoMemory;
        }
        tries := 1;
      }
      Lookup(p, va);
      PatchPage(p, v, va % PGSIZE, [b]);
      return Done;
    }

    /** A user load of one byte, with the same fault handling. */
    method UserLoad(p: nat, va: nat) returns (r: Outcome, b: int)
      requires Valid() && p in sz
      modifies this`ptes, this`tables, this`made, kmem
      ensures Valid() && World() == old(World())
      ensures r.Done? ==> va < |World()[p].mem| && b == World()[p].mem[va]
      ensures r.Denied? <==> !MayLoad(World()[p], va) || (va >= sz[p] && User(p, va / PGSIZE) !in old(ptes))
      ensures Free() + 3 >= old(Free()) && (r.NoMemory? ==> old(Free()) < 3)
      ensures r.NoMemory? <==>
              va < sz[p] && User(p, va / PGSIZE) !in old(ptes) && old(Free()) < 1 + Missing(old(made), p, va / PGSIZE)
    {
      hide Inv, Abs, Missing, MayLoad, MayStore;
      var v, tries := va / PGSIZE, 0;
      var h := User(p, v);
      Lookup(p, va);
      while !(h in ptes && ptes[h].u)
        invariant Valid() && World() == old(World()) && Free() + 3 >= old(Free())
        invariant tries == 0 ==> S() == old(S()) && made == old(made)
        invariant tries == 0 || (h in ptes && !ptes[h].cow && (h !in old(ptes) ==> va < sz[p]))
        invariant tries == 1 ==> old(Free()) > 0
        invariant tries == 1 && h !in old(ptes) ==> old(Free()) >= 1 + Missing(old(made), p, v)
        decreases 1 - tries
      {
        var ok := Fault(p, va);
        Lookup(p, va);
        if !ok {
          return if h in ptes || va >= sz[p] then Denied else NoMemory, 0;
        }
        tries := 1;
      }
      Lookup(p, va);
      var piece := ReadPiece(p, va, 1);
      return Done, piece[0];
    }

    /** What the page table says about the access the world allows. */
    lemma Lookup(p: nat, va: nat)
      requires Valid() && p in sz
      ensures var h, pr, inside := User(p, va / PGSIZE), World()[p], va / PGSIZE < Npages(sz[p]);
              && (MayStore(pr, va) <==> inside && (h !in ptes || (ptes[h].u && (ptes[h].w || ptes[h].cow))))
              && (MayLoad(pr, va) <==> inside && (h !in ptes || ptes[h].u))
              && (h in ptes || va - va % PGSIZE < sz[p] ==> inside && va - va % PGSIZE < MAXVA)
              && (inside <==> va < |pr.mem|) && (va < sz[p] ==> inside)
    {
      hide Inv, Abs, MayStore, MayLoad;
      StoreAccess(S(), p, va, sz);
      PageAbove(va, sz[p]);
      InvSizes(S());
      MemSize(kmem.M(), ptes, sz, p);
      if va < sz[p] {
        PageBelow(va, sz[p]);
      }
      assert va / PGSIZE < Npages(sz[p]) ==> va < Npages(sz[p]) * PGSIZE;
    }

    /** One round of copyout()'s loop, up to the memmove: make the page of va writable. */
    method Writable(p: nat, va: nat) returns (ok: bool)
      requires Valid() && p in sz
      modifies this`ptes, this`tables, this`made, kmem
      ensures Valid() && World() == old(World())
      ensures ok ==> User(p, va / PGSIZE) in ptes && ptes[User(p, va / PGSIZE)].w
      ensures ok ==> MayStore(World()[p], va)
      ensures Free() + 3 >= old(Free())
      ensures !ok ==> !MayStore(World()[p], va) || old(Free()) < 3
    {
      hide Inv, Same, Abs, MayStore;
      ghost var s0 := S();
      SameRefl(s0);
      Lookup(p, va);
      var va0 := va - va % PGSIZE;
      var h := User(p, va / PGSIZE);
      if va0 >= MAXVA {
        return false;
      }
      if !(h in ptes && ptes[h].u) {
        var mapped := Vmfault(p, va0);
        AbsSame(s0, S(), sz);
        if !mapped {
          return false;
        }
      }
      if !ptes[h].w {
        ghost var s1 := S();
        if !ptes[h].cow {
          return false;
        }
        var broken := Cowfault(p, va0);
        AbsSame(s1, S(), sz);
        if !broken {
          return false;
        }
      }
      InvSizes(S());
      MayStoreEntry(S(), p, va, sz);
      return true;
    }

    /** One round of copyout()'s loop: the piece that lies in the page of va. */
    method OutPiece(p: nat, va: nat, bytes: seq<int>) returns (ok: bool)
      requires Valid() && p in sz && |bytes| <= PGSIZE - va % PGSIZE
      modifies this`ptes, this`tables, this`made, kmem
      ensures Valid() && Free() + 3 >= old(Free())
      ensures !ok ==> World() == old(World()) && (!MayStore(World()[p], va) || old(Free()) < 3)
      ensures ok ==> MayStore(old(World())[p], va) && va + |bytes| <= |old(World())[p].mem|
      ensures ok ==> World() == old(World())[p := Stored(old(World())[p], va, bytes)]
    {
      hide Inv, Abs, Stored, MayStore;
      ok := Writable(p, va);
      if ok {
        MemSize(kmem.M(), ptes, sz, p);
        PatchPage(p, va / PGSIZE, va % PGSIZE, bytes);
      }
    }

    /** copyout(): writes all of src, or a prefix of it that ends at a page boundary. */
    method Copyout(p: nat, dstva: nat, src: seq<int>) returns (ok: bool, done: nat)
      requires Valid() && p in sz
      modifies this`ptes, this`tables, this`made, kmem
      ensures Valid() && done <= |src| && (ok <==> done == |src|)
      ensures done > 0 ==> dstva + done <= |old(World())[p].mem|
      ensures World() == if done == 0 then old(World())
              else old(World())[p := Stored(old(World())[p], dstva, src[..done])]
      ensures forall a :: dstva <= a < dstva + done ==> MayStore(old(World())[p], a)
      ensures Free() + 3 * Touched(dstva, |src|) >= old(Free())
      ensures !ok ==> !MayStore(old(World())[p], dstva + done) || old(Free()) < 3 * Touched(dstva, |src|)
    {
      hide Inv, Abs, Stored, MayStore, Npages, Touched;
      done := 0;
      ghost var pr := World()[p];
      while done < |src|
        invariant Valid() && done <= |src|
        invariant done > 0 ==> dstva + done <= |pr.mem|
        invariant World() == if done == 0 then old(World()) else old(World())[p := Stored(pr, dstva, src[..done])]
        invariant forall a :: dstva <= a < dstva + done ==> MayStore(pr, a)
        invariant done == 0 || done == |src| || (dstva + done) % PGSIZE == 0
        invariant Free() + 3 * Touched(dstva, done) >= old(Free())
      {
        var va := dstva + done;
        var n := PGSIZE - va % PGSIZE;
        if n > |src| - done {
          n := |src| - done;
        }
        TouchedMore(dstva, done, n, |src|);
        if done > 0 {
          StoredMay(pr, dstva, src[..done], va);
        }
        ghost var now := World()[p];
        var can := OutPiece(p, va, src[done..done + n]);
        if !can {
          return false, done;
        }
        OutStep(pr, now, dstva, src, done, n);
        done := done + n;
      }
      return true, done;
    }

    /** copyin(): reads exactly the bytes of the world. */
    method Copyin(p: nat, srcva: nat, len: nat) returns (ok: bool, dst: seq<int>)
      requires Valid() && p in sz
      modifies this`ptes, this`tables, this`made, kmem
      ensures Valid() && World() == old(World())
      ensures |dst| <= len && (ok <==> |dst| == len)
      ensures dst != [] ==> srcva + |dst| <= |World()[p].mem| && dst == World()[p].mem[srcva..srcva + |dst|]
      ensures forall a :: srcva <= a < srcva + |dst| ==> MayLoad(World()[p], a)
      ensures Free() + 3 * Touched(srcva, len) >= old(Free())
      ensures !ok ==> !MayLoad(World()[p], srcva + |dst|) || old(Free()) < 3 * Touched(srcva, len)
    {
      hide Inv, Abs, Npages, ReadSoFar, MayLoad, Touched;
      dst := [];
      ghost var pr := World()[p];
      ReadNone(pr.mem, srcva);
      while |dst| < len
        invariant Valid() && |dst| <= len && p in sz && World() == old(World())
        invariant ReadSoFar(pr.mem, srcva, dst)
        invariant forall a :: srcva <= a < srcva + |dst| ==> MayLoad(pr, a)
        invariant |dst| == 0 || |dst| == len || (srcva + |dst|) % PGSIZE == 0
        invariant Free() + 3 * Touched(srcva, |dst|) >= old(Free())
      {
        var va := srcva + |dst|;
        var n := PGSIZE - va % PGSIZE;
        if n > len - |dst| {
          n := len - |dst|;
        }
        TouchedMore(srcva, |dst|, n, len);
        var can := Readable(p, va);
        if !can {
          ReadParts(pr.mem, srcva, dst);
          return false, dst;
        }
        var piece := ReadPiece(p, va, n);
        ReadMore(pr.mem, srcva, dst, piece);
        SamePage(pr, va, n);
        dst := dst + piece;
      }
      ReadParts(pr.mem, srcva, dst);
      return true, dst;
    }

    /** One round of copyin()'s loop, up to the memmove: the page of va is the user's and mapped. */
    method Readable(p: nat, va: nat) returns (ok: bool)
      requires Valid() && p in sz
      modifies this`ptes, this`tables, this`made, kmem
      ensures Valid() && World() == old(World())
      ensures ok ==> User(p, va / PGSIZE) in ptes && MayLoad(World()[p], va)
      ensures Free() + 3 >= old(Free())
      ensures !ok ==> !MayLoad(World()[p], va) || old(Free()) < 3
    {
      hide Inv, Same, Abs, MayLoad;
      ghost var s0 := S();
      SameRefl(s0);
      Lookup(p, va);
      var h := User(p, va / PGSIZE);
      if h in ptes && ptes[h].u {
        return true;
      }
      ok := Vmfault(p, va - va % PGSIZE);
      AbsSame(s0, S(), sz);
      Lookup(p, va);
    }

    method ReadPiece(p: nat, va: nat, n: nat) returns (piece: seq<int>)
      requires Valid() && p in sz && User(p, va / PGSIZE) in ptes && 0 < n <= PGSIZE - va % PGSIZE
      ensures |piece| == n && va + n <= |World()[p].mem| && piece == World()[p].mem[va..va + n]
    {
      hide Inv, AbsProc;
      var h := User(p, va / PGSIZE);
      InvParts(S());
      InvSizes(S());
      MemSize(kmem.M(), ptes, sz, p);
      MappedPage(S(), h);
      LoadWorld(S(), p, va / PGSIZE, va % PGSIZE, n, sz[p]);
      piece := kmem.pages[ptes[h].pa][va % PGSIZE..va % PGSIZE + n];
    }

    /** uvmclear(): exec's guard page stays mapped but is no longer the user's. */
    method Uvmclear(p: nat, v: nat) returns (ok: bool)
      requires Valid() && p in sz
      modifies this`ptes
      ensures Valid() && (ok <==> User(p, v) in old(ptes))
      ensures ok ==> v < Npages(sz[p]) && World() == old(World())[p := Guarded(old(World())[p], v)]
      ensures !ok ==> World() == old(World())
    {
      hide Inv, SameBut, Abs, Guarded, PageAt;
      var h := User(p, v);
      if h !in ptes {
        return false;
      }
      ghost var s0 := S();
      InvSizes(s0);
      ClearInv(s0, h);
      ptes := ptes[h := ptes[h].(u := false)];
      ClearWorld(s0, S(), p, v, sz);
      return true;
    }

    /** userinit(): the first process, with no memory. */
    method Create(q: nat) returns (ok: bool)
      requires Valid() && q !in sz
      modifies this, kmem
      ensures Valid() && World() == if ok then old(World())[q := Proc(0, [], [])] else old(World())
      ensures Free() + 4 >= old(Free())
      ensures |old(sz)| >= NPROC ==> !ok
      ensures !ok ==> |old(sz)| >= NPROC || old(Free()) < 4
      ensures ptes == old(ptes) && sz == if ok then old(sz)[q := 0] else old(sz)
    {
      hide Inv, Same, Abs;
      if |sz| >= NPROC {
        return false;
      }
      ghost var s0 := S();
      SameSize(lim, sz);
      InvSizes(s0);
      ok := NewProc(q);
      AbsSame(s0, S(), sz);
      if ok {
        NewWorld(S(), q, sz);
        sz := sz[q := 0];
      }
    }

    // -------------------------------------------------------------- whole runs

    method Step(op: Op) returns (r: Result)
      requires Valid()
      modifies this, kmem
      ensures Valid() && EagerStep(old(S()), old(World()), op, r, S(), World())
    {
      hide Inv, Abs, EagerAct, Npages, Touched;
      r := Result(Denied, []);
      WorldSize(kmem.M(), ptes, sz);
      if op.Create? {
        if op.p !in sz && |sz| < NPROC {
          var ok := Create(op.p);
          r := Result(if ok then Done else NoMemory, []);
        }
      } else if op.p in sz {
        r := ProcStep(op);
      }
    }

    method ProcStep(op: Op) returns (r: Result)
      requires Valid() && !op.Create? && op.p in sz
      modifies this, kmem
      ensures Valid() && EagerStep(old(S()), old(World()), op, r, S(), World())
    {
      hide Inv, Abs, Npages, Touched;
      r := Result(Denied, []);
      WorldSize(kmem.M(), ptes, sz);
      SizedWorld(kmem.M(), ptes, sz, op.p);
      if op.Fork? {
        if op.q !in sz && |sz| < NPROC {
          var ok := Fork(op.p, op.q);
          r := Result(if ok then Done else NoMemory, []);
        }
      } else if op.Exit? {
        Exit(op.p);
        r := Result(Done, []);
      } else if op.Grow? || op.LazyGrow? || op.Shrink? || op.Guard? {
        r := SizeStep(op);
      } else if op.Store? || op.Load? {
        r := AccessStep(op);
      } else {
        r := TransferStep(op);
      }
    }

    method SizeStep(op: Op) returns (r: Result)
      requires Valid() && (op.Grow? || op.LazyGrow? || op.Shrink? || op.Guard?) && op.p in sz
      modifies this, kmem
      ensures Valid() && EagerStep(old(S()), old(World()), op, r, S(), World())
    {
      hide Inv, Abs, Grown, Shrunk, Guarded, Npages;
      SizedWorld(kmem.M(), ptes, sz, op.p);
      match op {
        case Grow(p, n, w) =>
          r := GrowStep(op);
        case LazyGrow(p, n) =>
          var g := SbrkLazy(p, n);
          r := Result(if g == 0 then Done else Denied, []);
        case Shrink(p, n) =>
          Shrink(p, n);
          r := Result(Done, []);
        case Guard(p, v) =>
          var ok := Uvmclear(p, v);
          r := Result(if ok then Done else Denied, []);
      }
    }

    method GrowStep(op: Op) returns (r: Result)
      requires Valid() && op.Grow? && op.p in sz
      modifies this, kmem
      ensures Valid() && EagerStep(old(S()), old(World()), op, r, S(), World())
    {
      hide Inv, Abs, Grown, Npages;
      SizedWorld(kmem.M(), ptes, sz, op.p);
      var g, fits := 0, sz[op.p] + op.n <= TRAPFRAME;
      if op.n > 0 {
        g := GrowEager(op.p, op.n, op.w);
      } else {
        GrownNone(World()[op.p], op.w);
      }
      r := Result(if g == 0 then Done else if fits then NoMemory else Denied, []);
    }

    method AccessStep(op: Op) returns (r: Result)
      requires Valid() && (op.Store? || op.Load?) && op.p in sz
      modifies this, kmem
      ensures Valid() && EagerStep(old(S()), old(World()), op, r, S(), World())
    {
      hide Inv, Abs, Stored, MayStore, MayLoad, Touched;
      SizedWorld(kmem.M(), ptes, sz, op.p);
      match op {
        case Store(p, va, b) =>
          var o := UserStore(p, va, b);
          r := Result(o, []);
        case Load(p, va) =>
          var o, b := UserLoad(p, va);
          r := Result(o, [b]);
      }
    }

    method TransferStep(op: Op) returns (r: Result)
      requires Valid() && (op.CopyOut? || op.CopyIn?) && op.p in sz
      modifies this, kmem
      ensures Valid() && EagerStep(old(S()), old(World()), op, r, S(), World())
    {
      hide Inv, Abs, Stored, MayStore, MayLoad, Touched, Npages;
      match op {
        case CopyOut(p, va, src) =>
          var ok, done := Copyout(p, va, src);
          r := Result(if ok then Done else Denied, src[..done]);
        case CopyIn(p, va, n) =>
          var ok, dst := Copyin(p, va, n);
          r := Result(if ok then Done else Denied, dst);
      }
    }

    /** Copy-on-write, lazy allocation and sharing are invisible: every run is a run of the
        eager world, operation by operation and byte by byte. */
    method Run(ops: seq<Op>) returns (rs: seq<Result>, ghost ss: seq<St>, ghost ws: seq<World>)
      requires Valid()
      modifies this, kmem
      ensures Valid() && EagerRun(ss, ws, ops, rs)
      ensures ws[0] == old(World()) && ws[|ops|] == World() && ss[0] == old(S()) && ss[|ops|] == S()
    {
      hide Inv, Abs, EagerStep, Shows;
      rs, ss, ws := [], [S()], [World()];
      Showing();
      while |rs| < |ops|
        invariant Valid() && |rs| <= |ops| && |ws| == |ss| == |rs| + 1
        invariant ws[0] == old(World()) && ws[|rs|] == World() && ss[0] == old(S()) && ss[|rs|] == S()
        invariant forall i :: 0 <= i <= |rs| ==> Shows(ss[i], ws[i])
        invariant forall i :: 0 <= i < |rs| ==> EagerStep(ss[i], ws[i], ops[i], rs[i], ss[i + 1], ws[i + 1])
      {
        var r := Step(ops[|rs|]);
        Showing();
        rs, ss, ws := rs + [r], ss + [S()], ws + [World()];
      }
    }

    lemma Showing()
      requires Valid()
      ensures Shows(S(), World())
    {
      hide Inv;
      assert Sizes(World()) == sz;
    }
  }

  /** Where lazy growth shows: after growing by 100 bytes, a store at 200 is done if the page
      was allocated ... */
  method PastEagerSize(b: int) returns (r: Outcome)
    ensures r.Done?
  {
    hide Inv, Abs, Grown, Stored, MayStore, MayLoad;
    var vm := new Vm(1, 31);
    var ok := vm.Create(0);
    assert Npages(100) == 1 && Npages(0) == 0;
    var g := vm.GrowEager(0, 100, true);
    GrownMay();
    r := vm.UserStore(0, 200, b);
  }

  lemma GrownMay()
    ensures MayStore(Grown(Proc(0, [], []), 100, true), 200)
  {
  }

  /** ... and kills the process if the page was only promised. */
  method PastLazySize(b: int) returns (r: Outcome)
    ensures r.Denied?
  {
    hide Inv, Abs, Grown, Stored, MayStore, MayLoad;
    var vm := new Vm(1, 31);
    var ok := vm.Create(0);
    var g := vm.SbrkLazy(0, 100);
    r := vm.UserStore(0, 200, b);
  }
}
