/** The world that kernel/vm.c promises: every process has its own bytes, as if fork had
    copied all memory at once. */
module VmWorld {
  import opened PageAlloc
  import opened VmState
  import opened Params

  // ---------------------------------------------------------------- the eager world

  /** A process as fork-by-copying would have it: PGROUNDUP(sz) bytes of its own. */
  datatype Proc = Proc(sz: nat, mem: seq<int>, acc: seq<Access>)
  type World = map<nat, Proc>

  ghost function Bytes(m: Mem, ptes: map<Holder, Pte>, p: nat, n: nat): (r: seq<int>)
    ensures |r| == n * PGSIZE
  {
    seq(n * PGSIZE, i requires 0 <= i < n * PGSIZE => PageAt(m, ptes, User(p, i / PGSIZE))[i % PGSIZE])
  }

  ghost function Accesses(ptes: map<Holder, Pte>, p: nat, n: nat): (r: seq<Access>)
    ensures |r| == n
  {
    seq(n, v requires 0 <= v < n => AccessAt(ptes, User(p, v)))
  }

  ghost function AbsProc(m: Mem, ptes: map<Holder, Pte>, p: nat, sz: nat): Proc {
    Proc(sz, Bytes(m, ptes, p, Npages(sz)), Accesses(ptes, p, Npages(sz)))
  }

  ghost function Abs(m: Mem, ptes: map<Holder, Pte>, sz: map<nat, nat>): (r: World)
    ensures r.Keys == sz.Keys
  {
    map p | p in sz :: AbsProc(m, ptes, p, sz[p])
  }

  function Zeros(n: nat): (r: seq<int>)
    ensures |r| == n
  {
    seq(n, _ => 0)
  }

  /** Growing by whole zeroed pages, eagerly or lazily. */
  ghost function Grown(pr: Proc, newsz: nat, w: bool): Proc
    requires pr.sz <= newsz
  {
    var more := Npages(newsz) - Npages(pr.sz);
    Proc(newsz, pr.mem + Zeros(more * PGSIZE), pr.acc + seq(more, _ => Access(true, w)))
  }

  ghost predicate WellSized(pr: Proc) {
    |pr.mem| == Npages(pr.sz) * PGSIZE && |pr.acc| == Npages(pr.sz)
  }

  ghost function Shrunk(pr: Proc, newsz: nat): Proc
    requires newsz <= pr.sz && WellSized(pr)
  {
    Proc(newsz, pr.mem[..Npages(newsz) * PGSIZE], pr.acc[..Npages(newsz)])
  }

  /** No page outside process p changed. */
  ghost predicate SameOff(s: St, t: St, p: nat) {
    forall k: Holder :: !(k.User? && k.p == p) ==> SameAt(s, t, k)
  }

  lemma AbsOne(s: St, t: St, p: nat, sz: nat)
    requires forall v: nat :: v < Npages(sz) ==> SameAt(s, t, User(p, v))
    ensures AbsProc(s.m, s.ptes, p, sz) == AbsProc(t.m, t.ptes, p, sz)
  {
    var n := Npages(sz);
    assert forall i :: 0 <= i < n * PGSIZE ==> SameAt(s, t, User(p, i / PGSIZE));
    assert Bytes(s.m, s.ptes, p, n) == Bytes(t.m, t.ptes, p, n);
    assert Accesses(s.ptes, p, n) == Accesses(t.ptes, p, n);
  }

  lemma AbsSame(s: St, t: St, sz: map<nat, nat>)
    requires Same(s, t)
    ensures Abs(s.m, s.ptes, sz) == Abs(t.m, t.ptes, sz)
  {
    forall p | p in sz ensures AbsProc(s.m, s.ptes, p, sz[p]) == AbsProc(t.m, t.ptes, p, sz[p]) {
      AbsOne(s, t, p, sz[p]);
    }
  }

  /** A change to process p is a change of the world at p. */
  lemma AbsOff(s: St, t: St, p: nat, sz: map<nat, nat>, n: nat)
    requires SameOff(s, t, p)
    ensures Abs(t.m, t.ptes, sz[p := n]) == Abs(s.m, s.ptes, sz)[p := AbsProc(t.m, t.ptes, p, n)]
  {
    forall q | q in sz && q != p ensures AbsProc(s.m, s.ptes, q, sz[q]) == AbsProc(t.m, t.ptes, q, sz[q]) {
      AbsOne(s, t, q, sz[q]);
    }
  }

  lemma NpagesMono(a: nat, b: nat)
    requires a <= b
    ensures Npages(a) <= Npages(b)
  {
  }

  lemma NpagesBound(a: nat)
    requires a <= TRAPFRAME
    ensures Npages(a) <= MAXPAGES
  {
  }

  lemma OutOff(s: St, t: St, p: nat, a: nat, b: nat)
    requires SameOut(s, t, p, a, b)
    ensures SameOff(s, t, p)
  {
  }

  lemma GrownAbs(s: St, t: St, p: nat, oldsz: nat, newsz: nat, w: bool)
    requires oldsz <= newsz
    requires SameOut(s, t, p, Npages(oldsz), Npages(newsz)) && ZeroRange(t, p, Npages(oldsz), Npages(newsz), w)
    ensures AbsProc(t.m, t.ptes, p, newsz) == Grown(AbsProc(s.m, s.ptes, p, oldsz), newsz, w)
  {
    var a, b := Npages(oldsz), Npages(newsz);
    assert forall v: nat :: v < a ==> SameAt(s, t, User(p, v));
    assert forall i :: 0 <= i < a * PGSIZE ==> SameAt(s, t, User(p, i / PGSIZE));
    assert forall i :: a * PGSIZE <= i < b * PGSIZE ==> PageAt(t.m, t.ptes, User(p, i / PGSIZE)) == Fill(0);
    assert Bytes(t.m, t.ptes, p, b) == Bytes(s.m, s.ptes, p, a) + Zeros((b - a) * PGSIZE);
    assert Accesses(t.ptes, p, b) == Accesses(s.ptes, p, a) + seq(b - a, _ => Access(true, w));
  }

  lemma ShrunkAbs(s: St, t: St, p: nat, oldsz: nat, newsz: nat)
    requires newsz <= oldsz && SameOut(s, t, p, Npages(newsz), Npages(oldsz))
    ensures AbsProc(t.m, t.ptes, p, newsz) == Shrunk(AbsProc(s.m, s.ptes, p, oldsz), newsz)
  {
    var b := Npages(newsz);
    NpagesMono(newsz, oldsz);
    assert forall i :: 0 <= i < b * PGSIZE ==> SameAt(s, t, User(p, i / PGSIZE));
    assert Bytes(t.m, t.ptes, p, b) == Bytes(s.m, s.ptes, p, Npages(oldsz))[..b * PGSIZE];
    assert forall v :: 0 <= v < b ==> SameAt(s, t, User(p, v));
    assert Accesses(t.ptes, p, b) == Accesses(s.ptes, p, Npages(oldsz))[..b];
  }

  lemma GrowWorld(s: St, t: St, p: nat, sz: map<nat, nat>, newsz: nat, w: bool)
    requires p in sz && sz[p] <= newsz
    requires SameOut(s, t, p, Npages(sz[p]), Npages(newsz)) && ZeroRange(t, p, Npages(sz[p]), Npages(newsz), w)
    ensures Abs(t.m, t.ptes, sz[p := newsz])
         == Abs(s.m, s.ptes, sz)[p := Grown(Abs(s.m, s.ptes, sz)[p], newsz, w)]
  {
    OutOff(s, t, p, Npages(sz[p]), Npages(newsz));
    AbsOff(s, t, p, sz, newsz);
    GrownAbs(s, t, p, sz[p], newsz, w);
  }

  lemma KeepWorld(s: St, t: St, p: nat, sz: map<nat, nat>, b: nat)
    requires p in sz && SameOut(s, t, p, Npages(sz[p]), b)
    ensures Abs(t.m, t.ptes, sz) == Abs(s.m, s.ptes, sz)
  {
    OutOff(s, t, p, Npages(sz[p]), b);
    AbsOff(s, t, p, sz, sz[p]);
    AbsOne(s, t, p, sz[p]);
    assert sz[p := sz[p]] == sz;
  }

  lemma ShrinkWorld(s: St, t: St, p: nat, sz: map<nat, nat>, newsz: nat)
    requires p in sz && newsz <= sz[p] && SameOut(s, t, p, Npages(newsz), Npages(sz[p]))
    ensures Abs(t.m, t.ptes, sz[p := newsz])
         == Abs(s.m, s.ptes, sz)[p := Shrunk(Abs(s.m, s.ptes, sz)[p], newsz)]
  {
    OutOff(s, t, p, Npages(newsz), Npages(sz[p]));
    AbsOff(s, t, p, sz, newsz);
    ShrunkAbs(s, t, p, sz[p], newsz);
  }

  /** The page just allocated, if any, and its content are untouched. */
  ghost predicate FreshKept(s: St, t: St) {
    && (Fresh in s.m.refs <==> Fresh in t.m.refs)
    && (Fresh in s.m.refs ==>
          && s.m.refs[Fresh] == t.m.refs[Fresh]
          && (s.m.refs[Fresh] in s.m.pages ==>
                s.m.refs[Fresh] in t.m.pages && s.m.pages[s.m.refs[Fresh]] == t.m.pages[s.m.refs[Fresh]]))
  }

  lemma SameRefl(s: St)
    ensures Same(s, s) && FreshKept(s, s)
  {
  }

  lemma SameTrans(a: St, b: St, c: St)
    ensures Same(a, b) && Same(b, c) ==> Same(a, c)
    ensures FreshKept(a, b) && FreshKept(b, c) ==> FreshKept(a, c)
  {
    if Same(a, b) && Same(b, c) {
      forall k ensures SameAt(a, c, k) {
        assert SameAt(a, b, k) && SameAt(b, c, k);
      }
    }
  }

  predicate InRange(k: Holder, p: nat, a: nat, b: nat) { k.User? && k.p == p && a <= k.v < b }

  /** Nothing but pages [a, b) of process p changed. */
  ghost predicate SameOut(s: St, t: St, p: nat, a: nat, b: nat) {
    forall k :: !InRange(k, p, a, b) ==> SameAt(s, t, k)
  }

  function Without(ptes: map<Holder, Pte>, p: nat, a: nat, b: nat): map<Holder, Pte> {
    map k | k in ptes && !InRange(k, p, a, b) :: ptes[k]
  }

  lemma SameOutStep(s: St, t: St, u: St, p: nat, a: nat, b: nat)
    requires a <= b && SameOut(s, t, p, a, b) && SameBut(t, u, User(p, b))
    ensures SameOut(s, u, p, a, b + 1)
  {
    forall k | !InRange(k, p, a, b + 1) ensures SameAt(s, u, k) {
      assert SameAt(s, t, k) && SameAt(t, u, k);
    }
  }

  lemma SameOutSame(s: St, t: St, u: St, p: nat, a: nat, b: nat)
    requires SameOut(s, t, p, a, b) && Same(t, u)
    ensures SameOut(s, u, p, a, b) && SameOut(s, u, p, a, b + 1)
  {
    forall k | !InRange(k, p, a, b) ensures SameAt(s, u, k) {
      assert SameAt(s, t, k) && SameAt(t, u, k);
    }
  }

  lemma AddTableKept(s: St, p: nat)
    requires Inv(s) && p in s.tables && s.m.freelist != []
    ensures FreshKept(s, AddTable(s, p))
  {
    hide UserLinks, WritableOk, TableLinks, SharingOk, SizesOk;
    AllocInv(s.m, Table(p, |s.tables[p]|)) by { TableSlot(s, p); }
    NoHolders(s.m.refs, s.m.freelist[0]);
  }

  lemma InvMem(s: St)
    requires Inv(s)
    ensures MemInv(s.m)
  {
  }

  lemma InvSizes(s: St)
    requires Inv(s)
    ensures forall h :: h in s.ptes ==> h.User? && h.p in s.lim && h.v < s.lim[h.p]
    ensures forall p :: p in s.lim ==> s.lim[p] <= MAXPAGES
    ensures s.tables.Keys == s.lim.Keys
  {
  }

  lemma InvParts(s: St)
    requires Inv(s)
    ensures MemInv(s.m) && s.tables.Keys == s.lim.Keys && s.m.refcnt.Keys == s.m.pages.Keys
    ensures forall h :: h in s.ptes ==>
            h.User? && h in s.m.refs && s.m.refs[h] == s.ptes[h].pa && s.ptes[h].pa in s.m.pages
    ensures forall h :: h in s.ptes ==> |s.m.pages[s.ptes[h].pa]| == PGSIZE
    ensures Fresh in s.m.refs ==> s.m.refs[Fresh] in s.m.pages
  {
  }

  lemma KeptPage(s: St, t: St)
    requires FreshKept(s, t) && Fresh in s.m.refs && s.m.refs[Fresh] in s.m.pages
    ensures Fresh in t.m.refs && t.m.refs[Fresh] == s.m.refs[Fresh] && t.m.refs[Fresh] in t.m.pages
    ensures t.m.pages[t.m.refs[Fresh]] == s.m.pages[s.m.refs[Fresh]]
  {
  }

  lemma SameThenBut(a: St, b: St, c: St, h: Holder)
    requires Same(a, b) && SameBut(b, c, h)
    ensures SameBut(a, c, h)
  {
    forall k | k != h ensures SameAt(a, c, k) {
      assert SameAt(a, b, k) && SameAt(b, c, k);
    }
  }

  lemma SameOutRefl(s: St, p: nat, a: nat)
    ensures SameOut(s, s, p, a, a)
  {
  }

  lemma SameOutAny(s: St, t: St, p: nat, a: nat, b: nat)
    requires Same(s, t)
    ensures SameOut(s, t, p, a, b)
  {
  }

  lemma SameOutTrans(s: St, t: St, u: St, p: nat, a: nat, b: nat, c: nat)
    requires SameOut(s, t, p, a, b) && SameOut(t, u, p, a, b) && b <= c
    ensures SameOut(s, u, p, a, c)
  {
    forall k | !InRange(k, p, a, c) ensures SameAt(s, u, k) {
      assert SameAt(s, t, k) && SameAt(t, u, k);
    }
  }

  /** Pages [a, b) of p read as zero, with the given access. */
  ghost predicate ZeroRange(s: St, p: nat, a: nat, b: nat, w: bool) {
    forall v :: a <= v < b ==>
        PageAt(s.m, s.ptes, User(p, v)) == Fill(0) && AccessAt(s.ptes, User(p, v)) == Access(true, w)
  }

  lemma ZeroRangeEmpty(s: St, p: nat, a: nat, w: bool)
    ensures ZeroRange(s, p, a, a, w)
  {
  }

  lemma LazyZero(s: St, p: nat, a: nat, b: nat)
    requires forall v: nat :: a <= v ==> User(p, v) !in s.ptes
    ensures ZeroRange(s, p, a, b, true)
  {
  }

  lemma ZeroRangeStep(s: St, t: St, p: nat, a: nat, b: nat, w: bool)
    requires ZeroRange(s, p, a, b, w) && SameBut(s, t, User(p, b)) && User(p, b) in t.ptes
    requires PageAt(t.m, t.ptes, User(p, b)) == Fill(0)
    requires t.ptes[User(p, b)].u && t.ptes[User(p, b)].w == w && !t.ptes[User(p, b)].cow
    ensures ZeroRange(t, p, a, b + 1, w)
  {
    forall v | a <= v < b
      ensures PageAt(t.m, t.ptes, User(p, v)) == Fill(0) && AccessAt(t.ptes, User(p, v)) == Access(true, w)
    {
      assert SameAt(s, t, User(p, v));
    }
  }

  // ---------------------------------------------------------------- fork

  /** The first n pages of q are now what those of p were. */
  ghost predicate CopyRange(s: St, t: St, p: nat, q: nat, n: nat) {
    forall v :: 0 <= v < n ==>
      && PageAt(t.m, t.ptes, User(q, v)) == PageAt(s.m, s.ptes, User(p, v))
      && AccessAt(t.ptes, User(q, v)) == AccessAt(s.ptes, User(p, v))
  }

  lemma CopyNone(s: St, p: nat, q: nat)
    ensures CopyRange(s, s, p, q, 0) && SameOff(s, s, q)
  {
  }

  lemma CopyKeep(s: St, t: St, u: St, p: nat, q: nat, n: nat)
    requires CopyRange(s, t, p, q, n) && SameOff(s, t, q) && Same(t, u)
    ensures CopyRange(s, u, p, q, n) && SameOff(s, u, q)
  {
    forall v | 0 <= v < n
      ensures PageAt(u.m, u.ptes, User(q, v)) == PageAt(s.m, s.ptes, User(p, v))
      ensures AccessAt(u.ptes, User(q, v)) == AccessAt(s.ptes, User(p, v))
    {
      assert SameAt(t, u, User(q, v));
    }
    forall k: Holder | !(k.User? && k.p == q) ensures SameAt(s, u, k) {
      assert SameAt(s, t, k) && SameAt(t, u, k);
    }
  }

  lemma CopyHole(s: St, p: nat, q: nat, n: nat)
    requires User(p, n) !in s.ptes && User(q, n) !in s.ptes
    ensures PageAt(s.m, s.ptes, User(q, n)) == PageAt(s.m, s.ptes, User(p, n))
    ensures AccessAt(s.ptes, User(q, n)) == AccessAt(s.ptes, User(p, n))
    ensures SameBut(s, s, User(q, n))
  {
  }

  lemma CopyStep(s: St, t: St, u: St, p: nat, q: nat, n: nat)
    requires p != q && CopyRange(s, t, p, q, n) && SameOff(s, t, q) && SameBut(t, u, User(q, n))
    requires PageAt(u.m, u.ptes, User(q, n)) == PageAt(t.m, t.ptes, User(p, n))
    requires AccessAt(u.ptes, User(q, n)) == AccessAt(t.ptes, User(p, n))
    ensures CopyRange(s, u, p, q, n + 1) && SameOff(s, u, q)
  {
    assert SameAt(s, t, User(p, n));
    forall v | 0 <= v < n
      ensures PageAt(u.m, u.ptes, User(q, v)) == PageAt(s.m, s.ptes, User(p, v))
      ensures AccessAt(u.ptes, User(q, v)) == AccessAt(s.ptes, User(p, v))
    {
      assert SameAt(t, u, User(q, v));
    }
    forall k: Holder | !(k.User? && k.p == q) ensures SameAt(s, u, k) {
      assert SameAt(s, t, k) && SameAt(t, u, k);
    }
  }

  lemma OffTrans(s: St, t: St, u: St, q: nat)
    requires SameOff(s, t, q) && SameOff(t, u, q)
    ensures SameOff(s, u, q)
  {
    forall k: Holder | !(k.User? && k.p == q) ensures SameAt(s, u, k) {
      assert SameAt(s, t, k) && SameAt(t, u, k);
    }
  }

  lemma SameIsOff(s: St, t: St, q: nat)
    requires Same(s, t)
    ensures SameOff(s, t, q)
  {
  }

  lemma ForkWorld(s: St, t: St, p: nat, q: nat, sz: map<nat, nat>)
    requires p in sz && q !in sz && SameOff(s, t, q) && CopyRange(s, t, p, q, Npages(sz[p]))
    ensures Abs(t.m, t.ptes, sz[q := sz[p]]) == Abs(s.m, s.ptes, sz)[q := Abs(s.m, s.ptes, sz)[p]]
  {
    AbsOff(s, t, q, sz, sz[p]);
    var n := Npages(sz[p]);
    assert Bytes(t.m, t.ptes, q, n) == Bytes(s.m, s.ptes, p, n);
    assert Accesses(t.ptes, q, n) == Accesses(s.ptes, p, n);
  }

  lemma OffWorldNew(s: St, t: St, q: nat, sz: map<nat, nat>)
    requires SameOff(s, t, q) && q !in sz
    ensures Abs(t.m, t.ptes, sz) == Abs(s.m, s.ptes, sz)
  {
    OffWorld(s, t, q, sz);
    assert sz - {q} == sz && Abs(s.m, s.ptes, sz) - {q} == Abs(s.m, s.ptes, sz);
  }

  lemma SameSize<V, W>(a: map<nat, V>, b: map<nat, W>)
    requires a.Keys == b.Keys
    ensures |a| == |b|
  {
    assert |a.Keys| == |b.Keys|;
  }

  lemma OffWorld(s: St, t: St, q: nat, sz: map<nat, nat>)
    requires SameOff(s, t, q)
    ensures Abs(t.m, t.ptes, sz - {q}) == Abs(s.m, s.ptes, sz) - {q}
  {
    forall p | p in sz && p != q ensures AbsProc(s.m, s.ptes, p, sz[p]) == AbsProc(t.m, t.ptes, p, sz[p]) {
      AbsOne(s, t, p, sz[p]);
    }
  }

  lemma DropTableKept(s: St, p: nat)
    requires Inv(s) && p in s.tables && s.tables[p] != []
    requires Table(p, |s.tables[p]| - 1) in s.m.refs && s.m.refs[Table(p, |s.tables[p]| - 1)] in s.m.refcnt
    ensures FreshKept(s, DropTable(s, p))
  {
    hide UserLinks, WritableOk, TableLinks, SizesOk, MemInv;
  }

  /** States that differ only in limits and table lists look the same. */
  lemma SameFields(s: St, t: St, u: St)
    requires Same(s, t) && u.m == t.m && u.ptes == t.ptes
    ensures Same(s, u)
  {
    forall k ensures SameAt(s, u, k) { assert SameAt(s, t, k); }
  }

  lemma FieldsOff(s: St, t: St, q: nat)
    requires s.m == t.m && s.ptes == t.ptes
    ensures SameOff(s, t, q)
  {
  }

  lemma FieldsCopy(s: St, t: St, u: St, p: nat, q: nat, n: nat)
    requires s.m == t.m && s.ptes == t.ptes && CopyRange(t, u, p, q, n)
    ensures CopyRange(s, u, p, q, n)
  {
  }

  lemma CopyFrom(s: St, t: St, u: St, p: nat, q: nat, n: nat)
    requires Same(s, t) && CopyRange(t, u, p, q, n)
    ensures CopyRange(s, u, p, q, n)
  {
    forall v | 0 <= v < n
      ensures PageAt(u.m, u.ptes, User(q, v)) == PageAt(s.m, s.ptes, User(p, v))
      ensures AccessAt(u.ptes, User(q, v)) == AccessAt(s.ptes, User(p, v))
    {
      assert SameAt(s, t, User(p, v));
    }
  }

  lemma GoneHolders(s: St, q: nat)
    requires Inv(s) && q !in s.lim
    ensures forall h :: h in s.m.refs ==> !((h.User? || h.Table?) && h.p == q)
  {
  }

  lemma NoFresh(s: St, t: St)
    requires FreshKept(s, t) && Fresh !in s.m.refs
    ensures Fresh !in t.m.refs
  {
  }

  // ---------------------------------------------------------------- faults

  lemma PageBelow(va: nat, sz: nat)
    requires va < sz
    ensures va / PGSIZE < Npages(sz)
  {
  }

  /** Mapping a zeroed, writable page where none was mapped changes no view. */
  lemma ZeroView(s: St, t: St, h: Holder)
    requires SameBut(s, t, h) && h !in s.ptes && h in t.ptes
    requires PageAt(t.m, t.ptes, h) == Fill(0) && t.ptes[h].u && t.ptes[h].w
    ensures Same(s, t)
  {
    assert SameAt(s, t, h);
  }

  /** The private copy has the bytes and the access of the shared page. */
  lemma BreakView(s: St, t: St, h: Holder)
    requires Same(s, t) && h in t.ptes && h in s.ptes && s.ptes[h].cow && t.ptes == s.ptes
    requires Fresh in t.m.refs && h in t.m.refs && t.m.refs[h] in t.m.refcnt
    requires SameBut(t, CowBreak(t, h), h)
    requires PageAt(CowBreak(t, h).m, CowBreak(t, h).ptes, h) == PageAt(s.m, s.ptes, h)
    ensures Same(s, CowBreak(t, h))
  {
    forall k ensures SameAt(s, CowBreak(t, h), k) {
      assert SameAt(s, t, k);
      if k != h { assert SameAt(t, CowBreak(t, h), k); }
    }
  }

  lemma SwapParts(s: St, h: Holder)
    requires Inv(s) && Fresh in s.m.refs && h in s.ptes
    ensures MemInv(SwapFresh(s, h).m)
  {
    SwapMem(s.m, h);
  }

  // ---------------------------------------------------------------- loads and stores

  ghost function Stored(pr: Proc, a: nat, bytes: seq<int>): Proc
    requires a + |bytes| <= |pr.mem|
  {
    pr.(mem := pr.mem[..a] + bytes + pr.mem[a + |bytes|..])
  }

  lemma StoredMore(pr: Proc, a: nat, x: seq<int>, y: seq<int>)
    requires a + |x| + |y| <= |pr.mem|
    ensures |Stored(pr, a, x).mem| == |pr.mem|
    ensures Stored(Stored(pr, a, x), a + |x|, y) == Stored(pr, a, x + y)
  {
    var m1 := Stored(pr, a, x).mem;
    assert m1[..a + |x|] == pr.mem[..a] + x;
    assert m1[a + |x| + |y|..] == pr.mem[a + |x| + |y|..];
    assert (pr.mem[..a] + x) + y == pr.mem[..a] + (x + y);
  }

  function Patched(pg: Page, off: nat, bytes: seq<int>): (r: Page)
    requires |pg| == PGSIZE && off + |bytes| <= PGSIZE
    ensures |r| == PGSIZE
  {
    pg[..off] + bytes + pg[off + |bytes|..]
  }

  lemma StoreBytes(s: St, t: St, p: nat, v: nat, off: nat, bytes: seq<int>, n: nat)
    requires v < n && off + |bytes| <= PGSIZE && SameBut(s, t, User(p, v))
    requires PageAt(t.m, t.ptes, User(p, v)) == Patched(PageAt(s.m, s.ptes, User(p, v)), off, bytes)
    ensures var a, m := v * PGSIZE + off, Bytes(s.m, s.ptes, p, n);
            Bytes(t.m, t.ptes, p, n) == m[..a] + bytes + m[a + |bytes|..]
  {
    var a, m, m' := v * PGSIZE + off, Bytes(s.m, s.ptes, p, n), Bytes(t.m, t.ptes, p, n);
    forall i | 0 <= i < n * PGSIZE ensures m'[i] == (m[..a] + bytes + m[a + |bytes|..])[i] {
      if i / PGSIZE != v {
        assert SameAt(s, t, User(p, i / PGSIZE));
      }
    }
  }

  lemma StoreWorld(s: St, t: St, p: nat, v: nat, off: nat, bytes: seq<int>, sz: map<nat, nat>)
    requires p in sz && v < Npages(sz[p]) && off + |bytes| <= PGSIZE && SameBut(s, t, User(p, v))
    requires PageAt(t.m, t.ptes, User(p, v)) == Patched(PageAt(s.m, s.ptes, User(p, v)), off, bytes)
    requires t.ptes == s.ptes
    ensures Abs(t.m, t.ptes, sz)
         == Abs(s.m, s.ptes, sz)[p := Stored(Abs(s.m, s.ptes, sz)[p], v * PGSIZE + off, bytes)]
  {
    var n := Npages(sz[p]);
    StoreBytes(s, t, p, v, off, bytes, n);
    assert SameOff(s, t, p);
    AbsOff(s, t, p, sz, sz[p]);
    assert sz[p := sz[p]] == sz;
  }

  /** Reading through an entry reads the world. */
  lemma LoadWorld(s: St, p: nat, v: nat, off: nat, n: nat, sz: nat)
    requires v < Npages(sz) && off + n <= PGSIZE
    ensures var m := AbsProc(s.m, s.ptes, p, sz).mem;
            m[v * PGSIZE + off..v * PGSIZE + off + n] == PageAt(s.m, s.ptes, User(p, v))[off..off + n]
  {
    var m := AbsProc(s.m, s.ptes, p, sz).mem;
    var a, pg := v * PGSIZE + off, PageAt(s.m, s.ptes, User(p, v));
    forall i | a <= i < a + n ensures m[i] == pg[i - v * PGSIZE] {
      assert i / PGSIZE == v;
    }
    assert |m[a..a + n]| == n == |pg[off..off + n]|;
  }

  lemma MemSize(m: Mem, ptes: map<Holder, Pte>, sz: map<nat, nat>, p: nat)
    requires p in sz
    ensures |Abs(m, ptes, sz)[p].mem| == Npages(sz[p]) * PGSIZE
  {
  }

  ghost function Guarded(pr: Proc, v: nat): Proc
    requires v < |pr.acc|
  {
    pr.(acc := pr.acc[v := Access(false, pr.acc[v].write)])
  }

  lemma ClearWorld(s: St, t: St, p: nat, v: nat, sz: map<nat, nat>)
    requires p in sz && v < Npages(sz[p]) && User(p, v) in s.ptes && SameBut(s, t, User(p, v))
    requires t.ptes == s.ptes[User(p, v) := s.ptes[User(p, v)].(u := false)] && t.m == s.m
    ensures Abs(t.m, t.ptes, sz) == Abs(s.m, s.ptes, sz)[p := Guarded(Abs(s.m, s.ptes, sz)[p], v)]
  {
    var n, h := Npages(sz[p]), User(p, v);
    assert PageAt(t.m, t.ptes, h) == PageAt(s.m, s.ptes, h);
    assert Bytes(t.m, t.ptes, p, n) == Bytes(s.m, s.ptes, p, n) by {
      forall i | 0 <= i < n * PGSIZE
        ensures PageAt(t.m, t.ptes, User(p, i / PGSIZE)) == PageAt(s.m, s.ptes, User(p, i / PGSIZE))
      {
        if i / PGSIZE != v { assert SameAt(s, t, User(p, i / PGSIZE)); }
      }
    }
    forall k | 0 <= k < n && k != v ensures AccessAt(t.ptes, User(p, k)) == AccessAt(s.ptes, User(p, k)) {
      assert SameAt(s, t, User(p, k));
    }
    assert Accesses(t.ptes, p, n) == Accesses(s.ptes, p, n)[v := Access(false, Accesses(s.ptes, p, n)[v].write)];
    assert SameOff(s, t, p);
    AbsOff(s, t, p, sz, sz[p]);
    assert sz[p := sz[p]] == sz;
  }
}
