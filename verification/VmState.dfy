/** Address spaces of kernel/vm.c as values, their invariant, and the elementary updates from
    which fork, faults, copies, growth and teardown are built.

    The user page tables are one map from User(process, virtual page) to leaf entries; Sv39
    shows that the three-level radix tree of one process implements such a map.  The trampoline
    and trapframe mappings lie above every user page and are left out.  `tables` lists, for
    each process, its page-table pages and its trapframe page. */
module VmState {
  import opened Counting
  import opened PageAlloc
  import opened Params

  const TRAPFRAME: nat := MAXVA - 2 * PGSIZE
  const MAXPAGES: nat := TRAPFRAME / PGSIZE

  datatype Pte = Pte(pa: nat, w: bool, u: bool, cow: bool)
  datatype St = St(m: Mem, ptes: map<Holder, Pte>, lim: map<nat, nat>, tables: map<nat, seq<nat>>)

  /** PGROUNDUP(sz) / PGSIZE */
  function Npages(sz: nat): nat { (sz + PGSIZE - 1) / PGSIZE }

  // ---------------------------------------------------------------- invariant

  /** The user holders of pages are exactly the page-table entries. */
  ghost predicate UserLinks(refs: Refs, ptes: map<Holder, Pte>) {
    && (forall h :: h in ptes ==> h.User? && h in refs && refs[h] == ptes[h].pa)
    && (forall h :: h in refs && h.User? ==> h in ptes)
  }

  ghost predicate TableLinks(refs: Refs, tables: map<nat, seq<nat>>) {
    && (forall h :: h in refs && h.Table? ==> h.p in tables && h.i < |tables[h.p]|)
    && (forall p: nat, i: nat :: p in tables && i < |tables[p]| ==>
          Table(p, i) in refs && refs[Table(p, i)] == tables[p][i])
  }

  ghost predicate Sole(refs: Refs, h: Holder) {
    h in refs && forall k :: k in refs && refs[k] == refs[h] ==> k == h
  }

  /** A writable entry is not copy-on-write and is the only holder of its page. */
  ghost predicate WritableOk(refs: Refs, ptes: map<Holder, Pte>) {
    forall h :: h in ptes && ptes[h].w ==> !ptes[h].cow && Sole(refs, h)
  }

  /** Only user entries share a page, and they map it at the same virtual page. */
  ghost predicate SharingOk(refs: Refs) {
    forall h, k :: h in refs && k in refs && refs[h] == refs[k] && h != k ==> h.User? && k.User? && h.v == k.v
  }

  /** Entries belong to processes and lie below their page limit `lim`, which is PGROUNDUP of
      the size except while a call is growing the process or copying it. */
  ghost predicate SizesOk(s: St) {
    && s.tables.Keys == s.lim.Keys && |s.lim| <= NPROC
    && (forall p :: p in s.lim ==> s.lim[p] <= MAXPAGES)
    && (forall h :: h in s.ptes && h.User? ==> h.p in s.lim && h.v < s.lim[h.p])
  }

  ghost predicate Inv(s: St) {
    && MemInv(s.m) && UserLinks(s.m.refs, s.ptes) && TableLinks(s.m.refs, s.tables)
    && WritableOk(s.m.refs, s.ptes) && SharingOk(s.m.refs) && SizesOk(s)
  }

  // ---------------------------------------------------------------- page conservation

  ghost function UserEntries(s: St, pa: nat): set<Holder> { set h | h in s.ptes && s.ptes[h].pa == pa }

  ghost function KernelHolders(s: St, pa: nat): set<Holder> { set h | h in s.m.refs && !h.User? && s.m.refs[h] == pa }

  lemma SplitHolders(s: St, pa: nat)
    requires UserLinks(s.m.refs, s.ptes)
    ensures Count(s.m.refs, pa) == |UserEntries(s, pa)| + |KernelHolders(s, pa)|
  {
    var users, kernel := UserEntries(s, pa), KernelHolders(s, pa);
    assert Holders(s.m.refs, pa) == users + kernel;
    assert users !! kernel;
  }

  lemma WritableOnce(s: St, h: Holder)
    requires UserLinks(s.m.refs, s.ptes) && WritableOk(s.m.refs, s.ptes) && h in s.ptes && s.ptes[h].w
    ensures Count(s.m.refs, s.ptes[h].pa) == 1
  {
    assert Holders(s.m.refs, s.ptes[h].pa) == {h};
  }

  /** The reference count of a page is its user entries over all page tables plus its kernel
      holders, a writable entry maps a page counted once, and the free list is exactly the pages
      counted zero, each once, with free_pages as its length. */
  lemma Conservation(s: St, pa: nat)
    requires Inv(s) && pa in s.m.pages
    ensures s.m.refcnt[pa] == |UserEntries(s, pa)| + |KernelHolders(s, pa)|
    ensures forall h :: h in s.ptes && s.ptes[h].w && s.ptes[h].pa == pa ==> s.m.refcnt[pa] == 1
    ensures (pa in s.m.freelist <==> s.m.refcnt[pa] == 0) && s.m.freePages == |s.m.freelist|
    ensures forall i, j :: 0 <= i < j < |s.m.freelist| ==> s.m.freelist[i] != s.m.freelist[j]
  {
    hide UserLinks, TableLinks, WritableOk, SharingOk, SizesOk, Count, UserEntries, KernelHolders;
    SplitHolders(s, pa);
    forall h | h in s.ptes && s.ptes[h].w && s.ptes[h].pa == pa ensures s.m.refcnt[pa] == 1 {
      WritableOnce(s, h);
    }
  }

  // ---------------------------------------------------------------- what a process sees

  /** The content of a virtual page: an unmapped page reads as zero. */
  function PageAt(m: Mem, ptes: map<Holder, Pte>, h: Holder): (r: Page)
    ensures |r| == PGSIZE
  {
    if h in ptes && ptes[h].pa in m.pages && |m.pages[ptes[h].pa]| == PGSIZE
    then m.pages[ptes[h].pa] else Fill(0)
  }

  /** What the process may do with a page, once copy-on-write and lazy faults are served. */
  datatype Access = Access(user: bool, write: bool)

  function AccessAt(ptes: map<Holder, Pte>, h: Holder): Access {
    if h in ptes then Access(ptes[h].u, ptes[h].w || ptes[h].cow) else Access(true, true)
  }

  ghost predicate SameAt(s: St, t: St, h: Holder) {
    PageAt(s.m, s.ptes, h) == PageAt(t.m, t.ptes, h) && AccessAt(s.ptes, h) == AccessAt(t.ptes, h)
  }

  ghost predicate SameBut(s: St, t: St, h: Holder) { forall k :: k != h ==> SameAt(s, t, k) }
  ghost predicate Same(s: St, t: St) { forall k :: SameAt(s, t, k) }

  // ---------------------------------------------------------------- changes to one holder

  /** t's references are s's except perhaps at holder h. */
  ghost predicate RefsBut(r: Refs, r': Refs, h: Holder) {
    forall k :: k != h ==> (k in r <==> k in r') && (k in r ==> r[k] == r'[k])
  }

  ghost predicate Unheld(refs: Refs, pa: nat, h: Holder) { forall k :: k in refs && k != h ==> refs[k] != pa }

  lemma SharingBut(r: Refs, r': Refs, h: Holder)
    requires SharingOk(r) && RefsBut(r, r', h)
    requires h in r' ==> Unheld(r', r'[h], h)
    ensures SharingOk(r')
  {
  }

  lemma TablesBut(r: Refs, r': Refs, h: Holder, tables: map<nat, seq<nat>>)
    requires TableLinks(r, tables) && RefsBut(r, r', h) && !h.Table?
    ensures TableLinks(r', tables)
  {
  }

  /** Taking, filling or dropping the fresh page concerns no process. */
  lemma FreshLinks(r: Refs, r': Refs, ptes: map<Holder, Pte>)
    requires UserLinks(r, ptes) && WritableOk(r, ptes) && RefsBut(r, r', Fresh)
    requires Fresh in r' ==> Unheld(r', r'[Fresh], Fresh)
    ensures UserLinks(r', ptes) && WritableOk(r', ptes)
  {
  }

  // ---------------------------------------------------------------- the fresh page

  /** kalloc(), the page not yet handed over. */
  function Grab(s: St): St
    requires s.m.freelist != []
  {
    s.(m := Alloc(s.m, Fresh))
  }

  /** Filling the fresh page (memset, memmove). */
  function PutFresh(s: St, pg: Page): St
    requires Fresh in s.m.refs
  {
    s.(m := s.m.(pages := s.m.pages[s.m.refs[Fresh] := pg]))
  }

  /** kfree() of the fresh page. */
  function Ungrab(s: St): St
    requires Fresh in s.m.refs && s.m.refs[Fresh] in s.m.refcnt
  {
    s.(m := Drop(s.m, Fresh))
  }

  lemma FreshSame(s: St, t: St)
    requires t.ptes == s.ptes
    requires forall h :: h in s.ptes ==> (s.ptes[h].pa in s.m.pages <==> s.ptes[h].pa in t.m.pages)
    requires forall h :: h in s.ptes && s.ptes[h].pa in s.m.pages ==> t.m.pages[s.ptes[h].pa] == s.m.pages[s.ptes[h].pa]
    ensures Same(s, t)
  {
  }

  lemma FreshInv(s: St, t: St)
    requires Inv(s) && MemInv(t.m) && t == s.(m := t.m)
    requires RefsBut(s.m.refs, t.m.refs, Fresh)
    requires Fresh in t.m.refs ==> Unheld(t.m.refs, t.m.refs[Fresh], Fresh)
    ensures Inv(t)
  {
    FreshLinks(s.m.refs, t.m.refs, s.ptes);
    SharingBut(s.m.refs, t.m.refs, Fresh);
    TablesBut(s.m.refs, t.m.refs, Fresh, s.tables);
  }

  lemma GrabInv(s: St)
    requires Inv(s) && s.m.freelist != [] && Fresh !in s.m.refs
    ensures Inv(Grab(s)) && Same(s, Grab(s)) && s.m.freelist[0] in s.m.pages
    ensures Unheld(s.m.refs, s.m.freelist[0], Fresh)
  {
    hide UserLinks, WritableOk, TableLinks, SharingOk, CountOk, FreeOk, PageAt, Holders;
    AllocInv(s.m, Fresh);
    NoHolders(s.m.refs, s.m.freelist[0]);
    PtesUnheld(s.m.refs, s.ptes, s.m.freelist[0]);
    FreshInv(s, Grab(s));
    FreshSame(s, Grab(s));
  }

  lemma PtesUnheld(refs: Refs, ptes: map<Holder, Pte>, pa: nat)
    requires UserLinks(refs, ptes) && forall h :: h in refs && h.User? ==> refs[h] != pa
    ensures forall h :: h in ptes ==> ptes[h].pa != pa
  {
  }

  lemma NoHolders(refs: Refs, pa: nat)
    requires Holders(refs, pa) == {}
    ensures forall h :: h in refs ==> refs[h] != pa
  {
    assert forall h :: h in refs && refs[h] == pa ==> h in Holders(refs, pa);
  }

  lemma PutFreshInv(s: St, pg: Page)
    requires Inv(s) && Fresh in s.m.refs && |pg| == PGSIZE
    ensures Inv(PutFresh(s, pg)) && Same(s, PutFresh(s, pg))
  {
    PutPage(s.m, s.m.refs[Fresh], pg);
    FreshUnheld(s.m.refs);
    FreshInv(s, PutFresh(s, pg));
    PutFreshSame(s, pg);
  }

  lemma FreshUnheld(refs: Refs)
    requires SharingOk(refs) && Fresh in refs
    ensures Unheld(refs, refs[Fresh], Fresh)
  {
  }

  lemma PutFreshSame(s: St, pg: Page)
    requires UserLinks(s.m.refs, s.ptes) && Fresh in s.m.refs && Unheld(s.m.refs, s.m.refs[Fresh], Fresh)
    requires s.m.refs[Fresh] in s.m.pages
    ensures Same(s, PutFresh(s, pg))
  {
  }

  lemma PutPage(m: Mem, pa: nat, pg: Page)
    requires MemInv(m) && pa in m.pages && |pg| == PGSIZE
    ensures MemInv(m.(pages := m.pages[pa := pg]))
  {
    var m' := m.(pages := m.pages[pa := pg]);
    assert PagesOk(m') && m'.pages.Keys == m.pages.Keys;
  }

  lemma UngrabInv(s: St)
    requires Inv(s) && Fresh in s.m.refs
    ensures Inv(Ungrab(s)) && Same(s, Ungrab(s))
  {
    hide UserLinks, WritableOk, TableLinks, SharingOk, CountOk, FreeOk, PageAt, Holders;
    DropInv(s.m, Fresh);
    FreshUnheld(s.m.refs);
    PtesUnheld(s.m.refs, s.ptes, s.m.refs[Fresh]);
    FreshInv(s, Ungrab(s));
    FreshSame(s, Ungrab(s));
  }

  // ---------------------------------------------------------------- handing the page over

  /** Passing a page from holder h to holder k. */
  function Rename(m: Mem, h: Holder, k: Holder): Mem
    requires h in m.refs
  {
    m.(refs := (m.refs - {h})[k := m.refs[h]])
  }

  lemma RenameInv(m: Mem, h: Holder, k: Holder)
    requires MemInv(m) && h in m.refs && k !in m.refs
    ensures MemInv(Rename(m, h, k))
  {
    var m' := Rename(m, h, k);
    assert PagesOk(m');
    forall q | q in m'.pages ensures m'.refcnt[q] == Count(m'.refs, q) {
      CountDrop(m.refs, h, q);
      CountAdd(m.refs - {h}, k, m.refs[h], q);
    }
  }

  /** mappages() of the fresh page at h. */
  function MapFresh(s: St, h: Holder, w: bool): St
    requires Fresh in s.m.refs
  {
    s.(m := Rename(s.m, Fresh, h), ptes := s.ptes[h := Pte(s.m.refs[Fresh], w, true, false)])
  }

  lemma RenameLinks(s: St, h: Holder, w: bool)
    requires UserLinks(s.m.refs, s.ptes) && WritableOk(s.m.refs, s.ptes) && SharingOk(s.m.refs)
    requires Fresh in s.m.refs && h.User? && h !in s.ptes
    ensures var t := MapFresh(s, h, w);
            UserLinks(t.m.refs, t.ptes) && WritableOk(t.m.refs, t.ptes) && SharingOk(t.m.refs)
  {
    assert Unheld(s.m.refs, s.m.refs[Fresh], Fresh);
  }

  lemma SlotFree(refs: Refs, ptes: map<Holder, Pte>, h: Holder)
    requires UserLinks(refs, ptes) && h.User? && h !in ptes
    ensures h !in refs
  {
  }

  lemma EntryHeld(refs: Refs, ptes: map<Holder, Pte>, h: Holder)
    requires UserLinks(refs, ptes) && h in ptes
    ensures h.User? && h in refs && refs[h] == ptes[h].pa
  {
  }

  lemma RenameTables(r: Refs, h: Holder, tables: map<nat, seq<nat>>)
    requires TableLinks(r, tables) && Fresh in r && h.User?
    ensures TableLinks((r - {Fresh})[h := r[Fresh]], tables)
  {
  }

  lemma MapInv(s: St, h: Holder, w: bool)
    requires Inv(s) && Fresh in s.m.refs && h.User? && h !in s.ptes
    requires h.p in s.lim && h.v < s.lim[h.p]
    ensures Inv(MapFresh(s, h, w)) && Fresh !in MapFresh(s, h, w).m.refs
    ensures SameBut(s, MapFresh(s, h, w), h)
    ensures PageAt(MapFresh(s, h, w).m, MapFresh(s, h, w).ptes, h) == s.m.pages[s.m.refs[Fresh]]
  {
    hide UserLinks, WritableOk, TableLinks, SharingOk, CountOk, FreeOk, Holders;
    SlotFree(s.m.refs, s.ptes, h);
    RenameTables(s.m.refs, h, s.tables);
    RenameInv(s.m, Fresh, h);
    RenameLinks(s, h, w);
    EntrySame(s, MapFresh(s, h, w), h);
  }

  /** Changing one entry, and no page, changes what one process sees of one page. */
  lemma EntrySame(s: St, t: St, h: Holder)
    requires t.m.pages == s.m.pages
    requires forall k :: k != h ==> (k in s.ptes <==> k in t.ptes) && (k in s.ptes ==> s.ptes[k] == t.ptes[k])
    ensures SameBut(s, t, h)
  {
  }

  /** walk() adding a zeroed page-table page for p (or allocproc() its trapframe page). */
  function AddTable(s: St, p: nat): St
    requires s.m.freelist != [] && p in s.tables
  {
    var pa := s.m.freelist[0];
    var m := Alloc(s.m, Table(p, |s.tables[p]|));
    s.(m := m.(pages := m.pages[pa := Fill(0)]), tables := s.tables[p := s.tables[p] + [pa]])
  }

  lemma AddTableLinks(s: St, p: nat, pa: nat)
    requires UserLinks(s.m.refs, s.ptes) && WritableOk(s.m.refs, s.ptes) && SharingOk(s.m.refs)
    requires TableLinks(s.m.refs, s.tables) && p in s.tables
    requires forall h :: h in s.m.refs ==> s.m.refs[h] != pa
    ensures var r := s.m.refs[Table(p, |s.tables[p]|) := pa];
            && UserLinks(r, s.ptes) && WritableOk(r, s.ptes) && SharingOk(r)
            && TableLinks(r, s.tables[p := s.tables[p] + [pa]])
  {
  }

  lemma TableSlot(s: St, p: nat)
    requires Inv(s) && p in s.tables
    ensures MemInv(s.m) && Table(p, |s.tables[p]|) !in s.m.refs
  {
  }

  lemma AddTableInv(s: St, p: nat)
    requires Inv(s) && p in s.tables && s.m.freelist != []
    ensures Table(p, |s.tables[p]|) !in s.m.refs && s.m.freelist[0] in s.m.pages
    ensures Inv(AddTable(s, p)) && Same(s, AddTable(s, p))
  {
    hide UserLinks, WritableOk, TableLinks, SharingOk, CountOk, FreeOk, PageAt, Holders;
    var h, pa := Table(p, |s.tables[p]|), s.m.freelist[0];
    TableSlot(s, p);
    AllocInv(s.m, h);
    NoHolders(s.m.refs, pa);
    PtesUnheld(s.m.refs, s.ptes, pa);
    PutPage(Alloc(s.m, h), pa, Fill(0));
    AddTableLinks(s, p, pa);
    FreshSame(s, AddTable(s, p));
  }

  // ---------------------------------------------------------------- dropping an entry

  /** uvmunmap() of one page with do_free. */
  function Unmap(s: St, h: Holder): St
    requires h in s.m.refs && s.m.refs[h] in s.m.refcnt
  {
    s.(m := Drop(s.m, h), ptes := s.ptes - {h})
  }

  lemma UnmapLinks(r: Refs, ptes: map<Holder, Pte>, tables: map<nat, seq<nat>>, h: Holder)
    requires UserLinks(r, ptes) && WritableOk(r, ptes) && SharingOk(r) && TableLinks(r, tables) && h.User?
    ensures UserLinks(r - {h}, ptes - {h}) && WritableOk(r - {h}, ptes - {h}) && SharingOk(r - {h})
    ensures TableLinks(r - {h}, tables)
  {
  }

  /** If kfree() really frees the page, nobody else maps it. */
  lemma FreedSole(m: Mem, h: Holder)
    requires MemInv(m) && h in m.refs && m.refcnt[m.refs[h]] <= 1
    ensures Sole(m.refs, h)
  {
    CountPositive(m.refs, h);
    forall k | k in m.refs && m.refs[k] == m.refs[h] ensures k == h {
      CountOne(m.refs, h, k);
    }
  }

  lemma UnmapSame(s: St, h: Holder)
    requires PagesOk(s.m) && UserLinks(s.m.refs, s.ptes) && h in s.ptes
    requires s.m.refcnt[s.m.refs[h]] <= 1 ==> Sole(s.m.refs, h)
    ensures SameBut(s, Unmap(s, h), h)
  {
  }

  lemma UnmapInv(s: St, h: Holder)
    requires Inv(s) && h in s.ptes
    ensures Inv(Unmap(s, h)) && SameBut(s, Unmap(s, h), h)
    ensures Unmap(s, h).m.refs == s.m.refs - {h}
  {
    DropInv(s.m, h);
    UnmapLinks(s.m.refs, s.ptes, s.tables, h);
    if s.m.refcnt[s.m.refs[h]] <= 1 { FreedSole(s.m, h); }
    UnmapSame(s, h);
  }

  /** freewalk() of the last page-table page of p. */
  function DropTable(s: St, p: nat): St
    requires p in s.tables && s.tables[p] != []
    requires Table(p, |s.tables[p]| - 1) in s.m.refs && s.m.refs[Table(p, |s.tables[p]| - 1)] in s.m.refcnt
  {
    s.(m := Drop(s.m, Table(p, |s.tables[p]| - 1)), tables := s.tables[p := s.tables[p][..|s.tables[p]| - 1]])
  }

  lemma DropTableLinks(r: Refs, ptes: map<Holder, Pte>, tables: map<nat, seq<nat>>, p: nat)
    requires UserLinks(r, ptes) && WritableOk(r, ptes) && SharingOk(r) && TableLinks(r, tables)
    requires p in tables && tables[p] != []
    ensures var r' := r - {Table(p, |tables[p]| - 1)};
            && UserLinks(r', ptes) && WritableOk(r', ptes) && SharingOk(r')
            && TableLinks(r', tables[p := tables[p][..|tables[p]| - 1]])
  {
  }

  lemma TableHeld(refs: Refs, tables: map<nat, seq<nat>>, p: nat)
    requires TableLinks(refs, tables) && SharingOk(refs) && p in tables && tables[p] != []
    ensures var h := Table(p, |tables[p]| - 1);
            && h in refs && refs[h] == tables[p][|tables[p]| - 1]
            && forall k :: k in refs && k.User? ==> refs[k] != refs[h]
  {
  }

  lemma DropTableInv(s: St, p: nat)
    requires Inv(s) && p in s.tables && s.tables[p] != []
    ensures var h := Table(p, |s.tables[p]| - 1);
            && h in s.m.refs && s.m.refs[h] == s.tables[p][|s.tables[p]| - 1]
            && s.m.refs[h] in s.m.refcnt && Inv(DropTable(s, p)) && Same(s, DropTable(s, p))
  {
    hide UserLinks, WritableOk, TableLinks, SharingOk, CountOk, FreeOk, PageAt, Holders;
    var h := Table(p, |s.tables[p]| - 1);
    TableHeld(s.m.refs, s.tables, p);
    DropInv(s.m, h);
    PtesUnheld(s.m.refs, s.ptes, s.m.refs[h]);
    DropTableLinks(s.m.refs, s.ptes, s.tables, p);
    FreshSame(s, DropTable(s, p));
  }

  // ---------------------------------------------------------------- fork: sharing a page

  /** uvmcopy() of one page from h to k: both entries become copy-on-write if h was writable. */
  function Cowed(e: Pte): Pte { if e.w then e.(w := false, cow := true) else e }

  function ShareEntry(s: St, h: Holder, k: Holder): St
    requires h in s.ptes && s.ptes[h].pa in s.m.refcnt
  {
    var e := Cowed(s.ptes[h]);
    s.(m := Share(s.m, k, e.pa), ptes := s.ptes[k := e][h := e])
  }

  lemma ShareLinks(s: St, h: Holder, k: Holder)
    requires UserLinks(s.m.refs, s.ptes)
    requires h in s.ptes && k.User? && k !in s.ptes && s.ptes[h].pa in s.m.refcnt
    ensures var t := ShareEntry(s, h, k);
            UserLinks(t.m.refs, t.ptes)
  {
  }

  lemma ShareSharing(s: St, h: Holder, k: Holder)
    requires UserLinks(s.m.refs, s.ptes) && SharingOk(s.m.refs)
    requires h in s.ptes && k.User? && k !in s.ptes && k.v == h.v && s.ptes[h].pa in s.m.refcnt
    ensures SharingOk(ShareEntry(s, h, k).m.refs)
  {
  }

  lemma ShareWritable(s: St, h: Holder, k: Holder)
    requires UserLinks(s.m.refs, s.ptes) && WritableOk(s.m.refs, s.ptes)
    requires h in s.ptes && k.User? && k !in s.ptes && s.ptes[h].pa in s.m.refcnt
    ensures var t := ShareEntry(s, h, k);
            WritableOk(t.m.refs, t.ptes)
  {
    var t := ShareEntry(s, h, k);
    forall x | x in t.ptes && t.ptes[x].w ensures !t.ptes[x].cow && Sole(t.m.refs, x) {
      assert x != h && x != k && Sole(s.m.refs, x);
      assert s.m.refs[x] != s.m.refs[h];
    }
  }

  lemma ShareInvSt(s: St, h: Holder, k: Holder)
    requires Inv(s) && h in s.ptes && k.User? && k !in s.ptes && k.v == h.v
    requires k.p in s.lim && k.v < s.lim[k.p]
    ensures k !in s.m.refs && s.ptes[h].pa in s.m.refcnt && 1 <= s.m.refcnt[s.ptes[h].pa] < REFMAX - 1
    ensures Inv(ShareEntry(s, h, k)) && SameBut(s, ShareEntry(s, h, k), k)
    ensures PageAt(ShareEntry(s, h, k).m, ShareEntry(s, h, k).ptes, k) == PageAt(s.m, s.ptes, h)
    ensures AccessAt(ShareEntry(s, h, k).ptes, k) == AccessAt(s.ptes, h)
  {
    hide UserLinks, WritableOk, TableLinks, SharingOk, FreeOk, PageAt, Holders, SameBut, AccessAt, Count;
    FewHolders(s, h);
    SlotFree(s.m.refs, s.ptes, k);
    EntryHeld(s.m.refs, s.ptes, h);
    ShareInv(s.m, k, h);
    ShareLinks(s, h, k);
    ShareSharing(s, h, k);
    ShareWritable(s, h, k);
    ShareSame(s, h, k);
    TablesBut(s.m.refs, ShareEntry(s, h, k).m.refs, k, s.tables);
  }

  lemma ShareSame(s: St, h: Holder, k: Holder)
    requires h in s.ptes && k != h && s.ptes[h].pa in s.m.refcnt && s.ptes[h].pa in s.m.pages
    ensures var t := ShareEntry(s, h, k);
            && SameBut(s, t, k)
            && PageAt(t.m, t.ptes, k) == PageAt(s.m, s.ptes, h)
            && AccessAt(t.ptes, k) == AccessAt(s.ptes, h)
  {
  }

  /** A page has at most one user entry per process, so its 16-bit count cannot wrap. */
  lemma FewHolders(s: St, h: Holder)
    requires PagesOk(s.m) && CountOk(s.m) && UserLinks(s.m.refs, s.ptes) && SharingOk(s.m.refs) && SizesOk(s)
    requires h in s.ptes
    ensures Count(s.m.refs, s.m.refs[h]) <= NPROC
  {
    var hs := Holders(s.m.refs, s.m.refs[h]);
    var ps := set k | k in hs && k.User? :: k.p;
    assert hs == set p | p in ps :: User(p, h.v) by {
      forall k | k in hs ensures k.User? && k.v == h.v && k == User(k.p, h.v) {
        assert k == h || (k.User? && k.v == h.v);
      }
    }
    Image(ps, h.v);
    Subset(ps, s.lim.Keys);
    assert |s.lim.Keys| == |s.lim|;
  }

  lemma {:induction false} Image(ps: set<nat>, v: nat)
    ensures |set p | p in ps :: User(p, v)| <= |ps|
    decreases ps
  {
    if ps != {} {
      var x :| x in ps;
      Image(ps - {x}, v);
      assert (set p | p in ps :: User(p, v)) == (set p | p in ps - {x} :: User(p, v)) + {User(x, v)};
    }
  }

  // ---------------------------------------------------------------- breaking copy-on-write

  /** cowfault(): the entry takes the fresh page, writable; the old page is left to be freed. */
  function SwapFresh(s: St, h: Holder): St
    requires Fresh in s.m.refs && h in s.ptes && h in s.m.refs
  {
    s.(m := s.m.(refs := s.m.refs[h := s.m.refs[Fresh]][Fresh := s.m.refs[h]]),
       ptes := s.ptes[h := s.ptes[h].(pa := s.m.refs[Fresh], w := true, cow := false)])
  }

  lemma SwapMem(m: Mem, h: Holder)
    requires MemInv(m) && Fresh in m.refs && h in m.refs && h != Fresh
    ensures MemInv(m.(refs := m.refs[h := m.refs[Fresh]][Fresh := m.refs[h]]))
  {
    var r' := m.refs[h := m.refs[Fresh]][Fresh := m.refs[h]];
    forall q | q in m.pages ensures m.refcnt[q] == Count(r', q) {
      SwapCount(m.refs, h, q);
    }
  }

  lemma SwapCount(r: Refs, h: Holder, q: nat)
    requires Fresh in r && h in r && h != Fresh
    ensures Count(r[h := r[Fresh]][Fresh := r[h]], q) == Count(r, q)
  {
    var base := r - {h} - {Fresh};
    CountDrop(r, h, q);
    CountDrop(r - {h}, Fresh, q);
    CountAdd(base, h, r[Fresh], q);
    var mid: Refs := base[h := r[Fresh]];
    CountAdd(mid, Fresh, r[h], q);
    assert mid[Fresh := r[h]] == r[h := r[Fresh]][Fresh := r[h]];
  }

  /** After the swap the old page may still be shared with other entries, so sharing holds
      again only once Fresh has been dropped: cowfault() frees it before it returns. */
  function CowBreak(s: St, h: Holder): St
    requires Fresh in s.m.refs && h in s.ptes && h in s.m.refs && s.m.refs[h] in s.m.refcnt
  {
    Ungrab(SwapFresh(s, h))
  }

  lemma BreakLinks(r: Refs, ptes: map<Holder, Pte>, h: Holder, e: Pte)
    requires UserLinks(r, ptes) && WritableOk(r, ptes) && SharingOk(r)
    requires Fresh in r && h in ptes && e.pa == r[Fresh] && !e.cow
    ensures var r' := r[h := r[Fresh]] - {Fresh};
            UserLinks(r', ptes[h := e]) && SharingOk(r') && WritableOk(r', ptes[h := e])
  {
    FreshUnheld(r);
  }

  lemma BreakSame(s: St, h: Holder)
    requires PagesOk(s.m) && UserLinks(s.m.refs, s.ptes) && Fresh in s.m.refs && h in s.ptes
    requires s.m.refs[h] in s.m.refcnt
    requires s.m.refcnt[s.m.refs[h]] <= 1 ==> Sole(s.m.refs, h)
    requires Unheld(s.m.refs, s.m.refs[Fresh], Fresh) && s.m.refs[h] != s.m.refs[Fresh]
    ensures SameBut(s, CowBreak(s, h), h)
    ensures PageAt(CowBreak(s, h).m, CowBreak(s, h).ptes, h) == s.m.pages[s.m.refs[Fresh]]
  {
  }

  lemma BreakParts(s: St, h: Holder)
    requires MemInv(s.m) && h in s.m.refs
    ensures s.m.refs[h] in s.m.refcnt
  {
  }

  lemma BreakMem(s: St, h: Holder)
    requires MemInv(s.m) && Fresh in s.m.refs && h in s.ptes && h in s.m.refs && h != Fresh
    ensures var t := CowBreak(s, h);
            MemInv(t.m) && t.m.refs == s.m.refs[h := s.m.refs[Fresh]] - {Fresh}
  {
    hide CountOk, FreeOk, PagesOk;
    BreakParts(s, h);
    SwapMem(s.m, h);
    DropInv(SwapFresh(s, h).m, Fresh);
    assert s.m.refs[h := s.m.refs[Fresh]][Fresh := s.m.refs[h]] - {Fresh} == s.m.refs[h := s.m.refs[Fresh]] - {Fresh};
  }

  lemma BreakTables(r: Refs, h: Holder, pa: nat, tables: map<nat, seq<nat>>)
    requires TableLinks(r, tables) && h.User?
    ensures TableLinks(r[h := pa] - {Fresh}, tables)
  {
  }

  lemma CowBreakInv(s: St, h: Holder)
    requires Inv(s) && Fresh in s.m.refs && h in s.ptes
    ensures Inv(CowBreak(s, h)) && SameBut(s, CowBreak(s, h), h) && Fresh !in CowBreak(s, h).m.refs
    ensures PageAt(CowBreak(s, h).m, CowBreak(s, h).ptes, h) == s.m.pages[s.m.refs[Fresh]]
  {
    hide UserLinks, WritableOk, TableLinks, SharingOk, CountOk, FreeOk, PageAt, SameBut, Sole;
    FreshUnheld(s.m.refs);
    EntryHeld(s.m.refs, s.ptes, h);
    if s.m.refcnt[s.m.refs[h]] <= 1 { FreedSole(s.m, h); }
    BreakSame(s, h);
    BreakMem(s, h);
    BreakLinks(s.m.refs, s.ptes, h, s.ptes[h].(pa := s.m.refs[Fresh], w := true, cow := false));
    BreakTables(s.m.refs, h, s.m.refs[Fresh], s.tables);
    assert CowBreak(s, h).ptes.Keys == s.ptes.Keys;
  }

  // ---------------------------------------------------------------- storing bytes

  /** A store through a writable entry. */
  function WritePage(s: St, h: Holder, pg: Page): St
    requires h in s.ptes
  {
    s.(m := s.m.(pages := s.m.pages[s.ptes[h].pa := pg]))
  }

  lemma WriteSame(s: St, h: Holder, pg: Page)
    requires UserLinks(s.m.refs, s.ptes) && h in s.ptes && Sole(s.m.refs, h) && |pg| == PGSIZE
    requires s.ptes[h].pa in s.m.pages
    ensures SameBut(s, WritePage(s, h, pg), h)
    ensures PageAt(WritePage(s, h, pg).m, s.ptes, h) == pg
  {
  }

  lemma WriteInv(s: St, h: Holder, pg: Page)
    requires Inv(s) && h in s.ptes && s.ptes[h].w && |pg| == PGSIZE
    ensures Inv(WritePage(s, h, pg)) && SameBut(s, WritePage(s, h, pg), h)
    ensures PageAt(WritePage(s, h, pg).m, s.ptes, h) == pg
  {
    PutPage(s.m, s.ptes[h].pa, pg);
    WriteSame(s, h, pg);
  }

  // ---------------------------------------------------------------- processes

  lemma NewProcInv(s: St, p: nat)
    requires Inv(s) && p !in s.lim && |s.lim| < NPROC
    ensures Inv(s.(lim := s.lim[p := 0], tables := s.tables[p := []]))
  {
    assert |s.lim[p := 0]| == |s.lim| + 1;
  }

  lemma DropProcInv(s: St, p: nat)
    requires Inv(s) && p in s.lim && s.tables[p] == [] && forall v :: User(p, v) !in s.ptes
    ensures Inv(s.(lim := s.lim - {p}, tables := s.tables - {p}))
  {
    Subset((s.lim - {p}).Keys, s.lim.Keys);
  }

  lemma ResizeInv(s: St, p: nat, n: nat)
    requires Inv(s) && p in s.lim && n <= MAXPAGES
    requires forall h :: h in s.ptes && h.p == p ==> h.v < n
    ensures Inv(s.(lim := s.lim[p := n]))
  {
    assert s.lim[p := n].Keys == s.lim.Keys;
    assert |s.lim[p := n].Keys| == |s.lim.Keys|;
  }

  lemma ClearInv(s: St, h: Holder)
    requires Inv(s) && h in s.ptes
    ensures var t := s.(ptes := s.ptes[h := s.ptes[h].(u := false)]);
            Inv(t) && SameBut(s, t, h) && PageAt(t.m, t.ptes, h) == PageAt(s.m, s.ptes, h)
  {
    hide CountOk, FreeOk, TableLinks, SharingOk, Sole;
  }
}
