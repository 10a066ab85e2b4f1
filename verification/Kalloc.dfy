/** The page allocator of kernel/kalloc.c.

    Pages are named by page number.  The list through `r->next` is the sequence `freelist`,
    head first.  The ghost map `refs` names every holder of a page: a user page-table entry
    (process, virtual page), the i-th page-table or trapframe page of a process, or some
    other kernel holder (kernel stacks, pipes, ring memory).  Fresh holds the page that the
    running call has just allocated and not yet handed over. */
module PageAlloc {
  import opened Counting
  import opened Params

  const REFMAX: nat := 0x10000 // refcnt[] is ushort

  type Page = seq<int>
  datatype Holder = User(p: nat, v: nat) | Table(p: nat, i: nat) | Other(id: nat) | Fresh
  type Refs = map<Holder, nat>

  function Fill(b: int): (r: Page)
    ensures |r| == PGSIZE && forall i :: 0 <= i < PGSIZE ==> r[i] == b
  {
    seq(PGSIZE, _ => b)
  }

  // ---------------------------------------------------------------- allocator states

  datatype Mem = Mem(pages: map<nat, Page>, refcnt: map<nat, nat>, freelist: seq<nat>, freePages: nat, refs: Refs)

  /** Page 0 stands for the null pointer and is never managed. */
  ghost predicate PagesOk(m: Mem) {
    && 0 !in m.pages
    && m.refcnt.Keys == m.pages.Keys
    && (forall pa :: pa in m.pages ==> |m.pages[pa]| == PGSIZE)
    && (forall h :: h in m.refs ==> m.refs[h] in m.pages)
  }

  /** Every reference count is the number of holders. */
  ghost predicate CountOk(m: Mem)
    requires PagesOk(m)
  {
    forall pa :: pa in m.pages ==> m.refcnt[pa] == Count(m.refs, pa)
  }

  /** The free list is exactly the pages with count zero, without repeats. */
  ghost predicate FreeOk(m: Mem)
    requires PagesOk(m)
  {
    && (forall i :: 0 <= i < |m.freelist| ==> m.freelist[i] in m.pages && m.refcnt[m.freelist[i]] == 0)
    && (forall i, j :: 0 <= i < j < |m.freelist| ==> m.freelist[i] != m.freelist[j])
    && (forall pa :: pa in m.pages && m.refcnt[pa] == 0 ==> pa in m.freelist)
    && m.freePages == |m.freelist|
  }

  ghost predicate MemInv(m: Mem) { PagesOk(m) && CountOk(m) && FreeOk(m) }

  /** kalloc() of the head of the free list, for holder h. */
  function Alloc(m: Mem, h: Holder): Mem
    requires m.freelist != []
  {
    var pa := m.freelist[0];
    Mem(m.pages[pa := Fill(5)], m.refcnt[pa := 1], m.freelist[1..],
        if m.freePages > 0 then m.freePages - 1 else 0, m.refs[h := pa])
  }

  /** kfree() of the page of holder h. */
  function Drop(m: Mem, h: Holder): Mem
    requires h in m.refs && m.refs[h] in m.refcnt
  {
    var pa := m.refs[h];
    if m.refcnt[pa] > 1 then
      m.(refcnt := m.refcnt[pa := m.refcnt[pa] - 1], refs := m.refs - {h})
    else
      Mem(m.pages[pa := Fill(1)], m.refcnt[pa := 0], [pa] + m.freelist, m.freePages + 1, m.refs - {h})
  }

  /** kaddref() of page pa for holder h. */
  function Share(m: Mem, h: Holder, pa: nat): Mem
    requires pa in m.refcnt
  {
    m.(refcnt := m.refcnt[pa := (m.refcnt[pa] + 1) % REFMAX], refs := m.refs[h := pa])
  }

  lemma AllocInv(m: Mem, h: Holder)
    requires MemInv(m) && m.freelist != [] && h !in m.refs
    ensures MemInv(Alloc(m, h))
    ensures m.freelist[0] in m.pages && Holders(m.refs, m.freelist[0]) == {}
  {
    var pa, m' := m.freelist[0], Alloc(m, h);
    assert PagesOk(m');
    forall q | q in m'.pages ensures m'.refcnt[q] == Count(m'.refs, q) {
      CountAdd(m.refs, h, pa, q);
    }
    forall q | q in m'.pages && m'.refcnt[q] == 0 ensures q in m'.freelist {
      assert q in m.freelist && q != pa;
    }
  }

  lemma DropInv(m: Mem, h: Holder)
    requires MemInv(m) && h in m.refs
    ensures m.refcnt[m.refs[h]] >= 1 && MemInv(Drop(m, h))
  {
    var pa, m' := m.refs[h], Drop(m, h);
    CountPositive(m.refs, h);
    assert PagesOk(m');
    forall q | q in m'.pages ensures m'.refcnt[q] == Count(m'.refs, q) {
      CountDrop(m.refs, h, q);
    }
    forall q | q in m'.pages && m'.refcnt[q] == 0 ensures q in m'.freelist {
      if q != pa {
        assert q in m.freelist;
      }
    }
  }

  lemma ShareInv(m: Mem, h: Holder, k: Holder)
    requires MemInv(m) && h !in m.refs && k in m.refs && m.refcnt[m.refs[k]] < REFMAX - 1
    ensures MemInv(Share(m, h, m.refs[k])) && m.refcnt[m.refs[k]] >= 1
  {
    var pa := m.refs[k];
    var m' := Share(m, h, pa);
    CountPositive(m.refs, k);
    assert PagesOk(m');
    forall q | q in m'.pages ensures m'.refcnt[q] == Count(m'.refs, q) {
      CountAdd(m.refs, h, pa, q);
    }
  }

  class Kmem {
    var pages: map<nat, Page>
    var refcnt: map<nat, nat>
    var freelist: seq<nat>
    var freePages: nat
    ghost var refs: Refs

    ghost function M(): Mem
      reads this
    {
      Mem(pages, refcnt, freelist, freePages, refs)
    }

    /** kinit() and freerange(): all pages in [lo, hi) start on the free list. */
    constructor (lo: nat, hi: nat)
      requires 0 < lo <= hi
      ensures MemInv(M()) && refs == map[]
      ensures forall pa :: pa in pages <==> lo <= pa < hi
      ensures freePages == hi - lo
    {
      pages, refcnt, freelist, freePages, refs := map[], map[], [], 0, map[];
      new;
      var p := lo;
      while p < hi
        invariant lo <= p <= hi
        invariant forall pa :: pa in pages <==> lo <= pa < p
        invariant pages.Keys == refcnt.Keys
        invariant forall pa :: pa in pages ==> |pages[pa]| == PGSIZE && refcnt[pa] == 0
        invariant refs == map[] && freePages == |freelist| == p - lo
        invariant forall i :: 0 <= i < |freelist| ==> freelist[i] == p - 1 - i
      {
        // kfree before kmem.ready: the double-free check is off and the count is 0.
        pages := pages[p := Fill(1)];
        refcnt := refcnt[p := 0];
        freelist := [p] + freelist;
        freePages := freePages + 1;
        p := p + 1;
      }
      forall pa | pa in pages ensures pa in freelist {
        assert freelist[p - 1 - pa] == pa;
      }
      forall pa ensures Count(refs, pa) == 0 {
        assert Holders(refs, pa) == {};
      }
    }

    /** kalloc(): 0 exactly when no page is free. */
    method Kalloc(ghost h: Holder) returns (pa: nat)
      requires MemInv(M()) && h !in refs
      modifies this
      ensures MemInv(M())
      ensures pa == 0 <==> old(freelist) == []
      ensures pa == 0 ==> M() == old(M())
      ensures pa != 0 ==> M() == Alloc(old(M()), h) && refs[h] == pa && pa in old(pages)
      ensures pa != 0 ==> Holders(old(refs), pa) == {}
    {
      if freelist == [] {
        return 0;
      }
      AllocInv(M(), h);
      pa := freelist[0];
      freelist := freelist[1..];
      refcnt := refcnt[pa := 1];
      if freePages > 0 {
        freePages := freePages - 1;
      }
      pages := pages[pa := Fill(5)];
      refs := refs[h := pa];
    }

    /** kfree() by holder h: never a double free, since h accounts for one reference. */
    method Kfree(pa: nat, ghost h: Holder)
      requires MemInv(M()) && h in refs && refs[h] == pa
      modifies this
      ensures MemInv(M()) && M() == Drop(old(M()), h)
    {
      DropInv(M(), h);
      assert refcnt[pa] != 0; // so panic("kfree double") is not reached
      refs := refs - {h};
      if refcnt[pa] > 1 {
        refcnt := refcnt[pa := refcnt[pa] - 1];
        return;
      }
      pages := pages[pa := Fill(1)];
      refcnt := refcnt[pa := 0];
      freelist := [pa] + freelist;
      freePages := freePages + 1;
    }

    /** kaddref(): refuses a free page; otherwise the 16-bit count goes up by one. */
    method Kaddref(pa: nat, ghost h: Holder) returns (r: int)
      requires MemInv(M()) && pa in pages && h !in refs
      modifies this
      ensures r == -1 <==> old(refcnt)[pa] == 0
      ensures r == -1 ==> M() == old(M())
      ensures r != -1 ==> M() == Share(old(M()), h, pa) && r == refcnt[pa]
      ensures old(refcnt)[pa] < REFMAX - 1 ==> MemInv(M())
    {
      if refcnt[pa] == 0 {
        return -1;
      }
      ghost var k: Holder :| k in Holders(refs, pa);
      if refcnt[pa] < REFMAX - 1 {
        ShareInv(M(), h, k);
      }
      refcnt := refcnt[pa := (refcnt[pa] + 1) % REFMAX];
      refs := refs[h := pa];
      r := refcnt[pa];
    }
  }
}
