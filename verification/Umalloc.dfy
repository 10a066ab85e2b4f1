/** The allocator of user/umalloc.c (Kernighan and Ritchie, section 8.7 of The C Programming
    Language, 2nd edition).

    Addresses count units of sizeof(Header) = 16 bytes.  `ptr` and `size` are the fields of
    the headers in memory.  BASE is the static header; sbrk memory lies above it.  The ghost
    sets `free` and `live` are the blocks on the free list and those handed out. */
module Umalloc {
  const UNIT: nat := 16
  const BASE: nat := 1 // any address below the heap; 0 is the null pointer

  datatype Heap = Heap(ptr: map<nat, nat>, size: map<nat, nat>, free: set<nat>, live: set<nat>, brk: nat)

  // ---------------------------------------------------------------- invariant

  /** n follows a on the list: the next higher free address, or BASE after the highest. */
  predicate Follows(free: set<nat>, a: nat, n: nat) {
    n in free
    && if n > a then (forall x :: x in free ==> x <= a || n <= x)
       else n == BASE && forall x :: x in free ==> x <= a
  }

  /** The free list is circular and in address order. */
  ghost predicate ListOk(ptr: map<nat, nat>, free: set<nat>) {
    BASE in free && forall a :: a in free ==> BASE <= a && a in ptr && Follows(free, a, ptr[a])
  }

  /** All blocks, free or live, lie apart below the break. */
  ghost predicate BlocksOk(size: map<nat, nat>, all: set<nat>, brk: nat) {
    && (forall a :: a in all ==> BASE <= a && a in size && a + size[a] <= brk && (size[a] > 0 <==> a != BASE))
    && (forall a, b :: a in all && b in all && a < b ==> a + size[a] <= b)
  }

  /** No two free blocks touch. */
  ghost predicate Coalesced(size: map<nat, nat>, free: set<nat>) {
    forall a, b :: a in free && b in free && a != b && a in size ==> a + size[a] != b
  }

  ghost predicate Weak(h: Heap) {
    && ListOk(h.ptr, h.free) && BlocksOk(h.size, h.free + h.live, h.brk)
    && h.free !! h.live && BASE !in h.live && BASE < h.brk
  }

  ghost predicate Inv(h: Heap) { Weak(h) && Coalesced(h.size, h.free) }

  // ---------------------------------------------------------------- free: insert, then merge

  /** The list position of bp: between p and the node after it. */
  ghost predicate Between(h: Heap, p: nat, bp: nat) {
    p in h.free && p in h.ptr && p < bp && (h.ptr[p] > bp || h.ptr[p] <= p)
  }

  function Insert(h: Heap, p: nat, bp: nat): Heap
    requires p in h.ptr
  {
    h.(ptr := h.ptr[bp := h.ptr[p]][p := bp], free := h.free + {bp}, live := h.live - {bp})
  }

  lemma InsertWeak(h: Heap, p: nat, bp: nat)
    requires Weak(h) && bp in h.live && Between(h, p, bp)
    ensures Weak(Insert(h, p, bp))
  {
    hide ListOk, BlocksOk;
    var g := Insert(h, p, bp);
    assert g.free + g.live == h.free + h.live;
    InsertList(h.ptr, h.free, p, bp);
  }

  lemma InsertList(ptr: map<nat, nat>, free: set<nat>, p: nat, bp: nat)
    requires ListOk(ptr, free) && p in free && p in ptr && bp !in free && p < bp && (ptr[p] > bp || ptr[p] <= p)
    ensures ListOk(ptr[bp := ptr[p]][p := bp], free + {bp})
  {
    hide Follows;
    var ptr' := ptr[bp := ptr[p]][p := bp];
    forall a | a in free ensures a != p ==> Follows(free + {bp}, a, ptr[a]) {
      FollowsInsert(free, p, ptr[p], bp, a, ptr[a]);
    }
    FollowsInsert(free, p, ptr[p], bp, p, ptr[p]);
    forall a | a in free + {bp} ensures BASE <= a && a in ptr' && Follows(free + {bp}, a, ptr'[a]) {
      assert a == bp || a in free;
    }
  }

  lemma FollowsInsert(free: set<nat>, p: nat, n: nat, bp: nat, a: nat, m: nat)
    requires Follows(free, p, n) && p in free && bp !in free && p < bp && (n > bp || n <= p)
    requires a in free && Follows(free, a, m) && BASE in free && forall x :: x in free ==> BASE <= x
    ensures a != p ==> Follows(free + {bp}, a, m)
    ensures Follows(free + {bp}, p, bp) && Follows(free + {bp}, bp, n)
  {
  }

  /** Block a swallows block n, which begins where a ends. */
  function Merge(h: Heap, a: nat, n: nat): Heap
    requires a in h.size && n in h.size && n in h.ptr
  {
    h.(ptr := h.ptr[a := h.ptr[n]], size := h.size[a := h.size[a] + h.size[n]], free := h.free - {n})
  }

  lemma MergeWeak(h: Heap, a: nat, n: nat)
    requires Weak(h) && a in h.free && a in h.size && n in h.free && a < n && a in h.ptr && h.ptr[a] == n && a != BASE
    requires n in h.size && n in h.ptr && a + h.size[a] == n
    ensures Weak(Merge(h, a, n))
  {
    hide ListOk, BlocksOk;
    MergeList(h.ptr, h.free, a, n);
    MergeBlocks(h.size, h.free + h.live, h.brk, a, n);
    assert Merge(h, a, n).free + h.live == h.free + h.live - {n};
  }

  lemma MergeList(ptr: map<nat, nat>, free: set<nat>, a: nat, n: nat)
    requires ListOk(ptr, free) && a in free && n in free && a < n && a in ptr && n in ptr && ptr[a] == n
    ensures ListOk(ptr[a := ptr[n]], free - {n})
  {
    hide Follows;
    forall x | x in free && x != n ensures x != a ==> Follows(free - {n}, x, ptr[x]) {
      FollowsMerge(free, a, n, ptr[n], x, ptr[x]);
    }
    FollowsMerge(free, a, n, ptr[n], a, n);
    assert BASE <= a;
  }

  lemma FollowsMerge(free: set<nat>, a: nat, n: nat, m: nat, x: nat, y: nat)
    requires Follows(free, a, n) && Follows(free, n, m) && a in free && n in free && a < n
    requires x in free && x != n && Follows(free, x, y) && BASE in free && forall z :: z in free ==> BASE <= z
    ensures x != a ==> Follows(free - {n}, x, y)
    ensures Follows(free - {n}, a, m)
  {
  }

  lemma MergeBlocks(size: map<nat, nat>, all: set<nat>, brk: nat, a: nat, n: nat)
    requires BlocksOk(size, all, brk) && a in all && n in all && a < n && a + size[a] == n && a != BASE
    ensures BlocksOk(size[a := size[a] + size[n]], all - {n}, brk)
  {
  }

  /** free() of bp after node p. */
  function Freed(h: Heap, p: nat, bp: nat): Heap
    requires p in h.ptr && p in h.size && bp in h.size
    requires bp + h.size[bp] == h.ptr[p] ==> h.ptr[p] in h.size && h.ptr[p] in h.ptr && h.ptr[p] != p
  {
    var g := Insert(h, p, bp);
    var n := h.ptr[p];
    var g1 := if bp + h.size[bp] == n then Merge(g, bp, n) else g;
    if p + h.size[p] == bp then Merge(g1, p, bp) else g1
  }

  function Upper(h: Heap, p: nat, bp: nat): (r: Heap)
    requires p in h.ptr && bp in h.size && h.ptr[p] in h.size && h.ptr[p] in h.ptr
    ensures bp in r.size && bp in r.ptr && (p in h.size ==> p in r.size) && p in r.ptr
  {
    var n := h.ptr[p];
    if bp + h.size[bp] == n
    then h.(size := h.size[bp := h.size[bp] + h.size[n]], ptr := h.ptr[bp := h.ptr[n]], free := h.free - {n})
    else h.(ptr := h.ptr[bp := n])
  }

  function Lower(h: Heap, p: nat, bp: nat): Heap
    requires p in h.size && bp in h.size && bp in h.ptr
  {
    if p + h.size[p] == bp
    then h.(size := h.size[p := h.size[p] + h.size[bp]], ptr := h.ptr[p := h.ptr[bp]])
    else h.(ptr := h.ptr[p := bp], free := h.free + {bp})
  }

  /** The two halves of free() amount to inserting the block and merging it. */
  lemma FreedIs(h: Heap, p: nat, bp: nat)
    requires NextFacts(h, p) && bp in h.size && bp !in h.free && p != bp
    requires (bp + h.size[bp] == h.ptr[p] ==> h.ptr[p] != p)
    ensures Lower(Upper(h, p, bp), p, bp).(live := h.live - {bp}) == Freed(h, p, bp)
  {
    var a, b := Lower(Upper(h, p, bp), p, bp), Freed(h, p, bp);
    assert a.free == b.free;
    assert a.size == b.size;
    assert a.ptr == b.ptr;
  }

  /** The facts about a node and the one after it that the code relies on. */
  ghost predicate NextFacts(h: Heap, p: nat) {
    && p in h.free && p in h.ptr && p in h.size && BASE <= p
    && h.ptr[p] in h.free && h.ptr[p] in h.size && h.ptr[p] in h.ptr
    && (h.ptr[p] > p ==> forall x :: x in h.free ==> x <= p || h.ptr[p] <= x)
    && (h.ptr[p] <= p ==> h.ptr[p] == BASE && forall x :: x in h.free ==> x <= p)
  }

  lemma Next(h: Heap, p: nat)
    requires Weak(h) && p in h.free
    ensures NextFacts(h, p)
  {
    hide Follows;
    NextOne(h.free, p, h.ptr[p]);
  }

  lemma NextOne(free: set<nat>, p: nat, n: nat)
    requires Follows(free, p, n)
    ensures n in free
    ensures n > p ==> forall x :: x in free ==> x <= p || n <= x
    ensures n <= p ==> n == BASE && forall x :: x in free ==> x <= p
  {
  }

  lemma FreedWeak(h: Heap, p: nat, bp: nat)
    requires Weak(h) && bp in h.live && Between(h, p, bp) && NextFacts(h, p) && bp in h.size
    ensures Weak(Freed(h, p, bp))
  {
    hide ListOk, BlocksOk, Follows;
    LiveFacts(h, bp);
    InsertWeak(h, p, bp);
    var g, n := Insert(h, p, bp), h.ptr[p];
    if bp + h.size[bp] == n {
      MergeWeak(g, bp, n);
    }
    if p + h.size[p] == bp {
      var g1 := if bp + h.size[bp] == n then Merge(g, bp, n) else g;
      BaseSize(h);
      MergeWeak(g1, p, bp);
    }
  }

  lemma LiveFacts(h: Heap, bp: nat)
    requires Weak(h) && bp in h.live
    ensures bp in h.size && h.size[bp] > 0 && BASE < bp && bp !in h.free && bp + h.size[bp] <= h.brk
  {
    hide ListOk;
  }

  lemma BaseSize(h: Heap)
    requires Weak(h)
    ensures BASE in h.size && h.size[BASE] == 0 && BASE in h.free
  {
    hide Follows;
    assert BASE in h.free + h.live;
  }

  lemma FreedCoalesced(h: Heap, p: nat, bp: nat)
    requires Inv(h) && bp in h.live && Between(h, p, bp) && NextFacts(h, p) && bp in h.size && h.size[bp] > 0
    ensures Coalesced(Freed(h, p, bp).size, Freed(h, p, bp).free)
  {
    hide ListOk, Follows;
    var n := h.ptr[p];
    assert forall a :: a in h.free ==> a in h.free + h.live;
    assert bp in h.free + h.live;
    assert p + h.size[p] <= bp;
    var size1, free1 := h.size, h.free + {bp};
    if bp + h.size[bp] == n {
      UpCoalesced(h.size, h.free, p, bp, n);
      size1, free1 := h.size[bp := h.size[bp] + h.size[n]], h.free + {bp} - {n};
    }
    assert CoalescedBut(size1, free1, p, bp);
    if p + h.size[p] == bp {
      DownCoalesced(size1, free1, p, bp);
    }
  }

  /** Only p and bp may still touch. */
  ghost predicate CoalescedBut(size: map<nat, nat>, free: set<nat>, p: nat, bp: nat) {
    forall a, b :: a in free && b in free && a != b && a in size && !(a == p && b == bp) ==> a + size[a] != b
  }

  lemma UpCoalesced(size: map<nat, nat>, free: set<nat>, p: nat, bp: nat, n: nat)
    requires Coalesced(size, free) && p in free && n in free && bp !in free && bp in size && n in size
    requires forall x :: x in free ==> x in size && (x <= p || n <= x) && (x < bp ==> x + size[x] <= bp)
    requires p < bp && bp + size[bp] == n && size[bp] > 0
    requires forall x :: x in free && x < p ==> x + size[x] <= p
    ensures CoalescedBut(size[bp := size[bp] + size[n]], free + {bp} - {n}, p, bp)
  {
  }

  lemma DownCoalesced(size: map<nat, nat>, free: set<nat>, p: nat, bp: nat)
    requires CoalescedBut(size, free, p, bp) && p in free && bp in free && p in size && bp in size
    requires p + size[p] == bp && p < bp
    ensures Coalesced(size[p := size[p] + size[bp]], free - {bp})
  {
  }

  // ---------------------------------------------------------------- counting units

  ghost predicate Sized(s: set<nat>, size: map<nat, nat>) { forall a :: a in s ==> a in size }

  ghost function Units(s: set<nat>, size: map<nat, nat>): nat
    requires Sized(s, size)
    decreases s
  {
    if s == {} then 0
    else
      var a :| a in s;
      size[a] + Units(s - {a}, size)
  }

  lemma {:induction false} UnitsSplit(s: set<nat>, size: map<nat, nat>, a: nat)
    requires Sized(s, size) && a in s
    ensures Units(s, size) == size[a] + Units(s - {a}, size)
    decreases s
  {
    var first :| first in s && Units(s, size) == size[first] + Units(s - {first}, size);
    if first != a {
      UnitsSplit(s - {first}, size, a);
      UnitsSplit(s - {a}, size, first);
      assert s - {first} - {a} == s - {a} - {first};
    }
  }

  lemma {:induction false} UnitsSame(s: set<nat>, size: map<nat, nat>, size': map<nat, nat>)
    requires Sized(s, size) && Sized(s, size') && forall a :: a in s ==> size[a] == size'[a]
    ensures Units(s, size) == Units(s, size')
    decreases s
  {
    if s != {} {
      var a :| a in s;
      UnitsSplit(s, size, a);
      UnitsSplit(s, size', a);
      UnitsSame(s - {a}, size, size');
    }
  }

  lemma UnitsMerge(s: set<nat>, size: map<nat, nat>, a: nat, n: nat)
    requires Sized(s, size) && a in s && n in s && a != n
    ensures Units(s - {n}, size[a := size[a] + size[n]]) == Units(s, size)
  {
    var size' := size[a := size[a] + size[n]];
    UnitsSplit(s, size, n);
    UnitsSplit(s - {n}, size, a);
    UnitsSplit(s - {n}, size', a);
    UnitsSame(s - {n} - {a}, size, size');
  }

  lemma UnitsAdd(s: set<nat>, size: map<nat, nat>, a: nat, k: nat)
    requires Sized(s, size) && a !in s
    ensures Units(s + {a}, size[a := k]) == Units(s, size) + k
  {
    UnitsSplit(s + {a}, size[a := k], a);
    assert s + {a} - {a} == s;
    UnitsSame(s, size, size[a := k]);
  }

  lemma UnitsCarve(s: set<nat>, size: map<nat, nat>, p: nat, q: nat, k: nat)
    requires Sized(s, size) && p in s && q !in s && k <= size[p]
    ensures Units(s + {q}, size[p := size[p] - k][q := k]) == Units(s, size)
  {
    var size1: map<nat, nat> := size[p := size[p] - k];
    UnitsSplit(s, size, p);
    UnitsSplit(s, size1, p);
    UnitsSame(s - {p}, size, size1);
    UnitsAdd(s, size1, q, k);
  }

  lemma AllSized(h: Heap)
    requires Weak(h)
    ensures Sized(h.free + h.live, h.size)
  {
    hide ListOk;
  }

  lemma FreedUnits(h: Heap, p: nat, bp: nat)
    requires Weak(h) && bp in h.live && Between(h, p, bp) && NextFacts(h, p) && bp in h.size && p != bp
    requires Sized(h.free + h.live, h.size) && bp !in h.free
    ensures Sized(Freed(h, p, bp).free + Freed(h, p, bp).live, Freed(h, p, bp).size)
    ensures Units(Freed(h, p, bp).free + Freed(h, p, bp).live, Freed(h, p, bp).size) == Units(h.free + h.live, h.size)
  {
    hide ListOk, BlocksOk, Follows, Units;
    var all, n := h.free + h.live, h.ptr[p];
    LiveFacts(h, bp);
    var g := Insert(h, p, bp);
    assert g.free + g.live == all;
    var all1, g1 := all, g;
    if bp + h.size[bp] == n {
      UnitsMerge(all, h.size, bp, n);
      all1, g1 := all - {n}, Merge(g, bp, n);
      assert n !in g.live;
    }
    assert g1.free + g1.live == all1;
    if p + h.size[p] == bp {
      UnitsMerge(all1, g1.size, p, bp);
      assert Merge(g1, p, bp).free + g1.live == all1 - {bp};
    }
  }

  // ---------------------------------------------------------------- malloc

  /** Block p leaves the list; q is the node before it. */
  function Take(h: Heap, q: nat, p: nat): Heap
    requires p in h.ptr
  {
    h.(ptr := h.ptr[q := h.ptr[p]], free := h.free - {p}, live := h.live + {p})
  }

  lemma TakeInv(h: Heap, q: nat, p: nat)
    requires Inv(h) && q in h.free && q in h.ptr && h.ptr[q] == p && p in h.ptr && p in h.free && p != BASE
    ensures Inv(Take(h, q, p))
  {
    hide ListOk, BlocksOk, Follows;
    Next(h, q);
    MergeList(h.ptr, h.free, q, p);
    assert Take(h, q, p).free + Take(h, q, p).live == h.free + h.live;
  }

  /** The last k units of block p are cut off and handed out. */
  function Carve(h: Heap, p: nat, k: nat): Heap
    requires p in h.size && k <= h.size[p]
  {
    var q := p + (h.size[p] - k);
    h.(size := h.size[p := h.size[p] - k][q := k], live := h.live + {q})
  }

  lemma CarveInv(h: Heap, p: nat, k: nat)
    requires Inv(h) && p in h.free && p in h.size && 0 < k < h.size[p] && p != BASE
    ensures Inv(Carve(h, p, k)) && p + (h.size[p] - k) !in h.free + h.live
  {
    hide ListOk, Follows;
    var q := p + (h.size[p] - k);
    CarveBlocks(h.size, h.free + h.live, h.brk, p, k);
    assert h.free + (h.live + {q}) == h.free + h.live + {q};
    assert forall a :: a in h.free ==> a in h.free + h.live;
  }

  lemma CarveBlocks(size: map<nat, nat>, all: set<nat>, brk: nat, p: nat, k: nat)
    requires BlocksOk(size, all, brk) && p in all && 0 < k < size[p]
    ensures var q := p + (size[p] - k);
            q !in all && BlocksOk(size[p := size[p] - k][q := k], all + {q}, brk)
  {
  }

  /** Fresh memory from sbrk(), with its header, before it is freed into the list. */
  function Grown(h: Heap, p: nat, nu: nat): Heap {
    h.(size := h.size[p := nu], live := h.live + {p}, brk := p + nu)
  }

  lemma GrownInv(h: Heap, p: nat, nu: nat)
    requires Inv(h) && nu > 0 && h.brk <= p
    ensures Inv(Grown(h, p, nu)) && p !in h.free + h.live
    ensures Sized(h.free + h.live, h.size) && Sized(h.free + Grown(h, p, nu).live, Grown(h, p, nu).size)
    ensures Units(h.free + Grown(h, p, nu).live, Grown(h, p, nu).size) == Units(h.free + h.live, h.size) + nu
  {
    hide ListOk, Follows, Units;
    AllSized(h);
    GrownBlocks(h.size, h.free + h.live, h.brk, p, nu);
    assert h.free + (h.live + {p}) == h.free + h.live + {p};
    assert forall a :: a in h.free ==> a in h.free + h.live;
    UnitsAdd(h.free + h.live, h.size, p, nu);
  }

  lemma GrownBlocks(size: map<nat, nat>, all: set<nat>, brk: nat, p: nat, nu: nat)
    requires BlocksOk(size, all, brk) && nu > 0 && brk <= p && BASE < brk
    ensures p !in all && BlocksOk(size[p := nu], all + {p}, p + nu)
  {
  }

  /** v lies on the list between f and p, neither included. */
  predicate Passed(v: nat, f: nat, p: nat) { if p > f then f < v < p else v > f || v < p }

  ghost function Above(free: set<nat>, p: nat): set<nat> { set x | x in free && x > p }

  lemma AboveLess(free: set<nat>, p: nat, n: nat)
    requires n in free && n > p
    ensures Above(free, n) < Above(free, p)
  {
    assert n in Above(free, p) && n !in Above(free, n);
  }

  lemma PassedStart(h: Heap, f: nat)
    requires NextFacts(h, f) && forall x :: x in h.free ==> BASE <= x
    ensures forall v :: v in h.free ==> !Passed(v, f, h.ptr[f])
  {
  }

  lemma PassedStep(h: Heap, f: nat, p: nat)
    requires f in h.free && NextFacts(h, p) && p != f && forall x :: x in h.free ==> BASE <= x
    ensures forall v :: v in h.free && Passed(v, f, h.ptr[p]) ==> Passed(v, f, p) || v == p
  {
  }

  lemma FreedBig(h: Heap, p: nat, bp: nat)
    requires Between(h, p, bp) && NextFacts(h, p) && bp in h.size && bp !in h.free
    ensures exists b :: b in Freed(h, p, bp).free && b in Freed(h, p, bp).size && Freed(h, p, bp).size[b] >= h.size[bp]
  {
    var g := Freed(h, p, bp);
    var b := if p + h.size[p] == bp then p else bp;
    assert b in g.free && b in g.size && g.size[b] >= h.size[bp];
  }

  // ---------------------------------------------------------------- sizes of requests

  /** Units for a request: the bytes rounded up, and one for the header. */
  function Nunits(nbytes: nat): nat { (nbytes + UNIT - 1) / UNIT + 1 }

  /** The int that sbrk() receives. */
  function ToInt32(x: nat): int {
    var y := x % 0x1_0000_0000;
    if y < 0x8000_0000 then y else y - 0x1_0000_0000
  }

  /** morecore() asks for 64 KiB at least. */
  function CoreUnits(nunits: nat): (r: nat)
    ensures r >= nunits && r * UNIT >= 0x1_0000 && (r == nunits || r * UNIT == 0x1_0000)
  {
    if nunits < 4096 then 4096 else nunits
  }

  /** sbrk() gets the count whose size morecore() writes into the header. */
  predicate Exact(nunits: nat) { ToInt32(CoreUnits(nunits) * UNIT) == CoreUnits(nunits) * UNIT }

  /** sbrk() does not fail: shrinking never does. */
  predicate Granted(nunits: nat, grant: bool) { grant || ToInt32(CoreUnits(nunits) * UNIT) <= 0 }

  datatype Core = Obtained | Refused | Overrun

  /** A header at hp claims n units, not all of them below the break; nothing else is changed. */
  predicate Overran(hp: nat, n: nat, h: Heap, h1: Heap) {
    h1 == h.(size := h.size[hp := n], brk := h1.brk) && Past(h1.size, h1.brk, hp, n)
  }

  predicate Past(size: map<nat, nat>, brk: nat, hp: nat, n: nat) { hp in size && size[hp] == n && hp + n > brk }

  /** The blocks in `live` keep their sizes. */
  ghost predicate SameSizes(live: set<nat>, size: map<nat, nat>, size1: map<nat, nat>) {
    forall a :: a in live ==> a in size && a in size1 && size1[a] == size[a]
  }

  /** Exactly the requests up to two gigabytes less two headers are sound; larger ones make
      sbrk() see a truncated count: 0xffff_ffff bytes become a request for 16. */
  lemma ExactlyBelow(nbytes: nat)
    requires nbytes < 0x1_0000_0000
    ensures Exact(Nunits(nbytes)) <==> nbytes <= 0x7fff_ffe0
    ensures ToInt32(CoreUnits(Nunits(0xffff_ffff)) * UNIT) == 16
  {
  }

  lemma IntRange(n: nat)
    ensures var c := ToInt32(n * UNIT); c % UNIT == 0 && c <= n * UNIT && (c / UNIT == n <==> c == n * UNIT)
  {
  }

  lemma LargeEnough(nbytes: nat)
    ensures (Nunits(nbytes) - 1) * UNIT >= nbytes > (Nunits(nbytes) - 1) * UNIT - UNIT
  {
  }

  // ---------------------------------------------------------------- the search of malloc()

  /** No free block has n units. */
  ghost predicate NoFit(free: set<nat>, size: map<nat, nat>, n: nat) {
    forall v :: v in free ==> v in size && size[v] < n
  }

  /** The search from f up to p has met none either. */
  ghost predicate Tried(h: Heap, f: nat, p: nat, n: nat) {
    forall v :: v in h.free && Passed(v, f, p) ==> v in h.size && h.size[v] < n
  }

  lemma Fitting(h: Heap, p: nat, n: nat)
    requires p in h.free && p in h.size && h.size[p] >= n
    ensures !NoFit(h.free, h.size, n)
  {
  }

  lemma NoneFits(h: Heap, f: nat, n: nat)
    requires f in h.free && f in h.size && h.size[f] < n && Tried(h, f, f, n)
    ensures NoFit(h.free, h.size, n)
  {
  }

  lemma Start(h: Heap, f: nat, n: nat)
    requires Inv(h) && f in h.free
    ensures NextFacts(h, f) && f in h.ptr && h.ptr[f] in h.free
    ensures Tried(h, f, h.ptr[f], n)
  {
    hide Follows;
    Next(h, f);
    PassedStart(h, f);
  }

  lemma Predecessor(h: Heap, q: nat)
    requires NextFacts(h, q)
    ensures q in h.free && BASE <= q
  {
  }

  lemma NextParts(h: Heap, p: nat)
    requires NextFacts(h, p)
    ensures p in h.ptr && h.ptr[p] in h.free && h.ptr[p] in h.size && h.ptr[p] in h.ptr
  {
  }

  lemma Advance(h: Heap, f: nat, p: nat, n: nat)
    requires Inv(h) && f in h.free && p in h.free && p != f && Tried(h, f, p, n) && p in h.size && h.size[p] < n
    ensures NextFacts(h, p) && p in h.ptr && h.ptr[p] in h.free && Tried(h, f, h.ptr[p], n)
    ensures if p > f then h.ptr[p] <= f || Above(h.free, h.ptr[p]) < Above(h.free, p)
            else h.ptr[p] <= f && Above(h.free, h.ptr[p]) < Above(h.free, p)
  {
    hide Follows;
    Next(h, p);
    PassedStep(h, f, p);
    if h.ptr[p] > p {
      AboveLess(h.free, p, h.ptr[p]);
    }
  }

  lemma NotBase(h: Heap, p: nat)
    requires Inv(h) && p in h.free && p in h.size && h.size[p] > 0
    ensures p != BASE
  {
    BaseSize(h);
  }

  lemma BaseOnly(ptr: map<nat, nat>, size: map<nat, nat>, brk: nat)
    requires BASE in ptr && ptr[BASE] == BASE && BASE in size && size[BASE] == 0 && BASE < brk
    ensures Inv(Heap(ptr, size, {BASE}, {}, brk)) && Sized({BASE}, size) && Units({BASE}, size) == 0
  {
    UnitsSplit({BASE}, size, BASE);
    assert {BASE} - {BASE} == {};
    assert {BASE} + {} == {BASE};
  }

  lemma Next2(h: Heap, p: nat)
    requires Inv(h) && p in h.free
    ensures NextFacts(h, p)
  {
    Next(h, p);
  }

  lemma LiveFacts2(h: Heap, bp: nat)
    requires Inv(h) && bp in h.live
    ensures bp in h.size && h.size[bp] > 0 && BASE < bp && bp !in h.free && bp + h.size[bp] <= h.brk
  {
    LiveFacts(h, bp);
  }

  lemma FreedInv(h: Heap, p: nat, bp: nat)
    requires Inv(h) && bp in h.live && Between(h, p, bp) && NextFacts(h, p) && bp in h.size
    requires Sized(h.free + h.live, h.size)
    ensures Inv(Freed(h, p, bp)) && p in Freed(h, p, bp).free
    ensures Sized(Freed(h, p, bp).free + Freed(h, p, bp).live, Freed(h, p, bp).size)
    ensures Units(Freed(h, p, bp).free + Freed(h, p, bp).live, Freed(h, p, bp).size) == Units(h.free + h.live, h.size)
  {
    hide ListOk, BlocksOk, Follows, Units, Coalesced;
    LiveFacts(h, bp);
    FreedWeak(h, p, bp);
    FreedCoalesced(h, p, bp);
    FreedUnits(h, p, bp);
  }

  // ---------------------------------------------------------------- the code

  class UserHeap {
    var ptr: map<nat, nat>
    var size: map<nat, nat>
    var freep: nat
    var brk: nat
    ghost var free: set<nat>
    ghost var live: set<nat>
    ghost var obtained: nat // units received from sbrk()

    ghost function H(): Heap
      reads this
    {
      Heap(ptr, size, free, live, brk)
    }

    /** Before the first malloc() there is no list; from then on the heap invariant holds and
        every unit received is in exactly one free or live block. */
    ghost predicate Valid()
      reads this
    {
      if freep == 0 then free == live == {} && obtained == 0 && BASE < brk
      else Inv(H()) && freep in free && Sized(free + live, size) && Units(free + live, size) == obtained
    }

    constructor (brk: nat)
      requires BASE < brk
      ensures Valid() && live == {}
    {
      this.brk := brk;
      ptr, size, freep, free, live, obtained := map[], map[], 0, {}, {}, 0;
    }

    /** The search of free(): the node after which bp belongs. */
    method FindPlace(bp: nat) returns (p: nat)
      requires Inv(H()) && freep in free && bp in live
      ensures Between(H(), p, bp) && NextFacts(H(), p)
    {
      hide Inv, Weak;
      LiveFacts2(H(), bp);
      p := freep;
      Next2(H(), p);
      while !(bp > p && bp < ptr[p])
        invariant NextFacts(H(), p)
        decreases if p > bp then 1 else 0, Above(free, p)
      {
        if p >= ptr[p] && (bp > p || bp < ptr[p]) {
          break;
        }
        Next2(H(), ptr[p]);
        if ptr[p] > p {
          AboveLess(free, p, ptr[p]);
        }
        p := ptr[p];
      }
    }

    /** The first half of free(): bp takes over the block after it, or just points to it. */
    method JoinUpper(p: nat, bp: nat)
      requires NextFacts(H(), p) && bp in size && bp != p && bp != ptr[p]
      modifies this`ptr, this`size, this`free
      ensures H() == Upper(old(H()), p, bp)
    {
      var n := ptr[p];
      if bp + size[bp] == n {
        size := size[bp := size[bp] + size[n]];
        ptr := ptr[bp := ptr[n]];
        free := free - {n};
      } else {
        ptr := ptr[bp := n];
      }
    }

    /** The second half: the block before takes over bp, or just points to it. */
    method JoinLower(p: nat, bp: nat)
      requires p in size && bp in size && bp in ptr && p in ptr
      modifies this`ptr, this`size, this`free
      ensures H() == Lower(old(H()), p, bp)
    {
      if p + size[p] == bp {
        size := size[p := size[p] + size[bp]];
        ptr := ptr[p := ptr[bp]];
      } else {
        ptr := ptr[p := bp];
        free := free + {bp};
      }
    }

    /** free(): the block goes back to the list, merged with its neighbours. */
    method Free(ap: nat)
      requires Valid() && ap > 0 && ap - 1 in live
      modifies this
      ensures Valid() && freep != 0 && live == old(live) - {ap - 1} && brk == old(brk) && obtained == old(obtained)
      ensures SameSizes(live, old(size), size)
      ensures exists b :: b in free && b in size && size[b] >= old(size)[ap - 1]
    {
      hide Inv, Weak, Units;
      var bp := ap - 1;
      ghost var h := H();
      LiveFacts2(h, bp);
      var p := FindPlace(bp);
      FreedInv(h, p, bp);
      FreedBig(h, p, bp);
      JoinUpper(p, bp);
      JoinLower(p, bp);
      live := live - {bp};
      freep := p;
      FreedIs(h, p, bp);
      assert H() == Freed(h, p, bp);
      forall a | a in live ensures a in size && a in old(size) && size[a] == old(size)[a] {
        LiveFacts2(h, a);
      }
    }

    /** sbrk(): the old break, or failure if the kernel does not grant a positive count.  A negative
        count shrinks, unless it would pass 0.  Other callers may have moved the break by `gap` in
        the meantime. */
    method Sbrk(n: int, grant: bool, gap: nat) returns (ok: bool, p: nat)
      requires n % UNIT == 0
      modifies this`brk
      ensures p == old(brk) + gap && (ok <==> grant || n <= 0)
      ensures brk == if !ok then old(brk) else if p * UNIT + n < 0 then p else p + n / UNIT
    {
      ok, p := grant || n <= 0, brk + gap;
      if ok {
        brk := if p * UNIT + n < 0 then p else p + n / UNIT;
      }
    }

    /** morecore(): on success a block of at least nu units is on the free list.  If the count does
        not survive its way into sbrk(), the header written claims memory past the break. */
    method Morecore(nu: nat, grant: bool, gap: nat) returns (r: Core)
      requires Valid() && freep != 0 && nu > 0
      modifies this
      ensures r == if !Granted(nu, grant) then Refused else if Exact(nu) then Obtained else Overrun
      ensures r.Overrun? ==> Overran(old(brk) + gap, CoreUnits(nu), old(H()), H())
      ensures !r.Overrun? ==> Valid() && freep != 0 && live == old(live)
      ensures !r.Overrun? ==> SameSizes(live, old(size), size)
      ensures r.Obtained? ==> !NoFit(free, size, nu)
      ensures !r.Overrun? ==> obtained == old(obtained) + if r.Obtained? then CoreUnits(nu) else 0
    {
      hide Inv, Weak, Units, ToInt32;
      ghost var h := H();
      var n := CoreUnits(nu);
      IntRange(n);
      var ok, hp := Sbrk(ToInt32(n * UNIT), grant, gap);
      if !ok {
        return Refused;
      }
      if hp + n > brk {
        size := size[hp := n]; // what follows depends on what lies there
        return Overrun;
      }
      GrownInv(h, hp, n);
      size := size[hp := n];
      live := live + {hp};
      obtained := obtained + n;
      ghost var g := H();
      assert g == Grown(h, hp, n);
      Free(hp + 1);
      forall a | a in live ensures a in size && a in old(size) && size[a] == old(size)[a] {
        LiveFacts2(h, a);
      }
      return Obtained;
    }

    /** The first call sets up the list. */
    method Init()
      requires Valid()
      modifies this
      ensures Valid() && freep != 0 && live == old(live) && obtained == old(obtained) && brk == old(brk)
      ensures SameSizes(live, old(size), size)
      ensures forall n: nat :: n > 0 ==> (NoFit(free, size, n) <==> NoFit(old(free), old(size), n))
    {
      hide Units;
      if freep == 0 {
        ptr := ptr[BASE := BASE];
        size := size[BASE := 0];
        freep := BASE;
        free := {BASE};
        BaseOnly(ptr, size, brk);
        assert free + live == {BASE};
      } else {
        forall a | a in live ensures a in size { LiveFacts2(H(), a); }
      }
    }

    /** Handing out nunits from block p, whose predecessor on the list is q. */
    method HandOut(q: nat, p: nat, nunits: nat) returns (r: nat)
      requires Inv(H()) && NextFacts(H(), q) && ptr[q] == p && nunits > 0 && size[p] >= nunits
      requires Sized(free + live, size) && Units(free + live, size) == obtained
      modifies this
      ensures Valid() && freep != 0 && r !in old(live) && live == old(live) + {r} && r in size && size[r] == nunits
      ensures obtained == old(obtained)
      ensures if old(size)[p] == nunits then r == p && free == old(free) - {p}
              else r + nunits == p + old(size)[p] && p in size && size[p] == old(size)[p] - nunits && free == old(free)
      ensures SameSizes(old(live), old(size), size)
    {
      hide Inv, Weak, Units, NextFacts, Sized;
      NextParts(H(), q);
      Predecessor(H(), q);
      ghost var h := H();
      NotBase(h, p);
      forall a | a in live ensures a in size && a != p { LiveFacts2(h, a); }
      if size[p] == nunits {
        r := p;
        Unchain(q, p);
      } else {
        r := CutTail(p, nunits);
      }
      freep := q;
    }

    /** A whole free block, whose predecessor on the list is q. */
    method Unchain(q: nat, p: nat)
      requires Inv(H()) && NextFacts(H(), q) && ptr[q] == p && p != BASE && p !in live
      requires Sized(free + live, size) && Units(free + live, size) == obtained
      modifies this`ptr, this`free, this`live
      ensures Inv(H()) && Sized(free + live, size) && Units(free + live, size) == obtained
      ensures live == old(live) + {p} && free == old(free) - {p} && q in free
    {
      hide Inv, Weak, Units;
      ghost var h := H();
      TakeInv(h, q, p);
      ptr := ptr[q := ptr[p]];
      free := free - {p};
      live := live + {p};
      assert H() == Take(h, q, p);
      assert free + live == h.free + h.live;
    }

    /** The last nunits of a larger free block. */
    method CutTail(p: nat, nunits: nat) returns (r: nat)
      requires Inv(H()) && p in free && p in size && p != BASE && 0 < nunits < size[p]
      requires Sized(free + live, size) && Units(free + live, size) == obtained
      requires forall a :: a in live ==> a in size && a != p
      modifies this`size, this`live
      ensures Inv(H()) && Sized(free + live, size) && Units(free + live, size) == obtained
      ensures r !in old(live) && live == old(live) + {r} && r + nunits == p + old(size)[p]
      ensures size == old(size)[p := old(size)[p] - nunits][r := nunits] && r != p
      ensures forall a :: a in old(live) ==> a in size && size[a] == old(size)[a]
    {
      hide Inv, Weak, Units;
      ghost var h := H();
      CarveInv(h, p, nunits);
      UnitsCarve(free + live, size, p, p + (size[p] - nunits), nunits);
      size := size[p := size[p] - nunits];
      r := p + size[p];
      size := size[r := nunits];
      live := live + {r};
      assert H() == Carve(h, p, nunits);
      assert free + live == h.free + h.live + {r};
    }

    /** malloc(): a block of its own with room for nbytes behind its header, or 0 exactly if no
        free block is large enough and sbrk() fails; more memory is obtained exactly if none is.
        Blocks handed out before are left alone.  It writes past the break exactly if none is large
        enough, sbrk() does not fail and the request is above 0x7fff_ffe0 bytes. */
    method Malloc(nbytes: nat, grant: bool, gap: nat) returns (overrun: bool, ap: nat)
      requires Valid() && nbytes < 0x1_0000_0000
      modifies this
      ensures var n := Nunits(nbytes);
              overrun <==> NoFit(old(free), old(size), n) && Granted(n, grant) && nbytes > 0x7fff_ffe0
      ensures overrun ==> Past(size, brk, old(brk) + gap, CoreUnits(Nunits(nbytes)))
      ensures !overrun ==> Valid() && freep != 0
      ensures ap == 0 <==> overrun || (NoFit(old(free), old(size), Nunits(nbytes)) && !Granted(Nunits(nbytes), grant))
      ensures !overrun ==>
              var n := Nunits(nbytes);
              obtained == old(obtained) + if ap != 0 && NoFit(old(free), old(size), n) then CoreUnits(n) else 0
      ensures ap == 0 ==> live == old(live)
      ensures ap != 0 ==> ap - 1 !in old(live) && live == old(live) + {ap - 1}
      ensures ap != 0 ==> ap - 1 in size && size[ap - 1] == Nunits(nbytes) && (size[ap - 1] - 1) * UNIT >= nbytes
      ensures !overrun ==> SameSizes(old(live), old(size), size)
    {
      hide Inv, Weak, Units, ToInt32, NextFacts, NoFit, Granted, Exact, Tried, CoreUnits, Past;
      ExactlyBelow(nbytes);
      var nunits := Nunits(nbytes);
      LargeEnough(nbytes);
      Init();
      ghost var h0 := H();
      var prevp := freep;
      Start(H(), freep, nunits);
      var p := ptr[prevp];
      var grown := false;
      while true
        invariant Valid() && freep != 0 && live == old(live)
        invariant prevp in free && NextFacts(H(), prevp) && prevp in ptr && ptr[prevp] == p && p in free
        invariant Tried(H(), freep, p, nunits) && (grown ==> !NoFit(free, size, nunits))
        invariant grown ==> Granted(nunits, grant) && Exact(nunits) && NoFit(h0.free, h0.size, nunits)
        invariant grown ==> obtained == old(obtained) + CoreUnits(nunits)
        invariant !grown ==> H() == h0 && obtained == old(obtained)
        invariant SameSizes(old(live), old(size), size)
        decreases if grown then 0 else 1, if p > freep then 1 else 0, Above(free, p)
      {
        NextParts(H(), prevp);
        if size[p] >= nunits {
          Fitting(H(), p, nunits);
          var r := HandOut(prevp, p, nunits);
          return false, r + 1;
        }
        if p == freep {
          NoneFits(H(), freep, nunits);
          var core := Morecore(nunits, grant, gap);
          if core.Overrun? {
            return true, 0;
          }
          if core.Refused? {
            return false, 0;
          }
          grown := true;
          prevp := freep;
          Start(H(), freep, nunits);
          p := ptr[prevp];
        } else {
          Advance(H(), freep, p, nunits);
          prevp := p;
          p := ptr[p];
        }
      }
    }
  }
}
