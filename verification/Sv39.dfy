/** The three-level page table of kernel/vm.c (section 4.4 of the RISC-V Privileged Architecture):
    walk(), mappages(), uvmunmap() and freewalk() on the table pages of one address space.

    A table page is a sequence of 512 entries; pages come from and go back to a free pool.  The
    ghost `node` gives each table page its level and the one entry that points to it. */
module Sv39 {
  import opened Counting
  import opened Wrappers
  import opened Params

  const ENTRIES: nat := 512
  const VPNS: nat := MAXVA / PGSIZE

  datatype Pte = Invalid | Ptr(page: nat) | Leaf(ppn: nat, perm: nat)
  datatype Node = Node(level: nat, parent: nat, index: nat)

  /** PX(level, va) for the page number v. */
  function Px(level: nat, v: nat): (i: nat)
    requires level <= 2
    ensures i < ENTRIES
  {
    if level == 0 then v % 512 else if level == 1 then v / 512 % 512 else v / 262144 % 512
  }

  lemma PxSplit(v: nat)
    requires v < VPNS
    ensures v == Px(2, v) * 262144 + Px(1, v) * 512 + Px(0, v)
  {
    var w := v / 512;
    assert v == 512 * w + v % 512;
    assert w == 512 * (w / 512) + w % 512;
    assert w / 512 == v / 262144;
    assert v / 262144 < 512;
  }

  /** No address below MAXVA uses the upper half of the root page. */
  lemma PxTop(v: nat)
    requires v < VPNS
    ensures Px(2, v) < 256
  {
  }

  /** The three indices determine the page number. */
  lemma PxUnique(v: nat, u: nat)
    requires v < VPNS && u < VPNS && Px(2, v) == Px(2, u) && Px(1, v) == Px(1, u) && Px(0, v) == Px(0, u)
    ensures v == u
  {
    hide Px;
    PxSplit(v);
    PxSplit(u);
  }

  // ---------------------------------------------------------------- the tree

  type Mem = map<nat, seq<Pte>>

  predicate EntryOk(mem: Mem, node: map<nat, Node>, pg: nat, i: nat)
    requires pg in mem && pg in node && i < |mem[pg]|
  {
    match mem[pg][i]
    case Invalid => true
    case Ptr(ch) => node[pg].level > 0 && ch in node && node[ch] == Node(node[pg].level - 1, pg, i)
    case Leaf(_, _) => node[pg].level == 0
  }

  /** A table page, except for entries in holes, which are being torn down. */
  predicate PageOk(mem: Mem, node: map<nat, Node>, holes: set<(nat, nat)>, pg: nat)
    requires pg in node
  {
    && pg in mem && |mem[pg]| == ENTRIES && node[pg].level <= 2
    && forall i :: 0 <= i < ENTRIES && (pg, i) !in holes ==> EntryOk(mem, node, pg, i)
  }

  /** The page is a root or the page its one entry points to. */
  predicate ChildOk(mem: Mem, node: map<nat, Node>, roots: set<nat>, holes: set<(nat, nat)>, ch: nat)
    requires ch in node
  {
    var n := node[ch];
    ch in roots
    || (n.parent in node && n.parent in mem && n.index < |mem[n.parent]| && (n.parent, n.index) !in holes
        && mem[n.parent][n.index] == Ptr(ch))
  }

  ghost predicate Forest(mem: Mem, node: map<nat, Node>, roots: set<nat>, holes: set<(nat, nat)>) {
    && mem.Keys == node.Keys && roots <= node.Keys
    && (forall pg :: pg in node ==> PageOk(mem, node, holes, pg))
    && (forall ch :: ch in node ==> ChildOk(mem, node, roots, holes, ch))
  }

  ghost predicate PoolOk(pool: seq<nat>, node: map<nat, Node>) {
    NoRepeats(pool) && forall i :: 0 <= i < |pool| ==> pool[i] !in node
  }

  /** The leaf entry of page number v, by the path through the tree. */
  function Lookup(mem: Mem, root: nat, v: nat): Option<Pte> {
    var c1 := Follow(mem, root, Px(2, v));
    var c0 := if c1.Some? then Follow(mem, c1.value, Px(1, v)) else None;
    if c0.Some? && c0.value in mem && Px(0, v) < |mem[c0.value]| && mem[c0.value][Px(0, v)].Leaf?
    then Some(mem[c0.value][Px(0, v)])
    else None
  }

  function Follow(mem: Mem, pg: nat, i: nat): Option<nat> {
    if pg in mem && i < |mem[pg]| && mem[pg][i].Ptr? then Some(mem[pg][i].page) else None
  }

  function EmptyTable(): (t: seq<Pte>)
    ensures |t| == ENTRIES && forall i :: 0 <= i < ENTRIES ==> t[i] == Invalid
  {
    seq(ENTRIES, _ => Invalid)
  }

  // ---------------------------------------------------------------- adding a table page

  function Grow(mem: Mem, pg: nat, i: nat, added: nat): Mem
    requires pg in mem && i < |mem[pg]|
  {
    mem[added := EmptyTable()][pg := mem[pg][i := Ptr(added)]]
  }

  lemma GrowForest(mem: Mem, node: map<nat, Node>, root: nat, pg: nat, i: nat, added: nat)
    requires Forest(mem, node, {root}, {}) && pg in node && i < ENTRIES && pg in mem && i < |mem[pg]|
    requires mem[pg][i] == Invalid && node[pg].level > 0 && added !in node
    ensures Forest(Grow(mem, pg, i, added), node[added := Node(node[pg].level - 1, pg, i)], {root}, {})
  {
    var mem1, node1 := Grow(mem, pg, i, added), node[added := Node(node[pg].level - 1, pg, i)];
    forall q | q in node1 ensures PageOk(mem1, node1, {}, q) {
      assert PageOk(mem, node, {}, pg);
      if q != added {
        assert PageOk(mem, node, {}, q);
        forall k | 0 <= k < ENTRIES ensures EntryOk(mem1, node1, q, k) { assert EntryOk(mem, node, q, k); }
      }
    }
    forall ch | ch in node1 ensures ChildOk(mem1, node1, {root}, {}, ch) {
      if ch != added { assert ChildOk(mem, node, {root}, {}, ch); }
    }
  }

  /** An empty table where there was none changes no lookup. */
  lemma GrowLookup(mem: Mem, root: nat, pg: nat, i: nat, added: nat, v: nat)
    requires pg in mem && i < |mem[pg]| && mem[pg][i] == Invalid && added !in mem
    requires forall q, k :: q in mem && 0 <= k < |mem[q]| && mem[q][k].Ptr? ==> mem[q][k].page in mem
    requires root in mem
    ensures Lookup(Grow(mem, pg, i, added), root, v) == Lookup(mem, root, v)
  {
  }

  lemma FollowNode(mem: Mem, node: map<nat, Node>, root: nat, pg: nat, i: nat)
    requires Forest(mem, node, {root}, {}) && pg in node && Follow(mem, pg, i).Some?
    ensures Follow(mem, pg, i).value in node && node[pg].level > 0
    ensures node[Follow(mem, pg, i).value] == Node(node[pg].level - 1, pg, i)
  {
    assert PageOk(mem, node, {}, pg);
    assert EntryOk(mem, node, pg, i);
  }

  /** The table page that holds the entry of v. */
  ghost predicate Spot(mem: Mem, root: nat, v: nat, pg: nat) {
    var c1 := Follow(mem, root, Px(2, v));
    c1.Some? && Follow(mem, c1.value, Px(1, v)) == Some(pg)
  }

  // ---------------------------------------------------------------- which tables there are

  /** The level-1 table of v, and the level-0 table of v. */
  predicate Top(mem: Mem, root: nat, v: nat) { Follow(mem, root, Px(2, v)).Some? }

  predicate Bottom(mem: Mem, root: nat, v: nat) {
    var c := Follow(mem, root, Px(2, v));
    c.Some? && Follow(mem, c.value, Px(1, v)).Some?
  }

  /** How many of the two there are not. */
  function Lacks(mem: Mem, root: nat, v: nat): (n: nat)
    ensures n <= 2
  {
    (if Top(mem, root, v) then 0 else 1) + (if Bottom(mem, root, v) then 0 else 1)
  }

  /** Pages that share the level-1 table of v, and those that share its level-0 table. */
  predicate SameTop(u: nat, v: nat) { Px(2, u) == Px(2, v) }

  predicate SameBottom(u: nat, v: nat) { Px(2, u) == Px(2, v) && Px(1, u) == Px(1, v) }

  /** From mem0 to mem1 the tables of v down to the level have been made, and no others. */
  ghost predicate Extended(mem0: Mem, mem1: Mem, root: nat, v: nat, level: nat) {
    forall u: nat :: u < VPNS ==>
      && (Top(mem1, root, u) <==> Top(mem0, root, u) || (level <= 1 && SameTop(u, v)))
      && (Bottom(mem1, root, u) <==> Bottom(mem0, root, u) || (level == 0 && SameBottom(u, v)))
  }

  lemma GrowTop(mem: Mem, node: map<nat, Node>, root: nat, v: nat, added: nat)
    requires Forest(mem, node, {root}, {}) && root in node && node[root].level == 2 && added !in node
    requires root in mem && |mem[root]| == ENTRIES && mem[root][Px(2, v)] == Invalid
    ensures Extended(mem, Grow(mem, root, Px(2, v), added), root, v, 1)
  {
    hide Px;
    var mem1 := Grow(mem, root, Px(2, v), added);
    forall u: nat | u < VPNS
      ensures Top(mem1, root, u) <==> Top(mem, root, u) || SameTop(u, v)
      ensures Bottom(mem1, root, u) <==> Bottom(mem, root, u)
    {
      if !SameTop(u, v) && Top(mem, root, u) {
        FollowNode(mem, node, root, root, Px(2, u));
      }
    }
  }

  lemma GrowBottom(mem: Mem, node: map<nat, Node>, root: nat, v: nat, pg: nat, added: nat)
    requires Forest(mem, node, {root}, {}) && root in node && node[root].level == 2 && added !in node
    requires Follow(mem, root, Px(2, v)) == Some(pg)
    requires pg in mem && |mem[pg]| == ENTRIES && mem[pg][Px(1, v)] == Invalid
    ensures forall u: nat :: u < VPNS ==>
              var mem1 := Grow(mem, pg, Px(1, v), added);
              && (Top(mem1, root, u) <==> Top(mem, root, u))
              && (Bottom(mem1, root, u) <==> Bottom(mem, root, u) || SameBottom(u, v))
  {
    hide Px;
    var mem1 := Grow(mem, pg, Px(1, v), added);
    FollowNode(mem, node, root, root, Px(2, v));
    forall u: nat | u < VPNS
      ensures Top(mem1, root, u) <==> Top(mem, root, u)
      ensures Bottom(mem1, root, u) <==> Bottom(mem, root, u) || SameBottom(u, v)
    {
      if Top(mem, root, u) {
        FollowNode(mem, node, root, root, Px(2, u));
      }
    }
  }

  lemma ExtendedNone(mem: Mem, root: nat, v: nat)
    ensures Extended(mem, mem, root, v, 2)
  {
  }

  /** A table that is there already need not be made. */
  lemma ExtendedDown(mem0: Mem, mem: Mem, root: nat, v: nat, level: nat)
    requires 1 <= level <= 2 && Extended(mem0, mem, root, v, level) && v < VPNS
    requires if level == 2 then Top(mem, root, v) else Bottom(mem, root, v)
    ensures Extended(mem0, mem, root, v, level - 1)
  {
    hide Px;
    assert Top(mem, root, v);
  }

  lemma ExtendedUp(mem0: Mem, mem: Mem, root: nat, v: nat)
    requires Extended(mem0, mem, root, v, 1) && Top(mem0, root, v)
    ensures Extended(mem0, mem, root, v, 2)
  {
    hide Px;
  }

  /** From a pool a - b pages have been taken. */
  predicate Shorter(before: seq<nat>, after: seq<nat>, a: nat, b: nat) {
    b <= a && a - b <= |before| && after == before[a - b..]
  }

  lemma ShorterTrans(p: seq<nat>, q: seq<nat>, r: seq<nat>, a: nat, b: nat, c: nat)
    requires Shorter(p, q, a, b) && Shorter(q, r, b, c)
    ensures Shorter(p, r, a, c)
  {
  }

  lemma Entry(mem: Mem, node: map<nat, Node>, root: nat, pg: nat, i: nat)
    requires Forest(mem, node, {root}, {}) && pg in node && node[pg].level > 0 && i < ENTRIES
    ensures pg in mem && |mem[pg]| == ENTRIES && !mem[pg][i].Leaf?
    ensures mem[pg][i].Ptr? ==> mem[pg][i].page in node && node[mem[pg][i].page] == Node(node[pg].level - 1, pg, i)
  {
    assert PageOk(mem, node, {}, pg);
    assert EntryOk(mem, node, pg, i);
  }

  /** What the entry at this level says about the tables of v. */
  lemma AtLevel(mem: Mem, root: nat, v: nat, level: nat, pg: nat)
    requires pg in mem && |mem[pg]| == ENTRIES && 1 <= level <= 2
    requires if level == 2 then pg == root else Follow(mem, root, Px(2, v)) == Some(pg)
    ensures level == 2 ==> (Top(mem, root, v) <==> mem[pg][Px(level, v)].Ptr?)
    ensures level == 2 && Bottom(mem, root, v) ==> Top(mem, root, v)
    ensures level == 1 ==> Top(mem, root, v) && (Bottom(mem, root, v) <==> mem[pg][Px(level, v)].Ptr?)
  {
    hide Px;
  }

  lemma NoTable(mem: Mem, root: nat, v: nat)
    ensures Lacks(mem, root, v) > 0 ==> Lookup(mem, root, v) == None
    ensures (exists pg :: Spot(mem, root, v, pg)) ==> Lacks(mem, root, v) == 0
  {
    hide Px;
  }

  /** A new table for v at the next level down. */
  lemma Deeper(mem0: Mem, mem: Mem, node: map<nat, Node>, root: nat, v: nat, level: nat, pg: nat, added: nat)
    requires Forest(mem, node, {root}, {}) && root in node && node[root].level == 2 && added !in node && v < VPNS
    requires 1 <= level <= 2 && pg in node && pg in mem && |mem[pg]| == ENTRIES && mem[pg][Px(level, v)] == Invalid
    requires if level == 2 then pg == root else Follow(mem, root, Px(2, v)) == Some(pg)
    requires Extended(mem0, mem, root, v, level)
    ensures var mem1 := Grow(mem, pg, Px(level, v), added);
            && Extended(mem0, mem1, root, v, level - 1) && Lacks(mem1, root, v) + 1 == Lacks(mem, root, v)
            && if level == 2 then Follow(mem1, root, Px(2, v)) == Some(added) else Spot(mem1, root, v, added)
  {
    hide Px, Forest, Top, Bottom;
    var mem1 := Grow(mem, pg, Px(level, v), added);
    AtLevel(mem, root, v, level, pg);
    if level == 2 {
      GrowTop(mem, node, root, v, added);
    } else {
      FollowNode(mem, node, root, root, Px(2, v));
      GrowBottom(mem, node, root, v, pg, added);
    }
    assert SameTop(v, v) && SameBottom(v, v);
  }

  // ---------------------------------------------------------------- changing an entry

  function Put(mem: Mem, pg: nat, i: nat, e: Pte): Mem
    requires pg in mem && i < |mem[pg]|
  {
    mem[pg := mem[pg][i := e]]
  }

  lemma PutForest(mem: Mem, node: map<nat, Node>, root: nat, pg: nat, i: nat, e: Pte)
    requires Forest(mem, node, {root}, {}) && pg in node && pg in mem && i < |mem[pg]| && node[pg].level == 0 && !e.Ptr?
    ensures Forest(Put(mem, pg, i, e), node, {root}, {})
  {
    var mem1 := Put(mem, pg, i, e);
    assert PageOk(mem, node, {}, pg);
    forall q | q in node ensures PageOk(mem1, node, {}, q) {
      assert PageOk(mem, node, {}, q);
      forall k | 0 <= k < ENTRIES ensures EntryOk(mem1, node, q, k) { assert EntryOk(mem, node, q, k); }
    }
    forall ch | ch in node ensures ChildOk(mem1, node, {root}, {}, ch) {
      assert ChildOk(mem, node, {root}, {}, ch);
      assert ch != root ==> EntryOk(mem, node, node[ch].parent, node[ch].index);
    }
  }

  /** A page of the bottom level is reached by one path only. */
  lemma SpotUnique(mem: Mem, node: map<nat, Node>, root: nat, v: nat, u: nat, pg: nat)
    requires Forest(mem, node, {root}, {}) && root in node && node[root].level == 2 && Spot(mem, root, v, pg)
    requires Spot(mem, root, u, pg)
    ensures pg in node && node[pg].level == 0 && Px(2, v) == Px(2, u) && Px(1, v) == Px(1, u)
  {
    hide Px;
    var c, d := Follow(mem, root, Px(2, v)).value, Follow(mem, root, Px(2, u)).value;
    assert PageOk(mem, node, {}, root);
    assert EntryOk(mem, node, root, Px(2, v)) && EntryOk(mem, node, root, Px(2, u));
    assert PageOk(mem, node, {}, c) && PageOk(mem, node, {}, d);
    assert EntryOk(mem, node, c, Px(1, v)) && EntryOk(mem, node, d, Px(1, u));
  }

  lemma PutFollow(mem: Mem, node: map<nat, Node>, root: nat, pg: nat, i: nat, e: Pte, q: nat, k: nat)
    requires Forest(mem, node, {root}, {})
    requires pg in node && pg in mem && i < |mem[pg]| && node[pg].level == 0 && !e.Ptr? && q in node
    ensures Follow(Put(mem, pg, i, e), q, k) == Follow(mem, q, k)
  {
    assert PageOk(mem, node, {}, pg);
    if k < ENTRIES { assert EntryOk(mem, node, pg, k); }
  }

  /** Writing the entry of v changes the lookup of v and of no other page. */
  lemma PutLookup(mem: Mem, node: map<nat, Node>, root: nat, v: nat, pg: nat, e: Pte, u: nat)
    requires Forest(mem, node, {root}, {}) && root in node && node[root].level == 2 && v < VPNS && u < VPNS
    requires Spot(mem, root, v, pg)
    requires pg in mem && Px(0, v) < |mem[pg]| && !e.Ptr?
    ensures Lookup(Put(mem, pg, Px(0, v), e), root, u)
            == if u == v then (if e.Leaf? then Some(e) else None) else Lookup(mem, root, u)
  {
    hide Px, Forest;
    SpotUnique(mem, node, root, v, v, pg);
    var mem1 := Put(mem, pg, Px(0, v), e);
    PutFollow(mem, node, root, pg, Px(0, v), e, root, Px(2, u));
    var c := Follow(mem, root, Px(2, u));
    if c.Some? {
      FollowNode(mem, node, root, root, Px(2, u));
      PutFollow(mem, node, root, pg, Px(0, v), e, c.value, Px(1, u));
    }
    if Spot(mem, root, u, pg) {
      SpotUnique(mem, node, root, v, u, pg);
      if Px(0, u) == Px(0, v) { PxUnique(v, u); }
    }
  }

  /** And it makes no table and takes none away. */
  lemma PutTables(mem: Mem, node: map<nat, Node>, root: nat, v: nat, pg: nat, e: Pte)
    requires Forest(mem, node, {root}, {}) && root in node && node[root].level == 2 && Spot(mem, root, v, pg)
    requires pg in mem && Px(0, v) < |mem[pg]| && !e.Ptr?
    ensures Extended(mem, Put(mem, pg, Px(0, v), e), root, v, 2)
  {
    hide Px, Forest;
    SpotUnique(mem, node, root, v, v, pg);
    forall u: nat | u < VPNS
      ensures Top(Put(mem, pg, Px(0, v), e), root, u) <==> Top(mem, root, u)
      ensures Bottom(Put(mem, pg, Px(0, v), e), root, u) <==> Bottom(mem, root, u)
    {
      PutFollow(mem, node, root, pg, Px(0, v), e, root, Px(2, u));
      if Top(mem, root, u) {
        FollowNode(mem, node, root, root, Px(2, u));
        PutFollow(mem, node, root, pg, Px(0, v), e, Follow(mem, root, Px(2, u)).value, Px(1, u));
      }
    }
  }

  lemma EntryIs(mem: Mem, root: nat, v: nat, pg: nat)
    requires Spot(mem, root, v, pg) && pg in mem && |mem[pg]| == ENTRIES
    ensures Lookup(mem, root, v) == if mem[pg][Px(0, v)].Leaf? then Some(mem[pg][Px(0, v)]) else None
  {
  }

  datatype Outcome = Mapped | NoMemory | PanicRemap | PanicSize

  /** The physical pages of n page numbers from v on. */
  function MappedIn(mem: Mem, root: nat, v: nat, n: nat): seq<nat> {
    if n == 0 then []
    else
      var e := if v + n - 1 < VPNS then Lookup(mem, root, v + n - 1) else None;
      MappedIn(mem, root, v, n - 1) + (if e.Some? && e.value.Leaf? then [e.value.ppn] else [])
  }

  // ---------------------------------------------------------------- tearing down

  /** The entry (pg, i) stops counting; the page it points to is a root of its own. */
  lemma Detach(mem: Mem, node: map<nat, Node>, roots: set<nat>, holes: set<(nat, nat)>, pg: nat, i: nat, ch: nat)
    requires Forest(mem, node, roots, holes) && pg in node && pg in mem && i < |mem[pg]| && mem[pg][i] == Ptr(ch)
    requires (pg, i) !in holes && i < ENTRIES
    ensures ch in node && node[pg].level > 0 && node[ch] == Node(node[pg].level - 1, pg, i)
    ensures Forest(mem, node, roots + {ch}, holes + {(pg, i)})
  {
    assert PageOk(mem, node, holes, pg);
    assert EntryOk(mem, node, pg, i);
    forall q | q in node ensures PageOk(mem, node, holes + {(pg, i)}, q) { assert PageOk(mem, node, holes, q); }
    forall q | q in node ensures ChildOk(mem, node, roots + {ch}, holes + {(pg, i)}, q) {
      assert ChildOk(mem, node, roots, holes, q);
    }
  }

  /** Clearing an entry that no longer counts. */
  lemma Clear(mem: Mem, node: map<nat, Node>, roots: set<nat>, holes: set<(nat, nat)>, pg: nat, i: nat)
    requires Forest(mem, node, roots, holes + {(pg, i)}) && pg in node && pg in mem && i < |mem[pg]|
    ensures Forest(Put(mem, pg, i, Invalid), node, roots, holes)
  {
    var mem1 := Put(mem, pg, i, Invalid);
    forall q | q in node ensures PageOk(mem1, node, holes, q) {
      assert PageOk(mem, node, holes + {(pg, i)}, q);
      forall k | 0 <= k < ENTRIES && (q, k) !in holes ensures EntryOk(mem1, node, q, k) {
        if (q, k) != (pg, i) { assert EntryOk(mem, node, q, k); }
      }
    }
    forall q | q in node ensures ChildOk(mem1, node, roots, holes, q) {
      assert ChildOk(mem, node, roots, holes + {(pg, i)}, q);
    }
  }

  /** Nothing counts that points to pg. */
  ghost predicate Cut(node: map<nat, Node>, holes: set<(nat, nat)>, pg: nat) {
    pg in node && (node[pg].level == 2 || (node[pg].parent, node[pg].index) in holes)
      && forall i: nat :: (pg, i) !in holes
  }

  /** An empty page nothing points to can go. */
  lemma Remove(mem: Mem, node: map<nat, Node>, roots: set<nat>, holes: set<(nat, nat)>, pg: nat)
    requires Forest(mem, node, roots, holes) && Cut(node, holes, pg) && pg in mem
    requires forall i :: 0 <= i < |mem[pg]| ==> mem[pg][i] == Invalid
    ensures Forest(mem - {pg}, node - {pg}, roots - {pg}, holes)
  {
    var mem1, node1 := mem - {pg}, node - {pg};
    forall q | q in node1 ensures PageOk(mem1, node1, holes, q) {
      assert PageOk(mem, node, holes, q);
      forall k | 0 <= k < ENTRIES && (q, k) !in holes ensures EntryOk(mem1, node1, q, k) {
        assert EntryOk(mem, node, q, k);
      }
    }
    forall q | q in node1 ensures ChildOk(mem1, node1, roots - {pg}, holes, q) {
      assert ChildOk(mem, node, roots, holes, q);
    }
  }

  lemma PushPool(pool: seq<nat>, node: map<nat, Node>, pg: nat)
    requires PoolOk(pool, node) && pg in node
    ensures PoolOk([pg] + pool, node - {pg}) && forall x :: x in [pg] + pool <==> x == pg || x in pool
  {
  }

  lemma PopPool(pool: seq<nat>, node: map<nat, Node>, pg: nat, i: nat)
    requires PoolOk(pool, node) && pool != [] && pg in node
    ensures pool[0] !in node && PoolOk(pool[1..], node[pool[0] := Node(node[pg].level, pg, i)])
  {
  }

  lemma PagesKnown(mem: Mem, node: map<nat, Node>, root: nat)
    requires Forest(mem, node, {root}, {})
    ensures mem.Keys == node.Keys
    ensures forall q, k :: q in mem && 0 <= k < |mem[q]| && mem[q][k].Ptr? ==> mem[q][k].page in mem
  {
    forall q, k | q in mem && 0 <= k < |mem[q]| && mem[q][k].Ptr? ensures mem[q][k].page in mem {
      assert PageOk(mem, node, {}, q);
      assert EntryOk(mem, node, q, k);
    }
  }

  ghost predicate HasLeaf(mem: Mem) { exists q, i :: q in mem && 0 <= i < |mem[q]| && mem[q][i].Leaf? }

  /** From the first state to the second some pages without leaves went to the pool, and nothing
      else happened, except perhaps to pages in `but`. */
  ghost predicate Freed(mem0: Mem, node0: map<nat, Node>, pool0: seq<nat>, mem: Mem, node: map<nat, Node>,
                        pool: seq<nat>, but: set<nat>) {
    && mem.Keys == node.Keys && mem0.Keys == node0.Keys
    && (forall q :: q in node ==> q in node0 && node[q] == node0[q] && (q !in but ==> mem[q] == mem0[q]))
    && (forall x :: x in pool <==> x in pool0 || (x in node0 && x !in node))
    && (forall q, i :: q in mem0 && q !in mem && 0 <= i < |mem0[q]| ==> !mem0[q][i].Leaf?)
  }

  lemma FreedNone(mem: Mem, node: map<nat, Node>, pool: seq<nat>, but: set<nat>)
    requires mem.Keys == node.Keys
    ensures Freed(mem, node, pool, mem, node, pool, but)
  {
  }

  lemma FreedTwice(mem0: Mem, node0: map<nat, Node>, pool0: seq<nat>, mem1: Mem, node1: map<nat, Node>, pool1: seq<nat>,
                   mem: Mem, node: map<nat, Node>, pool: seq<nat>, but: set<nat>)
    requires Freed(mem0, node0, pool0, mem1, node1, pool1, but) && Freed(mem1, node1, pool1, mem, node, pool, but)
    requires but <= node.Keys
    ensures Freed(mem0, node0, pool0, mem, node, pool, but)
  {
    forall q, i | q in mem0 && q !in mem && 0 <= i < |mem0[q]| ensures !mem0[q][i].Leaf? {
      if q in mem1 { assert mem1[q] == mem0[q]; }
    }
  }

  lemma FreedLast(mem0: Mem, node0: map<nat, Node>, pool0: seq<nat>, mem: Mem, node: map<nat, Node>, pool: seq<nat>,
                  pg: nat)
    requires Freed(mem0, node0, pool0, mem, node, pool, {pg}) && pg in node
    requires forall i :: 0 <= i < |mem0[pg]| ==> !mem0[pg][i].Leaf?
    ensures Freed(mem0, node0, pool0, mem - {pg}, node - {pg}, [pg] + pool, {})
  {
  }

  lemma LeafFound(mem: Mem, pg: nat, i: nat)
    requires pg in mem && i < |mem[pg]| && mem[pg][i].Leaf?
    ensures HasLeaf(mem)
  {
  }

  lemma LeafEarlier(mem0: Mem, node0: map<nat, Node>, pool0: seq<nat>, mem: Mem, node: map<nat, Node>,
                    pool: seq<nat>, pg: nat)
    requires Freed(mem0, node0, pool0, mem, node, pool, {pg}) && HasLeaf(mem) && pg in mem && pg in mem0
    requires |mem[pg]| == |mem0[pg]|
    requires forall i :: 0 <= i < |mem[pg]| ==> mem[pg][i] == Invalid || mem[pg][i] == mem0[pg][i]
    ensures HasLeaf(mem0)
  {
    var q, i :| q in mem && 0 <= i < |mem[q]| && mem[q][i].Leaf?;
    assert mem0[q][i].Leaf?;
  }

  lemma PageSize(mem: Mem, node: map<nat, Node>, roots: set<nat>, holes: set<(nat, nat)>, pg: nat)
    requires Forest(mem, node, roots, holes) && pg in node
    ensures mem.Keys == node.Keys && |mem[pg]| == ENTRIES && node[pg].level <= 2
  {
    assert PageOk(mem, node, holes, pg);
  }

  /** The detached child can be freed on its own. */
  lemma HoleFree(mem: Mem, node: map<nat, Node>, roots: set<nat>, holes: set<(nat, nat)>, pg: nat, i: nat, ch: nat)
    requires Forest(mem, node, roots, holes) && pg in node && ch in node && node[pg].level > 0
    requires node[ch] == Node(node[pg].level - 1, pg, i)
    requires Cut(node, holes, pg) && pg in roots
    requires forall r :: r in roots && r != pg ==> r in node && node[r].level > node[pg].level
    requires forall h :: h in holes ==> h.0 in node && node[h.0].level > node[pg].level
    ensures ch !in roots && Cut(node, holes + {(pg, i)}, ch)
  {
  }

  /** With no root there is no page: every other page has a parent one level up. */
  lemma NothingLeft(mem: Mem, node: map<nat, Node>)
    requires Forest(mem, node, {}, {})
    ensures node == map[]
  {
    forall q | q in node ensures false {
      Up(mem, node, {}, q);
      var p := node[q].parent;
      Up(mem, node, {}, p);
      Up(mem, node, {}, node[p].parent);
    }
  }

  lemma Up(mem: Mem, node: map<nat, Node>, roots: set<nat>, q: nat)
    requires Forest(mem, node, roots, {}) && q in node && q !in roots
    ensures node[q].parent in node && node[node[q].parent].level == node[q].level + 1 <= 2
  {
    var p := node[q].parent;
    assert ChildOk(mem, node, roots, {}, q);
    assert PageOk(mem, node, {}, p) && EntryOk(mem, node, p, node[q].index);
  }

  lemma PoolDistinct(pool: seq<nat>, node: map<nat, Node>)
    requires PoolOk(pool, node)
    ensures NoRepeats(pool)
  {
  }

  lemma NoLeafFreed(mem0: Mem, node0: map<nat, Node>, pool0: seq<nat>, mem: Mem, node: map<nat, Node>, pool: seq<nat>)
    requires Freed(mem0, node0, pool0, mem, node, pool, {}) && node == map[]
    ensures !HasLeaf(mem0)
  {
  }

  /** Every leaf in the tree is the entry of some page number, and the other way round. */
  lemma LeafMapped(mem: Mem, node: map<nat, Node>, root: nat)
    requires Forest(mem, node, {root}, {}) && root in node && node[root].level == 2
    requires root in mem && forall i :: 256 <= i < |mem[root]| ==> mem[root][i] == Invalid
    ensures HasLeaf(mem) <==> exists v: nat :: v < VPNS && Lookup(mem, root, v) != None
  {
    if HasLeaf(mem) {
      var q, k :| q in mem && 0 <= k < |mem[q]| && mem[q][k].Leaf?;
      var v := PathOf(mem, node, root, q, k);
    }
  }

  lemma PathOf(mem: Mem, node: map<nat, Node>, root: nat, q: nat, k: nat) returns (v: nat)
    requires Forest(mem, node, {root}, {}) && root in node && node[root].level == 2
    requires root in mem && forall i :: 256 <= i < |mem[root]| ==> mem[root][i] == Invalid
    requires q in mem && k < |mem[q]| && mem[q][k].Leaf?
    ensures v < VPNS && Lookup(mem, root, v) == Some(mem[q][k])
  {
    assert PageOk(mem, node, {}, q) && EntryOk(mem, node, q, k) && ChildOk(mem, node, {root}, {}, q);
    var c := node[q].parent;
    assert PageOk(mem, node, {}, c) && EntryOk(mem, node, c, node[q].index) && ChildOk(mem, node, {root}, {}, c);
    var r := node[c].parent;
    assert PageOk(mem, node, {}, r) && EntryOk(mem, node, r, node[c].index) && ChildOk(mem, node, {root}, {}, r);
    v := node[c].index * 262144 + node[q].index * 512 + k;
    PxOf(node[c].index, node[q].index, k);
    TopOnly(mem, node, root, r);
  }

  lemma PxOf(a: nat, b: nat, c: nat)
    requires a < 512 && b < 512 && c < 512
    ensures var v := a * 262144 + b * 512 + c; Px(2, v) == a && Px(1, v) == b && Px(0, v) == c && (a < 256 ==> v < VPNS)
  {
    var v := a * 262144 + b * 512 + c;
    assert v / 512 == a * 512 + b;
    assert v / 262144 == a;
  }

  /** The root is the only page of the top level. */
  lemma TopOnly(mem: Mem, node: map<nat, Node>, root: nat, r: nat)
    requires Forest(mem, node, {root}, {}) && r in node && node[r].level == 2
    ensures r == root
  {
    hide Forest;
    if r != root {
      Up(mem, node, {root}, r);
    }
  }

  // ---------------------------------------------------------------- the code

  class PageTable {
    var mem: Mem
    var pool: seq<nat>
    const root: nat
    ghost var node: map<nat, Node>

    ghost predicate Valid()
      reads this
    {
      && Forest(mem, node, {root}, {}) && root in node && node[root].level == 2 && PoolOk(pool, node)
      && root in mem && forall i :: 256 <= i < |mem[root]| ==> mem[root][i] == Invalid
    }

    /** The address space as a map from page numbers to leaf entries. */
    ghost function At(v: nat): Option<Pte>
      reads this
    {
      if v < VPNS then Lookup(mem, root, v) else None
    }

    /** uvmcreate(), on a root page from the pool. */
    constructor (root: nat, pool: seq<nat>)
      requires NoRepeats(pool) && root !in pool
      ensures Valid() && this.root == root && this.pool == pool && forall v: nat :: At(v) == None
      ensures forall v: nat :: !Top(mem, root, v) && !Bottom(mem, root, v)
    {
      this.root, this.pool := root, pool;
      mem := map[root := EmptyTable()];
      node := map[root := Node(2, 0, 0)];
    }

    /** kalloc() and memset() of a table page, and the entry that points to it. */
    method NewTable(pg: nat, i: nat) returns (new_pg: nat)
      requires Valid() && pg in node && pg in mem && i < |mem[pg]| == ENTRIES && (pg == root ==> i < 256)
      requires mem[pg][i] == Invalid && node[pg].level > 0 && pool != []
      modifies this`mem, this`pool, this`node
      ensures Valid() && new_pg in node && node[new_pg] == Node(old(node)[pg].level - 1, pg, i)
      ensures mem == Grow(old(mem), pg, i, new_pg) && pool == old(pool)[1..] && new_pg == old(pool)[0]
      ensures new_pg !in old(mem)
      ensures forall u: nat :: At(u) == old(At(u))
    {
      hide Forest, Lookup;
      new_pg := pool[0];
      PopPool(pool, node, pg, i);
      PagesKnown(mem, node, root);
      GrowForest(mem, node, root, pg, i, new_pg);
      forall u: nat ensures Lookup(Grow(mem, pg, i, new_pg), root, u) == Lookup(mem, root, u) {
        GrowLookup(mem, root, pg, i, new_pg, u);
      }
      node := node[new_pg := Node(node[pg].level - 1, pg, i)];
      mem := mem[new_pg := EmptyTable()];
      mem := mem[pg := mem[pg][i := Ptr(new_pg)]];
      pool := pool[1..];
    }

    /** One round of walk()'s loop, from the table pg of v at this level to the one below. */
    method Down(v: nat, level: nat, pg: nat, alloc: bool, ghost mem0: Mem) returns (ok: bool, below: nat)
      requires Valid() && v < VPNS && 1 <= level <= 2 && pg in node && node[pg].level == level
      requires if level == 2 then pg == root else Follow(mem, root, Px(2, v)) == Some(pg)
      requires Extended(mem0, mem, root, v, level)
      modifies this`mem, this`pool, this`node
      ensures Valid() && forall u: nat :: At(u) == old(At(u))
      ensures !alloc || !ok ==> mem == old(mem) && pool == old(pool)
      ensures ok ==> below in node && node[below].level == level - 1 && Extended(mem0, mem, root, v, level - 1)
      ensures ok ==> if level == 2 then Follow(mem, root, Px(2, v)) == Some(below) else Spot(mem, root, v, below)
      ensures ok ==> Shorter(old(pool), pool, old(Lacks(mem, root, v)), Lacks(mem, root, v))
      ensures ok && level == 2 ==> old(Top(mem, root, v)) || old(pool) != []
      ensures !ok ==> Lacks(mem, root, v) > 0 && (alloc ==> pool == [])
    {
      hide Px, Lookup, Forest, Extended, Top, Bottom;
      PxTop(v);
      Entry(mem, node, root, pg, Px(level, v));
      AtLevel(mem, root, v, level, pg);
      var pte := mem[pg][Px(level, v)];
      if pte != Invalid {
        ExtendedDown(mem0, mem, root, v, level);
        return true, pte.page;
      }
      if !alloc || pool == [] {
        return false, pg;
      }
      ghost var mem1, node1 := mem, node;
      below := NewTable(pg, Px(level, v));
      Deeper(mem0, mem1, node1, root, v, level, pg, below);
      return true, below;
    }

    /** walk(): the table page with the entry of v, made if needed and alloc is set.  No mapping
        changes either way; the pages taken are exactly the tables that were missing. */
    method Walk(v: nat, alloc: bool) returns (ok: bool, pg: nat)
      requires Valid()
      modifies this`mem, this`pool, this`node
      ensures Valid() && forall u: nat :: At(u) == old(At(u))
      ensures ok ==> v < VPNS && Spot(mem, root, v, pg) && pg in mem && |mem[pg]| == ENTRIES
      ensures !alloc || v >= VPNS ==> mem == old(mem) && pool == old(pool)
      ensures ok <==>
              v < VPNS && if alloc then |old(pool)| >= old(Lacks(mem, root, v)) else old(Lacks(mem, root, v)) == 0
      ensures ok ==> pool == old(pool)[old(Lacks(mem, root, v))..] && Extended(old(mem), mem, root, v, 0)
      ensures !ok && alloc && v < VPNS ==>
                && pool == []
                && Extended(old(mem), mem, root, v, if old(Top(mem, root, v)) || |old(pool)| == 0 then 2 else 1)
      ensures !ok && v < VPNS ==> At(v) == None
    {
      hide Px, Lookup, Forest, Extended, Top, Bottom, Lacks;
      ok, pg := false, root;
      if v >= VPNS {
        return;
      }
      var level := 2;
      ExtendedNone(mem, root, v);
      while level > 0
        invariant 0 <= level <= 2 && Valid() && pg in node && node[pg].level == level
        invariant forall u: nat :: At(u) == old(At(u))
        invariant level == 2 ==> pg == root && mem == old(mem) && pool == old(pool)
        invariant level == 1 ==> Follow(mem, root, Px(2, v)) == Some(pg)
        invariant level == 0 ==> Spot(mem, root, v, pg)
        invariant !alloc ==> mem == old(mem) && pool == old(pool)
        invariant Extended(old(mem), mem, root, v, level) && (level == 1 ==> old(Top(mem, root, v)) || |old(pool)| > 0)
        invariant Shorter(old(pool), pool, old(Lacks(mem, root, v)), Lacks(mem, root, v))
      {
        ghost var pool1, lacks1 := pool, Lacks(mem, root, v);
        ok, pg := Down(v, level, pg, alloc, old(mem));
        if !ok {
          NoTable(mem, root, v);
          if level == 1 && old(Top(mem, root, v)) {
            ExtendedUp(old(mem), mem, root, v);
          }
          return;
        }
        ShorterTrans(old(pool), pool1, pool, old(Lacks(mem, root, v)), lacks1, Lacks(mem, root, v));
        level := level - 1;
      }
      NoTable(mem, root, v);
      PageSize(mem, node, {root}, {}, pg);
      return true, pg;
    }

    /** Writing the entry of v that walk() found. */
    method SetEntry(v: nat, pg: nat, e: Pte)
      requires Valid() && v < VPNS && Spot(mem, root, v, pg) && pg in mem && |mem[pg]| == ENTRIES && !e.Ptr?
      modifies this`mem
      ensures Valid() && forall u: nat :: At(u) == if u == v then (if e.Leaf? then Some(e) else None) else old(At(u))
      ensures Extended(old(mem), mem, root, v, 2)
    {
      hide Forest, Lookup, Px, Spot, Extended;
      SpotUnique(mem, node, root, v, v, pg);
      PutTables(mem, node, root, v, pg, e);
      PutForest(mem, node, root, pg, Px(0, v), e);
      forall u: nat | u < VPNS
        ensures Lookup(Put(mem, pg, Px(0, v), e), root, u)
                == if u == v then (if e.Leaf? then Some(e) else None) else Lookup(mem, root, u)
      {
        PutLookup(mem, node, root, v, pg, e, u);
      }
      mem := mem[pg := mem[pg][Px(0, v) := e]];
    }

    /** mappages(): `done` pages from v on are mapped to consecutive physical pages, and nothing
        else changes; all n of them unless memory or addresses run out or a page is mapped. */
    method Mappages(v: nat, n: nat, ppn: nat, perm: nat) returns (r: Outcome, done: nat)
      requires Valid()
      modifies this`mem, this`pool, this`node
      ensures Valid() && done <= n && (forall u: nat :: v <= u < v + done ==> old(At(u)) == None)
      ensures forall u: nat :: At(u) == if v <= u < v + done then Some(Leaf(ppn + (u - v), perm)) else old(At(u))
      ensures r == Mapped <==> done == n && n > 0
      ensures r == PanicRemap ==> done < n && old(At(v + done)) != None
      ensures r == NoMemory ==> done < n && (v + done >= VPNS || pool == [])
      ensures r == PanicSize <==> n == 0
    {
      hide Forest, Lookup, Px, Spot;
      done := 0;
      if n == 0 {
        return PanicSize, 0;
      }
      while true
        invariant done < n && Valid() && forall u: nat :: v <= u < v + done ==> old(At(u)) == None
        invariant forall u: nat :: At(u) == if v <= u < v + done then Some(Leaf(ppn + (u - v), perm)) else old(At(u))
        decreases n - done
      {
        var ok, pg := Walk(v + done, true);
        if !ok {
          return NoMemory, done;
        }
        EntryIs(mem, root, v + done, pg);
        if mem[pg][Px(0, v + done)].Leaf? {
          return PanicRemap, done;
        }
        SetEntry(v + done, pg, Leaf(ppn + done, perm));
        done := done + 1;
        if done == n {
          return Mapped, done;
        }
      }
    }

    /** uvmunmap(): no page of the range stays mapped, and the physical pages that were are given
        back in order. */
    method Unmap(v: nat, n: nat) returns (freed: seq<nat>)
      requires Valid()
      modifies this`mem, this`pool, this`node
      ensures Valid() && pool == old(pool) && forall u: nat :: At(u) == if v <= u < v + n then None else old(At(u))
      ensures freed == MappedIn(old(mem), root, v, n) && Extended(old(mem), mem, root, v, 2)
    {
      hide Forest, Lookup, Px, Spot, Top, Bottom;
      freed := [];
      var k := 0;
      while k < n
        invariant k <= n && Valid() && pool == old(pool) && freed == MappedIn(old(mem), root, v, k)
        invariant Extended(old(mem), mem, root, v, 2)
        invariant forall u: nat :: At(u) == if v <= u < v + k then None else old(At(u))
      {
        assert At(v + k) == old(At(v + k));
        var ok, pg := Walk(v + k, false);
        if ok {
          EntryIs(mem, root, v + k, pg);
          var pte := mem[pg][Px(0, v + k)];
          if pte.Leaf? {
            freed := freed + [pte.ppn];
            SetEntry(v + k, pg, Invalid);
          }
        }
        k := k + 1;
      }
    }

    /** freewalk() of the page pg: the pages below it go back to the pool, each once, unless there
        is a leaf among them. */
    method Freewalk(pg: nat, level: nat, ghost roots: set<nat>, ghost holes: set<(nat, nat)>) returns (panicked: bool)
      requires Forest(mem, node, roots, holes) && PoolOk(pool, node) && pg in roots && Cut(node, holes, pg)
      requires node[pg].level == level
      requires forall r :: r in roots && r != pg ==> r in node && node[r].level > level
      requires forall h :: h in holes ==> h.0 in node && node[h.0].level > level
      modifies this`mem, this`pool, this`node
      ensures panicked ==> HasLeaf(old(mem))
      ensures !panicked ==> Forest(mem, node, roots - {pg}, holes) && PoolOk(pool, node)
      ensures !panicked ==> Freed(old(mem), old(node), old(pool), mem, node, pool, {}) && pg !in node
      ensures !panicked ==> forall q :: q in old(node) && q != pg && old(node)[q].level >= level ==> q in node
      decreases level, 1
    {
      hide Forest, PoolOk, HasLeaf, Freed;
      var i := 0;
      ghost var mem0: Mem, node0: map<nat, Node>, pool0: seq<nat> := mem, node, pool;
      PageSize(mem, node, roots, holes, pg);
      FreedNone(mem, node, pool, {pg});
      while i < ENTRIES
        invariant 0 <= i <= ENTRIES && Forest(mem, node, roots, holes) && PoolOk(pool, node)
        invariant pg in node && pg in mem && |mem[pg]| == ENTRIES && node[pg] == node0[pg]
        invariant forall k :: 0 <= k < i ==> mem[pg][k] == Invalid && !mem0[pg][k].Leaf?
        invariant forall k :: i <= k < ENTRIES ==> mem[pg][k] == mem0[pg][k]
        invariant Freed(mem0, node0, pool0, mem, node, pool, {pg})
        invariant forall q :: q in node0 && node0[q].level >= level ==> q in node && node[q] == node0[q]
      {
        var pte := mem[pg][i];
        if pte.Ptr? {
          ghost var mem1: Mem, node1: map<nat, Node>, pool1: seq<nat> := mem, node, pool;
          panicked := FreeChild(pg, i, pte.page, level, roots, holes);
          if panicked {
            LeafEarlier(mem0, node0, pool0, mem1, node1, pool1, pg);
            return;
          }
          FreedTwice(mem0, node0, pool0, mem1, node1, pool1, mem, node, pool, {pg});
        } else if pte.Leaf? {
          LeafFound(mem0, pg, i);
          return true;
        }
        i := i + 1;
      }
      Remove(mem, node, roots, holes, pg);
      PushPool(pool, node, pg);
      FreedLast(mem0, node0, pool0, mem, node, pool, pg);
      mem := mem - {pg};
      node := node - {pg};
      pool := [pg] + pool; // kfree()
      return false;
    }

    method FreeChild(pg: nat, i: nat, ch: nat, level: nat, ghost roots: set<nat>, ghost holes: set<(nat, nat)>)
      returns (panicked: bool)
      requires Forest(mem, node, roots, holes) && PoolOk(pool, node) && pg in roots && Cut(node, holes, pg)
      requires node[pg].level == level
      requires forall r :: r in roots && r != pg ==> r in node && node[r].level > level
      requires forall h :: h in holes ==> h.0 in node && node[h.0].level > level
      requires i < ENTRIES && pg in mem && |mem[pg]| == ENTRIES && mem[pg][i] == Ptr(ch)
      modifies this`mem, this`pool, this`node
      ensures panicked ==> HasLeaf(old(mem))
      ensures !panicked ==>
              && Forest(mem, node, roots, holes) && PoolOk(pool, node)
              && Freed(old(mem), old(node), old(pool), mem, node, pool, {pg})
      ensures !panicked ==> pg in node && pg in mem && mem[pg] == old(mem)[pg][i := Invalid]
      ensures !panicked ==> forall q :: q in old(node) && old(node)[q].level >= level ==>
              q in node && node[q] == old(node)[q]
      decreases level, 0
    {
      hide Forest, PoolOk, HasLeaf;
      Detach(mem, node, roots, holes, pg, i, ch);
      HoleFree(mem, node, roots, holes, pg, i, ch);
      panicked := Freewalk(ch, level - 1, roots + {ch}, holes + {(pg, i)});
      if panicked {
        return;
      }
      assert roots + {ch} - {ch} == roots;
      Clear(mem, node, roots, holes, pg, i);
      mem := mem[pg := mem[pg][i := Invalid]];
    }

    /** The teardown of an address space: it panics exactly if some page is still mapped, and
        otherwise returns every table page to the pool exactly once. */
    method Free() returns (panicked: bool)
      requires Valid()
      modifies this`mem, this`pool, this`node
      ensures panicked <==> exists v: nat :: old(At(v)) != None
      ensures !panicked ==> node == map[] && NoRepeats(pool)
      ensures !panicked ==> forall x :: x in pool <==> x in old(pool) || x in old(mem)
    {
      hide Forest, PoolOk, HasLeaf, Lookup;
      LeafMapped(mem, node, root);
      assert forall v: nat :: At(v) != None ==> v < VPNS && Lookup(mem, root, v) != None;
      assert forall v: nat :: v < VPNS && Lookup(mem, root, v) != None ==> At(v) != None;
      panicked := Freewalk(root, 2, {root}, {});
      if !panicked {
        assert {root} - {root} == {};
        NothingLeft(mem, node);
        PoolDistinct(pool, node);
        NoLeafFreed(old(mem), old(node), old(pool), mem, node, pool);
      }
    }
  }
}
