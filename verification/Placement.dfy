/** Which block bmap() gives a growing file (kernel/fs.c): the one after the last extent if it
    is free, else the lowest free one, entered in the first empty slot or merged with the last
    extent. */
module Placement {
  import opened Extents

  /** What the choice depends on: the bitmap and the extents of the file. */
  datatype Alloc = Alloc(used: seq<bool>, es: seq<Extent>)

  /** The lowest free block from b on, or the size of the disk. */
  function Lowest(used: seq<bool>, b: nat): (r: nat)
    requires b <= |used|
    ensures b <= r <= |used| && (r < |used| ==> !used[r]) && forall c :: b <= c < r ==> used[c]
    decreases |used| - b
  {
    if b == |used| || !used[b] then b else Lowest(used, b + 1)
  }

  predicate Full(used: seq<bool>) { Lowest(used, 0) == |used| }

  lemma LowestIs(used: seq<bool>, r: nat)
    requires r <= |used| && (r < |used| ==> !used[r]) && forall c :: 0 <= c < r ==> used[c]
    ensures Lowest(used, 0) == r
  {
  }

  /** The block behind the last extent in use, which bmap() tries first. */
  predicate TailFree(a: Alloc)
    requires Shape(a.es)
  {
    var k := LastUsed(a.es);
    k < NEXTENT && a.es[k].start + a.es[k].len < |a.used| && !a.used[a.es[k].start + a.es[k].len]
  }

  function Picked(a: Alloc): nat
    requires Shape(a.es)
  {
    if TailFree(a) then var e := a.es[LastUsed(a.es)]; e.start + e.len else Lowest(a.used, 0)
  }

  lemma {:induction false} LastBlock(es: seq<Extent>)
    requires |es| <= NEXTENT
    ensures var k := LastUsed(es);
            if k >= |es| then Blocks(es) == []
            else Blocks(es) != [] && Blocks(es)[|Blocks(es)| - 1] == es[k].start + es[k].len - 1
    decreases |es|
  {
    if es != [] {
      LastBlock(es[..|es| - 1]);
    }
  }

  /** A file grows into the block behind its last one if that is free, and else into the lowest free
      block of the disk. */
  lemma StaysTogether(a: Alloc)
    requires Shape(a.es) && !Full(a.used)
    ensures Picked(a) < |a.used| && !a.used[Picked(a)]
    ensures var bs := Blocks(a.es);
            if bs != [] && bs[|bs| - 1] + 1 < |a.used| && !a.used[bs[|bs| - 1] + 1] then Picked(a) == bs[|bs| - 1] + 1
            else forall b :: 0 <= b < Picked(a) ==> a.used[b]
  {
    LastBlock(a.es);
  }

  /** There is a free block, but no empty slot for it and nothing to merge it with. */
  predicate Overflows(a: Alloc)
    requires Shape(a.es)
  {
    !Full(a.used) && a.es[NEXTENT - 1].len > 0 && !TailFree(a)
  }

  /** One more block for the file, where that is possible. */
  function Placed(a: Alloc): (r: Alloc)
    requires Shape(a.es) && !Full(a.used) && !Overflows(a)
    ensures Shape(r.es) && |r.used| == |a.used|
  {
    Alloc(a.used[Picked(a) := true], Appended(a.es, Picked(a)))
  }

  /** How many of n more blocks the file gets, and what it has then. */
  function Gets(a: Alloc, n: nat): (r: nat)
    requires Shape(a.es)
    ensures r <= n
    decreases n
  {
    if n == 0 || Full(a.used) || Overflows(a) then 0 else 1 + Gets(Placed(a), n - 1)
  }

  function After(a: Alloc, n: nat): (r: Alloc)
    requires Shape(a.es)
    ensures Shape(r.es)
    decreases n
  {
    if n == 0 || Full(a.used) || Overflows(a) then a else After(Placed(a), n - 1)
  }

  /** bmap() panics within the first n blocks. */
  predicate Breaks(a: Alloc, n: nat)
    requires Shape(a.es)
  {
    Gets(a, n) < n && Overflows(After(a, n))
  }

  lemma PlacedBlocks(a: Alloc)
    requires Shape(a.es) && !Full(a.used) && !Overflows(a)
    ensures Blocks(Placed(a).es) == Blocks(a.es) + [Picked(a)]
  {
    AppendedBlocks(a.es, Picked(a));
  }

  /** A file has as many blocks more as it got. */
  lemma {:induction false} AfterBlocks(a: Alloc, n: nat)
    requires Shape(a.es)
    ensures |Blocks(After(a, n).es)| == |Blocks(a.es)| + Gets(a, n)
    decreases n
  {
    hide Blocks, Full, Overflows, Placed;
    if n > 0 && !Full(a.used) && !Overflows(a) {
      PlacedBlocks(a);
      AfterBlocks(Placed(a), n - 1);
    }
  }

  /** Short of n blocks for exactly one of two reasons. */
  lemma {:induction false} WhyShort(a: Alloc, n: nat)
    requires Shape(a.es)
    ensures Gets(a, n) < n ==> Full(After(a, n).used) || Overflows(After(a, n))
    decreases n
  {
    if n > 0 && !Full(a.used) && !Overflows(a) {
      WhyShort(Placed(a), n - 1);
    }
  }

  /** Growing in two goes. */
  lemma {:induction false} GetsMore(a: Alloc, k: nat, n: nat)
    requires Shape(a.es) && Gets(a, k) == k
    ensures Gets(a, k + n) == k + Gets(After(a, k), n) && After(a, k + n) == After(After(a, k), n)
    decreases k
  {
    if k > 0 {
      GetsMore(Placed(a), k - 1, n);
    }
  }

  /** A file that cannot grow stays as it is. */
  lemma GetsNone(a: Alloc, n: nat)
    requires Shape(a.es) && (Full(a.used) || Overflows(a))
    ensures Gets(a, n) == 0 && After(a, n) == a
  {
  }

  lemma GetsOne(a: Alloc)
    requires Shape(a.es) && !Full(a.used) && !Overflows(a)
    ensures Gets(a, 1) == 1 && After(a, 1) == Placed(a)
  {
    assert Gets(Placed(a), 0) == 0;
  }

  /** After k of the wanted blocks: the file is stuck with those, or gets another. */
  lemma GrowStep(a: Alloc, k: nat, n: nat)
    requires Shape(a.es) && Gets(a, k) == k < n
    ensures Full(After(a, k).used) || Overflows(After(a, k)) ==> Gets(a, n) == k && After(a, n) == After(a, k)
    ensures Overflows(After(a, k)) ==> Breaks(a, n)
    ensures Full(After(a, k).used) ==> !Breaks(a, n)
    ensures !Full(After(a, k).used) && !Overflows(After(a, k)) ==>
            Gets(a, k + 1) == k + 1 && After(a, k + 1) == Placed(After(a, k)) && !Breaks(a, k + 1)
  {
    var c := After(a, k);
    GetsMore(a, k, n - k);
    GetsMore(a, k, 1);
    if Full(c.used) || Overflows(c) {
      GetsNone(c, n - k);
    } else {
      GetsOne(c);
    }
  }

  // ---------------------------------------------------------------- a disk filled from the start

  /** A bitmap of n blocks with exactly the first m in use. */
  function Prefix(n: nat, m: nat): (r: seq<bool>)
    ensures |r| == n && forall b :: 0 <= b < n ==> (r[b] <==> b < m)
  {
    seq(n, b => b < m)
  }

  /** j extents of one block each, at start, start + 1, ... */
  function Singles(start: nat, j: nat): (r: seq<Extent>)
    requires j <= NEXTENT
    ensures Shape(r) && forall k :: 0 <= k < NEXTENT ==> r[k] == if k < j then Extent(start + k, 1) else Extent(0, 0)
  {
    seq(NEXTENT, k requires 0 <= k < NEXTENT => if k < j then Extent(start + k, 1) else Extent(0, 0))
  }

  lemma PrefixLowest(n: nat, m: nat)
    requires m <= n
    ensures Lowest(Prefix(n, m), 0) == m
  {
    LowestIs(Prefix(n, m), m);
  }

  /** The first blocks of a file on a fresh disk: one extent each, although they are adjacent. */
  lemma SinglesNext(n: nat, start: nat, j: nat)
    requires j < NEXTENT && start + j < n
    ensures var a := Alloc(Prefix(n, start + j), Singles(start, j));
            !Full(a.used) && !Overflows(a) && Placed(a) == Alloc(Prefix(n, start + j + 1), Singles(start, j + 1))
  {
    var a := Alloc(Prefix(n, start + j), Singles(start, j));
    PrefixLowest(n, start + j);
    assert j > 0 ==> a.es[j - 1].len > 0;
    assert a.used[start + j := true] == Prefix(n, start + j + 1);
    assert Appended(a.es, start + j) == Singles(start, j + 1);
  }

  lemma {:induction false} SinglesAfter(n: nat, start: nat, j: nat, more: nat)
    requires j + more <= NEXTENT && start + j + more <= n
    ensures var a := Alloc(Prefix(n, start + j), Singles(start, j));
            Gets(a, more) == more && After(a, more) == Alloc(Prefix(n, start + j + more), Singles(start, j + more))
    decreases more
  {
    hide Full, Overflows, Placed, Prefix, Singles;
    if more > 0 {
      SinglesNext(n, start, j);
      SinglesAfter(n, start, j + 1, more - 1);
    }
  }

  /** With all slots taken and the next block another file's, one more block overflows exactly if
      one is free. */
  lemma SinglesEnd(n: nat, start: nat)
    requires start + NEXTENT < n
    ensures var a := Alloc(Prefix(n, start + NEXTENT + 1), Singles(start, NEXTENT));
            (Overflows(a) <==> start + NEXTENT + 1 < n) && (Breaks(a, 1) <==> start + NEXTENT + 1 < n)
  {
    var a := Alloc(Prefix(n, start + NEXTENT + 1), Singles(start, NEXTENT));
    PrefixLowest(n, start + NEXTENT + 1);
    assert LastUsed(a.es) == NEXTENT - 1;
    GetsNone(a, 1);
  }
}
